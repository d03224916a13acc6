# A verified model of the adbkit persistence core

adbkit is a small Android persistence library: entity classes carry annotations
(`@DbTableAnnotation`, `@DbColumnAnnotation`); `Mapper` turns a class into an
ordinal-sorted list of `DbColumn`s and an entity into `ContentValues`; command
classes compile DDL (`CREATE TABLE`, `CREATE INDEX`, `DROP TABLE`, `DROP INDEX`) and
DML (`INSERT`, `UPDATE`, `DELETE`) from that column model; three fluent builders
(`UpdateSql`, `DeleteSql`, `Select`) accumulate WHERE clauses and bound
arguments; `SelectQuery` holds a compiled query and chooses its row mapper;
`Migrations.apply` walks the schema version through registered one-version steps;
two converters (`DateMillisConverter`, `EventTypeConverter`) translate field
values to and from their stored form.

This Dafny project models that core and proves what it promises.

- Reflection becomes a value, `Schema.ClassDesc`: the table annotation, the simple
  name, and the declared fields level by level (the class first, then its
  superclasses). An entity is a `ClassDesc` plus a map from field name to a tagged
  `FieldValue`; a field missing from the map reads as Java `null`.
- Exceptions become `Result`/`Outcome` values whose `Values.Error` names the Java
  exception class (`IllegalArgument`, `IllegalState`, `NullPointer`,
  `NumberFormat`, `ClassCast`, `Wrapped` for `new RuntimeException(e)`, and the two
  migration failures).
- Pure code (SqlNames, the converters, DropTable/DropIndex, InsertCommand,
  SelectQuery, the WHERE joins) is written as functions and lemmas.
- Code that works step by step keeps its loops as methods proved equal to a
  specification function: the column scan, the in-place insertion sort over an
  `array`, the `ContentValues` fill, the PK collection, the `CREATE TABLE` and
  `CREATE INDEX` builders, the argument arrays of Update/Delete, and the migration
  walk.
- The three fluent builders are classes whose `seq`/`map` fields their methods
  reassign. Each keeps an invariant: the WHERE clauses hold one `?` per bound
  argument, apart from `?` characters that arrive inside caller-supplied column
  names, which a ghost counter records.

Module per source file: `Mapper` (Mapper.java), `SqlNames`, `CreateTableCommand`,
`CreateIndexCommand`, `DropTableCommand`, `DropIndexCommand`, `InsertCommand`,
`UpdateCommand`, `DeleteCommand`, `UpdateSqlBuilder` (UpdateSql.java),
`DeleteSqlBuilder` (DeleteSql.java), `SelectBuilder` (Select.java),
`SelectQueries` (SelectQuery.java), `Migrations`, `Converters` (the two entity
converters). Supporting modules: `Wrappers` (Option/Result/Outcome and `Collect`),
`JavaText` (Java's `trim`, `String.join`, `indexOf`, `equalsIgnoreCase`, integer
printing and parsing), `Values` (field values, stored values, errors,
`String.valueOf`), `Schema` (class descriptions and field lookup), `KeyArgs` (the
primary-key argument conversion shared by UpdateCommand and DeleteCommand).

## Model

| member | source | states |
|---|---|---|
| Mapper.GetTableName | app/src/main/java/lib/persistence/profile/Mapper.java:31-37 | succeeds exactly when the table annotation is present and not blank, and then returns the trimmed annotation name; otherwise IllegalStateException |
| Mapper.ToDbDataType | app/src/main/java/lib/persistence/profile/Mapper.java:74-88 | INTEGER exactly for int/long/boolean, REAL exactly for float/double, BLOB exactly for byte[], never NUMERIC, TEXT for everything else |
| Mapper.ScanColumns | app/src/main/java/lib/persistence/profile/Mapper.java:48-72 | the while/for walk up the hierarchy yields the specification list `Scanned` of the levels |
| Mapper.LevelColumnsFromFields | app/src/main/java/lib/persistence/profile/Mapper.java:53-68 | within one class level, the columns are exactly those of the annotated fields |
| Mapper.ScannedFromAnnotatedFields | app/src/main/java/lib/persistence/profile/Mapper.java:48-72 | every scanned column comes from an annotated field of some level, superclasses included, and every annotated field gives a column |
| Mapper.InsertKeepsSorted | app/src/main/java/lib/persistence/profile/Mapper.java:44 | inserting one column after every column of lower or equal ordinal keeps a list sorted by ordinal |
| Mapper.InsertPermutes | app/src/main/java/lib/persistence/profile/Mapper.java:44 | that insertion adds exactly the one column (multiset) |
| Mapper.OrdinalSortSorted | app/src/main/java/lib/persistence/profile/Mapper.java:44 | the ordinal sort returns a list sorted ascending by ordinal |
| Mapper.OrdinalSortPermutes | app/src/main/java/lib/persistence/profile/Mapper.java:44 | the ordinal sort is a permutation of its input |
| Mapper.OrdinalSortStable | app/src/main/java/lib/persistence/profile/Mapper.java:44 | the sort is stable: the columns sharing an ordinal keep their scan order (subclass before superclass) |
| Mapper.InsertIntoPrefix | app/src/main/java/lib/persistence/profile/Mapper.java:44 | one insertion-sort step on the array places a[i] into the sorted prefix exactly as the specification insertion does and leaves the rest of the array alone |
| Mapper.SortColumnsByOrdinal | app/src/main/java/lib/persistence/profile/Mapper.java:44 | sorting the array in place leaves the ordinal sort of its old contents |
| Mapper.ClassToDbColumns | app/src/main/java/lib/persistence/profile/Mapper.java:40-46 | copies the scan into a fresh array, sorts the copy, and returns the value `Columns(cls)`; later calls see the same value whatever the caller does with the result |
| Mapper.ColumnsOrder | app/src/main/java/lib/persistence/profile/Mapper.java:40-46 | the columns of a class are sorted by ordinal, a permutation of the scan, and stable on ties |
| Mapper.Store | app/src/main/java/lib/persistence/profile/Mapper.java:209-254 | the stored value fits the column type; null is explicit NULL and only null is; INTEGER takes booleans as 1/0 and integral numbers as themselves; INTEGER and REAL never fail on a Number (primitive box, BigDecimal, BigInteger, atomic counter); inside the long range an INTEGER column stores a non-integral Number within one of it, and REAL stores a non-integral Number's value; BLOB takes only byte[] and rejects everything else with IllegalArgumentException; TEXT and NUMERIC always succeed and store enums by name; the only other failure is NumberFormatException for INTEGER/REAL |
| Values.TruncateToLong | app/src/main/java/lib/persistence/profile/Mapper.java:222 | `longValue` of a double lands in the 64-bit range, differs from the number by less than one inside it, and saturates at either end outside it |
| Values.TowardZero | app/src/main/java/lib/persistence/profile/Mapper.java:222 | the integer part: within one of the number, on the same side of zero, never further from zero |
| Values.WrapToLong | app/src/main/java/lib/persistence/profile/Mapper.java:222 | `longValue` of a BigDecimal or BigInteger lands in the 64-bit range, agrees with the integer part modulo 2^64, and equals it inside the range |
| Mapper.NumbersStoreLongValue | app/src/main/java/lib/persistence/profile/Mapper.java:220-222 | an INTEGER column stores a BigDecimal 3.5 as 3 and -3.5 as -3; one past the long range wraps to the minimum, where a double saturates at the maximum |
| Mapper.PutInContentValues | app/src/main/java/lib/persistence/profile/Mapper.java:209-254 | fails exactly when the conversion fails; otherwise adds the column's key with the converted value and keeps every other key and value |
| Mapper.ObjectToContentValues | app/src/main/java/lib/persistence/profile/Mapper.java:91-113 | a null entity is rejected with IllegalArgumentException; otherwise the loop over the columns yields the specification map `ContentValuesOf` |
| Mapper.FillErrSticks | app/src/main/java/lib/persistence/profile/Mapper.java:96-111 | a failed conversion on a column ends the fill with that failure |
| Mapper.FillKeys | app/src/main/java/lib/persistence/profile/Mapper.java:96-111 | the filled map's keys are exactly the names of the non-identity columns |
| Mapper.FillFails | app/src/main/java/lib/persistence/profile/Mapper.java:96-111 | the fill fails exactly when some non-identity column's value cannot be converted |
| Mapper.FillValues | app/src/main/java/lib/persistence/profile/Mapper.java:96-111 | the value under a non-identity column (the last writer of its name) is that column's converted field value |
| Mapper.IdentityColumnNotWritten | app/src/main/java/lib/persistence/profile/Mapper.java:98 | an identity column never gets a key in the content values |
| Mapper.FindColumn | app/src/main/java/lib/persistence/profile/Mapper.java:200-204 | finds nothing exactly when no column matches the name case-insensitively by column or field name; otherwise returns the first match |
| Mapper.FindColumnFirst | app/src/main/java/lib/persistence/profile/Mapper.java:200-204 | the first matching column in order is the one returned |
| Mapper.GetColumnByName | app/src/main/java/lib/persistence/profile/Mapper.java:196-206 | the search loop yields the specification lookup `ColumnByName` |
| Mapper.ColumnByNameMeaning | app/src/main/java/lib/persistence/profile/Mapper.java:196-206 | a blank name fails with IllegalArgumentException; success exactly when some column matches the trimmed name; the result is the first match in ordinal order; every failure is IllegalArgumentException |
| Mapper.PutByName | app/src/main/java/lib/persistence/profile/Mapper.java:257-260 | resolves the column by name (passing on its failure) and then puts the value as the 3-argument form does |
| Mapper.GetPrimaryKeyColumns | app/src/main/java/lib/persistence/profile/Mapper.java:274-278 | the filtering loop yields the specification list `PrimaryKeys(Columns(cls))` |
| Mapper.PrimaryKeysMembers | app/src/main/java/lib/persistence/profile/Mapper.java:274-278 | the list holds exactly the PK columns, and is empty exactly when there is no PK column |
| Mapper.PrimaryKeysSorted | app/src/main/java/lib/persistence/profile/Mapper.java:274-278 | filtering a sorted list keeps it sorted |
| Mapper.PrimaryKeysOfClass | app/src/main/java/lib/persistence/profile/Mapper.java:274-278 | a class's PK columns are in ordinal order and are exactly its columns marked primary key |
| SqlNames.QId | app/src/main/java/lib/persistence/SqlNames.java:5-9 | trims; text holding `(`, a space, a backtick or a double quote comes back trimmed and unchanged; anything else comes back as the trimmed text with one backtick on each side |
| SqlNames.QIdIgnoresBlanks | app/src/main/java/lib/persistence/SqlNames.java:6 | surrounding whitespace never matters: quoting a text and quoting its trimmed form agree |
| SqlNames.QIdIdempotent | app/src/main/java/lib/persistence/SqlNames.java:5-9 | quoting twice is quoting once |
| SqlNames.BackquotedIsFixpoint | app/src/main/java/lib/persistence/SqlNames.java:7 | an already backquoted name is returned unchanged |
| SqlNames.QIdOfPlainName | app/src/main/java/lib/persistence/SqlNames.java:5-9 | a trimmed plain name is wrapped in backticks |
| SqlNames.QColOfStar | app/src/main/java/lib/persistence/SqlNames.java:12 | `*`, after trimming, stays `*` |
| SqlNames.QCol | app/src/main/java/lib/persistence/SqlNames.java:10-15 | the trimmed text `*` stays `*`; a trimmed text with no dot, or whose first dot is its first or last character, goes through qId whole |
| SqlNames.QColCutsAtFirstDot | app/src/main/java/lib/persistence/SqlNames.java:13-14 | a trimmed text whose first dot is strictly inside it is cut at that dot, and each side goes through qId around a dot |
| SqlNames.FirstDotIsIndexOf | app/src/main/java/lib/persistence/SqlNames.java:13 | `indexOf('.')` finds the first dot wherever it lies |
| SqlNames.QColOfPlainName | app/src/main/java/lib/persistence/SqlNames.java:10-15 | a plain column name is wrapped in backticks |
| SqlNames.QColSplitsDottedName | app/src/main/java/lib/persistence/SqlNames.java:10-15 | for plain table and column names, `table.column` is quoted as the table's qId, a dot, and the column's qId |
| SqlNames.QColOfDottedName | app/src/main/java/lib/persistence/SqlNames.java:10-15 | `table.column` becomes the two backquoted parts joined by a dot |
| SqlNames.QIdChars | app/src/main/java/lib/persistence/SqlNames.java:5-9 | quoting adds no character except backticks |
| SqlNames.QColChars | app/src/main/java/lib/persistence/SqlNames.java:10-15 | the same for column quoting |
| SqlNames.MatchesIdentifierPattern | app/src/main/java/lib/persistence/SqlNames.java:21 | the character-by-character match of `[A-Za-z_][A-Za-z0-9_]*` accepts exactly the safe identifiers |
| SqlNames.SafeId | app/src/main/java/lib/persistence/SqlNames.java:19-24 | succeeds exactly when the trimmed text is a safe identifier and then returns the trimmed text; otherwise IllegalArgumentException |
| SqlNames.SafeIdIdempotent | app/src/main/java/lib/persistence/SqlNames.java:19-24 | applying safeId to an accepted result gives the same result |
| SqlNames.SafeIdentifierIsQuoted | app/src/main/java/lib/persistence/SqlNames.java:5-9 | qId wraps every safe identifier in backticks |
| CreateTableCommand.ToSqlType | app/src/main/java/lib/persistence/command/definition/CreateTableCommand.java:82-94 | INTEGER, REAL and BLOB exactly for those types; TEXT exactly for TEXT and NUMERIC (the default branch) |
| CreateTableCommand.ColumnSqlType | app/src/main/java/lib/persistence/command/definition/CreateTableCommand.java:76-80 | never empty; a non-empty converter type wins, otherwise the mapped type |
| CreateTableCommand.MappedColumnSqlType | app/src/main/java/lib/persistence/profile/Mapper.java:59-67 | the scan never sets a converter type, so every mapped column gets the type of its data type |
| CreateTableCommand.PkPositions | app/src/main/java/lib/persistence/command/definition/CreateTableCommand.java:32-33 | every collected position holds a PK column |
| CreateTableCommand.PkPositionsMeaning | app/src/main/java/lib/persistence/command/definition/CreateTableCommand.java:32-33 | every PK column is collected, in increasing positions, and the collected columns are exactly `getPrimaryKeyColumns` |
| CreateTableCommand.CollectPks | app/src/main/java/lib/persistence/command/definition/CreateTableCommand.java:32-33 | the loop collects the specification positions |
| CreateTableCommand.DefineColumn | app/src/main/java/lib/persistence/command/definition/CreateTableCommand.java:41-53 | the StringBuilder steps produce the specification definition of one column |
| CreateTableCommand.DefineColumns | app/src/main/java/lib/persistence/command/definition/CreateTableCommand.java:40-55 | the loop produces one definition per column in column order |
| CreateTableCommand.PkClauseOf | app/src/main/java/lib/persistence/command/definition/CreateTableCommand.java:58-62 | the composite-key branch produces the specification PK clause |
| CreateTableCommand.KeepConstraints | app/src/main/java/lib/persistence/command/definition/CreateTableCommand.java:65-69 | the constraint loop produces the specification list of kept constraints |
| CreateTableCommand.Build | app/src/main/java/lib/persistence/command/definition/CreateTableCommand.java:24-73 | the builder returns the specification statement or exception `CreateTableSql` |
| CreateTableCommand.CreateTableFailures | app/src/main/java/lib/persistence/command/definition/CreateTableCommand.java:25-29 | a null type fails with IllegalArgumentException; otherwise failure exactly when the table name is missing or blank or there are no columns, always IllegalStateException |
| CreateTableCommand.CreateTableText | app/src/main/java/lib/persistence/command/definition/CreateTableCommand.java:71 | a successful statement is `CREATE TABLE IF NOT EXISTS`, the quoted trimmed table name, and the definitions joined by `, ` in parentheses, ending `);` |
| CreateTableCommand.DefinitionsOpenWithHeads | app/src/main/java/lib/persistence/command/definition/CreateTableCommand.java:43 | one definition per column, each opening with the quoted column name, a space and the SQL type |
| CreateTableCommand.DefinitionsLayout | app/src/main/java/lib/persistence/command/definition/CreateTableCommand.java:40-69 | the definitions are the column definitions in order, then the PK clause, then the kept constraints |
| CreateTableCommand.SolePkPosition | app/src/main/java/lib/persistence/command/definition/CreateTableCommand.java:32-33 | with exactly one PK column, its position is the only one collected |
| CreateTableCommand.NoPkPositions | app/src/main/java/lib/persistence/command/definition/CreateTableCommand.java:32-33 | without PK columns nothing is collected |
| CreateTableCommand.SolePrimaryKey | app/src/main/java/lib/persistence/command/definition/CreateTableCommand.java:36-53 | a sole PK gets an inline PRIMARY KEY, AUTOINCREMENT exactly when it is an INTEGER identity, and no NOT NULL; every other column gets NOT NULL exactly when it is not nullable; no table-level clause |
| CreateTableCommand.TwoPksTwoPositions | app/src/main/java/lib/persistence/command/definition/CreateTableCommand.java:58 | two PK columns make the key composite |
| CreateTableCommand.PkClauseNames | app/src/main/java/lib/persistence/command/definition/CreateTableCommand.java:58-62 | a composite key gives one clause `PRIMARY KEY (...)` listing the quoted PK names in ordinal order |
| CreateTableCommand.CompositePrimaryKey | app/src/main/java/lib/persistence/command/definition/CreateTableCommand.java:46-62 | with two or more PKs no column gets an inline PRIMARY KEY, every column gets NOT NULL exactly when it is not nullable, and the table-level clause lists the PKs |
| CreateTableCommand.NoPrimaryKey | app/src/main/java/lib/persistence/command/definition/CreateTableCommand.java:46-62 | without a PK every column gets NOT NULL exactly when it is not nullable, and there is no PK clause |
| CreateTableCommand.ConstraintDefsMeaning | app/src/main/java/lib/persistence/command/definition/CreateTableCommand.java:65-69 | kept constraints are non-empty and trimmed, and keeping distributes over concatenation, so the given order is kept |
| CreateTableCommand.ConstraintDefOfOne | app/src/main/java/lib/persistence/command/definition/CreateTableCommand.java:67 | a null or blank constraint is dropped; any other is kept trimmed |
| CreateIndexCommand.Build | app/src/main/java/lib/persistence/command/definition/CreateIndexCommand.java:16-36 | a null type fails with NullPointerException; otherwise the StringBuilder loop, with a separator after every column but the last, produces the specification statement `CreateIndexSql` |
| CreateIndexCommand.UniqueIffRequested | app/src/main/java/lib/persistence/command/definition/CreateIndexCommand.java:20-23 | the statement starts `CREATE UNIQUE ` exactly when a unique index was requested |
| CreateIndexCommand.ColumnSeparators | app/src/main/java/lib/persistence/command/definition/CreateIndexCommand.java:27-32 | the statement holds exactly one separator comma per gap between columns, besides the commas in the given names, so there is none after the last |
| CreateIndexCommand.LastColumnCloses | app/src/main/java/lib/persistence/command/definition/CreateIndexCommand.java:27-33 | the last column is followed directly by `);` |
| CreateIndexCommand.NoColumns | app/src/main/java/lib/persistence/command/definition/CreateIndexCommand.java:27-33 | with no columns the statement ends in an empty list, `()` after the table name |
| DropTableCommand.BuildFromName | app/src/main/java/lib/persistence/command/definition/DropTableCommand.java:21-33 | succeeds exactly when the name is present and its trimmed form is a safe identifier, giving `DROP TABLE IF EXISTS <trimmed>;`; every failure is IllegalArgumentException |
| DropTableCommand.BuildFromClass | app/src/main/java/lib/persistence/command/definition/DropTableCommand.java:13-19 | a null type fails with NullPointerException; otherwise the same as build(String) on the non-empty annotation name, else the simple class name |
| DropTableCommand.BuildIgnoresBlanks | app/src/main/java/lib/persistence/command/definition/DropTableCommand.java:21-33 | surrounding whitespace changes neither the verdict nor the statement |
| DropTableCommand.DroppedNameIsSafe | app/src/main/java/lib/persistence/command/definition/DropTableCommand.java:21-33 | an accepted name is not blank and passes the shared safeId unchanged after trimming |
| DropIndexCommand.Build | app/src/main/java/lib/persistence/command/definition/DropIndexCommand.java:13-18 | fails with IllegalArgumentException exactly when the name is null or blank |
| DropIndexCommand.PlainIndexNameIsQuoted | app/src/main/java/lib/persistence/command/definition/DropIndexCommand.java:13-18 | a plain name is trimmed and backquoted inside `DROP INDEX IF EXISTS ...;` |
| DropIndexCommand.VerbatimIndexNamePassesThrough | app/src/main/java/lib/persistence/command/definition/DropIndexCommand.java:16 | a name holding a space, `(`, a backtick or a double quote passes through trimmed, unquoted and unvalidated |
| DropIndexCommand.RequotingIsHarmless | app/src/main/java/lib/persistence/command/definition/DropIndexCommand.java:13-18 | passing an already quoted name gives the same statement |
| InsertCommand.Build | app/src/main/java/lib/persistence/command/manipulation/InsertCommand.java:19-24 | a null entity fails (NullPointerException); the table-name failure comes first; success exactly when the table name and the content values both succeed, with the values of `objectToContentValues` |
| InsertCommand.InsertTable | app/src/main/java/lib/persistence/command/manipulation/InsertCommand.java:21 | a missing or blank table annotation fails with IllegalStateException; the table is the trimmed annotation, unquoted |
| InsertCommand.InsertKeys | app/src/main/java/lib/persistence/command/manipulation/InsertCommand.java:22 | the keys are exactly the non-identity column names |
| InsertCommand.InsertNullIsExplicit | app/src/main/java/lib/persistence/command/manipulation/InsertCommand.java:22 | a null field of a non-identity column is written as explicit NULL |
| UpdateCommand.RemoveKeys | app/src/main/java/lib/persistence/command/manipulation/UpdateCommand.java:65-67 | removing the PK columns one by one leaves the map minus the PK names |
| UpdateCommand.Build | app/src/main/java/lib/persistence/command/manipulation/UpdateCommand.java:53-95 | the builder yields the specification command `UpdateOf` |
| UpdateCommand.UpdateOfParts | app/src/main/java/lib/persistence/command/manipulation/UpdateCommand.java:53-95 | a successful command has the raw table name, the content values without the PK keys, the PK WHERE clause and the collected PK arguments |
| UpdateCommand.UpdateNeedsKey | app/src/main/java/lib/persistence/command/manipulation/UpdateCommand.java:58-60 | a type without PK columns fails with IllegalStateException |
| UpdateCommand.UpdateSetValues | app/src/main/java/lib/persistence/command/manipulation/UpdateCommand.java:63-67 | the SET keys are the non-identity column names minus the PK names, so no PK column is set; the table is the trimmed annotation, unquoted |
| UpdateCommand.UpdateArgs | app/src/main/java/lib/persistence/command/manipulation/UpdateCommand.java:73-91 | one argument per PK in ordinal order, each the PK's converted value; a null PK value gives a null argument, not an error |
| UpdateCommand.KeyWherePlaceholders | app/src/main/java/lib/persistence/command/manipulation/UpdateCommand.java:70-72 | the WHERE clause holds one `?` per PK column |
| UpdateCommand.UpdatePlaceholders | app/src/main/java/lib/persistence/command/manipulation/UpdateCommand.java:70-91 | the number of `?` in the WHERE clause equals the number of arguments |
| KeyArgs.ConvertedArg | app/src/main/java/lib/persistence/command/manipulation/UpdateCommand.java:82-90 | without a converter the argument is `String.valueOf(v)`; with one, null stays null and otherwise it is the text of the converter's database value (a date's milliseconds, an enum's name); it fails exactly when a converter rejects the value's class, wrapped in RuntimeException |
| KeyArgs.FillArgs | app/src/main/java/lib/persistence/command/manipulation/DeleteCommand.java:62-80 | the indexed loop that fills the argument array stops at the first failing argument, as `Collect` does |
| DeleteCommand.EntityKeyArg | app/src/main/java/lib/persistence/command/manipulation/DeleteCommand.java:64-78 | a null PK value fails with an IllegalStateException wrapped in RuntimeException |
| DeleteCommand.BuildFromEntity | app/src/main/java/lib/persistence/command/manipulation/DeleteCommand.java:37-82 | the builder yields the specification command `DeleteOfEntity` |
| DeleteCommand.DeleteOfEntityParts | app/src/main/java/lib/persistence/command/manipulation/DeleteCommand.java:37-82 | a successful command has the quoted table name, the PK WHERE clause and the collected arguments |
| DeleteCommand.DeleteNeedsKey | app/src/main/java/lib/persistence/command/manipulation/DeleteCommand.java:43 | a type without PK columns fails with IllegalStateException |
| DeleteCommand.DeleteNullKeyFails | app/src/main/java/lib/persistence/command/manipulation/DeleteCommand.java:68 | any null PK value makes the build fail |
| DeleteCommand.DeleteEntityArgs | app/src/main/java/lib/persistence/command/manipulation/DeleteCommand.java:62-80 | one argument per PK in ordinal order, each from a non-null value through its converter |
| DeleteCommand.DeleteEntityPlaceholders | app/src/main/java/lib/persistence/command/manipulation/DeleteCommand.java:45-49 | the number of `?` in the WHERE clause equals the number of arguments |
| DeleteCommand.KeyWherePlaceholders | app/src/main/java/lib/persistence/command/manipulation/DeleteCommand.java:45-47 | the `qCol(pk) = ?` tests joined by AND hold one `?` per PK column |
| DeleteCommand.GivenKeyArg | app/src/main/java/lib/persistence/command/manipulation/DeleteCommand.java:112-115 | a null value fails with IllegalArgumentException; any other becomes `String.valueOf(v)`, with no conversion |
| DeleteCommand.BuildFromKeys | app/src/main/java/lib/persistence/command/manipulation/DeleteCommand.java:88-119 | the builder yields the specification command `DeleteByKeys` |
| DeleteCommand.DeleteKeyCount | app/src/main/java/lib/persistence/command/manipulation/DeleteCommand.java:95-98 | a null value array, or one whose length differs from the PK count, fails with IllegalArgumentException |
| DeleteCommand.GivenKeyArgsMeaning | app/src/main/java/lib/persistence/command/manipulation/DeleteCommand.java:111-116 | the arguments succeed exactly when no value is null, and are then the values' texts position by position |
| DeleteCommand.DeleteByKeysParts | app/src/main/java/lib/persistence/command/manipulation/DeleteCommand.java:88-119 | the command is the quoted table, the PK WHERE clause and the positional arguments, or the first argument failure |
| DeleteCommand.DeleteGivenKeys | app/src/main/java/lib/persistence/command/manipulation/DeleteCommand.java:111-118 | with the right number of values, success exactly when none is null, and the arguments are their texts in order |
| DeleteCommand.BuildAll | app/src/main/java/lib/persistence/command/manipulation/DeleteCommand.java:122-126 | a null type fails with IllegalArgumentException; success exactly when the table name does, with the quoted table, a null WHERE clause and null arguments |
| UpdateSqlBuilder.ConnectedMarks | app/src/main/java/lib/persistence/command/manipulation/UpdateSql.java:49-50 | a clause with or without its connector holds one placeholder besides the `?` in the column name |
| UpdateSqlBuilder.BacktickIsNoConnector | app/src/main/java/lib/persistence/command/manipulation/UpdateSql.java:66 | a clause that opens with a backtick starts with neither `AND ` nor `OR `, so the strip branch of getWhereClause never fires |
| UpdateSqlBuilder.SetWritesNamedColumn | app/src/main/java/lib/persistence/command/manipulation/UpdateSql.java:32-39 | a successful set writes under the resolved column's name (a column of the type that matches the trimmed name) the converted value, and keeps every other key |
| UpdateSqlBuilder.SetRejectsUnknownColumn | app/src/main/java/lib/persistence/command/manipulation/UpdateSql.java:33-36 | a blank or unknown column fails with IllegalArgumentException |
| UpdateSqlBuilder.EqualsKeepsWhereState | app/src/main/java/lib/persistence/command/manipulation/UpdateSql.java:46-55 | one Equals keeps the builder invariant: the first clause opens with a backtick and the placeholders match the arguments |
| Schema.AnnotatedOrSimpleName | app/src/main/java/lib/persistence/command/manipulation/UpdateSql.java:23 | the annotation name when it is present and non-empty, otherwise the class's simple name; DeleteSql.java line 17 and Select.java line 32 repeat the rule |
| UpdateSqlBuilder.UpdateSql.constructor | app/src/main/java/lib/persistence/command/manipulation/UpdateSql.java:20-24 | the table is the non-empty annotation name, else the simple name; empty values, clauses and arguments; connector AND |
| UpdateSqlBuilder.Build | app/src/main/java/lib/persistence/command/manipulation/UpdateSql.java:26-29 | a null type fails with IllegalArgumentException; otherwise a fresh builder in the initial state |
| UpdateSqlBuilder.UpdateSql.Set | app/src/main/java/lib/persistence/command/manipulation/UpdateSql.java:32-39 | succeeds exactly when the specification `SetValue` does and then holds its content values; on failure the values are unchanged |
| UpdateSqlBuilder.UpdateSql.Where | app/src/main/java/lib/persistence/command/manipulation/UpdateSql.java:41 | returns the builder itself and changes nothing |
| UpdateSqlBuilder.UpdateSql.And | app/src/main/java/lib/persistence/command/manipulation/UpdateSql.java:42 | the pending connector becomes AND |
| UpdateSqlBuilder.UpdateSql.Or | app/src/main/java/lib/persistence/command/manipulation/UpdateSql.java:43 | the pending connector becomes OR |
| UpdateSqlBuilder.UpdateSql.Equals | app/src/main/java/lib/persistence/command/manipulation/UpdateSql.java:46-55 | a blank column fails with IllegalArgumentException and changes nothing; otherwise appends the backquoted trimmed-column test, led by the pending connector unless it is the first, appends `String.valueOf(value)`, and resets the connector to AND |
| UpdateSqlBuilder.UpdateSql.GetWhereClause | app/src/main/java/lib/persistence/command/manipulation/UpdateSql.java:61-71 | null without clauses, else the clauses joined by single spaces; without `?` in column names the placeholders match the arguments |
| DeleteSqlBuilder.EqualsKeepsBalance | app/src/main/java/lib/persistence/command/manipulation/DeleteSql.java:38-42 | one Equals adds one placeholder and one argument |
| DeleteSqlBuilder.DeleteSql.constructor | app/src/main/java/lib/persistence/command/manipulation/DeleteSql.java:14-20 | the table is the non-empty annotation name, else the simple name; no clauses or arguments |
| DeleteSqlBuilder.Build | app/src/main/java/lib/persistence/command/manipulation/DeleteSql.java:22-24 | a null type fails (NullPointerException); otherwise a fresh builder |
| DeleteSqlBuilder.DeleteSql.Where | app/src/main/java/lib/persistence/command/manipulation/DeleteSql.java:26-28 | returns the builder itself and changes nothing |
| DeleteSqlBuilder.DeleteSql.And | app/src/main/java/lib/persistence/command/manipulation/DeleteSql.java:30-32 | returns the builder itself and changes nothing |
| DeleteSqlBuilder.DeleteSql.Or | app/src/main/java/lib/persistence/command/manipulation/DeleteSql.java:34-36 | returns the builder itself and changes nothing, so the next test is still joined with AND |
| DeleteSqlBuilder.OrStillJoinsWithAnd | app/src/main/java/lib/persistence/command/manipulation/DeleteSql.java:26-51 | `where().Equals(a, x).or().Equals(b, y)` gives `a = ? AND b = ?` with the arguments x then y |
| DeleteSqlBuilder.DeleteSql.Equals | app/src/main/java/lib/persistence/command/manipulation/DeleteSql.java:38-42 | appends `column = ?` with the column verbatim and the value's text, keeping the balance |
| DeleteSqlBuilder.DeleteSql.WhereClause | app/src/main/java/lib/persistence/command/manipulation/DeleteSql.java:49-51 | the empty string (not null) without clauses; without `?` in column names the placeholders match the arguments |
| SelectBuilder.Operator | app/src/main/java/lib/persistence/command/query/Select.java:63-89 | each comparison's operator is non-empty and holds no `?` |
| SelectBuilder.TestMarks | app/src/main/java/lib/persistence/command/query/Select.java:102 | a comparison test holds one placeholder besides the `?` in the column name |
| SelectBuilder.NullTestsHaveNoPlaceholder | app/src/main/java/lib/persistence/command/query/Select.java:91-99 | IS NULL and IS NOT NULL tests add no placeholder |
| SelectBuilder.SelectedColumns | app/src/main/java/lib/persistence/command/query/Select.java:42-50 | never empty; a non-empty list replaces the projection, a null or empty one resets it to `*` |
| SelectBuilder.QueryMarks | app/src/main/java/lib/persistence/command/query/Select.java:136-159 | the query's `?` are exactly those of the WHERE clauses plus any in the column list, table name and ORDER BY items |
| SelectBuilder.WherePartMarks | app/src/main/java/lib/persistence/command/query/Select.java:141-144 | the WHERE part adds no `?` of its own |
| SelectBuilder.OrderPartMarks | app/src/main/java/lib/persistence/command/query/Select.java:146-149 | the ORDER BY part adds no `?` of its own |
| SelectBuilder.LimitPartMarks | app/src/main/java/lib/persistence/command/query/Select.java:151-156 | the LIMIT part holds no `?` |
| SelectBuilder.LimitEndsQuery | app/src/main/java/lib/persistence/command/query/Select.java:151-156 | with a limit the query ends in ` LIMIT n`, followed by ` OFFSET m` exactly when the offset is positive |
| SelectBuilder.NoCountNoLimit | app/src/main/java/lib/persistence/command/query/Select.java:151 | without a limit no LIMIT or OFFSET appears, whatever the offset |
| SelectBuilder.FreshQuery | app/src/main/java/lib/persistence/command/query/Select.java:136-159 | the initial state gives `SELECT * FROM <table>` |
| SelectBuilder.AddConditionKeepsBalance | app/src/main/java/lib/persistence/command/query/Select.java:101-105 | one comparison adds one placeholder and one argument |
| SelectBuilder.NullTestKeepsBalance | app/src/main/java/lib/persistence/command/query/Select.java:91-99 | a null test adds a clause and no argument, keeping the balance |
| SelectBuilder.Select.Query | app/src/main/java/lib/persistence/command/query/Select.java:136-159 | the query's placeholders are one per argument plus the `?` in caller-supplied names |
| SelectBuilder.Select.constructor | app/src/main/java/lib/persistence/command/query/Select.java:29-34 | projects `*`; no WHERE, ORDER BY or LIMIT; the table is the non-empty annotation name, else the simple name |
| SelectBuilder.From | app/src/main/java/lib/persistence/command/query/Select.java:36-38 | a null type fails (NullPointerException); otherwise a fresh builder whose query is `SELECT * FROM <table>` with no arguments |
| SelectBuilder.Select.SelectColumns | app/src/main/java/lib/persistence/command/query/Select.java:42-50 | the projection becomes `SelectedColumns(columns)` |
| SelectBuilder.Select.Where | app/src/main/java/lib/persistence/command/query/Select.java:54-56 | returns the builder itself and changes nothing |
| SelectBuilder.Select.And | app/src/main/java/lib/persistence/command/query/Select.java:58-61 | returns the builder itself and changes nothing |
| SelectBuilder.Select.AddCondition | app/src/main/java/lib/persistence/command/query/Select.java:63-105 | appends `column op ?` and the value's text, keeping the balance |
| SelectBuilder.BooleanArgMissesStoredValue | app/src/main/java/lib/persistence/command/query/Select.java:103 | an INTEGER column stores a boolean as 1 or 0, and the argument addCondition binds for it is never that integer's text |
| SelectBuilder.BoundArg | app/src/main/java/lib/persistence/command/query/Select.java:103 | the corrected binding: a boolean as the text of 1 or 0, any other value as `String.valueOf` |
| SelectBuilder.BoundArgMatchesStored | app/src/main/java/lib/persistence/command/query/Select.java:103 | with the corrected binding, a boolean or integral argument is the text of the integer an INTEGER column stores for it |
| SelectBuilder.Select.IsNull | app/src/main/java/lib/persistence/command/query/Select.java:91-94 | appends `column IS NULL` and no argument |
| SelectBuilder.Select.IsNotNull | app/src/main/java/lib/persistence/command/query/Select.java:96-99 | appends `column IS NOT NULL` and no argument |
| SelectBuilder.Select.OrderBy | app/src/main/java/lib/persistence/command/query/Select.java:109-120 | appends `column ASC` after the earlier items |
| SelectBuilder.Select.OrderByDesc | app/src/main/java/lib/persistence/command/query/Select.java:113-120 | appends `column DESC` after the earlier items |
| SelectBuilder.Select.LimitFrom | app/src/main/java/lib/persistence/command/query/Select.java:128-132 | sets both offset and count |
| SelectBuilder.Select.Limit | app/src/main/java/lib/persistence/command/query/Select.java:124-126 | sets offset 0 and the count, so the query ends in ` LIMIT n` with no OFFSET |
| SelectBuilder.Select.GetQuery | app/src/main/java/lib/persistence/command/query/Select.java:136-159 | the StringBuilder steps produce the specification `Query()` |
| SelectQueries.NewSelectQuery | app/src/main/java/lib/persistence/command/query/SelectQuery.java:88-94 | fails with IllegalArgumentException exactly when sql is null or blank; keeps sql, type and mapper; null args become an empty array, other args are kept |
| SelectQueries.NewUntypedSelectQuery | app/src/main/java/lib/persistence/command/query/SelectQuery.java:83-85 | is the 4-argument constructor with a null type |
| SelectQueries.RowMapperOrDefault | app/src/main/java/lib/persistence/command/query/SelectQuery.java:110-119 | the supplied mapper when there is one; else the default cursor mapper for the type; with neither, IllegalStateException |
| SelectQueries.SuppliedMapperWins | app/src/main/java/lib/persistence/command/query/SelectQuery.java:111 | a supplied mapper is always the one chosen |
| SelectQueries.UntypedQueryNeedsMapper | app/src/main/java/lib/persistence/command/query/SelectQuery.java:115-118 | a query from the 3-argument constructor without a mapper cannot map its rows |
| SelectQueries.MappableIffMapperOrType | app/src/main/java/lib/persistence/command/query/SelectQuery.java:110-119 | a query maps its rows exactly when it has a mapper or a type |
| Migrations.Pass | app/src/main/java/lib/persistence/migration/Migrations.java:56-66 | one inner pass advances the version by the number of steps it applies, and the applied steps chain from the entry version in list order |
| Migrations.Visit | app/src/main/java/lib/persistence/migration/Migrations.java:57-64 | a step is applied only when it goes from the current version to the next, advancing by one; a throwing step is reported without advancing |
| Migrations.RunPass | app/src/main/java/lib/persistence/migration/Migrations.java:56-66 | the for loop over the steps yields the specification pass `Pass` |
| Migrations.Apply | app/src/main/java/lib/persistence/migration/Migrations.java:52-71 | the while loop yields the specification walk `Walk` |
| Migrations.PassStopsAtFailure | app/src/main/java/lib/persistence/migration/Migrations.java:58-64 | a step that throws ends the pass with MigrationFailed for that step, whatever follows |
| Migrations.EmptyPassMeansNoStep | app/src/main/java/lib/persistence/migration/Migrations.java:67-68 | a pass that applies nothing saw no step from the current version to the next |
| Migrations.PassFailureNamesStep | app/src/main/java/lib/persistence/migration/Migrations.java:58-64 | a failing pass names a throwing step from its version to the next |
| Migrations.NothingToDo | app/src/main/java/lib/persistence/migration/Migrations.java:53-54 | with oldVersion at or past newVersion nothing is applied |
| Migrations.WalkIsChain | app/src/main/java/lib/persistence/migration/Migrations.java:53-70 | the version reached is oldVersion plus the number of applied steps, and the k-th applied step goes from oldVersion + k to oldVersion + k + 1 |
| Migrations.WalkReachesTarget | app/src/main/java/lib/persistence/migration/Migrations.java:54-70 | a walk without error ends at or past newVersion, not necessarily at it |
| Migrations.GapIsReported | app/src/main/java/lib/persistence/migration/Migrations.java:67-68 | a gap error names the version reached and the next one, lies below the target, no registered step bridges it, and the steps before it stay applied |
| Migrations.FailureIsReported | app/src/main/java/lib/persistence/migration/Migrations.java:58-64 | a step failure names a throwing step from the version reached to the next; the version did not advance past it |
| Migrations.Registered | app/src/main/java/lib/persistence/migration/Migrations.java:16-50 | the registered steps: 1 to 2, then 4 to 5 |
| Migrations.RegisteredStepsLeaveAGap | app/src/main/java/lib/persistence/migration/Migrations.java:16-50 | upgrading from 1 to 5 applies the 1→2 step and then reports the missing 2→3 step |
| Migrations.RegisteredStepFromFour | app/src/main/java/lib/persistence/migration/Migrations.java:33-48 | upgrading from 4 to 5 runs the 4→5 step alone, or reports its failure |
| Migrations.OvershootsTarget | app/src/main/java/lib/persistence/migration/Migrations.java:54-66 | steps 1→2 and 2→3 with target 2 end at version 3 with both steps applied |
| Migrations.BoundedPass | app/src/main/java/lib/persistence/migration/Migrations.java:56-66 | the corrected pass never goes past the target |
| Migrations.BoundedWalkLandsOnTarget | app/src/main/java/lib/persistence/migration/Migrations.java:54-70 | the corrected walk without error ends exactly at newVersion through a contiguous chain |
| Migrations.BoundedWalkStopsAtTarget | app/src/main/java/lib/persistence/migration/Migrations.java:54-66 | on the overshooting steps the corrected walk stops at version 2 after one step |
| Converters.DateToDatabaseValue | app/src/main/java/com/example/adbkit/entities/DateMillisConverter.java:8 | null exactly for null; otherwise the date's milliseconds |
| Converters.DateFromDatabaseValue | app/src/main/java/com/example/adbkit/entities/DateMillisConverter.java:9 | null exactly for null; otherwise a date holding exactly those milliseconds |
| Converters.DateRoundTrip | app/src/main/java/com/example/adbkit/entities/DateMillisConverter.java:8-9 | reading back a stored date gives the date |
| Converters.DateMillisRoundTrip | app/src/main/java/com/example/adbkit/entities/DateMillisConverter.java:8-9 | storing a read date gives back the milliseconds |
| Converters.EventTypeToDatabaseValue | app/src/main/java/com/example/adbkit/entities/EventTypeConverter.java:6 | null exactly for null; otherwise the constant's name |
| Converters.EventTypeFromDatabaseValue | app/src/main/java/com/example/adbkit/entities/EventTypeConverter.java:7 | null for null; otherwise succeeds exactly for a declared constant's name and returns that constant |
| Converters.EventTypeRoundTrip | app/src/main/java/com/example/adbkit/entities/EventTypeConverter.java:6-7 | reading back a stored constant gives the constant |
| Converters.EventTypeNameRoundTrip | app/src/main/java/com/example/adbkit/entities/EventTypeConverter.java:6-7 | storing a read constant gives back its name |
| Converters.SqliteTypeOf | app/src/main/java/com/example/adbkit/entities/DateMillisConverter.java:10 | INTEGER exactly for the date converter, TEXT exactly for the event-type converter (EventTypeConverter.java line 8) |
| Converters.ToDatabaseValue | app/src/main/java/lib/persistence/command/manipulation/UpdateCommand.java:84-86 | succeeds exactly when the value is null or of the converter's Java type; null stays null; the date converter gives a date's milliseconds, the event-type converter a constant's name; every failure is ClassCastException |

## Left out

- ADbContext, GenericRepository, RepositoryFactory and the DbContext classes are not part of this model: thread pools, Android looper delivery, `SQLiteOpenHelper` and transactions are concurrency and I/O.
- `Mapper.cursorToObject` and `setFieldValue` are not part of this model: they read an Android `Cursor`. `SelectQueries.MapperChoice.CursorToObject` only names the default mapper.
- GetQuery.java is not part of this model: it calls a Mapper method that does not exist.
- Reflection and caches: `findField`, `Field.get`, annotation reads and the `computeIfAbsent` caches become the pure description `ClassDesc`. A cache only memoises those pure functions. `ConverterRegistry` becomes a total function from a converter tag to its behaviour.
- Mapper.Store: REAL conversion is modelled on exact values, including `doubleValue` of a BigDecimal or BigInteger. `Double.parseDouble` is modelled only on plain decimal text. `Number.longValue` of a double truncates toward zero inside the 64-bit range. ISO date and date-time formatting is carried as text already computed. Floating-point rounding is not modelled.
- Mapper.Store: `Long.parseLong` and the INTEGER cases follow Java only for values inside the 64-bit range. Wrap-around of a Java `long` is modelled only for `longValue` of a BigDecimal or BigInteger.
- Mapper.Store: `ParseLong` accepts only the ASCII digits 0-9. `Long.parseLong` also accepts every other Unicode decimal digit, so a text such as Arabic-Indic digits that Java parses fails in the model with NumberFormatException.
- `equalsIgnoreCase` is modelled on ASCII letters only. Unicode case folding is not modelled.
- Null strings: where the source rejects a null string together with a blank one, the model folds null into "blank". `Option` appears where null has its own behaviour: the entity, the type, the value arrays, the table constraints, the SQL text and the arguments of SelectQuery.
- DeleteSql, Select and CreateIndexCommand accept a null column name, and Java would print it as `null`. The model takes column names as strings.
- CreateIndexCommand.Build: a null index name is printed as `null`, and a null column array fails on `columns.length`. The model takes the index name as a string and the columns as a sequence.
- SelectBuilder.Select.LimitFrom: Java's `int` bounds on count and offset are not modelled. Integers are unbounded.
- Migrations.Apply: each step's database work is abstract: it either completes or throws with a reason. The log lines and the caller's transaction are not modelled. The caller's transaction is what undoes the steps applied before a gap.
- UpdateSqlBuilder.UpdateSql.GetWhereClause: the source strips a leading `AND `/`OR ` from the first clause with `substring(4)`. That would drop one character too many after `OR `. The branch is proved unreachable, because the first clause always opens with a backtick, so the model does not carry it.
- The getters (`getTableName`, `getWhereArgs`, `getContentValues`, `getSql`, `getArgs`, `getQuery`) return a field's current value. The fields are part of each model, so the getters have no members of their own.
- DbColumn has an optional converter SQL type (`sqliteType`). CreateTableCommand.java line 77 reads it, but DbColumn.java does not declare it. The scan always leaves it empty.
- Mapper never reads `@DbConverterAnnotation`. A converter-backed field falls through to the TEXT branch of putInContentValues (Mapper.java lines 242-252), as in the source.
- In these places the model follows the code rather than the behaviour the library's design describes:
  - Insert does not fail on an empty value map.
  - Update binds a null argument for a null primary-key value rather than failing.
  - CreateIndex and DropIndex validate no identifiers.
  - Select does not check the placeholder count against the arguments.
  - A migration walk may end past its target (see Findings).
  - Select binds a boolean argument as `String.valueOf`, `true` or `false`, not as `1` or `0` (see Findings).
  - A composite primary key gets no NOT NULL on a column left at the default `isNullable = true`. Only a column declared not nullable gets one (CreateTableCommand.CompositePrimaryKey).

## Findings

| source | as written | input that shows it | evidently intended | confidence | as-written member | corrected member |
|---|---|---|---|---|---|---|
| app/src/main/java/lib/persistence/migration/Migrations.java:54-66 | the inner for loop applies every step that chains from the current version in one pass, with no check against newVersion | steps 1→2 and 2→3 registered, oldVersion 1, newVersion 2: both steps run and the schema ends at version 3 while the database records version 2 | apply steps only while the version is below newVersion, so a successful walk ends exactly at newVersion | medium, not executed | Migrations.OvershootsTarget | Migrations.BoundedWalkLandsOnTarget |
| app/src/main/java/lib/persistence/command/query/Select.java:101-105 | addCondition binds every value as `String.valueOf(value)`, so a boolean binds as `true` or `false` | a boolean field stored as 1 through putInContentValues, queried with `Equals("active", true)`: the clause `active = ?` is bound to `true`, which an INTEGER column holding 1 never equals | bind a boolean as `1` or `0`, the integer that putInContentValues stores for it | medium, not executed | SelectBuilder.BooleanArgMissesStoredValue | SelectBuilder.BoundArgMatchesStored |
