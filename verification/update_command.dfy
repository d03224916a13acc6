/**
 * lib.persistence.command.manipulation.UpdateCommand: the values to SET, a WHERE clause over
 * the primary-key columns and its arguments, for one entity.
 */
module UpdateCommand {
  import opened Wrappers
  import opened JavaText
  import opened Values
  import opened Schema
  import opened Mapper
  import opened KeyArgs

  /** The raw table name, the SET values, the WHERE clause and its arguments (null allowed). */
  datatype UpdateCommand = UpdateCommand(
    tableName: string,
    values: ContentValues,
    whereClause: string,
    whereArgs: seq<Option<string>>)

  /** The test on one key column, its name in backticks as written. */
  function KeyCondition(c: DbColumn): string
  {
    "`" + c.columnName + "` = ?"
  }

  /** The tests on the key columns, joined by AND. */
  function KeyWhere(pks: seq<DbColumn>): string
  {
    Join(" AND ", seq(|pks|, i requires 0 <= i < |pks| => KeyCondition(pks[i])))
  }

  function KeyNames(pks: seq<DbColumn>): set<string>
  {
    set i | 0 <= i < |pks| :: pks[i].columnName
  }

  /** The argument for one key column: null stays null, anything else goes through ConvertedArg. */
  function KeyArg(e: Entity, pk: DbColumn): Result<Option<string>, Error>
  {
    var v := FieldValueOf(e, pk.fieldName);
    if v.Null? then Ok(None) else ConvertedArg(ConverterOf(e.cls, pk.fieldName), v)
  }

  function KeyArgResults(e: Entity, pks: seq<DbColumn>): seq<Result<Option<string>, Error>>
  {
    seq(|pks|, i requires 0 <= i < |pks| => KeyArg(e, pks[i]))
  }

  /**
   * The command `build(entity)` makes: `entity.getClass()` fails on null; the table name must
   * be annotated; a class without a key column is an IllegalStateException; then the entity's
   * ContentValues less the key columns, the key WHERE clause and one argument per key.
   */
  function UpdateOf(entity: Option<Entity>): Result<UpdateCommand, Error>
  {
    if entity.None? then Err(NullPointer)
    else
      var e := entity.value;
      var table :- GetTableName(e.cls);
      var pks := PrimaryKeys(Columns(e.cls));
      if pks == [] then Err(IllegalState("no primary key: " + e.cls.simpleName))
      else
        var cv :- ContentValuesOf(e);
        var args :- Collect(KeyArgResults(e, pks));
        Ok(UpdateCommand(table, cv - KeyNames(pks), KeyWhere(pks), args))
  }

  /** The `for (DbColumn pk : pks) if (cv.containsKey(..)) cv.remove(..)` loop. */
  method RemoveKeys(cv: ContentValues, pks: seq<DbColumn>) returns (out: ContentValues)
    ensures out == cv - KeyNames(pks)
  {
    out := cv;
    var i := 0;
    while i < |pks|
      invariant 0 <= i <= |pks|
      invariant out == cv - KeyNames(pks[..i])
    {
      assert KeyNames(pks[..i + 1]) == KeyNames(pks[..i]) + {pks[i].columnName};
      if pks[i].columnName in out {
        out := out - {pks[i].columnName};
      }
      i := i + 1;
    }
    assert pks[..i] == pks;
  }

  /** `build(entity)`. */
  method Build(entity: Option<Entity>) returns (r: Result<UpdateCommand, Error>)
    ensures r == UpdateOf(entity)
  {
    if entity.None? {
      return Err(NullPointer);
    }
    var e := entity.value;
    var table := GetTableName(e.cls);
    if table.Err? {
      return Err(table.error);
    }
    var pks := GetPrimaryKeyColumns(e.cls);
    if |pks| == 0 {
      return Err(IllegalState("no primary key: " + e.cls.simpleName));
    }
    var cv := ObjectToContentValues(entity);
    if cv.Err? {
      return Err(cv.error);
    }
    var values := RemoveKeys(cv.value, pks);
    var args := FillArgs(KeyArgResults(e, pks));
    if args.Err? {
      return Err(args.error);
    }
    r := Ok(UpdateCommand(table.value, values, KeyWhere(pks), args.value));
  }

  /** The parts of a command that was built. */
  lemma UpdateOfParts(e: Entity)
    requires UpdateOf(Some(e)).Ok?
    ensures GetTableName(e.cls).Ok? && ContentValuesOf(e).Ok?
    ensures Collect(KeyArgResults(e, PrimaryKeys(Columns(e.cls)))).Ok?
    ensures UpdateOf(Some(e)).value == UpdateCommand(
      GetTableName(e.cls).value,
      ContentValuesOf(e).value - KeyNames(PrimaryKeys(Columns(e.cls))),
      KeyWhere(PrimaryKeys(Columns(e.cls))),
      Collect(KeyArgResults(e, PrimaryKeys(Columns(e.cls)))).value)
  {
  }

  /** A class without a key column cannot be updated: IllegalStateException. */
  lemma UpdateNeedsKey(e: Entity)
    requires GetTableName(e.cls).Ok?
    requires forall c :: c in Columns(e.cls) ==> !c.isPrimaryKey
    ensures UpdateOf(Some(e)).Err? && UpdateOf(Some(e)).error.IllegalState?
  {
    PrimaryKeysMembers(Columns(e.cls));
  }

  /** The SET values: every non-identity column that is not a key column, and nothing else. */
  lemma UpdateSetValues(e: Entity)
    requires UpdateOf(Some(e)).Ok?
    ensures UpdateOf(Some(e)).value.values.Keys ==
      (set c | c in Columns(e.cls) && !c.isIdentity :: c.columnName) - (set c | c in Columns(e.cls) && c.isPrimaryKey :: c.columnName)
    ensures forall c :: c in Columns(e.cls) && c.isPrimaryKey ==> c.columnName !in UpdateOf(Some(e)).value.values
    ensures UpdateOf(Some(e)).value.tableName == Trim(e.cls.tableAnnotation.value)
  {
    var pks := PrimaryKeys(Columns(e.cls));
    UpdateOfParts(e);
    FillKeys(Columns(e.cls), e);
    PrimaryKeysMembers(Columns(e.cls));
    assert KeyNames(pks) == set c | c in Columns(e.cls) && c.isPrimaryKey :: c.columnName by {
      forall c | c in Columns(e.cls) && c.isPrimaryKey
        ensures c.columnName in KeyNames(pks)
      {
        var i :| 0 <= i < |pks| && pks[i] == c;
      }
    }
  }

  /** One argument per key column, in ordinal order; a null key binds null. */
  lemma UpdateArgs(e: Entity)
    requires UpdateOf(Some(e)).Ok?
    ensures |UpdateOf(Some(e)).value.whereArgs| == |PrimaryKeys(Columns(e.cls))|
    ensures forall i :: 0 <= i < |PrimaryKeys(Columns(e.cls))| ==> KeyArg(e, PrimaryKeys(Columns(e.cls))[i]).Ok?
    ensures forall i :: 0 <= i < |PrimaryKeys(Columns(e.cls))| ==>
      UpdateOf(Some(e)).value.whereArgs[i] == KeyArg(e, PrimaryKeys(Columns(e.cls))[i]).value
    ensures forall i :: 0 <= i < |PrimaryKeys(Columns(e.cls))| && FieldValueOf(e, PrimaryKeys(Columns(e.cls))[i].fieldName).Null? ==>
      UpdateOf(Some(e)).value.whereArgs[i] == None
  {
    var pks := PrimaryKeys(Columns(e.cls));
    var rs := KeyArgResults(e, pks);
    UpdateOfParts(e);
    CollectOk(rs);
    assert forall i :: 0 <= i < |pks| ==> rs[i] == KeyArg(e, pks[i]);
  }

  /** A key test holds exactly one `?` when the column name has none. */
  lemma KeyConditionPlaceholder(c: DbColumn)
    requires '?' !in c.columnName
    ensures Occurrences('?', KeyCondition(c)) == 1
  {
    var front := "`" + c.columnName + "` = ";
    assert KeyCondition(c) == front + "?";
    NoOccurrence('?', front);
    OccurrencesConcat('?', front, "?");
    SingleOccurrence('?');
  }

  /**
   * The key tests joined by AND hold one `?` per key column. The tests here write the raw name
   * in backticks; DeleteCommand's own KeyWhere passes the name through qCol instead, so each
   * builder proves this about its own WHERE text.
   */
  lemma KeyWherePlaceholders(pks: seq<DbColumn>)
    requires forall i :: 0 <= i < |pks| ==> '?' !in pks[i].columnName
    ensures Occurrences('?', KeyWhere(pks)) == |pks|
  {
    var conds := seq(|pks|, i requires 0 <= i < |pks| => KeyCondition(pks[i]));
    forall i | 0 <= i < |pks|
      ensures Occurrences('?', conds[i]) == 1
    {
      KeyConditionPlaceholder(pks[i]);
    }
    JoinedPlaceholders('?', " AND ", conds);
  }

  /** The WHERE clause has one `?` per argument. */
  lemma UpdatePlaceholders(e: Entity)
    requires UpdateOf(Some(e)).Ok?
    requires forall c :: c in Columns(e.cls) && c.isPrimaryKey ==> '?' !in c.columnName
    ensures Occurrences('?', UpdateOf(Some(e)).value.whereClause) == |UpdateOf(Some(e)).value.whereArgs|
  {
    var pks := PrimaryKeys(Columns(e.cls));
    PrimaryKeysMembers(Columns(e.cls));
    assert forall i :: 0 <= i < |pks| ==> pks[i] in pks;
    KeyWherePlaceholders(pks);
    UpdateOfParts(e);
  }
}
