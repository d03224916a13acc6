/**
 * lib.persistence.command.definition.CreateTableCommand: the CREATE TABLE statement of a record
 * class, with inline or table-level primary key, NOT NULL markers and extra table constraints.
 */
module CreateTableCommand {
  import opened Wrappers
  import opened JavaText
  import opened Values
  import opened Schema
  import opened SqlNames
  import opened Mapper

  /** `toSqlType`: the storage class name; NUMERIC falls through to TEXT. */
  function ToSqlType(t: DbDataType): (r: string)
    ensures r == "INTEGER" <==> t == INTEGER
    ensures r == "REAL" <==> t == REAL
    ensures r == "BLOB" <==> t == BLOB
    ensures r == "TEXT" <==> t == TEXT || t == NUMERIC
  {
    match t
    case INTEGER => "INTEGER"
    case REAL => "REAL"
    case BLOB => "BLOB"
    case _ => "TEXT"
  }

  /** `columnSqlType`: a non-empty converter-declared type wins, otherwise the data type decides. */
  function ColumnSqlType(c: DbColumn): (r: string)
    ensures r != ""
    ensures c.sqliteType.Some? && c.sqliteType.value != "" ==> r == c.sqliteType.value
    ensures c.sqliteType.None? || c.sqliteType.value == "" ==> r == ToSqlType(c.dataType)
  {
    if c.sqliteType.Some? && c.sqliteType.value != "" then c.sqliteType.value else ToSqlType(c.dataType)
  }

  /** The positions in `cols` of the primary-key columns: the `pks` list, which Java compares by identity. */
  function PkPositions(cols: seq<DbColumn>): (p: seq<int>)
    ensures forall k :: 0 <= k < |p| ==> 0 <= p[k] < |cols| && cols[p[k]].isPrimaryKey
  {
    if cols == [] then []
    else PkPositions(cols[..|cols| - 1]) + (if cols[|cols| - 1].isPrimaryKey then [|cols| - 1] else [])
  }

  /** Column `i` is the one and only primary key (`pks.size() == 1 && pks.get(0) == c`). */
  predicate IsSolePk(cols: seq<DbColumn>, i: int) {
    PkPositions(cols) == [i]
  }

  /** `singleIntegerIdentityPk`: exactly one PK, and it is an INTEGER identity column. */
  predicate SingleIntegerIdentityPk(cols: seq<DbColumn>) {
    var p := PkPositions(cols);
    |p| == 1 && cols[p[0]].isIdentity && cols[p[0]].dataType == INTEGER
  }

  /** The start of every column definition: the quoted name, a space and the SQL type. */
  function ColumnHead(c: DbColumn): string {
    QId(c.columnName) + " " + ColumnSqlType(c)
  }

  function NotNullSuffix(c: DbColumn): string {
    if c.isNullable then "" else " NOT NULL"
  }

  /** The definition the loop of `build` writes for a column, given whether it is the sole PK. */
  function ColumnDefinition(c: DbColumn, solePk: bool, autoincrement: bool): string
  {
    var d := ColumnHead(c);
    if solePk then
      if autoincrement then d + " PRIMARY KEY" + " AUTOINCREMENT" else d + " PRIMARY KEY"
    else if !c.isNullable then d + " NOT NULL"
    else d
  }

  /** The column definitions of `build`, in column order. */
  function ColumnDefinitions(cols: seq<DbColumn>): seq<string>
  {
    seq(|cols|, i requires 0 <= i < |cols| =>
      ColumnDefinition(cols[i], IsSolePk(cols, i), SingleIntegerIdentityPk(cols)))
  }

  /** The quoted names of `pks`, in order. */
  function QuotedNames(pks: seq<DbColumn>): seq<string> {
    seq(|pks|, k requires 0 <= k < |pks| => QId(pks[k].columnName))
  }

  /** The table-level `PRIMARY KEY (...)` clause, present only for a composite key. */
  function PkClause(cols: seq<DbColumn>): seq<string>
  {
    var p := PkPositions(cols);
    if |p| > 1 then ["PRIMARY KEY (" + Join(", ", PkNames(cols, p)) + ")"] else []
  }

  /** The quoted names of the columns at positions `p`, in order. */
  function PkNames(cols: seq<DbColumn>, p: seq<int>): seq<string>
    requires forall k :: 0 <= k < |p| ==> 0 <= p[k] < |cols|
  {
    seq(|p|, k requires 0 <= k < |p| => QId(cols[p[k]].columnName))
  }

  /** The table constraints that are kept: non-null, non-blank, trimmed, in the order given. */
  function ConstraintDefs(tcs: seq<Option<string>>): seq<string>
  {
    if tcs == [] then [] else ConstraintDefs(tcs[..|tcs| - 1]) + Kept(tcs[|tcs| - 1])
  }

  /** What one constraint adds: nothing when it is null or blank, else its trimmed text. */
  function Kept(tc: Option<string>): seq<string> {
    if tc.Some? && !IsBlank(tc.value) then [Trim(tc.value)] else []
  }

  function TableConstraints(tcs: Option<seq<Option<string>>>): seq<string> {
    if tcs.None? then [] else ConstraintDefs(tcs.value)
  }

  /** Every entry of the `defs` joiner: one per column, then the PK clause, then the constraints. */
  function Definitions(cols: seq<DbColumn>, tcs: Option<seq<Option<string>>>): seq<string> {
    ColumnDefinitions(cols) + PkClause(cols) + TableConstraints(tcs)
  }

  /** The statement `build(type, tableConstraints)` returns, or the exception it throws. */
  function CreateTableSql(cls: Option<ClassDesc>, tcs: Option<seq<Option<string>>>): Result<string, Error>
  {
    if cls.None? then Err(IllegalArgument("type must not be null"))
    else
      var table :- GetTableName(cls.value);
      var cols := Columns(cls.value);
      if cols == [] then Err(IllegalState("no column definitions: " + cls.value.simpleName))
      else Ok("CREATE TABLE IF NOT EXISTS " + QId(table) + " (" + Join(", ", Definitions(cols, tcs)) + ");")
  }

  /** The first loop of `build`: collect the PK columns (by position). */
  method CollectPks(cols: seq<DbColumn>) returns (pks: seq<int>)
    ensures pks == PkPositions(cols)
  {
    pks := [];
    var i := 0;
    while i < |cols|
      invariant 0 <= i <= |cols|
      invariant pks == PkPositions(cols[..i])
    {
      assert cols[..i + 1][..i] == cols[..i];
      if cols[i].isPrimaryKey {
        pks := pks + [i];
      }
      i := i + 1;
    }
    assert cols[..i] == cols;
  }

  /** The body of the second loop of `build`: the definition of one column. */
  method DefineColumn(c: DbColumn, solePk: bool, single: bool) returns (d: string)
    ensures d == ColumnDefinition(c, solePk, single)
  {
    d := QId(c.columnName) + " " + ColumnSqlType(c);
    if solePk {
      d := d + " PRIMARY KEY";
      if single {
        d := d + " AUTOINCREMENT";
      }
    } else {
      if !c.isNullable {
        d := d + " NOT NULL";
      }
    }
  }

  /** The second loop of `build`: one definition per column. */
  method DefineColumns(cols: seq<DbColumn>, pks: seq<int>) returns (defs: seq<string>)
    requires pks == PkPositions(cols)
    ensures defs == ColumnDefinitions(cols)
  {
    var single := |pks| == 1 && cols[pks[0]].isIdentity && cols[pks[0]].dataType == INTEGER;
    ghost var all := ColumnDefinitions(cols);
    defs := [];
    var i := 0;
    while i < |cols|
      invariant 0 <= i <= |cols|
      invariant defs == all[..i]
    {
      var d := DefineColumn(cols[i], |pks| == 1 && pks[0] == i, single);
      DefinitionAt(cols, pks, i, d);
      defs := defs + [d];
      i := i + 1;
    }
    assert all[..|cols|] == all;
  }

  /** The definition the loop writes for column `i` is the next entry of `ColumnDefinitions`. */
  lemma DefinitionAt(cols: seq<DbColumn>, pks: seq<int>, i: int, d: string)
    requires pks == PkPositions(cols) && 0 <= i < |cols|
    requires d == ColumnDefinition(cols[i], |pks| == 1 && pks[0] == i,
                                   |pks| == 1 && cols[pks[0]].isIdentity && cols[pks[0]].dataType == INTEGER)
    ensures ColumnDefinitions(cols)[..i + 1] == ColumnDefinitions(cols)[..i] + [d]
  {
    var all := ColumnDefinitions(cols);
    assert |pks| == 1 ==> pks == [pks[0]];
    assert all[i] == d;
    TakeOneMore(all, i);
  }

  /** One more element of a prefix, stated apart so that DefinitionAt's proof stays small. */
  lemma TakeOneMore<T>(s: seq<T>, i: int)
    requires 0 <= i < |s|
    ensures s[..i + 1] == s[..i] + [s[i]]
  {
  }

  /** The composite-key clause of `build`, when there are two or more PK columns. */
  method PkClauseOf(cols: seq<DbColumn>, pks: seq<int>) returns (clause: seq<string>)
    requires pks == PkPositions(cols)
    ensures clause == PkClause(cols)
  {
    clause := [];
    if |pks| > 1 {
      var pkCols: seq<string> := [];
      var k := 0;
      while k < |pks|
        invariant 0 <= k <= |pks| && |pkCols| == k
        invariant forall m :: 0 <= m < k ==> pkCols[m] == QId(cols[pks[m]].columnName)
      {
        pkCols := pkCols + [QId(cols[pks[k]].columnName)];
        k := k + 1;
      }
      assert pkCols == PkNames(cols, pks);
      clause := ["PRIMARY KEY (" + Join(", ", pkCols) + ")"];
    }
  }

  /** The last loop of `build`: keep the non-blank table constraints, trimmed. */
  method KeepConstraints(tcs: Option<seq<Option<string>>>) returns (kept: seq<string>)
    ensures kept == TableConstraints(tcs)
  {
    kept := [];
    if tcs.Some? {
      var all := tcs.value;
      var j := 0;
      while j < |all|
        invariant 0 <= j <= |all|
        invariant kept == ConstraintDefs(all[..j])
      {
        assert all[..j + 1][..j] == all[..j];
        var tc := all[j];
        if tc.Some? && !IsBlank(tc.value) {
          kept := kept + [Trim(tc.value)];
        }
        j := j + 1;
      }
      assert all[..j] == all;
    }
  }

  /** `build(type, tableConstraints)`; `build(type)` is the call with `tcs == None`. */
  method Build(cls: Option<ClassDesc>, tcs: Option<seq<Option<string>>>) returns (r: Result<string, Error>)
    ensures r == CreateTableSql(cls, tcs)
  {
    if cls.None? {
      return Err(IllegalArgument("type must not be null"));
    }
    var tableName := GetTableName(cls.value);
    if tableName.Err? {
      return Err(tableName.error);
    }
    var cols := ClassToDbColumns(cls.value);
    if |cols| == 0 {
      return Err(IllegalState("no column definitions: " + cls.value.simpleName));
    }
    var pks := CollectPks(cols);
    var defs := DefineColumns(cols, pks);
    var clause := PkClauseOf(cols, pks);
    var kept := KeepConstraints(tcs);
    defs := defs + clause + kept;
    r := Ok("CREATE TABLE IF NOT EXISTS " + QId(tableName.value) + " (" + Join(", ", defs) + ");");
  }

  // ---------------------------------------------------------------- properties

  /** `pks` holds, in ascending order, exactly the positions of the PK columns: the list getPrimaryKeyColumns returns. */
  lemma {:induction false} PkPositionsMeaning(cols: seq<DbColumn>)
    ensures forall i :: 0 <= i < |cols| && cols[i].isPrimaryKey ==> i in PkPositions(cols)
    ensures forall a, b :: 0 <= a < b < |PkPositions(cols)| ==> PkPositions(cols)[a] < PkPositions(cols)[b]
    ensures |PkPositions(cols)| == |PrimaryKeys(cols)|
    ensures forall k :: 0 <= k < |PkPositions(cols)| ==> cols[PkPositions(cols)[k]] == PrimaryKeys(cols)[k]
  {
    if cols != [] {
      var init := cols[..|cols| - 1];
      PkPositionsMeaning(init);
      assert forall i :: 0 <= i < |init| ==> init[i] == cols[i];
    }
  }

  /** Without PK columns, `pks` is empty. */
  lemma {:induction false} NoPkPositions(cols: seq<DbColumn>)
    requires forall i :: 0 <= i < |cols| ==> !cols[i].isPrimaryKey
    ensures PkPositions(cols) == []
  {
    if cols != [] {
      NoPkPositions(cols[..|cols| - 1]);
    }
  }

  /** A sole PK column is the sole entry of `pks`. */
  lemma {:induction false} SolePkPosition(cols: seq<DbColumn>, p: int)
    requires 0 <= p < |cols| && cols[p].isPrimaryKey
    requires forall i :: 0 <= i < |cols| && i != p ==> !cols[i].isPrimaryKey
    ensures PkPositions(cols) == [p]
  {
    var init := cols[..|cols| - 1];
    if p == |cols| - 1 {
      NoPkPositions(init);
    } else {
      SolePkPosition(init, p);
    }
  }

  /**
   * With exactly one PK column, that column gets an inline PRIMARY KEY (with AUTOINCREMENT iff it
   * is an INTEGER identity) and no NOT NULL; the others get NOT NULL iff not nullable; there is no
   * table-level PRIMARY KEY clause.
   */
  lemma SolePrimaryKey(cols: seq<DbColumn>, p: int)
    requires 0 <= p < |cols| && cols[p].isPrimaryKey
    requires forall i :: 0 <= i < |cols| && i != p ==> !cols[i].isPrimaryKey
    ensures ColumnDefinitions(cols)[p] == ColumnHead(cols[p]) + " PRIMARY KEY" +
      (if cols[p].isIdentity && cols[p].dataType == INTEGER then " AUTOINCREMENT" else "")
    ensures forall i :: 0 <= i < |cols| && i != p ==> ColumnDefinitions(cols)[i] == ColumnHead(cols[i]) + NotNullSuffix(cols[i])
    ensures PkClause(cols) == []
  {
    SolePkPosition(cols, p);
  }

  /** Two PK columns give two entries in `pks`. */
  lemma TwoPksTwoPositions(cols: seq<DbColumn>, a: int, b: int)
    requires 0 <= a < b < |cols| && cols[a].isPrimaryKey && cols[b].isPrimaryKey
    ensures |PkPositions(cols)| > 1
  {
    var ps := PkPositions(cols);
    PkPositionsMeaning(cols);
    var ia :| 0 <= ia < |ps| && ps[ia] == a;
    var ib :| 0 <= ib < |ps| && ps[ib] == b;
    assert ia != ib;
  }

  /** The composite clause names the PK columns getPrimaryKeyColumns lists, quoted. */
  lemma PkClauseNames(cols: seq<DbColumn>)
    ensures |PkPositions(cols)| > 1 ==>
      PkClause(cols) == ["PRIMARY KEY (" + Join(", ", QuotedNames(PrimaryKeys(cols))) + ")"]
  {
    var ps := PkPositions(cols);
    PkPositionsMeaning(cols);
    assert seq(|ps|, k requires 0 <= k < |ps| => QId(cols[ps[k]].columnName)) == QuotedNames(PrimaryKeys(cols));
  }

  /**
   * With two or more PK columns no definition carries PRIMARY KEY: each gets NOT NULL iff not
   * nullable, and one table-level clause lists the quoted PK names in ordinal order.
   */
  lemma CompositePrimaryKey(cols: seq<DbColumn>, a: int, b: int)
    requires 0 <= a < b < |cols| && cols[a].isPrimaryKey && cols[b].isPrimaryKey
    ensures forall i :: 0 <= i < |cols| ==> ColumnDefinitions(cols)[i] == ColumnHead(cols[i]) + NotNullSuffix(cols[i])
    ensures PkClause(cols) == ["PRIMARY KEY (" + Join(", ", QuotedNames(PrimaryKeys(cols))) + ")"]
  {
    TwoPksTwoPositions(cols, a, b);
    PkClauseNames(cols);
  }

  /** Without a PK column there is no PRIMARY KEY anywhere; NOT NULL follows nullability. */
  lemma NoPrimaryKey(cols: seq<DbColumn>)
    requires forall i :: 0 <= i < |cols| ==> !cols[i].isPrimaryKey
    ensures forall i :: 0 <= i < |cols| ==> ColumnDefinitions(cols)[i] == ColumnHead(cols[i]) + NotNullSuffix(cols[i])
    ensures PkClause(cols) == []
  {
    NoPkPositions(cols);
  }

  /** The kept constraints are trimmed and non-empty, and they keep the order they were given in. */
  lemma ConstraintDefsMeaning(tcs: seq<Option<string>>, more: seq<Option<string>>)
    ensures forall s :: s in ConstraintDefs(tcs) ==> s != [] && IsTrimmed(s)
    ensures ConstraintDefs(tcs + more) == ConstraintDefs(tcs) + ConstraintDefs(more)
  {
    ConstraintDefsTrimmed(tcs);
    ConstraintDefsAppend(tcs, more);
  }

  lemma {:induction false} ConstraintDefsTrimmed(tcs: seq<Option<string>>)
    ensures forall s :: s in ConstraintDefs(tcs) ==> s != [] && IsTrimmed(s)
  {
    if tcs != [] {
      ConstraintDefsTrimmed(tcs[..|tcs| - 1]);
    }
  }

  lemma {:induction false} ConstraintDefsAppend(tcs: seq<Option<string>>, more: seq<Option<string>>)
    ensures ConstraintDefs(tcs + more) == ConstraintDefs(tcs) + ConstraintDefs(more)
  {
    if more == [] {
      ConstraintDefsAppendNothing(tcs);
    } else {
      var init, last := more[..|more| - 1], more[|more| - 1];
      ConstraintDefsAppend(tcs, init);
      assert more == init + [last];
      ConstraintDefsAppendOne(tcs, init, last);
    }
  }

  /** The step of the induction: appending one more constraint on both sides. */
  lemma ConstraintDefsAppendOne(tcs: seq<Option<string>>, init: seq<Option<string>>, last: Option<string>)
    requires ConstraintDefs(tcs + init) == ConstraintDefs(tcs) + ConstraintDefs(init)
    ensures ConstraintDefs(tcs + (init + [last])) == ConstraintDefs(tcs) + ConstraintDefs(init + [last])
  {
    calc {
      ConstraintDefs(tcs + (init + [last]));
    == { ThreeParts(tcs, init, [last]); }
      ConstraintDefs((tcs + init) + [last]);
    == { ConstraintDefsSnoc(tcs + init, last); }
      ConstraintDefs(tcs + init) + Kept(last);
    == { ThreeParts(ConstraintDefs(tcs), ConstraintDefs(init), Kept(last)); }
      ConstraintDefs(tcs) + (ConstraintDefs(init) + Kept(last));
    == { ConstraintDefsSnoc(init, last); }
      ConstraintDefs(tcs) + ConstraintDefs(init + [last]);
    }
  }

  lemma ConstraintDefsAppendNothing(tcs: seq<Option<string>>)
    ensures ConstraintDefs(tcs + []) == ConstraintDefs(tcs) + ConstraintDefs([])
  {
    assert tcs + [] == tcs;
  }

  lemma ConstraintDefsSnoc(init: seq<Option<string>>, last: Option<string>)
    ensures ConstraintDefs(init + [last]) == ConstraintDefs(init) + Kept(last)
  {
    var m := init + [last];
    assert m[..|m| - 1] == init;
  }

  /** A null or blank constraint is skipped; any other is kept trimmed. */
  lemma ConstraintDefOfOne(tc: Option<string>)
    ensures tc.None? || IsBlank(tc.value) ==> ConstraintDefs([tc]) == []
    ensures tc.Some? && !IsBlank(tc.value) ==> ConstraintDefs([tc]) == [Trim(tc.value)]
  {
    assert [tc][..0] == [];
  }

  /** Each column definition opens with the quoted column name and its SQL type. */
  lemma DefinitionsOpenWithHeads(cols: seq<DbColumn>)
    ensures |ColumnDefinitions(cols)| == |cols|
    ensures forall i :: 0 <= i < |cols| ==> StartsWith(ColumnDefinitions(cols)[i], ColumnHead(cols[i]))
  {
    forall i | 0 <= i < |cols|
      ensures StartsWith(ColumnDefinitions(cols)[i], ColumnHead(cols[i]))
    {
      var head := ColumnHead(cols[i]);
      var d := ColumnDefinitions(cols)[i];
      assert d == ColumnDefinition(cols[i], IsSolePk(cols, i), SingleIntegerIdentityPk(cols));
      assert d[..|head|] == head;
    }
  }

  /**
   * The entries of the `defs` joiner: one definition per column in column order, each opening
   * with the quoted column name and its SQL type, then the composite PK clause and the kept
   * table constraints.
   */
  lemma DefinitionsLayout(cols: seq<DbColumn>, tcs: Option<seq<Option<string>>>)
    ensures forall i :: 0 <= i < |cols| ==> StartsWith(Definitions(cols, tcs)[i], ColumnHead(cols[i]))
    ensures Definitions(cols, tcs)[|cols|..] == PkClause(cols) + TableConstraints(tcs)
  {
    DefinitionsOpenWithHeads(cols);
    ThreeParts(ColumnDefinitions(cols), PkClause(cols), TableConstraints(tcs));
  }

  /** A concatenation of three parts starts with the first and continues with the other two. */
  lemma ThreeParts<T>(a: seq<T>, b: seq<T>, c: seq<T>)
    ensures forall i :: 0 <= i < |a| ==> (a + b + c)[i] == a[i]
    ensures (a + b + c)[|a|..] == b + c
    ensures a + b + c == a + (b + c)
  {
  }

  /** The statement of a successful `build`: the quoted trimmed table name around the joined definitions. */
  lemma CreateTableText(cls: ClassDesc, tcs: Option<seq<Option<string>>>)
    requires CreateTableSql(Some(cls), tcs).Ok?
    ensures |Columns(cls)| >= 1
    ensures CreateTableSql(Some(cls), tcs).value ==
      "CREATE TABLE IF NOT EXISTS " + QId(Trim(cls.tableAnnotation.value)) + " (" + Join(", ", Definitions(Columns(cls), tcs)) + ");"
  {
  }

  /** The failures of `build`: a null type, then a missing table name, then a class without columns. */
  lemma CreateTableFailures(cls: Option<ClassDesc>, tcs: Option<seq<Option<string>>>)
    ensures cls.None? ==> CreateTableSql(cls, tcs).Err? && CreateTableSql(cls, tcs).error.IllegalArgument?
    ensures cls.Some? ==> (CreateTableSql(cls, tcs).Err? <==>
      GetTableName(cls.value).Err? || Columns(cls.value) == [])
    ensures cls.Some? && CreateTableSql(cls, tcs).Err? ==> CreateTableSql(cls, tcs).error.IllegalState?
  {
  }

  /** Every column the Mapper produces leaves the type to its data type (it never sets an override). */
  lemma MappedColumnSqlType(cls: ClassDesc)
    ensures forall c :: c in Columns(cls) ==> c.sqliteType.None? && ColumnSqlType(c) == ToSqlType(c.dataType)
  {
    ScannedFromAnnotatedFields(cls.levels);
    OrdinalSortPermutes(Scanned(cls.levels));
    forall c | c in Columns(cls)
      ensures c.sqliteType.None?
    {
      assert c in multiset(Columns(cls));
      assert c in Scanned(cls.levels);
    }
  }
}
