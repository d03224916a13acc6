/**
 * lib.persistence.command.manipulation.UpdateSql: a fluent builder that collects SET values
 * through the mapper and a WHERE clause of backticked equality tests joined by AND or OR.
 */
module UpdateSqlBuilder {
  import opened Wrappers
  import opened JavaText
  import opened Values
  import opened Schema
  import opened Mapper

  /** `q(column) + " = ?"`: a backticked column compared with one placeholder. */
  function Condition(column: string): (r: string)
    ensures |r| > 0 && r[0] == '`'
  {
    "`" + column + "` = ?"
  }

  /** The two connectors a WHERE clause joins conditions with. */
  predicate IsConnector(op: string) {
    op == "AND" || op == "OR"
  }

  /** The clause `Equals` adds: the bare condition first, later ones led by the pending connector. */
  function Connected(clauses: seq<string>, op: string, column: string): string {
    if clauses == [] then Condition(column) else op + " " + Condition(column)
  }

  /** What getWhereClause returns: null without clauses, else the clauses separated by single spaces. */
  function WhereClauseOf(clauses: seq<string>): Option<string> {
    if clauses == [] then None else Some(Join(" ", clauses))
  }

  /** The content values `set(column, value)` leaves, or the exception it throws. */
  function SetValue(cls: ClassDesc, cv: ContentValues, column: string, value: FieldValue): Result<ContentValues, Error> {
    if IsBlank(column) then Err(IllegalArgument("column is required"))
    else
      var col :- ColumnByName(cls, Trim(column));
      PutInContentValues(cv, col, value)
  }

  /** One condition holds exactly the placeholder it adds, plus any `?` of the column name. */
  lemma ConditionMarks(column: string)
    ensures Occurrences('?', Condition(column)) == Occurrences('?', column) + 1
  {
    var front := "`" + column + "` = ";
    assert Condition(column) == front + "?";
    OccurrencesConcat('?', front, "?");
    OccurrencesConcat('?', "`" + column, "` = ");
    OccurrencesConcat('?', "`", column);
    NoOccurrence('?', "`");
    NoOccurrence('?', "` = ");
    SingleOccurrence('?');
  }

  /** A connector without `?` adds no placeholder. */
  lemma ConnectorMarks(op: string, clause: string)
    requires '?' !in op
    ensures Occurrences('?', op + " " + clause) == Occurrences('?', clause)
  {
    OccurrencesConcat('?', op + " ", clause);
    NoOccurrence('?', op + " ");
  }

  lemma ConnectedMarks(clauses: seq<string>, op: string, column: string)
    requires IsConnector(op)
    ensures Occurrences('?', Connected(clauses, op, column)) == Occurrences('?', column) + 1
  {
    ConditionMarks(column);
    if clauses != [] {
      ConnectorMarks(op, Condition(column));
    }
  }

  /** A clause beginning with a backtick begins with neither connector. */
  lemma BacktickIsNoConnector(part: string)
    requires part != [] && part[0] == '`'
    ensures !StartsWith(part, "AND ") && !StartsWith(part, "OR ")
  {
    if |part| >= 3 {
      assert part[..3][0] == '`';
    }
    if |part| >= 4 {
      assert part[..4][0] == '`';
    }
  }

  /** `set` step by step: the blank test, the column lookup, then the write. */
  lemma SetValueSteps(cls: ClassDesc, cv: ContentValues, column: string, value: FieldValue)
    ensures !IsBlank(column) && ColumnByName(cls, Trim(column)).Err? ==>
      SetValue(cls, cv, column, value) == Err(ColumnByName(cls, Trim(column)).error)
    ensures !IsBlank(column) && ColumnByName(cls, Trim(column)).Ok? ==>
      SetValue(cls, cv, column, value) == PutInContentValues(cv, ColumnByName(cls, Trim(column)).value, value)
  {
  }

  /** A successful `set` passes the blank test, finds its column and writes it. */
  lemma SetValueParts(cls: ClassDesc, cv: ContentValues, column: string, value: FieldValue)
    requires SetValue(cls, cv, column, value).Ok?
    ensures !IsBlank(column) && ColumnByName(cls, Trim(column)).Ok?
    ensures SetValue(cls, cv, column, value) == PutInContentValues(cv, ColumnByName(cls, Trim(column)).value, value)
  {
  }

  /** Writing one value by name changes exactly the column that answers to the trimmed name. */
  lemma SetWritesNamedColumn(cls: ClassDesc, cv: ContentValues, column: string, value: FieldValue)
    requires SetValue(cls, cv, column, value).Ok?
    ensures !IsBlank(column)
    ensures var c := ColumnByName(cls, Trim(column)).value;
      c in Columns(cls) && NameMatches(c, Trim(column))
      && SetValue(cls, cv, column, value).value.Keys == cv.Keys + {c.columnName}
      && SetValue(cls, cv, column, value).value[c.columnName] == Store(c, value).value
      && (forall k :: k in cv && k != c.columnName ==> SetValue(cls, cv, column, value).value[k] == cv[k])
  {
    SetValueParts(cls, cv, column, value);
    TrimmedIsFixpoint(Trim(column));
    ColumnByNameMeaning(cls, Trim(column));
  }

  /** A blank column name or an unknown column fails with IllegalArgumentException. */
  lemma SetRejectsUnknownColumn(cls: ClassDesc, cv: ContentValues, column: string, value: FieldValue)
    requires IsBlank(column) || forall c :: c in Columns(cls) ==> !NameMatches(c, Trim(column))
    ensures SetValue(cls, cv, column, value).Err?
    ensures SetValue(cls, cv, column, value).error.IllegalArgument?
  {
    if !IsBlank(column) {
      TrimmedIsFixpoint(Trim(column));
      ColumnByNameMeaning(cls, Trim(column));
    }
  }

  /**
   * The WHERE state an UpdateSql keeps: a connector is pending, the first clause starts with its
   * backticked column, and the clauses hold one placeholder per argument besides the `?` that
   * came in with column names.
   */
  ghost predicate WhereState(op: string, clauses: seq<string>, args: seq<string>, marks: nat) {
    IsConnector(op)
    && (clauses != [] ==> clauses[0] != [] && clauses[0][0] == '`')
    && OccurrencesIn('?', clauses) == |args| + marks
  }

  /** One `Equals` keeps the WHERE state. */
  lemma EqualsKeepsWhereState(op: string, clauses: seq<string>, args: seq<string>, marks: nat, column: string,
                              clauses': seq<string>, args': seq<string>, marks': nat)
    requires WhereState(op, clauses, args, marks)
    requires clauses' == clauses + [Connected(clauses, op, column)] && |args'| == |args| + 1
    requires marks' == marks + Occurrences('?', column)
    ensures WhereState("AND", clauses', args', marks')
  {
    var clause := Connected(clauses, op, column);
    ConnectedMarks(clauses, op, column);
    OccurrencesInAppend('?', clauses, clause);
    assert clauses'[0] == if clauses == [] then clause else clauses[0];
  }

  class UpdateSql {
    const cls: ClassDesc
    const tableName: string
    var contentValues: ContentValues
    var whereClauses: seq<string>
    var whereArgs: seq<string>
    var pendingOp: string
    /** The `?` characters that arrived inside column names rather than as placeholders. */
    ghost var namedMarks: nat

    /** The connector is AND or OR, the first clause starts with its backticked column, and every placeholder has its argument. */
    ghost predicate Valid()
      reads this
    {
      WhereState(pendingOp, whereClauses, whereArgs, namedMarks)
    }

    constructor (cls: ClassDesc)
      ensures Valid()
      ensures this.cls == cls && tableName == AnnotatedOrSimpleName(cls)
      ensures contentValues == map[] && whereClauses == [] && whereArgs == []
      ensures pendingOp == "AND" && namedMarks == 0
    {
      this.cls := cls;
      tableName := AnnotatedOrSimpleName(cls);
      contentValues := map[];
      whereClauses := [];
      whereArgs := [];
      pendingOp := "AND";
      namedMarks := 0;
    }

    /** `set(column, value)`: SET the column found by name, typed by the mapper; on failure nothing changes. */
    method Set(column: string, value: FieldValue) returns (r: Outcome<Error>)
      requires Valid()
      modifies this`contentValues
      ensures Valid()
      ensures r.Pass? <==> SetValue(cls, old(contentValues), column, value).Ok?
      ensures r.Pass? ==> contentValues == SetValue(cls, old(contentValues), column, value).value
      ensures r.Fail? ==> r.error == SetValue(cls, old(contentValues), column, value).error
      ensures r.Fail? ==> contentValues == old(contentValues)
    {
      if IsBlank(column) {
        return Fail(IllegalArgument("column is required"));
      }
      SetValueSteps(cls, contentValues, column, value);
      var col := GetColumnByName(cls, Trim(column));
      if col.Err? {
        return Fail(col.error);
      }
      var put := PutInContentValues(contentValues, col.value, value);
      if put.Err? {
        return Fail(put.error);
      }
      contentValues := put.value;
      r := Pass;
    }

    /** `where()`: a readability no-op that hands back the builder unchanged. */
    method Where() returns (r: UpdateSql)
      ensures r == this
    {
      r := this;
    }

    /** `and()`: the next condition is joined with AND. */
    method And()
      requires Valid()
      modifies this`pendingOp
      ensures Valid() && pendingOp == "AND"
    {
      pendingOp := "AND";
    }

    /** `or()`: the next condition is joined with OR. */
    method Or()
      requires Valid()
      modifies this`pendingOp
      ensures Valid() && pendingOp == "OR"
    {
      pendingOp := "OR";
    }

    /**
     * `Equals(column, value)`: append `column` = ? led by the pending connector, append the
     * value's text as its argument, and fall back to AND.
     */
    method Equals(column: string, value: FieldValue) returns (r: Outcome<Error>)
      requires Valid()
      modifies this`whereClauses, this`whereArgs, this`pendingOp, this`namedMarks
      ensures Valid()
      ensures r.Fail? <==> IsBlank(column)
      ensures r.Fail? ==> r.error.IllegalArgument? && unchanged(this)
      ensures r.Pass? ==> whereClauses == old(whereClauses) + [Connected(old(whereClauses), old(pendingOp), Trim(column))]
      ensures r.Pass? ==> whereArgs == old(whereArgs) + [JavaString(value)]
      ensures r.Pass? ==> pendingOp == "AND" && namedMarks == old(namedMarks) + Occurrences('?', Trim(column))
    {
      if IsBlank(column) {
        r := Fail(IllegalArgument("column is required"));
      } else {
        var name := Trim(column);
        var clause := Condition(name);
        if whereClauses != [] {
          clause := pendingOp + " " + clause;
        }
        ghost var op, clauses, args, marks := pendingOp, whereClauses, whereArgs, namedMarks;
        whereClauses := whereClauses + [clause];
        whereArgs := whereArgs + [JavaString(value)];
        pendingOp := "AND";
        namedMarks := namedMarks + Occurrences('?', name);
        EqualsKeepsWhereState(op, clauses, args, marks, name, whereClauses, whereArgs, namedMarks);
        r := Pass;
      }
    }

    /**
     * `getWhereClause()`: the clauses separated by spaces, or null when there are none. Without
     * `?` in column names, the clause holds exactly one placeholder per argument.
     */
    method GetWhereClause() returns (r: Option<string>)
      requires Valid()
      ensures r == WhereClauseOf(whereClauses)
      ensures r.Some? && namedMarks == 0 ==> Occurrences('?', r.value) == |whereArgs|
    {
      if whereClauses == [] {
        return None;
      }
      var sb := "";
      var i := 0;
      while i < |whereClauses|
        invariant 0 <= i <= |whereClauses|
        invariant sb == Join(" ", whereClauses[..i])
      {
        var part := whereClauses[i];
        assert whereClauses[..i + 1] == whereClauses[..i] + [part];
        if i == 0 {
          // the first clause never carries a connector, so there is nothing to strip
          BacktickIsNoConnector(part);
          sb := part;
        } else {
          sb := sb + " " + part;
        }
        i := i + 1;
      }
      assert whereClauses[..i] == whereClauses;
      JoinOccurrences('?', " ", whereClauses);
      r := Some(sb);
    }
  }

  /** `UpdateSql.build(type)`: a fresh builder, or IllegalArgumentException for a null type. */
  method Build(cls: Option<ClassDesc>) returns (r: Result<UpdateSql, Error>)
    ensures r.Err? <==> cls.None?
    ensures r.Err? ==> r.error.IllegalArgument?
    ensures r.Ok? ==> fresh(r.value) && r.value.Valid() && r.value.cls == cls.value
    ensures r.Ok? ==> r.value.tableName == AnnotatedOrSimpleName(cls.value)
    ensures r.Ok? ==> r.value.contentValues == map[] && r.value.whereClauses == [] && r.value.whereArgs == []
    ensures r.Ok? ==> r.value.pendingOp == "AND" && r.value.namedMarks == 0
  {
    if cls.None? {
      return Err(IllegalArgument("type must not be null"));
    }
    var u := new UpdateSql(cls.value);
    r := Ok(u);
  }
}
