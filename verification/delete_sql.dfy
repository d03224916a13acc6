/**
 * lib.persistence.command.manipulation.DeleteSql: a fluent builder of a WHERE clause made of
 * `column = ?` tests, always joined by AND, with the values' texts as arguments.
 */
module DeleteSqlBuilder {
  import opened Wrappers
  import opened JavaText
  import opened Values
  import opened Schema

  /** The test `Equals` adds: the column as given, then one placeholder. */
  function Condition(column: string): string {
    column + " = ?"
  }

  lemma ConditionMarks(column: string)
    ensures Occurrences('?', Condition(column)) == Occurrences('?', column) + 1
  {
    assert Condition(column) == (column + " = ") + "?";
    OccurrencesConcat('?', column + " = ", "?");
    OccurrencesConcat('?', column, " = ");
    NoOccurrence('?', " = ");
    SingleOccurrence('?');
  }

  /** The clauses hold one placeholder per argument besides the `?` that came in with column names. */
  ghost predicate Balanced(clauses: seq<string>, args: seq<string>, marks: nat) {
    OccurrencesIn('?', clauses) == |args| + marks
  }

  lemma EqualsKeepsBalance(clauses: seq<string>, args: seq<string>, marks: nat, column: string,
                           clauses': seq<string>, args': seq<string>, marks': nat)
    requires Balanced(clauses, args, marks)
    requires clauses' == clauses + [Condition(column)] && |args'| == |args| + 1
    requires marks' == marks + Occurrences('?', column)
    ensures Balanced(clauses', args', marks')
  {
    ConditionMarks(column);
    OccurrencesInAppend('?', clauses, Condition(column));
  }

  class DeleteSql {
    const cls: ClassDesc
    const tableName: string
    var whereClauses: seq<string>
    var whereArgs: seq<string>
    /** The `?` characters that arrived inside column names rather than as placeholders. */
    ghost var namedMarks: nat

    ghost predicate Valid()
      reads this
    {
      Balanced(whereClauses, whereArgs, namedMarks)
    }

    constructor (cls: ClassDesc)
      ensures Valid()
      ensures this.cls == cls && tableName == AnnotatedOrSimpleName(cls)
      ensures whereClauses == [] && whereArgs == [] && namedMarks == 0
    {
      this.cls := cls;
      tableName := AnnotatedOrSimpleName(cls);
      whereClauses := [];
      whereArgs := [];
      namedMarks := 0;
    }

    /** `where()`: a readability no-op that hands back the builder unchanged. */
    method Where() returns (r: DeleteSql)
      ensures r == this
    {
      r := this;
    }

    /** `and()`: a no-op, since the tests are always joined with AND. */
    method And() returns (r: DeleteSql)
      ensures r == this
    {
      r := this;
    }

    /** `or()`: also a no-op; the connector stays AND, so `or()` has no effect on the clause. */
    method Or() returns (r: DeleteSql)
      ensures r == this
    {
      r := this;
    }

    /** `Equals(column, value)`: append `column = ?` and the value's text as its argument. */
    method Equals(column: string, value: FieldValue)
      requires Valid()
      modifies this`whereClauses, this`whereArgs, this`namedMarks
      ensures Valid()
      ensures whereClauses == old(whereClauses) + [Condition(column)]
      ensures whereArgs == old(whereArgs) + [JavaString(value)]
      ensures namedMarks == old(namedMarks) + Occurrences('?', column)
    {
      ghost var clauses, args, marks := whereClauses, whereArgs, namedMarks;
      whereClauses := whereClauses + [column + " = ?"];
      whereArgs := whereArgs + [JavaString(value)];
      namedMarks := namedMarks + Occurrences('?', column);
      EqualsKeepsBalance(clauses, args, marks, column, whereClauses, whereArgs, namedMarks);
    }

    /**
     * `getWhereClause()`: the tests joined by AND, empty when there are none. Without `?` in
     * column names, it holds exactly one placeholder per argument.
     */
    function WhereClause(): (r: string)
      requires Valid()
      reads this
      ensures whereClauses == [] ==> r == ""
      ensures namedMarks == 0 ==> Occurrences('?', r) == |whereArgs|
    {
      JoinOccurrences('?', " AND ", whereClauses);
      Join(" AND ", whereClauses)
    }
  }

  /**
   * `where().Equals(a, x).or().Equals(b, y)` on a fresh builder: because `or()` changes nothing,
   * the two tests still come out joined by AND, with the two values' texts as arguments.
   */
  method OrStillJoinsWithAnd(d: DeleteSql, a: string, x: FieldValue, b: string, y: FieldValue)
    returns (where: string, args: seq<string>)
    requires d.Valid() && d.whereClauses == [] && d.whereArgs == []
    modifies d
    ensures where == a + " = ? AND " + b + " = ?"
    ensures args == [JavaString(x), JavaString(y)]
  {
    var w := d.Where();
    w.Equals(a, x);
    var o := w.Or();
    o.Equals(b, y);
    where := o.WhereClause();
    args := o.whereArgs;
    assert d.whereClauses == [Condition(a), Condition(b)];
    assert Join(" AND ", d.whereClauses) == Join(" AND ", [Condition(a)]) + " AND " + Condition(b);
  }

  /** `DeleteSql.build(type)`: a fresh builder; a null type fails with NullPointerException. */
  method Build(cls: Option<ClassDesc>) returns (r: Result<DeleteSql, Error>)
    ensures r.Err? <==> cls.None?
    ensures r.Err? ==> r.error.NullPointer?
    ensures r.Ok? ==> fresh(r.value) && r.value.Valid() && r.value.cls == cls.value
    ensures r.Ok? ==> r.value.tableName == AnnotatedOrSimpleName(cls.value)
    ensures r.Ok? ==> r.value.whereClauses == [] && r.value.whereArgs == [] && r.value.namedMarks == 0
  {
    if cls.None? {
      return Err(NullPointer);
    }
    var d := new DeleteSql(cls.value);
    r := Ok(d);
  }
}
