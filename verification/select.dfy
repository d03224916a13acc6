/**
 * lib.persistence.command.query.Select: a fluent builder of a SELECT statement with a column
 * list, AND-joined WHERE tests bound to `?` placeholders, ORDER BY items and LIMIT/OFFSET.
 */
module SelectBuilder {
  import opened Wrappers
  import opened JavaText
  import opened Values
  import opened Schema
  import Mapper

  /** The comparison operators `addCondition` is called with. */
  datatype Comparison = Equal | NotEqual | Like | GreaterThan | LessThan | GreaterOrEqual | LessOrEqual

  function Operator(op: Comparison): (r: string)
    ensures '?' !in r && r != []
  {
    match op
    case Equal => "="
    case NotEqual => "!="
    case Like => "LIKE"
    case GreaterThan => ">"
    case LessThan => "<"
    case GreaterOrEqual => ">="
    case LessOrEqual => "<="
  }

  /** `column + " " + operator + " ?"`. */
  function Test(column: string, op: Comparison): string {
    column + " " + Operator(op) + " ?"
  }

  /** The tests `IsNull` and `IsNotNull` add. */
  function NullTest(column: string): string {
    column + " IS NULL"
  }

  function NotNullTest(column: string): string {
    column + " IS NOT NULL"
  }

  lemma NullTestsHaveNoPlaceholder(column: string)
    ensures Occurrences('?', NullTest(column)) == Occurrences('?', column)
    ensures Occurrences('?', NotNullTest(column)) == Occurrences('?', column)
  {
    assert Occurrences('?', NullTest(column)) == Occurrences('?', column) by {
      SuffixMarks(column, " IS NULL");
    }
    SuffixMarks(column, " IS NOT NULL");
  }

  /** The text of the WHERE part: nothing, or the tests joined by AND. */
  function WherePart(clauses: seq<string>): string {
    if clauses == [] then "" else " WHERE " + Join(" AND ", clauses)
  }

  /** The text of the ORDER BY part: nothing, or the items joined by commas. */
  function OrderPart(items: seq<string>): string {
    if items == [] then "" else " ORDER BY " + Join(", ", items)
  }

  /** LIMIT only when a count was given; OFFSET only beside it and only when positive. */
  function LimitPart(count: Option<int>, offset: Option<int>): string {
    if count.None? then ""
    else if offset.Some? && offset.value > 0 then " LIMIT " + IntToString(count.value) + " OFFSET " + IntToString(offset.value)
    else " LIMIT " + IntToString(count.value)
  }

  /** The statement `getQuery` assembles. */
  function QueryText(columns: seq<string>, table: string, clauses: seq<string>, items: seq<string>,
                     count: Option<int>, offset: Option<int>): string {
    "SELECT " + Join(", ", columns) + " FROM " + table + WherePart(clauses) + OrderPart(items) + LimitPart(count, offset)
  }

  /** The column list `select(columns...)` leaves: `*` for a null or empty list. */
  function SelectedColumns(columns: Option<seq<string>>): (r: seq<string>)
    ensures r != []
    ensures columns.Some? && columns.value != [] ==> r == columns.value
  {
    if columns.None? || columns.value == [] then ["*"] else columns.value
  }

  lemma TestMarks(column: string, op: Comparison)
    ensures Occurrences('?', Test(column, op)) == Occurrences('?', column) + 1
  {
    var mid := " " + Operator(op);
    assert '?' !in mid;
    assert Test(column, op) == (column + mid) + " ?";
    assert Occurrences('?', column + mid) == Occurrences('?', column) by {
      SuffixMarks(column, mid);
    }
    assert Occurrences('?', " ?") == 1 by {
      assert " ?" == " " + "?";
      OccurrencesConcat('?', " ", "?");
      NoOccurrence('?', " ");
      SingleOccurrence('?');
    }
    OccurrencesConcat('?', column + mid, " ?");
  }

  lemma SuffixMarks(column: string, suffix: string)
    requires '?' !in suffix
    ensures Occurrences('?', column + suffix) == Occurrences('?', column)
  {
    OccurrencesConcat('?', column, suffix);
    NoOccurrence('?', suffix);
  }

  /** Text that starts with a `?`-free head adds only what its tail holds. */
  lemma PrefixMarks(head: string, tail: string)
    requires '?' !in head
    ensures Occurrences('?', head + tail) == Occurrences('?', tail)
  {
    OccurrencesConcat('?', head, tail);
    NoOccurrence('?', head);
  }

  lemma NumberHasNoMark(n: int)
    ensures '?' !in IntToString(n)
  {
    var s := IntToString(n);
    assert forall i :: 0 <= i < |s| ==> s[i] != '?';
  }

  lemma WherePartMarks(clauses: seq<string>)
    ensures Occurrences('?', WherePart(clauses)) == OccurrencesIn('?', clauses)
  {
    if clauses != [] {
      JoinOccurrences('?', " AND ", clauses);
      PrefixMarks(" WHERE ", Join(" AND ", clauses));
    }
  }

  lemma OrderPartMarks(items: seq<string>)
    ensures Occurrences('?', OrderPart(items)) == OccurrencesIn('?', items)
  {
    if items != [] {
      JoinOccurrences('?', ", ", items);
      PrefixMarks(" ORDER BY ", Join(", ", items));
    }
  }

  lemma LimitPartMarks(count: Option<int>, offset: Option<int>)
    ensures Occurrences('?', LimitPart(count, offset)) == 0
  {
    if count.Some? {
      NumberHasNoMark(count.value);
      var limit := " LIMIT " + IntToString(count.value);
      assert '?' !in limit;
      if offset.Some? && offset.value > 0 {
        NumberHasNoMark(offset.value);
        assert '?' !in limit + " OFFSET " + IntToString(offset.value);
      }
    }
    NoOccurrence('?', LimitPart(count, offset));
  }

  lemma SelectListMarks(columns: seq<string>)
    ensures Occurrences('?', "SELECT " + Join(", ", columns)) == OccurrencesIn('?', columns)
  {
    JoinOccurrences('?', ", ", columns);
    PrefixMarks("SELECT ", Join(", ", columns));
  }

  lemma HeadMarks(columns: seq<string>, table: string)
    ensures Occurrences('?', "SELECT " + Join(", ", columns) + " FROM " + table)
      == OccurrencesIn('?', columns) + Occurrences('?', table)
  {
    var list := "SELECT " + Join(", ", columns);
    SelectListMarks(columns);
    assert Occurrences('?', list + " FROM ") == Occurrences('?', list) by {
      SuffixMarks(list, " FROM ");
    }
    OccurrencesConcat('?', list + " FROM ", table);
  }

  /**
   * Every `?` of the statement is a placeholder of a WHERE test or came in with a selected
   * column, the table name or an ORDER BY item.
   */
  lemma QueryMarks(columns: seq<string>, table: string, clauses: seq<string>, items: seq<string>,
                   count: Option<int>, offset: Option<int>)
    ensures Occurrences('?', QueryText(columns, table, clauses, items, count, offset))
      == OccurrencesIn('?', columns) + Occurrences('?', table) + OccurrencesIn('?', clauses) + OccurrencesIn('?', items)
  {
    var head := "SELECT " + Join(", ", columns) + " FROM " + table;
    var w, o, l := WherePart(clauses), OrderPart(items), LimitPart(count, offset);
    assert QueryText(columns, table, clauses, items, count, offset) == head + w + o + l;
    assert Occurrences('?', head) == OccurrencesIn('?', columns) + Occurrences('?', table) by {
      HeadMarks(columns, table);
    }
    assert Occurrences('?', w) == OccurrencesIn('?', clauses) by {
      WherePartMarks(clauses);
    }
    assert Occurrences('?', o) == OccurrencesIn('?', items) by {
      OrderPartMarks(items);
    }
    assert Occurrences('?', l) == 0 by {
      LimitPartMarks(count, offset);
    }
    OccurrencesConcat('?', head, w);
    OccurrencesConcat('?', head + w, o);
    OccurrencesConcat('?', head + w + o, l);
  }

  /** With a count, the statement ends in LIMIT count, followed by OFFSET only for a positive offset. */
  lemma LimitEndsQuery(columns: seq<string>, table: string, clauses: seq<string>, items: seq<string>,
                       count: int, offset: Option<int>)
    ensures var q := QueryText(columns, table, clauses, items, Some(count), offset);
      if offset.Some? && offset.value > 0
      then EndsWith(q, " LIMIT " + IntToString(count) + " OFFSET " + IntToString(offset.value))
      else EndsWith(q, " LIMIT " + IntToString(count))
  {
    var body := "SELECT " + Join(", ", columns) + " FROM " + table + WherePart(clauses) + OrderPart(items);
    var tail := LimitPart(Some(count), offset);
    assert QueryText(columns, table, clauses, items, Some(count), offset) == body + tail;
    assert (body + tail)[|body + tail| - |tail|..] == tail;
  }

  /** Without a count there is neither LIMIT nor OFFSET, whatever the offset. */
  lemma NoCountNoLimit(columns: seq<string>, table: string, clauses: seq<string>, items: seq<string>, offset: Option<int>)
    ensures QueryText(columns, table, clauses, items, None, offset) == QueryText(columns, table, clauses, items, None, None)
    ensures QueryText(columns, table, clauses, items, None, offset)
      == "SELECT " + Join(", ", columns) + " FROM " + table + WherePart(clauses) + OrderPart(items)
  {
    assert LimitPart(None, offset) == "";
  }

  /** A builder just made by `from` selects every column of the table and nothing else. */
  lemma FreshQuery(table: string)
    ensures QueryText(["*"], table, [], [], None, None) == "SELECT * FROM " + table
  {
    assert Join(", ", ["*"]) == "*";
  }

  /** The clauses hold one placeholder per argument besides the `?` that came in with column names. */
  ghost predicate Balanced(clauses: seq<string>, args: seq<string>, marks: nat) {
    OccurrencesIn('?', clauses) == |args| + marks
  }

  lemma AddConditionKeepsBalance(clauses: seq<string>, args: seq<string>, marks: nat, column: string, op: Comparison,
                                 clauses': seq<string>, args': seq<string>, marks': nat)
    requires Balanced(clauses, args, marks)
    requires clauses' == clauses + [Test(column, op)] && |args'| == |args| + 1
    requires marks' == marks + Occurrences('?', column)
    ensures Balanced(clauses', args', marks')
  {
    TestMarks(column, op);
    OccurrencesInAppend('?', clauses, Test(column, op));
  }

  lemma NullTestKeepsBalance(clauses: seq<string>, args: seq<string>, marks: nat, column: string, test: string,
                             clauses': seq<string>, marks': nat)
    requires Balanced(clauses, args, marks)
    requires test == NullTest(column) || test == NotNullTest(column)
    requires clauses' == clauses + [test]
    requires marks' == marks + Occurrences('?', column)
    ensures Balanced(clauses', args, marks')
  {
    NullTestsHaveNoPlaceholder(column);
    OccurrencesInAppend('?', clauses, test);
  }

  class Select {
    const cls: ClassDesc
    const tableName: string
    var whereClauses: seq<string>
    var whereArgs: seq<string>
    var orderByClauses: seq<string>
    var columnsToSelect: seq<string>
    var limitCount: Option<int>
    var limitOffset: Option<int>
    /** The `?` characters that arrived inside column names rather than as placeholders. */
    ghost var namedMarks: nat

    /** Some column is always selected, offset and count are set together, and every placeholder has its argument. */
    ghost predicate Valid()
      reads this
    {
      columnsToSelect != []
      && (limitCount.Some? <==> limitOffset.Some?)
      && Balanced(whereClauses, whereArgs, namedMarks)
    }

    /**
     * The statement as it stands. Its `?` are the placeholders of the arguments plus any that
     * came in with the selected columns, the table name, the WHERE columns or the ORDER BY items.
     */
    function Query(): (q: string)
      requires Valid()
      reads this
      ensures Occurrences('?', q) == |whereArgs| + namedMarks + OccurrencesIn('?', columnsToSelect)
        + Occurrences('?', tableName) + OccurrencesIn('?', orderByClauses)
    {
      QueryMarks(columnsToSelect, tableName, whereClauses, orderByClauses, limitCount, limitOffset);
      QueryText(columnsToSelect, tableName, whereClauses, orderByClauses, limitCount, limitOffset)
    }

    constructor (cls: ClassDesc)
      ensures Valid()
      ensures this.cls == cls && tableName == AnnotatedOrSimpleName(cls)
      ensures columnsToSelect == ["*"] && whereClauses == [] && whereArgs == [] && orderByClauses == []
      ensures limitCount.None? && limitOffset.None? && namedMarks == 0
    {
      this.cls := cls;
      tableName := AnnotatedOrSimpleName(cls);
      whereClauses := [];
      whereArgs := [];
      orderByClauses := [];
      columnsToSelect := ["*"];
      limitCount := None;
      limitOffset := None;
      namedMarks := 0;
    }

    /** `select(columns...)`: replace the column list; a null or empty list selects `*`. */
    method SelectColumns(columns: Option<seq<string>>)
      requires Valid()
      modifies this`columnsToSelect
      ensures Valid()
      ensures columnsToSelect == SelectedColumns(columns)
    {
      if columns.Some? && columns.value != [] {
        columnsToSelect := columns.value;
      } else {
        columnsToSelect := ["*"];
      }
    }

    /** `where()`: a readability no-op that hands back the builder unchanged. */
    method Where() returns (r: Select)
      ensures r == this
    {
      r := this;
    }

    /** `And()`: a no-op, since the tests are always joined with AND. */
    method And() returns (r: Select)
      ensures r == this
    {
      r := this;
    }

    /** `addCondition(column, operator, value)`: one test with its placeholder and the value's text. */
    method AddCondition(column: string, op: Comparison, value: FieldValue)
      requires Valid()
      modifies this`whereClauses, this`whereArgs, this`namedMarks
      ensures Valid()
      ensures whereClauses == old(whereClauses) + [Test(column, op)]
      ensures whereArgs == old(whereArgs) + [JavaString(value)]
      ensures namedMarks == old(namedMarks) + Occurrences('?', column)
    {
      ghost var clauses, args, marks := whereClauses, whereArgs, namedMarks;
      whereClauses := whereClauses + [column + " " + Operator(op) + " ?"];
      whereArgs := whereArgs + [JavaString(value)];
      namedMarks := namedMarks + Occurrences('?', column);
      AddConditionKeepsBalance(clauses, args, marks, column, op, whereClauses, whereArgs, namedMarks);
    }

    /** `IsNull(column)`: a test without a placeholder and without an argument. */
    method IsNull(column: string)
      requires Valid()
      modifies this`whereClauses, this`namedMarks
      ensures Valid()
      ensures whereClauses == old(whereClauses) + [NullTest(column)]
      ensures namedMarks == old(namedMarks) + Occurrences('?', column)
    {
      ghost var clauses, marks := whereClauses, namedMarks;
      whereClauses := whereClauses + [column + " IS NULL"];
      namedMarks := namedMarks + Occurrences('?', column);
      NullTestKeepsBalance(clauses, whereArgs, marks, column, NullTest(column), whereClauses, namedMarks);
    }

    /** `IsNotNull(column)`: a test without a placeholder and without an argument. */
    method IsNotNull(column: string)
      requires Valid()
      modifies this`whereClauses, this`namedMarks
      ensures Valid()
      ensures whereClauses == old(whereClauses) + [NotNullTest(column)]
      ensures namedMarks == old(namedMarks) + Occurrences('?', column)
    {
      ghost var clauses, marks := whereClauses, namedMarks;
      whereClauses := whereClauses + [column + " IS NOT NULL"];
      namedMarks := namedMarks + Occurrences('?', column);
      NullTestKeepsBalance(clauses, whereArgs, marks, column, NotNullTest(column), whereClauses, namedMarks);
    }

    /** `orderBy(column)`: ascending. */
    method OrderBy(column: string)
      requires Valid()
      modifies this`orderByClauses
      ensures Valid()
      ensures orderByClauses == old(orderByClauses) + [column + " ASC"]
    {
      orderByClauses := orderByClauses + [column + " ASC"];
    }

    /** `orderByDesc(column)`: descending. */
    method OrderByDesc(column: string)
      requires Valid()
      modifies this`orderByClauses
      ensures Valid()
      ensures orderByClauses == old(orderByClauses) + [column + " DESC"]
    {
      orderByClauses := orderByClauses + [column + " DESC"];
    }

    /** `limit(offset, count)`: both are recorded; the last call wins. */
    method LimitFrom(offset: int, count: int)
      requires Valid()
      modifies this`limitOffset, this`limitCount
      ensures Valid()
      ensures limitOffset == Some(offset) && limitCount == Some(count)
    {
      limitOffset := Some(offset);
      limitCount := Some(count);
    }

    /** `limit(count)`: a limit from the first row, which the statement renders without OFFSET. */
    method Limit(count: int)
      requires Valid()
      modifies this`limitOffset, this`limitCount
      ensures Valid()
      ensures limitOffset == Some(0) && limitCount == Some(count)
      ensures LimitPart(limitCount, limitOffset) == " LIMIT " + IntToString(count)
    {
      LimitFrom(0, count);
    }

    /**
     * `getQuery()`: SELECT, the columns, FROM and the table, then WHERE, ORDER BY and LIMIT
     * parts when they have content.
     */
    method GetQuery() returns (q: string)
      requires Valid()
      ensures q == Query()
    {
      q := "SELECT ";
      q := q + Join(", ", columnsToSelect);
      q := q + " FROM " + tableName;
      ghost var upToTable := q;
      if whereClauses != [] {
        q := q + " WHERE ";
        q := q + Join(" AND ", whereClauses);
        ConcatAssoc(upToTable, " WHERE ", Join(" AND ", whereClauses));
      }
      assert q == upToTable + WherePart(whereClauses);
      ghost var upToWhere := q;
      if orderByClauses != [] {
        q := q + " ORDER BY ";
        q := q + Join(", ", orderByClauses);
        ConcatAssoc(upToWhere, " ORDER BY ", Join(", ", orderByClauses));
      }
      assert q == upToWhere + OrderPart(orderByClauses);
      ghost var upToOrder := q;
      if limitCount.Some? {
        var count := IntToString(limitCount.value);
        q := q + " LIMIT " + count;
        ConcatAssoc(upToOrder, " LIMIT ", count);
        if limitOffset.Some? && limitOffset.value > 0 {
          var offset := IntToString(limitOffset.value);
          q := q + " OFFSET " + offset;
          ConcatAssoc(upToOrder, " LIMIT " + count, " OFFSET ");
          ConcatAssoc(upToOrder, " LIMIT " + count + " OFFSET ", offset);
        }
      }
      assert q == upToOrder + LimitPart(limitCount, limitOffset);
    }
  }

  /**
   * As written, `addCondition` binds a boolean as `String.valueOf`, "true" or "false", while an
   * INTEGER column stores a boolean as 1 or 0: the argument is never the text of the stored value,
   * so `column = ?` with a boolean matches no row.
   */
  lemma BooleanArgMissesStoredValue(col: DbColumn, b: bool)
    requires col.dataType == INTEGER
    ensures Mapper.Store(col, Bool(b)) == Ok(SInteger(if b then 1 else 0))
    ensures JavaString(Bool(b)) != IntToString(if b then 1 else 0)
  {
    var n := if b then 1 else 0;
    assert IntToString(n)[0] in "01";
  }

  /** The argument text a value should bind as: a boolean as "1" or "0", anything else by `String.valueOf`. */
  function BoundArg(v: FieldValue): (r: string)
    ensures v.Bool? ==> r == IntToString(if v.b then 1 else 0)
    ensures !v.Bool? ==> r == JavaString(v)
  {
    if v.Bool? then (if v.b then "1" else "0") else JavaString(v)
  }

  /** Bound that way, a boolean or integral argument is the text of the integer an INTEGER column stores for it. */
  lemma BoundArgMatchesStored(col: DbColumn, v: FieldValue)
    requires col.dataType == INTEGER && (v.Bool? || v.Integral?)
    ensures Mapper.Store(col, v).Ok? && Mapper.Store(col, v).value.SInteger?
    ensures BoundArg(v) == IntToString(Mapper.Store(col, v).value.n)
  {
  }

  /** `Select.from(type)`: a fresh builder; a null type fails with NullPointerException. */
  method From(cls: Option<ClassDesc>) returns (r: Result<Select, Error>)
    ensures r.Err? <==> cls.None?
    ensures r.Err? ==> r.error.NullPointer?
    ensures r.Ok? ==> fresh(r.value) && r.value.Valid() && r.value.cls == cls.value
    ensures r.Ok? ==> r.value.tableName == AnnotatedOrSimpleName(cls.value)
    ensures r.Ok? ==> r.value.Query() == "SELECT * FROM " + AnnotatedOrSimpleName(cls.value) && r.value.whereArgs == []
  {
    if cls.None? {
      return Err(NullPointer);
    }
    var s := new Select(cls.value);
    FreshQuery(s.tableName);
    r := Ok(s);
  }
}
