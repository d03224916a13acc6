/**
 * lib.persistence.profile.Mapper: the table name and the ordinal-sorted column list of a record
 * class, and the conversion of a record into the ContentValues written to SQLite.
 */
module Mapper {
  import opened Wrappers
  import opened JavaText
  import opened Values
  import opened Schema

  // ---------------------------------------------------------------- table name

  /** `getTableName`: the trimmed `@DbTableAnnotation` name; missing or blank is an IllegalStateException. */
  function GetTableName(cls: ClassDesc): (r: Result<string, Error>)
    ensures r.Ok? <==> cls.tableAnnotation.Some? && !IsBlank(cls.tableAnnotation.value)
    ensures r.Ok? ==> r.value == Trim(cls.tableAnnotation.value) && r.value != [] && IsTrimmed(r.value)
    ensures r.Err? ==> r.error.IllegalState?
  {
    if cls.tableAnnotation.None? || IsBlank(cls.tableAnnotation.value) then
      Err(IllegalState("@DbTableAnnotation(name) is required: " + cls.simpleName))
    else
      Ok(Trim(cls.tableAnnotation.value))
  }

  // ---------------------------------------------------------------- column scan

  /** `toDbDataType`: integers and booleans are INTEGER, floating types REAL, byte[] BLOB, the rest TEXT. */
  function ToDbDataType(t: JavaType): (r: DbDataType)
    ensures r == INTEGER <==> t == IntT || t == LongT || t == BooleanT
    ensures r == REAL <==> t == FloatT || t == DoubleT
    ensures r == BLOB <==> t == ByteArrayT
    ensures r != NUMERIC
  {
    match t
    case IntT | LongT | BooleanT => INTEGER
    case FloatT | DoubleT => REAL
    case ByteArrayT => BLOB
    case _ => TEXT
  }

  /** The DbColumn `scanColumns` makes of an annotated field; the column name defaults to the field name. */
  function ColumnOf(f: FieldDecl): DbColumn
    requires f.column.Some?
  {
    var ann := f.column.value;
    DbColumn(ann.ordinal, f.name, if ann.name == "" then f.name else ann.name, ToDbDataType(f.jtype),
             ann.isPrimaryKey, ann.isIdentity, ann.isNullable, None)
  }

  /** The columns of one class level, in declaration order; fields without the annotation are skipped. */
  function LevelColumns(fields: seq<FieldDecl>): seq<DbColumn>
  {
    if fields == [] then []
    else
      var f := fields[|fields| - 1];
      LevelColumns(fields[..|fields| - 1]) + (if f.column.Some? then [ColumnOf(f)] else [])
  }

  /** The columns of every level, the class itself first and then each superclass. */
  function Scanned(levels: seq<seq<FieldDecl>>): seq<DbColumn>
  {
    if levels == [] then [] else Scanned(levels[..|levels| - 1]) + LevelColumns(levels[|levels| - 1])
  }

  /** `scanColumns`: walk the hierarchy and append a column per annotated field. */
  method ScanColumns(cls: ClassDesc) returns (list: seq<DbColumn>)
    ensures list == Scanned(cls.levels)
  {
    list := [];
    var lv := 0;
    while lv < |cls.levels|
      invariant 0 <= lv <= |cls.levels|
      invariant list == Scanned(cls.levels[..lv])
    {
      var fields := cls.levels[lv];
      var i := 0;
      while i < |fields|
        invariant 0 <= i <= |fields|
        invariant list == Scanned(cls.levels[..lv]) + LevelColumns(fields[..i])
      {
        assert fields[..i + 1][..i] == fields[..i];
        if fields[i].column.Some? {
          list := list + [ColumnOf(fields[i])];
        }
        i := i + 1;
      }
      assert fields[..|fields|] == fields;
      assert cls.levels[..lv + 1][..lv] == cls.levels[..lv];
      lv := lv + 1;
    }
    assert cls.levels[..|cls.levels|] == cls.levels;
  }

  lemma {:induction false} LevelColumnsFromFields(fields: seq<FieldDecl>)
    ensures forall c :: c in LevelColumns(fields) ==> exists f :: f in fields && f.column.Some? && c == ColumnOf(f)
    ensures forall f :: f in fields && f.column.Some? ==> ColumnOf(f) in LevelColumns(fields)
  {
    if fields != [] {
      var init := fields[..|fields| - 1];
      LevelColumnsFromFields(init);
      assert fields == init + [fields[|fields| - 1]];
    }
  }

  /** Exactly the annotated fields of every level become columns, superclass fields included. */
  lemma {:induction false} ScannedFromAnnotatedFields(levels: seq<seq<FieldDecl>>)
    ensures forall c :: c in Scanned(levels) ==>
      exists i, f :: 0 <= i < |levels| && f in levels[i] && f.column.Some? && c == ColumnOf(f)
    ensures forall i, f :: 0 <= i < |levels| && f in levels[i] && f.column.Some? ==> ColumnOf(f) in Scanned(levels)
  {
    if levels != [] {
      var n := |levels| - 1;
      var init := levels[..n];
      ScannedFromAnnotatedFields(init);
      LevelColumnsFromFields(levels[n]);
      assert forall i :: 0 <= i < n ==> init[i] == levels[i];
    }
  }

  // ---------------------------------------------------------------- stable sort by ordinal

  predicate SortedByOrdinal(s: seq<DbColumn>) {
    forall i, j :: 0 <= i < j < |s| ==> s[i].ordinal <= s[j].ordinal
  }

  /** Insert `c` after every element whose ordinal is at most its own. */
  function InsertByOrdinal(c: DbColumn, s: seq<DbColumn>): (r: seq<DbColumn>)
    ensures forall x :: x in r ==> x in s || x == c
  {
    if s == [] || c.ordinal < s[0].ordinal then [c] + s
    else [s[0]] + InsertByOrdinal(c, s[1..])
  }

  /** The order `List.sort(Comparator.comparingInt(DbColumn::getOrdinal))` produces: stable by ordinal. */
  function OrdinalSort(s: seq<DbColumn>): seq<DbColumn>
  {
    if s == [] then [] else InsertByOrdinal(s[|s| - 1], OrdinalSort(s[..|s| - 1]))
  }

  lemma {:induction false} InsertKeepsSorted(c: DbColumn, s: seq<DbColumn>)
    requires SortedByOrdinal(s)
    ensures SortedByOrdinal(InsertByOrdinal(c, s))
  {
    if s != [] && c.ordinal >= s[0].ordinal {
      InsertKeepsSorted(c, s[1..]);
      var r := InsertByOrdinal(c, s[1..]);
      assert forall x :: x in r ==> s[0].ordinal <= x.ordinal;
    }
  }

  lemma {:induction false} InsertPermutes(c: DbColumn, s: seq<DbColumn>)
    ensures multiset(InsertByOrdinal(c, s)) == multiset(s) + multiset{c}
  {
    if s != [] && c.ordinal >= s[0].ordinal {
      InsertPermutes(c, s[1..]);
      assert s == [s[0]] + s[1..];
    }
  }

  lemma {:induction false} OrdinalSortSorted(s: seq<DbColumn>)
    ensures SortedByOrdinal(OrdinalSort(s))
  {
    if s != [] {
      OrdinalSortSorted(s[..|s| - 1]);
      InsertKeepsSorted(s[|s| - 1], OrdinalSort(s[..|s| - 1]));
    }
  }

  lemma {:induction false} OrdinalSortPermutes(s: seq<DbColumn>)
    ensures multiset(OrdinalSort(s)) == multiset(s)
  {
    if s != [] {
      OrdinalSortPermutes(s[..|s| - 1]);
      InsertPermutes(s[|s| - 1], OrdinalSort(s[..|s| - 1]));
      assert s == s[..|s| - 1] + [s[|s| - 1]];
    }
  }

  /** The columns of `s` with ordinal `k`, in their order in `s`. */
  function WithOrdinal(s: seq<DbColumn>, k: int): seq<DbColumn>
  {
    if s == [] then []
    else WithOrdinal(s[..|s| - 1], k) + (if s[|s| - 1].ordinal == k then [s[|s| - 1]] else [])
  }

  lemma {:induction false} WithOrdinalAppend(a: seq<DbColumn>, b: seq<DbColumn>, k: int)
    ensures WithOrdinal(a + b, k) == WithOrdinal(a, k) + WithOrdinal(b, k)
  {
    if b != [] {
      var b' := b[..|b| - 1];
      WithOrdinalAppend(a, b', k);
      assert (a + b)[..|a + b| - 1] == a + b';
      assert (a + b)[|a + b| - 1] == b[|b| - 1];
    } else {
      assert a + b == a;
    }
  }

  lemma {:induction false} WithOrdinalAbove(s: seq<DbColumn>, k: int)
    requires forall x :: x in s ==> x.ordinal > k
    ensures WithOrdinal(s, k) == []
  {
    if s != [] {
      WithOrdinalAbove(s[..|s| - 1], k);
    }
  }

  lemma WithOrdinalSingle(c: DbColumn, k: int)
    ensures WithOrdinal([c], k) == (if c.ordinal == k then [c] else [])
  {
    assert [c][..0] == [];
  }

  /** Inserting a column of another ordinal leaves the columns of ordinal `k` as they were. */
  lemma {:induction false} InsertOtherOrdinal(c: DbColumn, s: seq<DbColumn>, k: int)
    requires c.ordinal != k
    ensures WithOrdinal(InsertByOrdinal(c, s), k) == WithOrdinal(s, k)
  {
    WithOrdinalSingle(c, k);
    if s == [] || c.ordinal < s[0].ordinal {
      WithOrdinalAppend([c], s, k);
    } else {
      InsertOtherOrdinal(c, s[1..], k);
      WithOrdinalAppend([s[0]], InsertByOrdinal(c, s[1..]), k);
      WithOrdinalAppend([s[0]], s[1..], k);
      assert [s[0]] + s[1..] == s;
    }
  }

  /** Every column of a sorted sequence is at least its first. */
  lemma SortedAboveHead(s: seq<DbColumn>, k: int)
    requires SortedByOrdinal(s) && s != [] && s[0].ordinal > k
    ensures forall x :: x in s ==> x.ordinal > k
  {
    forall x | x in s
      ensures x.ordinal > k
    {
      var i :| 0 <= i < |s| && s[i] == x;
      assert i == 0 || s[0].ordinal <= s[i].ordinal;
    }
  }

  /** Inserting a column of ordinal `k` into a sorted sequence puts it after the others of ordinal `k`. */
  lemma {:induction false} InsertSameOrdinal(c: DbColumn, s: seq<DbColumn>)
    requires SortedByOrdinal(s)
    ensures WithOrdinal(InsertByOrdinal(c, s), c.ordinal) == WithOrdinal(s, c.ordinal) + [c]
  {
    var k := c.ordinal;
    WithOrdinalSingle(c, k);
    if s == [] {
      assert InsertByOrdinal(c, s) == [c];
    } else if c.ordinal < s[0].ordinal {
      WithOrdinalAppend([c], s, k);
      SortedAboveHead(s, k);
      WithOrdinalAbove(s, k);
    } else {
      var tail := s[1..];
      assert SortedByOrdinal(tail) by {
        forall i, j | 0 <= i < j < |tail|
          ensures tail[i].ordinal <= tail[j].ordinal
        {
          assert tail[i] == s[i + 1] && tail[j] == s[j + 1];
        }
      }
      InsertSameOrdinal(c, tail);
      WithOrdinalAppend([s[0]], InsertByOrdinal(c, tail), k);
      WithOrdinalAppend([s[0]], tail, k);
      assert [s[0]] + tail == s;
    }
  }

  /** Stability: the columns sharing an ordinal keep their scan order. */
  lemma {:induction false} OrdinalSortStable(s: seq<DbColumn>, k: int)
    ensures WithOrdinal(OrdinalSort(s), k) == WithOrdinal(s, k)
  {
    if s != [] {
      var init := s[..|s| - 1];
      OrdinalSortStable(init, k);
      var last := s[|s| - 1];
      if last.ordinal == k {
        OrdinalSortSorted(init);
        InsertSameOrdinal(last, OrdinalSort(init));
      } else {
        InsertOtherOrdinal(last, OrdinalSort(init), k);
      }
    }
  }

  /** Inserting into a sorted sequence is splicing at the first greater ordinal. */
  lemma {:induction false} InsertSplices(c: DbColumn, s: seq<DbColumn>, j: int)
    requires 0 <= j <= |s|
    requires forall k :: 0 <= k < j ==> s[k].ordinal <= c.ordinal
    requires forall k :: j <= k < |s| ==> s[k].ordinal > c.ordinal
    ensures InsertByOrdinal(c, s) == s[..j] + [c] + s[j..]
  {
    if j > 0 {
      InsertSplices(c, s[1..], j - 1);
      assert s[..j] == [s[0]] + s[1..][..j - 1];
      assert s[j..] == s[1..][j - 1..];
    }
  }

  /** The inner loop of the insertion sort: shift the columns of `a[..i]` greater than `key` one place right. */
  method ShiftGreater(a: array<DbColumn>, i: int, key: DbColumn) returns (j: int)
    requires 0 <= i < a.Length
    modifies a
    ensures 0 <= j <= i
    ensures forall k :: 0 <= k < j ==> a[k] == old(a[k])
    ensures forall k :: j < k <= i ==> a[k] == old(a[k - 1])
    ensures forall k :: j <= k < i ==> old(a[k]).ordinal > key.ordinal
    ensures j > 0 ==> old(a[j - 1]).ordinal <= key.ordinal
    ensures forall k :: i < k < a.Length ==> a[k] == old(a[k])
  {
    j := i;
    while j > 0 && a[j - 1].ordinal > key.ordinal
      invariant 0 <= j <= i
      invariant forall k :: 0 <= k < j ==> a[k] == old(a[k])
      invariant forall k :: j < k <= i ==> a[k] == old(a[k - 1])
      invariant forall k :: j <= k < i ==> old(a[k]).ordinal > key.ordinal
      invariant forall k :: i < k < a.Length ==> a[k] == old(a[k])
    {
      a[j] := a[j - 1];
      j := j - 1;
    }
  }

  /** After the shift, the prefix reads: the smaller columns, the key, the greater columns. */
  lemma ShiftedShape(after: seq<DbColumn>, sorted: seq<DbColumn>, key: DbColumn, i: int, j: int)
    requires 0 <= j <= i < |after| && |sorted| == i
    requires forall k :: 0 <= k < j ==> after[k] == sorted[k]
    requires after[j] == key
    requires forall k :: j < k <= i ==> after[k] == sorted[k - 1]
    ensures after[..i + 1] == sorted[..j] + [key] + sorted[j..]
  {
    forall k | 0 <= k <= i
      ensures after[k] == (sorted[..j] + [key] + sorted[j..])[k]
    {
    }
  }

  /** In a sorted sequence, everything before a position whose predecessor is at most `key` is at most `key`. */
  lemma SortedBelow(sorted: seq<DbColumn>, key: DbColumn, j: int)
    requires SortedByOrdinal(sorted) && 0 <= j <= |sorted|
    requires j > 0 ==> sorted[j - 1].ordinal <= key.ordinal
    ensures forall k :: 0 <= k < j ==> sorted[k].ordinal <= key.ordinal
  {
  }

  /** One step of the insertion sort: make room in the sorted prefix and drop `a[i]` in. */
  method InsertIntoPrefix(a: array<DbColumn>, i: int)
    requires 0 <= i < a.Length && SortedByOrdinal(a[..i])
    modifies a
    ensures a[..i + 1] == InsertByOrdinal(old(a[i]), old(a[..i]))
    ensures a[i + 1..] == old(a[i + 1..])
  {
    ghost var sorted := a[..i];
    ghost var rest := a[i + 1..];
    var key := a[i];
    var j := ShiftGreater(a, i, key);
    a[j] := key;
    SortedBelow(sorted, key, j);
    InsertSplices(key, sorted, j);
    ShiftedShape(a[..], sorted, key, i, j);
    assert a[..][..i + 1] == a[..i + 1];
    assert a[i + 1..] == rest;
  }

  /** Insertion sort of the copied list, in place. */
  method SortColumnsByOrdinal(a: array<DbColumn>)
    modifies a
    ensures a[..] == OrdinalSort(old(a[..]))
  {
    ghost var original := a[..];
    var i := 0;
    while i < a.Length
      invariant 0 <= i <= a.Length
      invariant a[..i] == OrdinalSort(original[..i])
      invariant a[i..] == original[i..]
    {
      OrdinalSortSorted(original[..i]);
      ghost var before := a[..];
      assert before[i] == original[i] && before[i + 1..] == original[i + 1..] by {
        assert before[i..][0] == before[i] && before[i..][1..] == before[i + 1..];
        assert original[i..][0] == original[i] && original[i..][1..] == original[i + 1..];
      }
      InsertIntoPrefix(a, i);
      assert original[..i + 1][..i] == original[..i];
      assert a[i + 1..] == original[i + 1..];
      i := i + 1;
    }
    assert a[..] == a[..a.Length];
    assert original[..a.Length] == original;
  }

  /** The result of `classToDbColumns`: the scanned columns, stably sorted by ordinal. */
  function Columns(cls: ClassDesc): seq<DbColumn>
  {
    OrdinalSort(Scanned(cls.levels))
  }

  /**
   * `classToDbColumns`: copy the scanned list into a fresh array and sort the copy. The caller
   * receives a value, so nothing it does to the result reaches a later call.
   */
  method ClassToDbColumns(cls: ClassDesc) returns (cols: seq<DbColumn>)
    ensures cols == Columns(cls)
  {
    var scanned := ScanColumns(cls);
    var copy := new DbColumn[|scanned|](i requires 0 <= i < |scanned| => scanned[i]);
    assert copy[..] == scanned;
    SortColumnsByOrdinal(copy);
    cols := copy[..];
  }

  /** The column list of a class is sorted, a permutation of the scan, and stable on ties. */
  lemma ColumnsOrder(cls: ClassDesc, k: int)
    ensures SortedByOrdinal(Columns(cls))
    ensures multiset(Columns(cls)) == multiset(Scanned(cls.levels))
    ensures WithOrdinal(Columns(cls), k) == WithOrdinal(Scanned(cls.levels), k)
  {
    OrdinalSortSorted(Scanned(cls.levels));
    OrdinalSortPermutes(Scanned(cls.levels));
    OrdinalSortStable(Scanned(cls.levels), k);
  }

  // ---------------------------------------------------------------- ContentValues

  /** The storage class a column type admits (NULL fits every column). */
  predicate Fits(t: DbDataType, s: StoredValue) {
    s.SNull? ||
    match t
    case INTEGER => s.SInteger?
    case REAL => s.SReal?
    case BLOB => s.SBlob?
    case _ => s.SText?
  }

  /**
   * The value `putInContentValues(cv, col, val)` stores under the column name: null is an explicit
   * NULL; INTEGER takes booleans as 1/0, Numbers by longValue (a double saturates, a BigDecimal or
   * BigInteger wraps) and anything else through Long.parseLong; REAL takes Numbers by doubleValue,
   * anything else through Double.parseDouble; BLOB takes only byte[]; every other type stores
   * text, ISO dates and enum names included.
   */
  function Store(col: DbColumn, v: FieldValue): (r: Result<StoredValue, Error>)
    ensures r.Ok? ==> Fits(col.dataType, r.value)
    ensures r == Ok(SNull) <==> v.Null?
    ensures col.dataType == INTEGER && v.Bool? ==> r == Ok(SInteger(if v.b then 1 else 0))
    ensures col.dataType == INTEGER && v.Integral? ==> r == Ok(SInteger(v.n))
    ensures (col.dataType == INTEGER || col.dataType == REAL) && IsNumber(v) ==> r.Ok?
    ensures col.dataType == INTEGER && (v.Floating? || v.OtherNumber?) && MinLong as real <= v.x <= MaxLong as real ==>
      r.value.SInteger? && -1.0 < v.x - r.value.n as real < 1.0
    ensures col.dataType == REAL && (v.Floating? || v.OtherNumber?) ==> r == Ok(SReal(v.x))
    ensures col.dataType == BLOB ==> (r.Err? <==> !v.Null? && !v.Bytes?)
    ensures col.dataType == BLOB && v.Bytes? ==> r == Ok(SBlob(v.data))
    ensures (col.dataType == TEXT || col.dataType == NUMERIC) ==> r.Ok?
    ensures (col.dataType == TEXT || col.dataType == NUMERIC) && v.EnumConst? ==> r == Ok(SText(v.name))
    ensures r.Err? ==>
      (col.dataType == BLOB && r.error.IllegalArgument?) ||
      ((col.dataType == INTEGER || col.dataType == REAL) && r.error.NumberFormat?)
  {
    if v.Null? then Ok(SNull)
    else
      match col.dataType
      case INTEGER =>
        if v.Bool? then Ok(SInteger(if v.b then 1 else 0))
        else if v.Integral? then Ok(SInteger(v.n))
        else if v.Floating? then Ok(SInteger(TruncateToLong(v.x)))
        else if v.OtherNumber? then Ok(SInteger(WrapToLong(v.x)))
        else
          var parsed := ParseLong(JavaString(v));
          if parsed.Some? then Ok(SInteger(parsed.value)) else Err(NumberFormat(JavaString(v)))
      case REAL =>
        if v.Integral? then Ok(SReal(v.n as real))
        else if v.Floating? || v.OtherNumber? then Ok(SReal(v.x))
        else
          var parsed := ParseDecimal(JavaString(v));
          if parsed.Some? then Ok(SReal(parsed.value)) else Err(NumberFormat(JavaString(v)))
      case BLOB =>
        if v.Bytes? then Ok(SBlob(v.data))
        else Err(IllegalArgument("only byte[] can be written to a BLOB column: " + col.columnName))
      case _ =>
        if v.LocalDate? then Ok(SText(v.iso))
        else if v.LocalDateTime? then Ok(SText(v.iso))
        else if v.EnumConst? then Ok(SText(v.name))
        else Ok(SText(JavaString(v)))
  }

  /**
   * INTEGER columns take a Number by longValue, never by its text: a BigDecimal 3.5 stores 3, and
   * one past the long range wraps to the other end, where a double of the same value saturates.
   */
  lemma NumbersStoreLongValue(col: DbColumn)
    requires col.dataType == INTEGER
    ensures Store(col, OtherNumber(3.5, "3.5")) == Ok(SInteger(3))
    ensures Store(col, OtherNumber(-3.5, "-3.5")) == Ok(SInteger(-3))
    ensures Store(col, OtherNumber((MaxLong + 1) as real, "9223372036854775808")) == Ok(SInteger(MinLong))
    ensures Store(col, Floating((MaxLong + 1) as real, "9.223372036854776E18")) == Ok(SInteger(MaxLong))
  {
    assert TowardZero(3.5) == 3;
    assert TowardZero(-3.5) == -3;
  }

  /** `putInContentValues(cv, col, val)`: the map with the column's entry written and nothing else changed. */
  function PutInContentValues(cv: ContentValues, col: DbColumn, v: FieldValue): (r: Result<ContentValues, Error>)
    ensures r.Ok? <==> Store(col, v).Ok?
    ensures r.Err? ==> r.error == Store(col, v).error
    ensures r.Ok? ==> r.value.Keys == cv.Keys + {col.columnName}
    ensures r.Ok? ==> r.value[col.columnName] == Store(col, v).value
    ensures r.Ok? ==> forall k :: k in cv && k != col.columnName ==> r.value[k] == cv[k]
  {
    var s :- Store(col, v);
    Ok(cv[col.columnName := s])
  }

  /** The ContentValues written by the loop of `objectToContentValues` over `cols`, identity columns skipped. */
  function Fill(cols: seq<DbColumn>, e: Entity): Result<ContentValues, Error>
  {
    if cols == [] then Ok(map[])
    else
      var prev := Fill(cols[..|cols| - 1], e);
      var c := cols[|cols| - 1];
      if prev.Err? || c.isIdentity then prev
      else PutInContentValues(prev.value, c, FieldValueOf(e, c.fieldName))
  }

  /** The ContentValues of an entity. */
  function ContentValuesOf(e: Entity): Result<ContentValues, Error>
  {
    Fill(Columns(e.cls), e)
  }

  /** Once a column fails, the exception ends the loop: the longer prefixes fail the same way. */
  lemma {:induction false} FillErrSticks(cols: seq<DbColumn>, e: Entity, i: nat)
    requires i <= |cols| && Fill(cols[..i], e).Err?
    ensures Fill(cols, e) == Fill(cols[..i], e)
  {
    if i < |cols| {
      assert cols[..|cols| - 1][..i] == cols[..i];
      FillErrSticks(cols[..|cols| - 1], e, i);
    } else {
      assert cols[..i] == cols;
    }
  }

  /** One more column: an identity column leaves the map as it was, any other is put into it. */
  lemma FillStep(cols: seq<DbColumn>, e: Entity, i: nat)
    requires i < |cols| && Fill(cols[..i], e).Ok?
    ensures Fill(cols[..i + 1], e) ==
      if cols[i].isIdentity then Fill(cols[..i], e)
      else PutInContentValues(Fill(cols[..i], e).value, cols[i], FieldValueOf(e, cols[i].fieldName))
  {
    assert cols[..i + 1][..i] == cols[..i];
  }

  /** `objectToContentValues`: a null entity is rejected; otherwise every non-identity column is written. */
  method ObjectToContentValues(entity: Option<Entity>) returns (r: Result<ContentValues, Error>)
    ensures entity.None? ==> r.Err? && r.error.IllegalArgument?
    ensures entity.Some? ==> r == ContentValuesOf(entity.value)
  {
    if entity.None? {
      return Err(IllegalArgument("entity null"));
    }
    var e := entity.value;
    var cols := ClassToDbColumns(e.cls);
    var cv: ContentValues := map[];
    var i := 0;
    while i < |cols|
      invariant 0 <= i <= |cols|
      invariant Fill(cols[..i], e) == Ok(cv)
    {
      var col := cols[i];
      FillStep(cols, e, i);
      if !col.isIdentity {
        var put := PutInContentValues(cv, col, FieldValueOf(e, col.fieldName));
        if put.Err? {
          FillErrSticks(cols, e, i + 1);
          return Err(put.error);
        }
        cv := put.value;
      }
      i := i + 1;
    }
    assert cols[..i] == cols;
    return Ok(cv);
  }

  /** The keys written are exactly the names of the non-identity columns. */
  lemma {:induction false} FillKeys(cols: seq<DbColumn>, e: Entity)
    requires Fill(cols, e).Ok?
    ensures Fill(cols, e).value.Keys == set c | c in cols && !c.isIdentity :: c.columnName
  {
    if cols != [] {
      var init := cols[..|cols| - 1];
      FillKeys(init, e);
      assert cols == init + [cols[|cols| - 1]];
    }
  }

  /** The conversion fails exactly when some non-identity column cannot store its field's value. */
  lemma {:induction false} FillFails(cols: seq<DbColumn>, e: Entity)
    ensures Fill(cols, e).Err? <==> exists c :: c in cols && !c.isIdentity && Store(c, FieldValueOf(e, c.fieldName)).Err?
  {
    if cols != [] {
      var init := cols[..|cols| - 1];
      FillFails(init, e);
      assert cols == init + [cols[|cols| - 1]];
    }
  }

  /** Each non-identity column holds its field's stored value, unless a later column reuses its name. */
  lemma {:induction false} FillValues(cols: seq<DbColumn>, e: Entity, i: int)
    requires Fill(cols, e).Ok?
    requires 0 <= i < |cols| && !cols[i].isIdentity
    requires forall j :: i < j < |cols| && !cols[j].isIdentity ==> cols[j].columnName != cols[i].columnName
    ensures Store(cols[i], FieldValueOf(e, cols[i].fieldName)).Ok?
    ensures cols[i].columnName in Fill(cols, e).value
    ensures Fill(cols, e).value[cols[i].columnName] == Store(cols[i], FieldValueOf(e, cols[i].fieldName)).value
  {
    var init := cols[..|cols| - 1];
    if i < |cols| - 1 {
      FillValues(init, e, i);
    }
  }

  /** An identity column is never written (unless a non-identity column shares its name). */
  lemma IdentityColumnNotWritten(e: Entity, c: DbColumn)
    requires ContentValuesOf(e).Ok?
    requires c in Columns(e.cls) && c.isIdentity
    requires forall d :: d in Columns(e.cls) && !d.isIdentity ==> d.columnName != c.columnName
    ensures c.columnName !in ContentValuesOf(e).value
  {
    FillKeys(Columns(e.cls), e);
  }

  // ---------------------------------------------------------------- lookups

  /** A column answers to a name when its column or field name equals it, ignoring case. */
  predicate NameMatches(c: DbColumn, n: string) {
    EqualsIgnoreCase(c.columnName, n) || EqualsIgnoreCase(c.fieldName, n)
  }

  /** The first column in `cols` that answers to `n`. */
  function FindColumn(cols: seq<DbColumn>, n: string): (r: Option<DbColumn>)
    ensures r.None? <==> forall c :: c in cols ==> !NameMatches(c, n)
    ensures r.Some? ==> exists i :: 0 <= i < |cols| && cols[i] == r.value && NameMatches(cols[i], n)
                                    && forall k :: 0 <= k < i ==> !NameMatches(cols[k], n)
  {
    if cols == [] then None
    else if NameMatches(cols[0], n) then Some(cols[0])
    else
      var r := FindColumn(cols[1..], n);
      assert forall k :: 1 <= k < |cols| ==> cols[k] == cols[1..][k - 1];
      assert cols == [cols[0]] + cols[1..];
      r
  }

  lemma {:induction false} FindColumnFirst(cols: seq<DbColumn>, n: string, i: int)
    requires 0 <= i < |cols| && NameMatches(cols[i], n)
    requires forall k :: 0 <= k < i ==> !NameMatches(cols[k], n)
    ensures FindColumn(cols, n) == Some(cols[i])
  {
    if i > 0 {
      assert !NameMatches(cols[0], n);
      FindColumnFirst(cols[1..], n, i - 1);
    }
  }

  /** The result of `getColumnByName`. */
  function ColumnByName(cls: ClassDesc, name: string): Result<DbColumn, Error>
  {
    if IsBlank(name) then Err(IllegalArgument("column/field name must not be blank"))
    else
      var found := FindColumn(Columns(cls), Trim(name));
      if found.Some? then Ok(found.value)
      else Err(IllegalArgument("column not found: " + name + " (type=" + cls.simpleName + ")"))
  }

  /** `getColumnByName`: scan the ordinal-sorted columns for the trimmed name. */
  method GetColumnByName(cls: ClassDesc, name: string) returns (r: Result<DbColumn, Error>)
    ensures r == ColumnByName(cls, name)
  {
    if IsBlank(name) {
      return Err(IllegalArgument("column/field name must not be blank"));
    }
    var n := Trim(name);
    var cols := ClassToDbColumns(cls);
    var i := 0;
    while i < |cols|
      invariant 0 <= i <= |cols|
      invariant forall k :: 0 <= k < i ==> !NameMatches(cols[k], n)
    {
      if EqualsIgnoreCase(cols[i].columnName, n) || EqualsIgnoreCase(cols[i].fieldName, n) {
        FindColumnFirst(cols, n, i);
        return Ok(cols[i]);
      }
      i := i + 1;
    }
    return Err(IllegalArgument("column not found: " + name + " (type=" + cls.simpleName + ")"));
  }

  /**
   * What `getColumnByName` promises: a blank name and an unknown name are IllegalArgumentExceptions;
   * otherwise the answer is the first column in ordinal order whose column or field name matches.
   */
  lemma ColumnByNameMeaning(cls: ClassDesc, name: string)
    ensures IsBlank(name) ==> ColumnByName(cls, name).Err? && ColumnByName(cls, name).error.IllegalArgument?
    ensures ColumnByName(cls, name).Ok? <==>
      !IsBlank(name) && exists c :: c in Columns(cls) && NameMatches(c, Trim(name))
    ensures ColumnByName(cls, name).Err? ==> ColumnByName(cls, name).error.IllegalArgument?
    ensures ColumnByName(cls, name).Ok? ==>
      exists i :: 0 <= i < |Columns(cls)| && Columns(cls)[i] == ColumnByName(cls, name).value
        && NameMatches(Columns(cls)[i], Trim(name))
        && forall k :: 0 <= k < i ==> !NameMatches(Columns(cls)[k], Trim(name))
  {
  }

  /** The 4-argument `putInContentValues`: find the column by name, then write the value. */
  method PutByName(cv: ContentValues, cls: ClassDesc, columnName: string, v: FieldValue)
    returns (r: Result<ContentValues, Error>)
    ensures ColumnByName(cls, columnName).Err? ==> r == Err(ColumnByName(cls, columnName).error)
    ensures ColumnByName(cls, columnName).Ok? ==> r == PutInContentValues(cv, ColumnByName(cls, columnName).value, v)
  {
    var col := GetColumnByName(cls, columnName);
    if col.Err? {
      return Err(col.error);
    }
    r := PutInContentValues(cv, col.value, v);
  }

  // ---------------------------------------------------------------- primary keys

  /** The primary-key columns of `cols`, in their order. */
  function PrimaryKeys(cols: seq<DbColumn>): seq<DbColumn>
  {
    if cols == [] then []
    else PrimaryKeys(cols[..|cols| - 1]) + (if cols[|cols| - 1].isPrimaryKey then [cols[|cols| - 1]] else [])
  }

  /** `getPrimaryKeyColumns`: the PK columns of the ordinal-sorted list. */
  method GetPrimaryKeyColumns(cls: ClassDesc) returns (pks: seq<DbColumn>)
    ensures pks == PrimaryKeys(Columns(cls))
  {
    var cols := ClassToDbColumns(cls);
    pks := [];
    var i := 0;
    while i < |cols|
      invariant 0 <= i <= |cols|
      invariant pks == PrimaryKeys(cols[..i])
    {
      assert cols[..i + 1][..i] == cols[..i];
      if cols[i].isPrimaryKey {
        pks := pks + [cols[i]];
      }
      i := i + 1;
    }
    assert cols[..i] == cols;
  }

  /** Exactly the PK columns are kept; none when the class has none. */
  lemma {:induction false} PrimaryKeysMembers(cols: seq<DbColumn>)
    ensures forall c :: c in PrimaryKeys(cols) <==> c in cols && c.isPrimaryKey
    ensures PrimaryKeys(cols) == [] <==> forall c :: c in cols ==> !c.isPrimaryKey
  {
    if cols != [] {
      var init := cols[..|cols| - 1];
      PrimaryKeysMembers(init);
      assert cols == init + [cols[|cols| - 1]];
    }
  }

  /** Keeping the PK columns of a sorted list keeps it sorted. */
  lemma {:induction false} PrimaryKeysSorted(cols: seq<DbColumn>)
    requires SortedByOrdinal(cols)
    ensures SortedByOrdinal(PrimaryKeys(cols))
  {
    if cols != [] {
      var init := cols[..|cols| - 1];
      var last := cols[|cols| - 1];
      assert SortedByOrdinal(init);
      PrimaryKeysSorted(init);
      PrimaryKeysMembers(init);
      assert forall c :: c in init ==> c.ordinal <= last.ordinal;
    }
  }

  /** The primary keys of a class come in ordinal order. */
  lemma PrimaryKeysOfClass(cls: ClassDesc)
    ensures SortedByOrdinal(PrimaryKeys(Columns(cls)))
    ensures forall c :: c in PrimaryKeys(Columns(cls)) <==> c in Columns(cls) && c.isPrimaryKey
  {
    OrdinalSortSorted(Scanned(cls.levels));
    PrimaryKeysSorted(Columns(cls));
    PrimaryKeysMembers(Columns(cls));
  }
}
