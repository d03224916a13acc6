/** lib.persistence.SqlNames: identifier quoting and validation for generated SQL. */
module SqlNames {
  import opened Wrappers
  import opened JavaText
  import opened Values

  /** Text qId passes through untouched: it already holds a call, a space or a quote. */
  predicate IsVerbatim(s: string) {
    '(' in s || ' ' in s || '`' in s || '"' in s
  }

  /** `qId`: trim, then wrap in backticks unless the text is verbatim. */
  function QId(id: string): (r: string)
    ensures IsVerbatim(Trim(id)) ==> r == Trim(id)
    ensures !IsVerbatim(Trim(id)) ==> |r| == |Trim(id)| + 2 && r[0] == '`' && r[|r| - 1] == '`'
    ensures !IsVerbatim(Trim(id)) ==> r == "`" + Trim(id) + "`"
  {
    var s := Trim(id);
    if IsVerbatim(s) then s else "`" + s + "`"
  }

  /** Quoting twice is quoting once: the output is trimmed and, when wrapped, verbatim. */
  lemma QIdIdempotent(id: string)
    ensures QId(QId(id)) == QId(id)
  {
    var s := Trim(id);
    if IsVerbatim(s) {
      TrimmedIsFixpoint(s);
    } else {
      BackquotedIsFixpoint(s);
    }
  }

  /** Surrounding whitespace never matters: qId quotes the trimmed text. */
  lemma QIdIgnoresBlanks(id: string)
    ensures QId(id) == QId(Trim(id))
  {
    TrimmedIsFixpoint(Trim(id));
  }

  /** Text already wrapped in backticks is left alone. */
  lemma BackquotedIsFixpoint(s: string)
    ensures QId("`" + s + "`") == "`" + s + "`"
  {
    var q := "`" + s + "`";
    assert q[0] == '`' && q[|q| - 1] == '`';
    TrimmedIsFixpoint(q);
    assert q[0] in q;
  }

  /** A plain name (trimmed, nothing verbatim in it) comes back as exactly `name`. */
  lemma QIdOfPlainName(name: string)
    requires IsTrimmed(name) && !IsVerbatim(name)
    ensures QId(name) == "`" + name + "`"
  {
    TrimmedIsFixpoint(name);
  }

  /** The first dot of `c` is at position `p`. */
  predicate FirstDotAt(c: string, p: int) {
    0 <= p < |c| && c[p] == '.' && '.' !in c[..p]
  }

  /** IndexOf finds the first dot, wherever it is. */
  lemma FirstDotIsIndexOf(c: string)
    ensures forall p :: FirstDotAt(c, p) ==> IndexOf(c, '.') == p
  {
    forall p | FirstDotAt(c, p)
      ensures IndexOf(c, '.') == p
    {
      var r := IndexOf(c, '.');
      assert '.' in c;
      assert forall k :: 0 <= k < p ==> c[..p][k] == c[k];
      assert forall k :: 0 <= k < r ==> c[..r][k] == c[k];
    }
  }

  /**
   * `qCol`: the trimmed text `*` stays `*`; a text without a dot, or whose first dot is its
   * first or last character, goes through qId whole. QColCutsAtFirstDot gives the other case.
   */
  function QCol(col: string): (r: string)
    ensures Trim(col) == "*" ==> r == "*"
    ensures Trim(col) != "*" && ('.' !in Trim(col) || Trim(col)[0] == '.' || FirstDotAt(Trim(col), |Trim(col)| - 1)) ==>
      r == QId(Trim(col))
  {
    var c := Trim(col);
    FirstDotIsIndexOf(c);
    if c == "*" then "*"
    else
      var dot := IndexOf(c, '.');
      if 0 < dot < |c| - 1 then QId(c[..dot]) + "." + QId(c[dot + 1..]) else QId(c)
  }

  /** A text whose first dot is strictly inside it is cut there, and both sides go through qId. */
  lemma QColCutsAtFirstDot(col: string, p: int)
    requires Trim(col) != "*" && 0 < p < |Trim(col)| - 1 && FirstDotAt(Trim(col), p)
    ensures QCol(col) == QId(Trim(col)[..p]) + "." + QId(Trim(col)[p + 1..])
  {
    FirstDotIsIndexOf(Trim(col));
  }

  /** A plain name: trimmed, non-empty, with no dot, no `*` and nothing verbatim. */
  predicate IsPlainName(s: string) {
    s != [] && IsTrimmed(s) && !IsVerbatim(s) && '.' !in s && s != "*"
  }

  lemma QColOfPlainName(name: string)
    requires IsPlainName(name)
    ensures QCol(name) == "`" + name + "`"
  {
    TrimmedIsFixpoint(name);
  }

  lemma DotOfDottedName(table: string, column: string)
    requires IsPlainName(table) && IsPlainName(column)
    ensures FirstDotAt(table + "." + column, |table|)
  {
    var c := table + "." + column;
    assert c[..|table|] == table;
  }

  lemma DottedNameIsTrimmed(table: string, column: string)
    requires IsPlainName(table) && IsPlainName(column)
    ensures IsTrimmed(table + "." + column)
  {
    var c := table + "." + column;
    assert c[0] == table[0] && c[|c| - 1] == column[|column| - 1];
  }

  /** qCol cuts `table.column` at its dot and quotes the two sides. */
  lemma QColSplitsDottedName(table: string, column: string)
    requires IsPlainName(table) && IsPlainName(column)
    ensures QCol(table + "." + column) == QId(table) + "." + QId(column)
  {
    var c := table + "." + column;
    DotOfDottedName(table, column);
    DottedNameIsTrimmed(table, column);
    TrimmedIsFixpoint(c);
    assert c != "*";
    QColCutsAtFirstDot(c, |table|);
    assert c[..|table|] == table && c[|table| + 1..] == column;
  }

  /** Two plain names quoted and joined by a dot. */
  lemma QuotedPair(table: string, column: string)
    requires IsPlainName(table) && IsPlainName(column)
    ensures QId(table) + "." + QId(column) == "`" + table + "`.`" + column + "`"
  {
    QIdOfPlainName(table);
    QIdOfPlainName(column);
    assert ("`" + table + "`") + "." + ("`" + column + "`") == "`" + table + "`.`" + column + "`";
  }

  /** `table.column` with two plain names comes back as `table`.`column`, each side in backticks. */
  lemma QColOfDottedName(table: string, column: string)
    requires IsPlainName(table) && IsPlainName(column)
    ensures QCol(table + "." + column) == "`" + table + "`.`" + column + "`"
  {
    QColSplitsDottedName(table, column);
    QuotedPair(table, column);
  }

  /** qId adds nothing but backticks. */
  lemma QIdChars(id: string)
    ensures forall ch :: ch in QId(id) ==> ch in id || ch == '`'
  {
    TrimChars(id);
  }

  /** qCol adds nothing but backticks and keeps only characters of its input. */
  lemma QColChars(col: string)
    ensures forall ch :: ch in QCol(col) ==> ch in col || ch == '`'
  {
    var c := Trim(col);
    TrimChars(col);
    if c != "*" {
      var dot := IndexOf(c, '.');
      if 0 < dot < |c| - 1 {
        QIdChars(c[..dot]);
        QIdChars(c[dot + 1..]);
        assert forall ch :: ch in c[..dot] || ch in c[dot + 1..] || ch == '.' ==> ch in c;
      } else {
        QIdChars(c);
      }
    }
  }

  lemma QColOfStar(col: string)
    requires Trim(col) == "*"
    ensures QCol(col) == "*"
  {
  }

  predicate IsIdentStart(c: char) { 'A' <= c <= 'Z' || 'a' <= c <= 'z' || c == '_' }

  predicate IsIdentPart(c: char) { IsIdentStart(c) || '0' <= c <= '9' }

  /** The language of `[A-Za-z_][A-Za-z0-9_]*`, stated declaratively. */
  predicate IsSafeIdentifier(s: string) {
    |s| >= 1 && IsIdentStart(s[0]) && forall i :: 1 <= i < |s| ==> IsIdentPart(s[i])
  }

  /** The tail `[A-Za-z0-9_]*` of the pattern, matched character by character. */
  function MatchesIdentTail(s: string): (r: bool)
    ensures r <==> forall i :: 0 <= i < |s| ==> IsIdentPart(s[i])
  {
    if s == [] then true
    else
      var rest := MatchesIdentTail(s[1..]);
      assert forall i :: 1 <= i < |s| ==> s[i] == s[1..][i - 1];
      IsIdentPart(s[0]) && rest
  }

  /** `String.matches("[A-Za-z_][A-Za-z0-9_]*")`, scanning the way a regex matcher does. */
  function MatchesIdentifierPattern(s: string): (r: bool)
    ensures r <==> IsSafeIdentifier(s)
  {
    if s == [] then false
    else
      var tail := MatchesIdentTail(s[1..]);
      assert forall i :: 1 <= i < |s| ==> s[i] == s[1..][i - 1];
      IsIdentStart(s[0]) && tail
  }

  /** `safeId`: the trimmed identifier if it matches the pattern, else IllegalArgumentException. */
  function SafeId(id: string): (r: Result<string, Error>)
    ensures r.Ok? <==> IsSafeIdentifier(Trim(id))
    ensures r.Ok? ==> r.value == Trim(id)
    ensures r.Err? ==> r.error.IllegalArgument?
  {
    var trimmed := Trim(id);
    if MatchesIdentifierPattern(trimmed) then Ok(trimmed)
    else Err(IllegalArgument("Invalid identifier: " + id))
  }

  lemma SafeIdIdempotent(id: string)
    requires SafeId(id).Ok?
    ensures SafeId(SafeId(id).value) == SafeId(id)
  {
    TrimmedIsFixpoint(Trim(id));
  }

  /** An identifier safeId accepts is one qId wraps in backticks. */
  lemma SafeIdentifierIsQuoted(id: string)
    requires IsSafeIdentifier(id)
    ensures QId(id) == "`" + id + "`"
  {
    assert IsTrimmed(id);
    assert forall i :: 0 <= i < |id| ==> IsIdentPart(id[i]);
    assert !IsVerbatim(id);
    QIdOfPlainName(id);
  }
}
