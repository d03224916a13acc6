/**
 * The java.lang.String behaviour the persistence layer relies on: trim, blank tests,
 * joining, decimal rendering and parsing of integers, and ASCII case-insensitive equality.
 */
module JavaText {
  import opened Wrappers

  const MinLong: int := -0x8000_0000_0000_0000
  const MaxLong: int := 0x7fff_ffff_ffff_ffff

  /** String.trim() removes every leading and trailing character whose code is at most U+0020. */
  predicate IsTrimmedAway(c: char) { c <= ' ' }

  function TrimStart(s: string): (r: string)
    ensures |r| <= |s|
    ensures r == [] || !IsTrimmedAway(r[0])
  {
    if s != [] && IsTrimmedAway(s[0]) then TrimStart(s[1..]) else s
  }

  function TrimEnd(s: string): (r: string)
    ensures |r| <= |s|
    ensures r == [] || !IsTrimmedAway(r[|r| - 1])
    ensures r != [] ==> r[0] == s[0]
  {
    if s != [] && IsTrimmedAway(s[|s| - 1]) then TrimEnd(s[..|s| - 1]) else s
  }

  /** Java's String.trim(). */
  function Trim(s: string): (r: string)
    ensures |r| <= |s|
    ensures r == [] || (!IsTrimmedAway(r[0]) && !IsTrimmedAway(r[|r| - 1]))
  {
    TrimEnd(TrimStart(s))
  }

  /** A string that trim() leaves as it is. */
  predicate IsTrimmed(s: string) {
    s == [] || (!IsTrimmedAway(s[0]) && !IsTrimmedAway(s[|s| - 1]))
  }

  lemma TrimmedIsFixpoint(s: string)
    requires IsTrimmed(s)
    ensures Trim(s) == s
  {
  }

  /** `s == null || s.trim().isEmpty()` with the null case folded away. */
  predicate IsBlank(s: string) { Trim(s) == [] }

  function Join(sep: string, parts: seq<string>): (r: string)
  {
    if |parts| == 0 then ""
    else if |parts| == 1 then parts[0]
    else Join(sep, parts[..|parts| - 1]) + sep + parts[|parts| - 1]
  }

  /**
   * Regrouping a concatenation. Stated once here so that the string builders' proofs cite the
   * one step they need instead of leaving the solver to search for it.
   */
  lemma ConcatAssoc(a: string, b: string, c: string)
    ensures a + b + c == a + (b + c)
  {
  }

  predicate StartsWith(s: string, prefix: string) {
    |prefix| <= |s| && s[..|prefix|] == prefix
  }

  predicate EndsWith(s: string, suffix: string) {
    |suffix| <= |s| && s[|s| - |suffix|..] == suffix
  }

  /** Number of occurrences of `c` in `s`. */
  function Occurrences(c: char, s: string): nat
  {
    if s == [] then 0
    else Occurrences(c, s[..|s| - 1]) + (if s[|s| - 1] == c then 1 else 0)
  }

  lemma {:induction false} NoOccurrence(c: char, s: string)
    requires c !in s
    ensures Occurrences(c, s) == 0
  {
    if s != [] {
      assert forall ch :: ch in s[..|s| - 1] ==> ch in s;
      NoOccurrence(c, s[..|s| - 1]);
    }
  }

  /** A one-character text holds `c` once when it is `c`. */
  lemma SingleOccurrence(c: char)
    ensures Occurrences(c, [c]) == 1
  {
    assert [c][..0] == [];
  }

  lemma {:induction false} OccurrencesConcat(c: char, a: string, b: string)
    ensures Occurrences(c, a + b) == Occurrences(c, a) + Occurrences(c, b)
  {
    if b != [] {
      var init := b[..|b| - 1];
      assert (a + b)[..|a + b| - 1] == a + init;
      OccurrencesConcat(c, a, init);
    } else {
      assert a + b == a;
    }
  }

  /** Occurrences of `c` summed over `parts`. */
  function OccurrencesIn(c: char, parts: seq<string>): nat
  {
    if parts == [] then 0
    else OccurrencesIn(c, parts[..|parts| - 1]) + Occurrences(c, parts[|parts| - 1])
  }

  lemma OccurrencesInAppend(c: char, parts: seq<string>, part: string)
    ensures OccurrencesIn(c, parts + [part]) == OccurrencesIn(c, parts) + Occurrences(c, part)
  {
    assert (parts + [part])[..|parts|] == parts;
  }

  /** Joining adds the separator's occurrences once between each two neighbouring parts. */
  lemma {:induction false} JoinSeparatorCount(c: char, sep: string, parts: seq<string>)
    requires |parts| >= 1
    ensures Occurrences(c, Join(sep, parts)) == OccurrencesIn(c, parts) + (|parts| - 1) * Occurrences(c, sep)
  {
    if |parts| == 1 {
      assert parts[..0] == [];
    } else {
      var init, last := parts[..|parts| - 1], parts[|parts| - 1];
      JoinSeparatorCount(c, sep, init);
      var k := Occurrences(c, sep);
      assert Join(sep, parts) == Join(sep, init) + sep + last;
      OccurrencesConcat(c, Join(sep, init), sep);
      OccurrencesConcat(c, Join(sep, init) + sep, last);
      assert (|init| - 1) * k + k == |init| * k;
    }
  }

  /** With a separator holding `c` once, joining adds one `c` between each two neighbouring parts. */
  lemma JoinSeparatorOnce(c: char, sep: string, parts: seq<string>)
    requires |parts| >= 1 && Occurrences(c, sep) == 1
    ensures Occurrences(c, Join(sep, parts)) == OccurrencesIn(c, parts) + |parts| - 1
  {
    JoinSeparatorCount(c, sep, parts);
  }

  /** Joining with a separator that lacks `c` adds no `c`. */
  lemma JoinOccurrences(c: char, sep: string, parts: seq<string>)
    requires c !in sep
    ensures Occurrences(c, Join(sep, parts)) == OccurrencesIn(c, parts)
  {
    if parts != [] {
      JoinSeparatorCount(c, sep, parts);
      NoOccurrence(c, sep);
    }
  }

  /** Parts that hold `c` once each hold it once per part between them. */
  lemma {:induction false} OccurrencesInEach(c: char, parts: seq<string>)
    requires forall i :: 0 <= i < |parts| ==> Occurrences(c, parts[i]) == 1
    ensures OccurrencesIn(c, parts) == |parts|
  {
    if parts != [] {
      OccurrencesInEach(c, parts[..|parts| - 1]);
    }
  }

  /** Joined with a separator that lacks `c`, parts that hold `c` once each hold it |parts| times. */
  lemma JoinedPlaceholders(c: char, sep: string, parts: seq<string>)
    requires c !in sep
    requires forall i :: 0 <= i < |parts| ==> Occurrences(c, parts[i]) == 1
    ensures Occurrences(c, Join(sep, parts)) == |parts|
  {
    OccurrencesInEach(c, parts);
    JoinOccurrences(c, sep, parts);
  }


  /** Trimming only removes characters. */
  lemma {:induction false} TrimStartChars(s: string)
    ensures forall ch :: ch in TrimStart(s) ==> ch in s
  {
    if s != [] && IsTrimmedAway(s[0]) {
      TrimStartChars(s[1..]);
    }
  }

  lemma {:induction false} TrimEndChars(s: string)
    ensures forall ch :: ch in TrimEnd(s) ==> ch in s
  {
    if s != [] && IsTrimmedAway(s[|s| - 1]) {
      TrimEndChars(s[..|s| - 1]);
    }
  }

  lemma TrimChars(s: string)
    ensures forall ch :: ch in Trim(s) ==> ch in s
  {
    TrimStartChars(s);
    TrimEndChars(TrimStart(s));
  }

  /** `String.indexOf(char)`: the first position of `c`, or -1. */
  function IndexOf(s: string, c: char): (r: int)
    ensures -1 <= r < |s|
    ensures r == -1 <==> c !in s
    ensures r >= 0 ==> s[r] == c && c !in s[..r]
  {
    if s == [] then -1
    else if s[0] == c then 0
    else
      var k := IndexOf(s[1..], c);
      assert k >= 0 ==> s[..k + 1] == [s[0]] + s[1..][..k];
      if k < 0 then -1 else k + 1
  }

  /** The first `c` of `a + [c] + b` is the one after `a` when `a` has none. */
  lemma IndexOfAfterPrefix(a: string, c: char, b: string)
    requires c !in a
    ensures IndexOf(a + [c] + b, c) == |a|
  {
    var s := a + [c] + b;
    var r := IndexOf(s, c);
    assert forall k :: 0 <= k < r ==> s[..r][k] == s[k];
    assert s[|a|] == c;
    assert forall k :: 0 <= k < |a| ==> s[k] == a[k];
  }

  predicate IsDigit(c: char) { '0' <= c <= '9' }

  predicate AllDigits(s: string) { forall i :: 0 <= i < |s| ==> IsDigit(s[i]) }

  function DigitChar(d: nat): (c: char)
    requires d < 10
    ensures IsDigit(c)
  {
    (('0' as int) + d) as char
  }

  /** Decimal digits of a natural number, most significant first, without leading zeros. */
  function NatToDigits(n: nat): (r: string)
    ensures |r| >= 1 && AllDigits(r)
  {
    if n < 10 then [DigitChar(n)] else NatToDigits(n / 10) + [DigitChar(n % 10)]
  }

  /** `String.valueOf(long)`. */
  function IntToString(n: int): (r: string)
    ensures |r| >= 1
    ensures forall i :: 0 <= i < |r| ==> IsDigit(r[i]) || r[i] == '-'
  {
    if n < 0 then "-" + NatToDigits(-n) else NatToDigits(n)
  }

  function DigitsValue(ds: string): nat
    requires AllDigits(ds)
  {
    if ds == [] then 0
    else DigitsValue(ds[..|ds| - 1]) * 10 + (ds[|ds| - 1] as int - '0' as int)
  }

  lemma {:induction false} DigitsRoundTrip(n: nat)
    ensures DigitsValue(NatToDigits(n)) == n
  {
    if n >= 10 {
      var ds := NatToDigits(n);
      assert ds[..|ds| - 1] == NatToDigits(n / 10);
      DigitsRoundTrip(n / 10);
    }
  }

  /**
   * `Long.parseLong(s)`: an optional sign followed by at least one decimal digit, in the
   * range of a 64-bit long; None where Java throws NumberFormatException.
   */
  function ParseLong(s: string): (r: Option<int>)
    ensures r.Some? ==> MinLong <= r.value <= MaxLong
  {
    if s == [] then None
    else
      var body := if s[0] == '-' || s[0] == '+' then s[1..] else s;
      if body == [] || !AllDigits(body) then None
      else
        var v: int := if s[0] == '-' then -(DigitsValue(body) as int) else DigitsValue(body);
        if MinLong <= v <= MaxLong then Some(v) else None
  }

  /** Rendering a long and parsing it back gives the same long. */
  lemma ParseLongRoundTrip(n: int)
    requires MinLong <= n <= MaxLong
    ensures ParseLong(IntToString(n)) == Some(n)
  {
    if n < 0 {
      var s := IntToString(n);
      assert s[1..] == NatToDigits(-n);
      DigitsRoundTrip(-n);
    } else {
      DigitsRoundTrip(n);
    }
  }

  function Pow10(k: nat): (r: nat)
    ensures r >= 1
  {
    if k == 0 then 1 else 10 * Pow10(k - 1)
  }

  /**
   * `Double.parseDouble(s)` restricted to plain decimals: surrounding blanks, an optional sign,
   * digits with an optional fraction, at least one digit. The value is exact.
   */
  function ParseDecimal(s: string): Option<real>
  {
    var t := Trim(s);
    if t == [] then None
    else
      var body := if t[0] == '-' || t[0] == '+' then t[1..] else t;
      var dot := IndexOf(body, '.');
      var whole := if dot < 0 then body else body[..dot];
      var frac := if dot < 0 then "" else body[dot + 1..];
      if (whole == [] && frac == []) || !AllDigits(whole) || !AllDigits(frac) then None
      else
        var magnitude := DigitsValue(whole) as real + DigitsValue(frac) as real / Pow10(|frac|) as real;
        Some(if t[0] == '-' then -magnitude else magnitude)
  }

  /** ASCII case folding, as Character.toLowerCase does on ASCII letters. */
  function ToLowerAscii(c: char): char {
    if 'A' <= c <= 'Z' then (c as int + 32) as char else c
  }

  /** `String.equalsIgnoreCase` on ASCII text. */
  predicate EqualsIgnoreCase(a: string, b: string) {
    |a| == |b| && forall i :: 0 <= i < |a| ==> ToLowerAscii(a[i]) == ToLowerAscii(b[i])
  }
}
