/**
 * The java.lang.String operations the core relies on: case conversion,
 * case-insensitive equality, trim and the blank test, substring search.
 * Case conversion covers the ASCII letters only: the model has one abstract
 * lower-casing function that SQL LOWER and Java toLowerCase both stand for.
 */
module Text {

  function ToLowerChar(c: char): char {
    if 'A' <= c <= 'Z' then (c as int + 32) as char else c
  }

  function ToUpperChar(c: char): char {
    if 'a' <= c <= 'z' then (c as int - 32) as char else c
  }

  /** String.toLowerCase / SQL LOWER. */
  function ToLower(s: string): (r: string)
    ensures |r| == |s|
    ensures forall i :: 0 <= i < |s| ==> r[i] == ToLowerChar(s[i])
  {
    if s == [] then [] else [ToLowerChar(s[0])] + ToLower(s[1..])
  }

  /** String.toUpperCase. */
  function ToUpper(s: string): (r: string)
    ensures |r| == |s|
    ensures forall i :: 0 <= i < |s| ==> r[i] == ToUpperChar(s[i])
  {
    if s == [] then [] else [ToUpperChar(s[0])] + ToUpper(s[1..])
  }

  /** String.equalsIgnoreCase for a non-null argument. */
  predicate EqualsIgnoreCase(a: string, b: string) {
    ToLower(a) == ToLower(b)
  }

  /** The characters String.trim removes from both ends: code points up to U+0020. */
  predicate IsTrimmable(c: char) {
    c <= ' '
  }

  function TrimStart(s: string): (r: string)
    ensures |r| <= |s| && r == s[|s| - |r|..]
    ensures r != [] ==> !IsTrimmable(r[0])
    ensures forall i :: 0 <= i < |s| - |r| ==> IsTrimmable(s[i])
  {
    if s != [] && IsTrimmable(s[0]) then TrimStart(s[1..]) else s
  }

  function TrimEnd(s: string): (r: string)
    ensures |r| <= |s| && r == s[..|r|]
    ensures r != [] ==> !IsTrimmable(r[|r| - 1])
    ensures forall i :: |r| <= i < |s| ==> IsTrimmable(s[i])
  {
    if s != [] && IsTrimmable(s[|s| - 1]) then TrimEnd(s[..|s| - 1]) else s
  }

  /** String.trim. */
  function Trim(s: string): string {
    TrimEnd(TrimStart(s))
  }

  /** `s != null && !s.trim().isEmpty()`, the test every filter and @NotBlank apply. */
  predicate HasText(s: string) {
    Trim(s) != []
  }

  /** A string is blank (trims to "") exactly when every character is trimmable. */
  lemma {:induction false} HasTextIff(s: string)
    ensures HasText(s) <==> exists i :: 0 <= i < |s| && !IsTrimmable(s[i])
  {
    var t := TrimStart(s);
    if t != [] {
      assert !IsTrimmable(s[|s| - |t|]);
    }
    if Trim(s) == [] {
      assert t == [];
    }
  }

  /** `pat` occurs in `s` starting at index i. */
  predicate OccursAt(s: string, pat: string, i: int) {
    0 <= i && i + |pat| <= |s| && s[i..i + |pat|] == pat
  }

  /** A pattern cannot occur where its first two characters do not. */
  lemma {:induction false} NotOccursAt(s: string, pat: string, i: int)
    requires |pat| >= 2 && 0 <= i && i + 1 < |s|
    requires s[i] != pat[0] || s[i + 1] != pat[1]
    ensures !OccursAt(s, pat, i)
  {
  }

  /** String.contains. */
  predicate Contains(s: string, pat: string) {
    exists i | 0 <= i <= |s| :: OccursAt(s, pat, i)
  }

  /** String.indexOf(pat, from): the first occurrence at or after `from`, or -1. */
  function IndexOf(s: string, pat: string, from: nat): (r: int)
    ensures r == -1 || (from <= r && OccursAt(s, pat, r))
    ensures forall i :: from <= i && (r == -1 || i < r) ==> !OccursAt(s, pat, i)
    decreases |s| - from
  {
    if from + |pat| > |s| then -1
    else if s[from..from + |pat|] == pat then from
    else IndexOf(s, pat, from + 1)
  }

  /** String.indexOf(ch, from): the first index at or after `from` holding `c`, or -1. */
  function IndexOfChar(s: string, c: char, from: nat): (r: int)
    ensures r == -1 || (from <= r < |s| && s[r] == c)
    ensures forall i :: from <= i < |s| && (r == -1 || i < r) ==> s[i] != c
    decreases |s| - from
  {
    if from >= |s| then -1
    else if s[from] == c then from
    else IndexOfChar(s, c, from + 1)
  }

  /** Upper-casing a string forgets its letter case. */
  lemma {:induction false} UpperIgnoresCase(a: string, b: string)
    requires EqualsIgnoreCase(a, b)
    ensures ToUpper(a) == ToUpper(b)
  {
    assert |a| == |ToLower(a)| == |ToLower(b)| == |b|;
    forall i | 0 <= i < |a|
      ensures ToUpperChar(a[i]) == ToUpperChar(b[i])
    {
      assert ToLowerChar(a[i]) == ToLower(a)[i] == ToLower(b)[i] == ToLowerChar(b[i]);
    }
  }

  // ---------------------------------------------------------------------------
  // Decimal rendering: String.format's %d
  // ---------------------------------------------------------------------------

  predicate IsDigit(c: char) {
    '0' <= c <= '9'
  }

  function DigitChar(d: nat): (c: char)
    requires d < 10
    ensures IsDigit(c) && c as int - '0' as int == d
  {
    ('0' as int + d) as char
  }

  /** The decimal digits of n, most significant first, without leading zeros. */
  function NatDigits(n: nat): (r: string)
    ensures |r| >= 1 && forall i :: 0 <= i < |r| ==> IsDigit(r[i])
    ensures |r| > 1 ==> r[0] != '0'
    decreases n
  {
    if n < 10 then [DigitChar(n)] else NatDigits(n / 10) + [DigitChar(n % 10)]
  }

  /** The number a string of decimal digits denotes. */
  function ParseDigits(s: string): nat
    requires forall i :: 0 <= i < |s| ==> IsDigit(s[i])
  {
    if s == [] then 0
    else
      assert IsDigit(s[|s| - 1]);
      10 * ParseDigits(s[..|s| - 1]) + (s[|s| - 1] as int - '0' as int)
  }

  /** Reading back the digits of n gives n. */
  lemma {:induction false} ParseNatDigits(n: nat)
    ensures ParseDigits(NatDigits(n)) == n
    decreases n
  {
    if n >= 10 {
      var r := NatDigits(n);
      assert r[..|r| - 1] == NatDigits(n / 10);
      ParseNatDigits(n / 10);
    }
  }

  /** `String.format("%d", n)` for a long n: a minus sign for negatives, then the digits. */
  function Decimal(n: int): (r: string)
    ensures r != [] && (r[0] == '-' <==> n < 0)
    ensures forall i :: (if n < 0 then 1 else 0) <= i < |r| ==> IsDigit(r[i])
    ensures forall i :: 0 <= i < |r| ==> IsNumeral(r[i])
  {
    if n < 0 then "-" + NatDigits(-n) else NatDigits(n)
  }

  /** Distinct numbers render differently. */
  lemma {:induction false} DecimalInjective(a: int, b: int)
    requires Decimal(a) == Decimal(b)
    ensures a == b
  {
    if a < 0 {
      assert NatDigits(-a) == Decimal(a)[1..] == Decimal(b)[1..] == NatDigits(-b);
      ParseNatDigits(-a);
      ParseNatDigits(-b);
    } else {
      ParseNatDigits(a);
      ParseNatDigits(b);
    }
  }

  /** A character that can occur in a rendered integer. */
  predicate IsNumeral(c: char) {
    IsDigit(c) || c == '-'
  }

  /** The first character after a numeral prefix is the first that is not a numeral character. */
  lemma {:induction false} NumeralEnd(a: string, x: string)
    requires forall i :: 0 <= i < |a| ==> IsNumeral(a[i])
    requires x != [] && !IsNumeral(x[0])
    ensures forall k :: 0 <= k < |a| ==> IsNumeral((a + x)[k])
    ensures !IsNumeral((a + x)[|a|])
  {
  }

  /**
   * Where a rendered integer is followed by text that starts with another
   * character, the split point is fixed: both parts are recovered.
   */
  lemma {:induction false} NumeralSplit(a: string, x: string, b: string, y: string)
    requires forall i :: 0 <= i < |a| ==> IsNumeral(a[i])
    requires forall i :: 0 <= i < |b| ==> IsNumeral(b[i])
    requires x != [] && !IsNumeral(x[0]) && y != [] && !IsNumeral(y[0])
    requires a + x == b + y
    ensures a == b && x == y
  {
    NumeralEnd(a, x);
    NumeralEnd(b, y);
    assert |a| == |b|;
    assert a == (a + x)[..|a|] == (b + y)[..|b|] == b;
    assert x == (a + x)[|a|..] == (b + y)[|b|..] == y;
  }

  /** Equal texts with a common head have equal tails. */
  lemma {:induction false} DropPrefix(p: string, a: string, b: string)
    requires p + a == p + b
    ensures a == b
  {
    assert a == (p + a)[|p|..] && b == (p + b)[|p|..];
  }
}
