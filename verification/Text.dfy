/** Characters, numbers as text, and the order file names are listed in. */
module Text {

  /** Unicode general category Cc. */
  predicate IsControl(c: char) {
    c < ' ' || ('\U{7F}' <= c <= '\U{9F}')
  }

  /** The Unicode White_Space property. */
  predicate IsWhitespace(c: char) {
    ('\U{9}' <= c <= '\U{D}') || c == ' ' || c == '\U{85}' || c == '\U{A0}' || c == '\U{1680}'
    || ('\U{2000}' <= c <= '\U{200A}') || c == '\U{2028}' || c == '\U{2029}' || c == '\U{202F}'
    || c == '\U{205F}' || c == '\U{3000}'
  }

  /** The same by their numbers, as the standard lists them. */
  lemma ControlsAndSpaces(c: char)
    ensures IsControl(c) <==> c as int <= 31 || 127 <= c as int <= 159
    ensures IsWhitespace(c) <==>
      9 <= c as int <= 13 || c as int in {32, 133, 160, 5760, 8232, 8233, 8239, 8287, 12288} || 8192 <= c as int <= 8202
  {
  }

  predicate IsDigit(c: char) {
    '0' <= c <= '9'
  }

  ghost predicate Lacks(s: string, c: char) {
    forall k :: 0 <= k < |s| ==> s[k] != c
  }

  /** Where `c` first stands in `s`, or the length of `s` when it does not. */
  function IndexOf(s: string, c: char): (i: nat)
    ensures i <= |s| && forall k :: 0 <= k < i ==> s[k] != c
    ensures i < |s| ==> s[i] == c
  {
    IndexFrom(s, c, 0)
  }

  function IndexFrom(s: string, c: char, from: nat): (i: nat)
    requires from <= |s|
    ensures from <= i <= |s| && forall k :: from <= k < i ==> s[k] != c
    ensures i < |s| ==> s[i] == c
    decreases |s| - from
  {
    if from == |s| || s[from] == c then from else IndexFrom(s, c, from + 1)
  }

  function AsciiLower(c: char): char {
    if 'A' <= c <= 'Z' then c - 'A' + 'a' else c
  }

  function Lowercase(s: string): string {
    seq(|s|, i requires 0 <= i < |s| => AsciiLower(s[i]))
  }

  // ---- Numbers ----

  function Digit(n: nat): (c: char)
    requires n < 10
    ensures IsDigit(c)
  {
    '0' + n as char
  }

  /** `n` in decimal, padded on the left with zeros to at least `width` digits. */
  function Padded(n: nat, width: nat): (s: string)
    ensures s != "" && forall c :: c in s ==> IsDigit(c)
    decreases n, width
  {
    if n < 10 && width <= 1 then [Digit(n)]
    else Padded(n / 10, if width > 0 then width - 1 else 0) + [Digit(n % 10)]
  }

  function Decimal(n: nat): string {
    Padded(n, 1)
  }

  function Pow10(k: nat): (p: nat)
    ensures p >= 1
  {
    if k == 0 then 1 else 10 * Pow10(k - 1)
  }

  lemma {:induction false} PaddedLength(n: nat, width: nat)
    requires width >= 1 && n < Pow10(width)
    ensures |Padded(n, width)| == width
    decreases width
  {
    if width > 1 {
      PaddedLength(n / 10, width - 1);
    }
  }

  /** Two numbers never share a spelling. */
  lemma {:induction false} DecimalIsInjective(a: nat, b: nat, width: nat)
    requires Padded(a, width) == Padded(b, width)
    ensures a == b
    decreases a, width
  {
    var next := if width > 0 then width - 1 else 0;
    if width <= 1 && (a < 10 || b < 10) {
      assert Padded(a, width)[0] == Padded(b, width)[0];
    } else {
      assert Padded(a / 10, next) == Padded(a, width)[..|Padded(a, width)| - 1];
      assert Padded(b / 10, next) == Padded(b, width)[..|Padded(b, width)| - 1];
      DecimalIsInjective(a / 10, b / 10, next);
    }
  }

  /** The number a text of digits stands for. */
  function NumberOf(digits: string): nat
    requires forall k :: 0 <= k < |digits| ==> IsDigit(digits[k])
  {
    if digits == "" then 0
    else
      var last := digits[|digits| - 1];
      assert IsDigit(last);
      10 * NumberOf(digits[..|digits| - 1]) + (last - '0') as nat
  }

  /** A number reads back from its text. */
  lemma {:induction false} PaddedReadsBack(n: nat, width: nat)
    ensures forall k :: 0 <= k < |Padded(n, width)| ==> IsDigit(Padded(n, width)[k])
    ensures NumberOf(Padded(n, width)) == n
    decreases n, width
  {
    var s := Padded(n, width);
    assert forall k :: 0 <= k < |s| ==> s[k] in s;
    if n < 10 && width <= 1 {
      assert s[..0] == "";
    } else {
      var next := if width > 0 then width - 1 else 0;
      PaddedReadsBack(n / 10, next);
      assert s[..|s| - 1] == Padded(n / 10, next);
    }
  }

  const CAPITALS := "ABCDEFGHIJKLMNOPQRSTUVWXYZ"
  const SMALL := "abcdefghijklmnopqrstuvwxyz"

  /** Capital letters, and nothing else, become the small letters of the same place in the alphabet. */
  lemma LowercaseLetters(c: char, i: nat)
    requires i < |CAPITALS|
    ensures |CAPITALS| == |SMALL| && AsciiLower(CAPITALS[i]) == SMALL[i]
    ensures c !in CAPITALS ==> AsciiLower(c) == c
  {
    if 'A' <= c <= 'Z' {
      assert CAPITALS[(c - 'A') as nat] == c;
    }
  }

  // ---- The order of names ----

  /** Lexicographic order by code point, a proper prefix first. */
  ghost predicate SortsBefore(a: string, b: string) {
    exists i :: 0 <= i <= |a| && i < |b| && a[..i] == b[..i] && (i == |a| || a[i] < b[i])
  }

  /** What follows cannot change an order that equally long beginnings already decide. */
  lemma SortsByBeginning(a: string, b: string, x: string, y: string)
    requires |a| == |b| && SortsBefore(a, b)
    ensures SortsBefore(a + x, b + y)
  {
    var i :| 0 <= i <= |a| && i < |b| && a[..i] == b[..i] && (i == |a| || a[i] < b[i]);
    assert (a + x)[..i] == a[..i] && (b + y)[..i] == b[..i];
    assert (a + x)[i] < (b + y)[i];
  }

  lemma SortsByPrefix(p: string, q: string, s: string, t: string)
    requires |p| == |q| && SortsBefore(p, q) && p <= s && q <= t
    ensures SortsBefore(s, t)
  {
    assert s == p + s[|p|..] && t == q + t[|q|..];
    SortsByBeginning(p, q, s[|p|..], t[|q|..]);
  }

  lemma SortsByRest(p: string, a: string, b: string)
    requires SortsBefore(a, b)
    ensures SortsBefore(p + a, p + b)
  {
    var i :| 0 <= i <= |a| && i < |b| && a[..i] == b[..i] && (i == |a| || a[i] < b[i]);
    var j := |p| + i;
    assert (p + a)[..j] == p + a[..i] && (p + b)[..j] == p + b[..i];
    assert j == |p + a| || (p + a)[j] < (p + b)[j];
  }

  /** Numbers of one width sort as text the way they sort as numbers. */
  lemma {:induction false} PaddedSorts(a: nat, b: nat, width: nat)
    requires width >= 1 && a < b < Pow10(width)
    ensures SortsBefore(Padded(a, width), Padded(b, width))
    decreases width
  {
    if width == 1 {
      var x, y := Padded(a, 1), Padded(b, 1);
      assert x[..0] == y[..0] && x[0] < y[0];
    } else if a / 10 < b / 10 {
      PaddedSorts(a / 10, b / 10, width - 1);
      PaddedLength(a / 10, width - 1);
      PaddedLength(b / 10, width - 1);
      SortsByBeginning(Padded(a / 10, width - 1), Padded(b / 10, width - 1), [Digit(a % 10)], [Digit(b % 10)]);
    } else {
      assert a / 10 == b / 10 && a % 10 < b % 10;
      var x, y := [Digit(a % 10)], [Digit(b % 10)];
      assert x[..0] == y[..0] && x[0] < y[0];
      SortsByRest(Padded(a / 10, width - 1), x, y);
    }
  }
}
