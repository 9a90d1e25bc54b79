/**
 * Character classes and string primitives shared by the statement parser and
 * the chart engine: the regular-expression character classes `\d`, `\s` and
 * `[A-Za-z]`, ASCII case folding, `String.prototype.includes`, anchored
 * case-insensitive literals, whitespace skipping and `String.prototype.trim`.
 */
module Text {

  /** `\d` */
  predicate IsDigit(c: char) { '0' <= c <= '9' }

  /** `[A-Za-z]` */
  predicate IsAsciiLetter(c: char) { 'A' <= c <= 'Z' || 'a' <= c <= 'z' }

  predicate IsAsciiUpper(c: char) { 'A' <= c <= 'Z' }

  /** `\s`, which is also what `trim` removes: ECMAScript WhiteSpace and LineTerminator. */
  predicate IsWhitespace(c: char) {
    c == '\t' || c == '\n' || c == '\U{B}' || c == '\U{C}' || c == '\r' || c == ' '
    || c == '\U{A0}' || c == '\U{1680}' || ('\U{2000}' <= c <= '\U{200A}')
    || c == '\U{2028}' || c == '\U{2029}' || c == '\U{202F}' || c == '\U{205F}'
    || c == '\U{3000}' || c == '\U{FEFF}'
  }

  function LowerChar(c: char): char {
    if IsAsciiUpper(c) then (c as int + 32) as char else c
  }

  /** `toLowerCase`, restricted to ASCII letters. */
  function ToLower(s: string): string {
    seq(|s|, i requires 0 <= i < |s| => LowerChar(s[i]))
  }

  predicate HasNoUpper(s: string) {
    forall i :: 0 <= i < |s| ==> !IsAsciiUpper(s[i])
  }

  lemma ToLowerHasNoUpper(s: string)
    ensures HasNoUpper(ToLower(s))
  {
  }

  /** Only a letter lower-cases to a letter. */
  lemma LowerCharLetter(c: char)
    requires IsAsciiLetter(LowerChar(c))
    ensures IsAsciiLetter(c) && !IsWhitespace(c)
  {
  }

  lemma ToLowerSlice(s: string, i: int, j: int)
    requires 0 <= i <= j <= |s|
    ensures ToLower(s)[i..j] == ToLower(s[i..j])
  {
  }

  /** `t` occurs in `s` starting at index `i`. */
  predicate OccursAt(s: string, t: string, i: int) {
    0 <= i && i + |t| <= |s| && s[i..i + |t|] == t
  }

  /** `s.includes(t)` */
  predicate Contains(s: string, t: string) {
    exists i :: 0 <= i <= |s| - |t| && OccursAt(s, t, i)
  }

  /** A string can only contain `t` if it contains every character of `t`. */
  lemma MissingCharNotContained(s: string, t: string, j: int)
    requires 0 <= j < |t| && t[j] !in s
    ensures !Contains(s, t)
  {
  }

  /** A lower-case string never contains a literal holding an upper-case letter. */
  lemma UpperCharNeverContained(s: string, t: string, j: int)
    requires HasNoUpper(s) && 0 <= j < |t| && IsAsciiUpper(t[j])
    ensures !Contains(s, t)
  {
    MissingCharNotContained(s, t, j);
  }

  /** The regular-expression literal `lit`, under the `i` flag, matches at index `i` of `s`;
      `lit` is written in lower case. */
  predicate MatchesAt(s: string, i: int, lit: string) {
    0 <= i && i + |lit| <= |s| && ToLower(s[i..i + |lit|]) == lit
  }

  /** A literal matching at `i` fixes the folded character there. */
  lemma MatchesAtFirst(s: string, i: int, lit: string)
    ensures MatchesAt(s, i, lit) && |lit| > 0 ==> LowerChar(s[i]) == lit[0]
  {
    if MatchesAt(s, i, lit) && |lit| > 0 {
      assert ToLower(s[i..i + |lit|])[0] == LowerChar(s[i]);
    }
  }

  /** A literal matching at `i` means each of its prefixes matches there too. */
  lemma MatchesAtShorter(s: string, i: int, lit: string, n: int)
    requires 0 <= n <= |lit|
    ensures MatchesAt(s, i, lit) ==> MatchesAt(s, i, lit[..n])
  {
    if MatchesAt(s, i, lit) {
      ToLowerSlice(s[i..i + |lit|], 0, n);
      assert s[i..i + |lit|][0..n] == s[i..i + n];
    }
  }

  /** `/^lit/i.test(s)` */
  predicate StartsWith(s: string, lit: string) {
    MatchesAt(s, 0, lit)
  }

  /** First index at or after `i` that does not hold whitespace (what `\s*` consumes). */
  function SkipWhitespace(s: string, i: int): (j: int)
    requires 0 <= i <= |s|
    ensures i <= j <= |s|
    ensures forall k :: i <= k < j ==> IsWhitespace(s[k])
    ensures j == |s| || !IsWhitespace(s[j])
    decreases |s| - i
  {
    if i == |s| || !IsWhitespace(s[i]) then i else SkipWhitespace(s, i + 1)
  }

  /** A whitespace run from `i` that stops at a non-whitespace character ends where
      `SkipWhitespace` says: `\s*` has only one way to be followed by such a character. */
  lemma SkipWhitespaceUnique(s: string, i: int, j: int)
    requires 0 <= i <= j <= |s|
    requires forall k :: i <= k < j ==> IsWhitespace(s[k])
    requires j == |s| || !IsWhitespace(s[j])
    ensures SkipWhitespace(s, i) == j
  {
  }

  /** `[\d,]` */
  predicate IsDigitOrComma(c: char) { IsDigit(c) || c == ',' }

  /** End of the maximal run of `[\d,]` starting at `i` (what the greedy `[\d,]*` consumes). */
  function DigitRunEnd(s: string, i: int): (j: int)
    requires 0 <= i <= |s|
    ensures i <= j <= |s|
    ensures forall k :: i <= k < j ==> IsDigitOrComma(s[k])
    ensures j == |s| || !IsDigitOrComma(s[j])
    decreases |s| - i
  {
    if i == |s| || !IsDigitOrComma(s[i]) then i else DigitRunEnd(s, i + 1)
  }

  lemma DigitRunEndUnique(s: string, i: int, j: int)
    requires 0 <= i <= j <= |s|
    requires forall k :: i <= k < j ==> IsDigitOrComma(s[k])
    requires j == |s| || !IsDigitOrComma(s[j])
    ensures DigitRunEnd(s, i) == j
  {
  }

  /** One past the last index below `j` that does not hold whitespace. */
  function TrimEndIndex(s: string, j: int): (e: int)
    requires 0 <= j <= |s|
    ensures 0 <= e <= j
    ensures forall k :: e <= k < j ==> IsWhitespace(s[k])
    ensures e == 0 || !IsWhitespace(s[e - 1])
  {
    if j == 0 || !IsWhitespace(s[j - 1]) then j else TrimEndIndex(s, j - 1)
  }

  /** `s.trim()` */
  function Trim(s: string): (r: string)
    ensures |r| == 0 || (!IsWhitespace(r[0]) && !IsWhitespace(r[|r| - 1]))
    ensures exists i, j ::
              && 0 <= i <= j <= |s| && r == s[i..j]
              && (forall k :: 0 <= k < i ==> IsWhitespace(s[k]))
              && (forall k :: j <= k < |s| ==> IsWhitespace(s[k]))
  {
    var e := TrimEndIndex(s, |s|);
    var b := SkipWhitespace(s[..e], 0);
    assert forall k :: 0 <= k < b ==> s[k] == s[..e][k];
    s[b..e]
  }

  predicate IsTrimmed(s: string) {
    |s| == 0 || (!IsWhitespace(s[0]) && !IsWhitespace(s[|s| - 1]))
  }

  /** Trimming a string that is already trimmed changes nothing. */
  lemma TrimTrimmed(s: string)
    requires IsTrimmed(s)
    ensures Trim(s) == s
  {
    var e := TrimEndIndex(s, |s|);
    assert e == |s|;
    var b := SkipWhitespace(s[..e], 0);
    assert s[..e] == s;
    assert b == 0;
  }

  function DigitValue(c: char): nat
    requires IsDigit(c)
  {
    c as int - '0' as int
  }

  /** Numeric value of a string of decimal digits, most significant first. */
  function DecimalValue(s: string): nat
    requires forall k :: 0 <= k < |s| ==> IsDigit(s[k])
  {
    if |s| == 0 then 0 else DecimalValue(s[..|s| - 1]) * 10 + DigitValue(s[|s| - 1])
  }

  predicate DigitsOrCommas(t: string) {
    forall k :: 0 <= k < |t| ==> IsDigitOrComma(t[k])
  }

  lemma DigitsOrCommasSlice(s: string, a: int, b: int)
    requires 0 <= a <= b <= |s|
    ensures DigitsOrCommas(s[a..b]) <==> forall k :: a <= k < b ==> IsDigitOrComma(s[k])
  {
    assert forall k :: 0 <= k < b - a ==> s[a..b][k] == s[a + k];
  }

  /** `s.replace(/,/g, "")` */
  function RemoveCommas(s: string): (r: string)
    ensures forall k :: 0 <= k < |r| ==> r[k] in s && r[k] != ','
    ensures |r| <= |s|
    ensures DigitsOrCommas(s) ==> forall k :: 0 <= k < |r| ==> IsDigit(r[k])
  {
    if |s| == 0 then "" else if s[0] == ',' then RemoveCommas(s[1..]) else [s[0]] + RemoveCommas(s[1..])
  }

  /** Removing commas works piece by piece: what survives keeps its order. */
  lemma {:induction false} RemoveCommasAppend(a: string, b: string)
    ensures RemoveCommas(a + b) == RemoveCommas(a) + RemoveCommas(b)
    decreases |a|
  {
    if |a| == 0 {
      assert a + b == b;
    } else {
      assert (a + b)[0] == a[0];
      assert (a + b)[1..] == a[1..] + b;
      RemoveCommasAppend(a[1..], b);
    }
  }

  /** A string without commas is left as it is. */
  lemma {:induction false} RemoveCommasNoComma(s: string)
    requires forall k :: 0 <= k < |s| ==> s[k] != ','
    ensures RemoveCommas(s) == s
    decreases |s|
  {
    if |s| > 0 {
      assert s[0] != ',';
      RemoveCommasNoComma(s[1..]);
      assert [s[0]] + s[1..] == s;
    }
  }

  /** A lone comma disappears and any other character stays. */
  lemma RemoveCommasChar(c: char)
    ensures RemoveCommas([c]) == if c == ',' then "" else [c]
  {
    assert [c][1..] == "";
  }

  /** Two more digits on the right scale the value by a hundred. */
  lemma DecimalValueTwoMore(w: string, f: string)
    requires forall k :: 0 <= k < |w| ==> IsDigit(w[k])
    requires |f| == 2 && IsDigit(f[0]) && IsDigit(f[1])
    ensures DecimalValue(w + f) == DecimalValue(w) * 100 + 10 * DigitValue(f[0]) + DigitValue(f[1])
  {
    var s := w + f;
    assert s[..|s| - 1] == w + [f[0]];
    assert (w + [f[0]])[..|w|] == w;
  }

  function DigitChar(d: nat): (c: char)
    requires d < 10
    ensures IsDigit(c) && DigitValue(c) == d
  {
    ('0' as int + d) as char
  }

  /** `String(n)` for a natural number: decimal digits without leading zeros. */
  function NatToString(n: nat): (s: string)
    ensures |s| >= 1
    ensures forall k :: 0 <= k < |s| ==> IsDigit(s[k])
    ensures s[0] == '0' ==> n == 0
  {
    if n < 10 then [DigitChar(n)] else NatToString(n / 10) + [DigitChar(n % 10)]
  }

  /** Reading the digits of `n` back gives `n`. */
  lemma {:induction false} NatToStringValue(n: nat)
    ensures DecimalValue(NatToString(n)) == n
  {
    if n >= 10 {
      NatToStringValue(n / 10);
      var s := NatToString(n);
      assert s[..|s| - 1] == NatToString(n / 10);
    }
  }

  /** `String(n)` for an integer. */
  function IntToString(n: int): string {
    if n < 0 then "-" + NatToString(-n) else NatToString(n)
  }

  /** Different integers print differently. */
  lemma IntToStringInjective(a: int, b: int)
    requires IntToString(a) == IntToString(b)
    ensures a == b
  {
    if a < 0 && b < 0 {
      assert NatToString(-a) == IntToString(a)[1..];
      NatToStringValue(-a);
      NatToStringValue(-b);
    } else if a >= 0 && b >= 0 {
      NatToStringValue(a);
      NatToStringValue(b);
    }
  }

  /** `String(n).padStart(2, "0")` for `n` below 100. */
  function Pad2(n: nat): (s: string)
    requires n < 100
    ensures |s| == 2
  {
    [DigitChar(n / 10), DigitChar(n % 10)]
  }

  lemma Pad2Injective(a: nat, b: nat)
    requires a < 100 && b < 100 && Pad2(a) == Pad2(b)
    ensures a == b
  {
    assert DigitValue(Pad2(a)[0]) == a / 10 && DigitValue(Pad2(a)[1]) == a % 10;
    assert DigitValue(Pad2(b)[0]) == b / 10 && DigitValue(Pad2(b)[1]) == b % 10;
  }
}
