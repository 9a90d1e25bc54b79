/**
 * The two amount patterns of the `/api/parse` handler in server/server.js,
 * evaluated as `String.prototype.match` does: the leftmost starting index at
 * which the pattern matches, with the captures of the first match the
 * backtracking search finds there.
 *
 *   wallet lines (Format A):  ([-+])\s*(?:Rs\.?|INR)\s*([\d,]+\.\d{2})   flag i
 *   UPI lines (Format B):     ([-+])\s*Rs\.?\s*([\d,]+(?:\.\d{1,2})?)     flag i
 *
 * At a fixed start each `\s*` must stop at the letter or digit after it and an
 * optional `.` after `Rs` can only be skipped when it is absent. In the wallet
 * pattern the `[\d,]+` run must then be maximal, so the match there is unique;
 * in the UPI pattern shorter runs match too, and the search reports the greedy
 * one. Either way the reported match is computed by one forward pass
 * (`WalletAmountAtIsPattern`, `UpiAmountAtIsPattern`, `AmountAtGivesUpiPattern`).
 */
module Amounts {
  import opened Text
  import opened Wrappers

  /** Which pattern is meant. */
  datatype Style = Wallet | Upi

  /** The captures of a match: the sign, the `[\d,]+` run and the digits after the
      decimal point (empty when the optional fraction of the UPI pattern is absent). */
  datatype AmountMatch = AmountMatch(sign: char, whole: string, fraction: string)

  predicate IsSign(c: char) { c == '-' || c == '+' }

  predicate WellFormed(m: AmountMatch) {
    && IsSign(m.sign)
    && DigitsOrCommas(m.whole)
    && (forall k :: 0 <= k < |m.fraction| ==> IsDigit(m.fraction[k]))
    && |m.fraction| <= 2
  }

  /** End of the currency marker at `c`, or -1 when there is none:
      `Rs` with an optional `.`, and for wallet lines also `INR`, in any case. */
  function MarkerEnd(style: Style, s: string, c: int): (m: int)
    requires 0 <= c <= |s|
    ensures m == -1 || (c + 2 <= m <= c + 3 && m <= |s|)
    ensures m != -1 <==> MatchesAt(s, c, "rs") || (style == Wallet && MatchesAt(s, c, "inr"))
    ensures MatchesAt(s, c, "rs") ==> (m == c + 3 <==> c + 2 < |s| && s[c + 2] == '.')
    ensures !MatchesAt(s, c, "rs") && m != -1 ==> m == c + 3
  {
    if MatchesAt(s, c, "rs") then
      if c + 2 < |s| && s[c + 2] == '.' then c + 3 else c + 2
    else if style == Wallet && MatchesAt(s, c, "inr") then c + 3
    else -1
  }

  /** End of the UPI pattern's optional `(?:\.\d{1,2})?` after the run ending at `b`;
      `b` itself when it does not apply. */
  function FractionEnd(s: string, b: int): (e: int)
    requires 0 <= b <= |s|
    ensures e == b || (b + 2 <= e <= b + 3 && e <= |s|)
    ensures e != b ==> s[b] == '.' && forall k :: b + 1 <= k < e ==> IsDigit(s[k])
    ensures e != b <==> b + 1 < |s| && s[b] == '.' && IsDigit(s[b + 1])
    ensures e == b + 2 ==> b + 2 == |s| || !IsDigit(s[b + 2])
  {
    if b + 1 < |s| && s[b] == '.' && IsDigit(s[b + 1]) then
      if b + 2 < |s| && IsDigit(s[b + 2]) then b + 3 else b + 2
    else b
  }

  /** The captures of a match whose sign is at `p`, whose digit run is `s[a..b]` and
      whose fraction digits run from `b + 1` to `e` (none when `e == b`). */
  function Captures(s: string, p: int, a: int, b: int, e: int): (r: AmountMatch)
    requires 0 <= p < |s| && IsSign(s[p]) && 0 <= a <= b <= |s|
    requires forall k :: a <= k < b ==> IsDigitOrComma(s[k])
    requires e == b || (b + 1 <= e <= b + 3 && e <= |s| && forall k :: b + 1 <= k < e ==> IsDigit(s[k]))
    ensures WellFormed(r) && r.sign == s[p] && r.whole == s[a..b]
    ensures r.fraction == if e == b then "" else s[b + 1..e]
  {
    var f := if e == b then "" else s[b + 1..e];
    DigitsOrCommasSlice(s, a, b);
    assert e != b ==> forall k :: 0 <= k < e - b - 1 ==> f[k] == s[b + 1 + k];
    AmountMatch(s[p], s[a..b], f)
  }

  /** The match of the pattern starting exactly at index `p`, if there is one. */
  function AmountAt(style: Style, s: string, p: int): (r: Option<AmountMatch>)
    ensures r.Some? ==> WellFormed(r.value) && 0 <= p < |s| && r.value.sign == s[p]
    ensures r.Some? && style == Wallet ==> |r.value.fraction| == 2
  {
    if !(0 <= p < |s|) || !IsSign(s[p]) then None
    else
      var c := SkipWhitespace(s, p + 1);
      var m := MarkerEnd(style, s, c);
      if m < 0 then None
      else
        var a := SkipWhitespace(s, m);
        var b := DigitRunEnd(s, a);
        if b == a then None
        else if style == Wallet then
          if b + 3 <= |s| && s[b] == '.' && IsDigit(s[b + 1]) && IsDigit(s[b + 2])
          then Some(Captures(s, p, a, b, b + 3))
          else None
        else
          var e := FractionEnd(s, b);
          Some(Captures(s, p, a, b, e))
  }

  /** The leftmost index at or after `p` where the pattern matches; `|s|` when none does. */
  function FirstAmountFrom(style: Style, s: string, p: int): (q: int)
    requires 0 <= p <= |s|
    ensures p <= q <= |s|
    ensures forall k :: p <= k < q ==> AmountAt(style, s, k).None?
    ensures q < |s| ==> AmountAt(style, s, q).Some?
    decreases |s| - p
  {
    if p == |s| || AmountAt(style, s, p).Some? then p else FirstAmountFrom(style, s, p + 1)
  }

  /** `s.match(pattern)`: the captures of the leftmost match, or `null`. */
  function Amount(style: Style, s: string): (r: Option<AmountMatch>)
    ensures r.Some? ==> WellFormed(r.value)
    ensures r.Some? ==> exists p :: 0 <= p < |s| && r == AmountAt(style, s, p)
                                 && forall k :: 0 <= k < p ==> AmountAt(style, s, k).None?
    ensures r.None? ==> forall p :: 0 <= p < |s| ==> AmountAt(style, s, p).None?
  {
    var q := FirstAmountFrom(style, s, 0);
    if q < |s| then AmountAt(style, s, q) else None
  }

  /** Value in paise of the fraction digits: one digit is tenths, two are hundredths. */
  function FractionPaise(f: string): (v: nat)
    requires |f| <= 2 && forall k :: 0 <= k < |f| ==> IsDigit(f[k])
    ensures v < 100
    ensures v == DecimalValue((f + "00")[..2])
  {
    if |f| == 0 then
      assert (f + "00")[..2] == "00" && "00"[..1] == "0" && "0"[..0] == "";
      0
    else if |f| == 1 then
      var g := (f + "00")[..2];
      assert g == [f[0], '0'] && g[..1] == [f[0]] && [f[0]][..0] == "";
      assert DecimalValue([f[0]]) == DigitValue(f[0]);
      10 * DigitValue(f[0])
    else
      assert (f + "00")[..2] == f && f[..1] == [f[0]] && [f[0]][..0] == "";
      assert DecimalValue([f[0]]) == DigitValue(f[0]);
      assert DecimalValue(f) == DecimalValue(f[..1]) * 10 + DigitValue(f[1]);
      10 * DigitValue(f[0]) + DigitValue(f[1])
  }

  /** `parseFloat(capture.replace(/,/g, ""))` in paise. */
  function Paise(m: AmountMatch): nat
    requires WellFormed(m)
  {
    DecimalValue(RemoveCommas(m.whole)) * 100 + FractionPaise(m.fraction)
  }

  /** The paise are the decimal value of the capture with its commas and its point
      removed and the fraction padded to two digits: a hundred times what
      `parseFloat` reads from the comma-free capture. */
  lemma PaiseIsScaledDecimal(m: AmountMatch)
    requires WellFormed(m)
    ensures forall k :: 0 <= k < |RemoveCommas(m.whole)| ==> IsDigit(RemoveCommas(m.whole)[k])
    ensures Paise(m) == DecimalValue(RemoveCommas(m.whole) + (m.fraction + "00")[..2])
  {
    var f := (m.fraction + "00")[..2];
    DecimalValueTwoMore(RemoveCommas(m.whole), f);
    assert f[..1] == [f[0]] && [f[0]][..0] == "";
  }

  /**
   * The wallet pattern matching at `p` in the plain terms of the regular
   * expression: the sign at `p`, whitespace up to `c`, the marker from `c` to `m`,
   * whitespace up to `a`, a non-empty run of digits and commas from `a` to `b`,
   * then a point and exactly two digits.
   */
  ghost predicate WalletPatternAt(s: string, p: int, c: int, m: int, a: int, b: int) {
    && 0 <= p < c <= m <= a < b && b + 3 <= |s|
    && IsSign(s[p])
    && (forall k :: p < k < c ==> IsWhitespace(s[k]))
    && ((MatchesAt(s, c, "rs") && (m == c + 2 || (m == c + 3 && s[c + 2] == '.')))
        || (MatchesAt(s, c, "inr") && m == c + 3))
    && (forall k :: m <= k < a ==> IsWhitespace(s[k]))
    && DigitsOrCommas(s[a..b])
    && s[b] == '.' && IsDigit(s[b + 1]) && IsDigit(s[b + 2])
  }

  /** The currency marker starts with a letter. */
  lemma MarkerNotWhitespace(s: string, c: int)
    requires 0 <= c && (MatchesAt(s, c, "rs") || MatchesAt(s, c, "inr"))
    ensures !IsWhitespace(s[c])
    ensures MatchesAt(s, c, "rs") ==> !MatchesAt(s, c, "inr")
  {
    MatchesAtFirst(s, c, "rs");
    MatchesAtFirst(s, c, "inr");
    LowerCharLetter(s[c]);
  }

  /** The marker ends where `MarkerEnd` says in every match: a `.` right after `Rs` can
      only be left out of the marker when the text cannot go on from there. */
  lemma WalletMarkerUnique(s: string, c: int, m: int, a: int, b: int)
    requires 0 <= c <= m <= a < b <= |s|
    requires (MatchesAt(s, c, "rs") && (m == c + 2 || (m == c + 3 && s[c + 2] == '.')))
             || (MatchesAt(s, c, "inr") && m == c + 3)
    requires forall k :: m <= k < a ==> IsWhitespace(s[k])
    requires IsDigitOrComma(s[a])
    ensures MarkerEnd(Wallet, s, c) == m
  {
    MarkerNotWhitespace(s, c);
    if MatchesAt(s, c, "rs") && m == c + 2 {
      assert IsWhitespace(s[m]) || IsDigitOrComma(s[m]);
    }
  }

  /** Where every step of the forward pass lands, the wallet match at `p` has the captures
      those steps delimit. */
  lemma WalletSteps(s: string, p: int, c: int, m: int, a: int, b: int)
    requires 0 <= p < |s| && IsSign(s[p]) && p + 1 <= c <= |s|
    requires SkipWhitespace(s, p + 1) == c && MarkerEnd(Wallet, s, c) == m && 0 <= m
    requires SkipWhitespace(s, m) == a && DigitRunEnd(s, a) == b && a < b
    requires b + 3 <= |s| && s[b] == '.' && IsDigit(s[b + 1]) && IsDigit(s[b + 2])
    ensures AmountAt(Wallet, s, p) == Some(AmountMatch(s[p], s[a..b], s[b + 1..b + 3]))
  {
    var r := Captures(s, p, a, b, b + 3);
    assert AmountAt(Wallet, s, p) == Some(r);
  }

  /** Every way the wallet pattern can match at `p` gives the captures computed
      by `AmountAt`: the match at a start index is unique. */
  lemma WalletPatternGivesAmountAt(s: string, p: int, c: int, m: int, a: int, b: int)
    requires WalletPatternAt(s, p, c, m, a, b)
    ensures AmountAt(Wallet, s, p) == Some(AmountMatch(s[p], s[a..b], s[b + 1..b + 3]))
  {
    DigitsOrCommasSlice(s, a, b);
    MarkerNotWhitespace(s, c);
    SkipWhitespaceUnique(s, p + 1, c);
    WalletMarkerUnique(s, c, m, a, b);
    SkipWhitespaceUnique(s, m, a);
    DigitRunEndUnique(s, a, b);
    WalletSteps(s, p, c, m, a, b);
  }

  /** Where `AmountAt` finds a wallet match, the regular expression matches there. */
  lemma AmountAtGivesWalletPattern(s: string, p: int)
    requires AmountAt(Wallet, s, p).Some?
    ensures exists c, m, a, b :: WalletPatternAt(s, p, c, m, a, b)
  {
    var c := SkipWhitespace(s, p + 1);
    var m := MarkerEnd(Wallet, s, c);
    var a := SkipWhitespace(s, m);
    var b := DigitRunEnd(s, a);
    DigitsOrCommasSlice(s, a, b);
    assert WalletPatternAt(s, p, c, m, a, b);
  }

  /** The wallet pattern matches at `p` exactly when `AmountAt` says so. */
  lemma WalletAmountAtIsPattern(s: string, p: int)
    ensures AmountAt(Wallet, s, p).Some? <==> exists c, m, a, b :: WalletPatternAt(s, p, c, m, a, b)
  {
    if AmountAt(Wallet, s, p).Some? {
      AmountAtGivesWalletPattern(s, p);
    }
    if exists c, m, a, b :: WalletPatternAt(s, p, c, m, a, b) {
      var c, m, a, b :| WalletPatternAt(s, p, c, m, a, b);
      WalletPatternGivesAmountAt(s, p, c, m, a, b);
    }
  }

  /**
   * One way the UPI pattern can match at `p`, in the plain terms of the regular
   * expression: the sign at `p`, whitespace up to `c`, `Rs` with an optional `.` from
   * `c` to `m`, whitespace up to `a`, a non-empty run of digits and commas from `a` to
   * `b`, and then either nothing (`e == b`) or a point and one or two digits up to `e`.
   * Several of these can hold at one `p`: nothing has to follow the amount, so any
   * shorter run or a dropped fraction also matches.
   */
  ghost predicate UpiPatternAt(s: string, p: int, c: int, m: int, a: int, b: int, e: int) {
    && 0 <= p < c <= m <= a < b <= e <= |s|
    && IsSign(s[p])
    && (forall k :: p < k < c ==> IsWhitespace(s[k]))
    && MatchesAt(s, c, "rs") && (m == c + 2 || (m == c + 3 && s[c + 2] == '.'))
    && (forall k :: m <= k < a ==> IsWhitespace(s[k]))
    && DigitsOrCommas(s[a..b])
    && (e == b || (b + 2 <= e <= b + 3 && s[b] == '.' && forall k :: b + 1 <= k < e ==> IsDigit(s[k])))
  }

  /** The match that the backtracking search reports: the greedy `[\d,]+` takes the whole
      run, the greedy `(?:\.\d{1,2})?` is taken whenever a point and a digit follow, and
      the greedy `\d{1,2}` takes a second digit whenever there is one. */
  ghost predicate UpiGreedy(s: string, b: int, e: int) {
    && 0 <= b <= e <= |s|
    && (b == |s| || !IsDigitOrComma(s[b]))
    && (e == b ==> !(b + 1 < |s| && s[b] == '.' && IsDigit(s[b + 1])))
    && (e == b + 2 ==> !(e < |s| && IsDigit(s[e])))
  }

  /** The greedy match of the UPI pattern at `p` has the captures computed by `AmountAt`. */
  lemma UpiGreedyGivesAmountAt(s: string, p: int, c: int, m: int, a: int, b: int, e: int)
    requires UpiPatternAt(s, p, c, m, a, b, e) && UpiGreedy(s, b, e)
    ensures AmountAt(Upi, s, p) == Some(AmountMatch(s[p], s[a..b], if e == b then "" else s[b + 1..e]))
  {
    DigitsOrCommasSlice(s, a, b);
    MarkerNotWhitespace(s, c);
    SkipWhitespaceUnique(s, p + 1, c);
    WalletMarkerUnique(s, c, m, a, b);
    assert MarkerEnd(Upi, s, c) == m;
    SkipWhitespaceUnique(s, m, a);
    DigitRunEndUnique(s, a, b);
    assert FractionEnd(s, b) == e;
    UpiSteps(s, p, c, m, a, b, e);
  }

  /** Where every step of the forward pass lands, the UPI match at `p` has the captures
      those steps delimit. */
  lemma UpiSteps(s: string, p: int, c: int, m: int, a: int, b: int, e: int)
    requires 0 <= p < |s| && IsSign(s[p]) && p + 1 <= c <= |s|
    requires SkipWhitespace(s, p + 1) == c && MarkerEnd(Upi, s, c) == m && 0 <= m
    requires SkipWhitespace(s, m) == a && DigitRunEnd(s, a) == b && a < b && FractionEnd(s, b) == e
    ensures AmountAt(Upi, s, p) == Some(AmountMatch(s[p], s[a..b], if e == b then "" else s[b + 1..e]))
  {
    var r := Captures(s, p, a, b, e);
    assert AmountAt(Upi, s, p) == Some(r);
  }

  /** Any match of the UPI pattern at `p` can be widened to the greedy one. */
  lemma UpiPatternWidens(s: string, p: int, c: int, m: int, a: int, b: int, e: int)
    requires UpiPatternAt(s, p, c, m, a, b, e)
    ensures UpiPatternAt(s, p, c, m, a, DigitRunEnd(s, a), FractionEnd(s, DigitRunEnd(s, a)))
    ensures UpiGreedy(s, DigitRunEnd(s, a), FractionEnd(s, DigitRunEnd(s, a)))
  {
    DigitsOrCommasSlice(s, a, b);
    var b' := DigitRunEnd(s, a);
    DigitsOrCommasSlice(s, a, b');
  }

  /** Where `AmountAt` finds a UPI match, the regular expression matches there, and the
      captures are those of its greedy match. */
  lemma AmountAtGivesUpiPattern(s: string, p: int)
    requires AmountAt(Upi, s, p).Some?
    ensures exists c, m, a, b, e :: UpiPatternAt(s, p, c, m, a, b, e) && UpiGreedy(s, b, e)
              && AmountAt(Upi, s, p) == Some(AmountMatch(s[p], s[a..b], if e == b then "" else s[b + 1..e]))
  {
    var c := SkipWhitespace(s, p + 1);
    var m := MarkerEnd(Upi, s, c);
    var a := SkipWhitespace(s, m);
    var b := DigitRunEnd(s, a);
    var e := FractionEnd(s, b);
    DigitsOrCommasSlice(s, a, b);
    assert UpiPatternAt(s, p, c, m, a, b, e);
  }

  /** The UPI pattern matches at `p` exactly when `AmountAt` says so. */
  lemma UpiAmountAtIsPattern(s: string, p: int)
    ensures AmountAt(Upi, s, p).Some? <==> exists c, m, a, b, e :: UpiPatternAt(s, p, c, m, a, b, e)
  {
    if AmountAt(Upi, s, p).Some? {
      AmountAtGivesUpiPattern(s, p);
    }
    if exists c, m, a, b, e :: UpiPatternAt(s, p, c, m, a, b, e) {
      var c, m, a, b, e :| UpiPatternAt(s, p, c, m, a, b, e);
      UpiPatternWidens(s, p, c, m, a, b, e);
      UpiGreedyGivesAmountAt(s, p, c, m, a, DigitRunEnd(s, a), FractionEnd(s, DigitRunEnd(s, a)));
    }
  }
}
