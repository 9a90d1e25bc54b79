/**
 * The body of the `/api/parse` handler in server/server.js, from the split,
 * trimmed, non-empty `lines` of a statement to the transactions found by the
 * two recognisers that run over them one after the other:
 *
 *   Format A (wallet statements): a signed amount line followed by a line
 *     opening with "Paid to" or "Added to" that names the vendor;
 *   Format B (UPI statements): a `currentVendor` slot filled by vendor or
 *     expense lines and consumed by the next amount line, with an optional
 *     `#tag` on the line after the amount overriding the category.
 *
 * Both attach the nearest date-like line at or above the amount line.
 */
module Statement {
  import opened Text
  import opened Wrappers
  import opened Ledger
  import opened Amounts
  import Categories
  import Assoc
  import Totals

  // ---------------------------------------------------------------- extractDate

  /** `/\d{1,2}\s+[A-Za-z]{3}/` matching at `p` with `n` digits and the letters at `q`. */
  ghost predicate DatePatternAt(s: string, p: int, n: int, q: int) {
    && 0 <= p && (n == 1 || n == 2) && p + n < q && q + 3 <= |s|
    && (forall k :: p <= k < p + n ==> IsDigit(s[k]))
    && (forall k :: p + n <= k < q ==> IsWhitespace(s[k]))
    && IsAsciiLetter(s[q]) && IsAsciiLetter(s[q + 1]) && IsAsciiLetter(s[q + 2])
  }

  /** A digit at `p`, then at least one whitespace character, then three letters. */
  predicate DateAt(s: string, p: int)
    requires 0 <= p < |s|
  {
    var q := SkipWhitespace(s, p + 1);
    IsDigit(s[p]) && q > p + 1 && q + 3 <= |s|
    && IsAsciiLetter(s[q]) && IsAsciiLetter(s[q + 1]) && IsAsciiLetter(s[q + 2])
  }

  /** `/\d{1,2}\s+[A-Za-z]{3}/.test(s)`, as a scan over the start positions. */
  predicate IsDateLine(s: string) {
    exists p :: 0 <= p < |s| && DateAt(s, p)
  }

  /** Where the scan finds a start, the regular expression matches with one digit. */
  lemma DateAtGivesPattern(s: string, p: int)
    requires 0 <= p < |s| && DateAt(s, p)
    ensures DatePatternAt(s, p, 1, SkipWhitespace(s, p + 1))
  {
  }

  /** Every match of the regular expression has a scan start at its last digit. */
  lemma PatternGivesDateAt(s: string, p: int, n: int, q: int)
    requires DatePatternAt(s, p, n, q)
    ensures 0 <= p + n - 1 < |s| && DateAt(s, p + n - 1)
  {
    LowerCharLetter(s[q]);
    SkipWhitespaceUnique(s, p + n, q);
    assert SkipWhitespace(s, p + n) == q;
  }

  /** The scan tests exactly the regular expression: a two-digit match always
      contains a one-digit match starting at its second digit. */
  lemma IsDateLineIsPattern(s: string)
    ensures IsDateLine(s) <==> exists p, n, q :: DatePatternAt(s, p, n, q)
  {
    if IsDateLine(s) {
      var p :| 0 <= p < |s| && DateAt(s, p);
      DateAtGivesPattern(s, p);
    }
    if exists p, n, q :: DatePatternAt(s, p, n, q) {
      var p, n, q :| DatePatternAt(s, p, n, q);
      PatternGivesDateAt(s, p, n, q);
    }
  }

  /** Index of the nearest date-like line at or above `idx`; -1 when there is none. */
  function NearestDateIndex(lines: seq<string>, idx: int): (j: int)
    requires -1 <= idx < |lines|
    ensures -1 <= j <= idx
    ensures j >= 0 ==> IsDateLine(lines[j])
    ensures forall k :: j < k <= idx ==> !IsDateLine(lines[k])
    decreases idx + 1
  {
    if idx < 0 then -1
    else if IsDateLine(lines[idx]) then idx
    else NearestDateIndex(lines, idx - 1)
  }

  /** What `extractDate(lines, idx)` returns. */
  function DateFor(lines: seq<string>, idx: int): string
    requires 0 <= idx < |lines|
  {
    var j := NearestDateIndex(lines, idx);
    if j < 0 then "" else lines[j]
  }

  /** `extractDate(lines, idx)`: walk back from `idx` to the first date-like line. */
  method ExtractDate(lines: seq<string>, idx: int) returns (date: string)
    requires 0 <= idx < |lines|
    ensures date == DateFor(lines, idx)
  {
    var j := idx;
    while j >= 0
      invariant -1 <= j <= idx
      invariant NearestDateIndex(lines, idx) == NearestDateIndex(lines, j)
    {
      if IsDateLine(lines[j]) {
        return lines[j];
      }
      j := j - 1;
    }
    return "";
  }

  /** The date is either "" with no date-like line at or above `idx`, or the nearest
      date-like line `lines[j]`, `j <= idx`, with none between `j` and `idx`. */
  lemma DateForNearest(lines: seq<string>, idx: int)
    requires 0 <= idx < |lines|
    ensures || (DateFor(lines, idx) == "" && forall k :: 0 <= k <= idx ==> !IsDateLine(lines[k]))
            || (exists j :: 0 <= j <= idx && DateFor(lines, idx) == lines[j] && IsDateLine(lines[j])
                          && forall k :: j < k <= idx ==> !IsDateLine(lines[k]))
  {
  }

  // ------------------------------------------------------------------- vendors

  /** The text after a matched prefix of length `k`, with the `\s*` after it removed and
      the rest trimmed, as `replace(/^(...)\s*\/i, "").trim()` leaves it. */
  function StripPrefix(s: string, k: int): string
    requires 0 <= k <= |s|
  {
    Trim(s[SkipWhitespace(s, k)..])
  }

  /** `/^Paid to/i.test(line) || /^Added to/i.test(line)` */
  predicate IsWalletVendorLine(line: string) {
    StartsWith(line, "paid to") || StartsWith(line, "added to")
  }

  /** The Format A vendor: the alternatives "Paid to", "Added to wallet from" and
      "Added to wallet" are tried in that order; without one the line is only trimmed. */
  function WalletVendor(line: string): string {
    if StartsWith(line, "paid to") then StripPrefix(line, 7)
    else if StartsWith(line, "added to wallet from") then StripPrefix(line, 20)
    else if StartsWith(line, "added to wallet") then StripPrefix(line, 15)
    else Trim(line)
  }

  /** An "Added to ..." line that does not go on with "wallet" keeps its whole text. */
  lemma AddedToOtherKeepsLine(line: string)
    requires StartsWith(line, "added to") && !StartsWith(line, "added to wallet")
    requires IsTrimmed(line)
    ensures WalletVendor(line) == line
  {
    MatchesAtFirst(line, 0, "added to");
    MatchesAtFirst(line, 0, "paid to");
    MatchesAtShorter(line, 0, "added to wallet from", 15);
    assert "added to wallet from"[..15] == "added to wallet";
    TrimTrimmed(line);
  }

  // ------------------------------------------------------------------ Format A
  //
  // The recognisers take the keyword table as a parameter; `ParseStatement` below
  // runs them with `categoryMap`.

  /** The transaction Format A reads at line `i`, if any. */
  function WalletEntry(table: Categories.Table, lines: seq<string>, i: int): Option<Transaction>
    requires 0 <= i < |lines|
  {
    var m := Amount(Wallet, lines[i]);
    if m.None? || i + 1 >= |lines| || !IsWalletVendorLine(lines[i + 1]) then None
    else
      var vendor := WalletVendor(lines[i + 1]);
      if m.value.sign == '-' then
        Some(Transaction(vendor, Paise(m.value), Categories.Classify(table, vendor), Debit, DateFor(lines, i)))
      else
        Some(Transaction(vendor, Paise(m.value), "Wallet Top-up", Credit, DateFor(lines, i)))
  }

  function Emitted(o: Option<Transaction>): seq<Transaction> {
    if o.Some? then [o.value] else []
  }

  /** The Format A transactions of the first `n` lines, in line order. */
  function WalletTransactions(table: Categories.Table, lines: seq<string>, n: int): seq<Transaction>
    requires 0 <= n <= |lines|
  {
    if n == 0 then [] else WalletTransactions(table, lines, n - 1) + Emitted(WalletEntry(table, lines, n - 1))
  }

  /** The body of the Format A loop for line `i`. */
  method WalletLine(table: Categories.Table, lines: seq<string>, i: int) returns (entry: Option<Transaction>)
    requires 0 <= i < |lines|
    ensures entry == WalletEntry(table, lines, i)
  {
    var line := lines[i];
    var amountMatch := Amount(Wallet, line);
    entry := None;
    if amountMatch.Some? && i + 1 < |lines| {
      var sign := amountMatch.value.sign;
      var amount := Paise(amountMatch.value);
      var nextLine := lines[i + 1];
      if IsWalletVendorLine(nextLine) {
        var vendor := WalletVendor(nextLine);
        var category := Categories.DetectIn(table, vendor);
        var date := ExtractDate(lines, i);
        if sign == '-' {
          entry := Some(Transaction(vendor, amount, category, Debit, date));
        } else {
          entry := Some(Transaction(vendor, amount, "Wallet Top-up", Credit, date));
        }
      }
    }
  }

  /** The Format A loop: each line's transaction, if any, is pushed in line order. */
  method ParseWalletFormat(table: Categories.Table, lines: seq<string>) returns (transactions: seq<Transaction>)
    ensures transactions == WalletTransactions(table, lines, |lines|)
  {
    transactions := [];
    for i := 0 to |lines|
      invariant transactions == WalletTransactions(table, lines, i)
    {
      var entry := WalletLine(table, lines, i);
      if entry.Some? {
        transactions := transactions + [entry.value];
      }
    }
  }

  /** Line `i` yields a wallet transaction exactly when a next line exists, line `i`
      matches the wallet amount pattern somewhere, and the next line opens with
      "Paid to" or "Added to" in any case. */
  lemma WalletEntryWhen(table: Categories.Table, lines: seq<string>, i: int)
    requires 0 <= i < |lines|
    ensures WalletEntry(table, lines, i).Some? <==>
              && i + 1 < |lines|
              && (exists p, c, m, a, b :: WalletPatternAt(lines[i], p, c, m, a, b))
              && IsWalletVendorLine(lines[i + 1])
  {
    var s := lines[i];
    if Amount(Wallet, s).Some? {
      var p :| 0 <= p < |s| && Amount(Wallet, s) == AmountAt(Wallet, s, p);
      AmountAtGivesWalletPattern(s, p);
    }
    if exists p, c, m, a, b :: WalletPatternAt(s, p, c, m, a, b) {
      var p, c, m, a, b :| WalletPatternAt(s, p, c, m, a, b);
      WalletPatternGivesAmountAt(s, p, c, m, a, b);
    }
  }

  /** The leftmost place where the wallet pattern matches decides the amount match. */
  lemma LeftmostWalletPattern(s: string, p: int, c: int, m: int, a: int, b: int)
    requires WalletPatternAt(s, p, c, m, a, b)
    requires forall p', c', m', a', b' :: 0 <= p' < p ==> !WalletPatternAt(s, p', c', m', a', b')
    ensures Amount(Wallet, s) == Some(AmountMatch(s[p], s[a..b], s[b + 1..b + 3]))
  {
    WalletPatternGivesAmountAt(s, p, c, m, a, b);
    forall k | 0 <= k < p ensures AmountAt(Wallet, s, k).None? {
      if AmountAt(Wallet, s, k).Some? {
        AmountAtGivesWalletPattern(s, k);
      }
    }
    assert FirstAmountFrom(Wallet, s, 0) == p;
  }

  /** A wallet transaction carries the amount and the sign of the line's amount match. */
  lemma WalletEntryFromMatch(table: Categories.Table, lines: seq<string>, i: int, mt: AmountMatch)
    requires 0 <= i < |lines| && WalletEntry(table, lines, i).Some?
    requires Amount(Wallet, lines[i]) == Some(mt)
    ensures WellFormed(mt) && WalletEntry(table, lines, i).value.amount == Paise(mt)
    ensures WalletEntry(table, lines, i).value.kind == Debit <==> mt.sign == '-'
  {
  }

  /** The paise of wallet captures: the run without commas in rupees, then two digits. */
  lemma WalletCapturesPaise(s: string, p: int, a: int, b: int)
    requires 0 <= p < |s| && IsSign(s[p]) && 0 <= a <= b && b + 3 <= |s|
    requires DigitsOrCommas(s[a..b])
    requires IsDigit(s[b + 1]) && IsDigit(s[b + 2])
    ensures var mt := AmountMatch(s[p], s[a..b], s[b + 1..b + 3]);
      WellFormed(mt) && Paise(mt) == DecimalValue(RemoveCommas(s[a..b])) * 100 + 10 * DigitValue(s[b + 1]) + DigitValue(s[b + 2])
  {
    DigitsOrCommasSlice(s, a, b);
    var mt := Captures(s, p, a, b, b + 3);
    assert mt.fraction[0] == s[b + 1] && mt.fraction[1] == s[b + 2];
  }

  /** The amount is read from the leftmost match: the digits and commas before the point
      with the commas removed, and exactly two digits after it; its sign decides the kind. */
  lemma WalletEntryAmount(table: Categories.Table, lines: seq<string>, i: int, p: int, c: int, m: int, a: int, b: int)
    requires 0 <= i < |lines| && WalletEntry(table, lines, i).Some?
    requires WalletPatternAt(lines[i], p, c, m, a, b)
    requires forall p', c', m', a', b' :: 0 <= p' < p ==> !WalletPatternAt(lines[i], p', c', m', a', b')
    ensures WalletEntry(table, lines, i).value.amount
            == DecimalValue(RemoveCommas(lines[i][a..b])) * 100
               + 10 * DigitValue(lines[i][b + 1]) + DigitValue(lines[i][b + 2])
    ensures WalletEntry(table, lines, i).value.kind == Debit <==> lines[i][p] == '-'
  {
    var s := lines[i];
    LeftmostWalletPattern(s, p, c, m, a, b);
    WalletCapturesPaise(s, p, a, b);
    WalletEntryFromMatch(table, lines, i, AmountMatch(s[p], s[a..b], s[b + 1..b + 3]));
  }

  /** A minus sign gives a Debit classified by the vendor; a plus sign gives a Credit that
      is always a wallet top-up. The vendor is the stripped next line. */
  lemma WalletEntryKinds(table: Categories.Table, lines: seq<string>, i: int)
    requires 0 <= i < |lines| && WalletEntry(table, lines, i).Some?
    ensures var t := WalletEntry(table, lines, i).value;
      && t.vendor == WalletVendor(lines[i + 1])
      && t.date == DateFor(lines, i)
      && (t.kind == Debit <==> Amount(Wallet, lines[i]).value.sign == '-')
      && (t.kind == Debit ==> t.category == Categories.Classify(table, t.vendor))
      && (t.kind == Credit ==> t.category == "Wallet Top-up")
  {
  }

  /** Format A yields at most one transaction per line, each from some line, in line order. */
  lemma {:induction false} WalletTransactionsFromLines(table: Categories.Table, lines: seq<string>, n: int)
    requires 0 <= n <= |lines|
    ensures |WalletTransactions(table, lines, n)| <= n
    ensures forall t :: t in WalletTransactions(table, lines, n) ==>
              exists i :: 0 <= i < n && WalletEntry(table, lines, i) == Some(t)
  {
    if n > 0 {
      WalletTransactionsFromLines(table, lines, n - 1);
      var prefix := WalletTransactions(table, lines, n - 1);
      var o := WalletEntry(table, lines, n - 1);
      assert WalletTransactions(table, lines, n) == prefix + Emitted(o);
      forall t | t in prefix + Emitted(o)
        ensures exists i :: 0 <= i < n && WalletEntry(table, lines, i) == Some(t)
      {
        if t !in prefix {
          assert o == Some(t);
        }
      }
    }
  }

  // ------------------------------------------------------------------ Format B

  /** `/^(Paytm|Recharge|...|VI)/i`, lower-cased and in source order. */
  const ExpenseKeywords: seq<string> := [
    "paytm", "recharge", "automatic", "jar", "phonepe", "amazon", "purchase", "bill",
    "shopping", "bus", "train", "flight", "movie", "electricity", "water", "jio",
    "airtel", "vi"
  ]

  predicate IsExpenseLine(line: string) {
    exists k :: 0 <= k < |ExpenseKeywords| && StartsWith(line, ExpenseKeywords[k])
  }

  /** `/^(Paid to|Money sent to|Received from)/i.test(line)` */
  predicate IsUpiVendorLine(line: string) {
    StartsWith(line, "paid to") || StartsWith(line, "money sent to") || StartsWith(line, "received from")
  }

  /** `line.replace(/^(Paid to|Money sent to|Received from)\s*\/i, "").trim()` */
  function UpiVendorRemainder(line: string): string {
    if StartsWith(line, "paid to") then StripPrefix(line, 7)
    else if StartsWith(line, "money sent to") then StripPrefix(line, 13)
    else if StartsWith(line, "received from") then StripPrefix(line, 13)
    else Trim(line)
  }

  /**
   * `currentVendor` after the vendor tests on `line`. The slot is a string in which ""
   * stands for `null`: the source only ever tests it for truthiness, and both `null`
   * and "" are falsy.
   */
  function VendorSlot(line: string, slot: string): string {
    if IsUpiVendorLine(line) then UpiVendorRemainder(line)
    else if IsExpenseLine(line) then Trim(line)
    else slot
  }

  /** The `#`-tag override, as the chain of `includes` tests on the lower-cased tag line. */
  function TagCategory(tagLine: string, detected: string): string {
    if !Contains(tagLine, "#") then detected
    else if Contains(tagLine, "food") then "Food"
    else if Contains(tagLine, "groceries") then "Groceries"
    else if Contains(tagLine, "travel") then "Travel"
    else if Contains(tagLine, "bill") then "Bills"
    else if Contains(tagLine, "medical") then "Medical"
    else if Contains(tagLine, "services") then "Services"
    else if Contains(tagLine, "miscellaneous") then "Miscellaneous"
    else if Contains(tagLine, "transfer") then "Transfers"
    else if Contains(tagLine, "savings") then "Savings"
    else detected
  }

  /** The tag keywords in the order they are matched, with the categories they set. */
  const TagRules: Categories.Table := [
    ("food", "Food"), ("groceries", "Groceries"), ("travel", "Travel"), ("bill", "Bills"),
    ("medical", "Medical"), ("services", "Services"), ("miscellaneous", "Miscellaneous"),
    ("transfer", "Transfers"), ("savings", "Savings")
  ]

  /** With a `#` on the tag line the first tag keyword it contains, in table order, sets
      the category; without a `#` or without a keyword the detected category stays. */
  lemma TagCategoryFirstKeyword(tagLine: string, detected: string)
    ensures (Contains(tagLine, "#") && Categories.FirstKeyFrom(TagRules, tagLine, 0) < |TagRules|)
              ==> TagCategory(tagLine, detected) == TagRules[Categories.FirstKeyFrom(TagRules, tagLine, 0)].1
    ensures (!Contains(tagLine, "#") || Categories.FirstKeyFrom(TagRules, tagLine, 0) == |TagRules|)
              ==> TagCategory(tagLine, detected) == detected
  {
    var k := Categories.FirstKeyFrom(TagRules, tagLine, 0);
    assert Categories.NoKeyIn(TagRules, tagLine, 0, k);
  }

  /** One iteration of the Format B loop: the transaction it appends, if any, and the slot after it. */
  function UpiStep(table: Categories.Table, lines: seq<string>, i: int, slot: string): (Option<Transaction>, string)
    requires 0 <= i < |lines|
  {
    var vendor := VendorSlot(lines[i], slot);
    var m := Amount(Upi, lines[i]);
    if m.Some? && vendor != "" then
      var tagLine := ToLower(if i + 1 < |lines| then lines[i + 1] else "");
      var category := TagCategory(tagLine, Categories.Classify(table, vendor));
      if m.value.sign == '-' then
        (Some(Transaction(vendor, Paise(m.value), category, Debit, DateFor(lines, i))), "")
      else (None, "")
    else (None, vendor)
  }

  /** The Format B transactions of the first `n` lines and the slot after them. */
  function UpiScan(table: Categories.Table, lines: seq<string>, n: int): (seq<Transaction>, string)
    requires 0 <= n <= |lines|
  {
    if n == 0 then ([], "")
    else
      var (transactions, slot) := UpiScan(table, lines, n - 1);
      var (o, slot') := UpiStep(table, lines, n - 1, slot);
      (transactions + Emitted(o), slot')
  }

  function UpiTransactions(table: Categories.Table, lines: seq<string>): seq<Transaction> {
    UpiScan(table, lines, |lines|).0
  }

  /** The body of the Format B loop for line `i`, with `currentVendor` going in and out. */
  method UpiLine(table: Categories.Table, lines: seq<string>, i: int, currentVendor: string)
    returns (entry: Option<Transaction>, vendor: string)
    requires 0 <= i < |lines|
    ensures (entry, vendor) == UpiStep(table, lines, i, currentVendor)
  {
    var line := lines[i];
    vendor := currentVendor;
    if IsUpiVendorLine(line) {
      vendor := UpiVendorRemainder(line);
    } else if IsExpenseLine(line) {
      vendor := Trim(line);
    }
    assert vendor == VendorSlot(line, currentVendor);
    entry := None;
    var amountMatch := Amount(Upi, line);
    if amountMatch.Some? && vendor != "" {
      var sign := amountMatch.value.sign;
      var amount := Paise(amountMatch.value);
      var tagLine := ToLower(if i + 1 < |lines| then lines[i + 1] else "");
      var category := Categories.DetectIn(table, vendor);
      category := TagCategory(tagLine, category);
      if sign == '-' {
        var date := ExtractDate(lines, i);
        entry := Some(Transaction(vendor, amount, category, Debit, date));
      }
      vendor := "";
    }
  }

  /** The Format B loop; `currentVendor` starts out `null`. */
  method ParseUpiFormat(table: Categories.Table, lines: seq<string>) returns (transactions: seq<Transaction>)
    ensures transactions == UpiTransactions(table, lines)
  {
    transactions := [];
    var currentVendor := "";
    for i := 0 to |lines|
      invariant transactions == UpiScan(table, lines, i).0
      invariant currentVendor == UpiScan(table, lines, i).1
    {
      var entry, vendor := UpiLine(table, lines, i, currentVendor);
      UpiScanStep(table, lines, i);
      if entry.Some? {
        transactions := transactions + [entry.value];
      }
      currentVendor := vendor;
    }
  }

  lemma UpiScanStep(table: Categories.Table, lines: seq<string>, n: int)
    requires 0 <= n < |lines|
    ensures var step := UpiStep(table, lines, n, UpiScan(table, lines, n).1);
      UpiScan(table, lines, n + 1) == (UpiScan(table, lines, n).0 + Emitted(step.0), step.1)
  {
  }

  /** The slot rules of one line: an amount line that finds a vendor set, after the vendor
      tests on the same line, empties the slot whatever its sign, and emits only for `-`,
      under the vendor in the slot; any other line leaves the slot as the vendor tests set it. */
  lemma UpiStepSlot(table: Categories.Table, lines: seq<string>, i: int, slot: string)
    requires 0 <= i < |lines|
    ensures var vendor := VendorSlot(lines[i], slot);
      && (Amount(Upi, lines[i]).Some? && vendor != "" ==> UpiStep(table, lines, i, slot).1 == "")
      && (Amount(Upi, lines[i]).None? || vendor == "" ==> UpiStep(table, lines, i, slot) == (None, vendor))
      && (UpiStep(table, lines, i, slot).0.Some? <==>
            Amount(Upi, lines[i]).Some? && vendor != "" && Amount(Upi, lines[i]).value.sign == '-')
      && (UpiStep(table, lines, i, slot).0.Some? ==> UpiStep(table, lines, i, slot).0.value.vendor == vendor)
  {
  }

  /** Every Format B transaction is a Debit, and there is at most one per line. */
  lemma {:induction false} UpiScanDebits(table: Categories.Table, lines: seq<string>, n: int)
    requires 0 <= n <= |lines|
    ensures forall t :: t in UpiScan(table, lines, n).0 ==> t.kind == Debit
    ensures |UpiScan(table, lines, n).0| <= n
  {
    if n > 0 {
      UpiScanDebits(table, lines, n - 1);
      var (prefix, slot) := UpiScan(table, lines, n - 1);
      var (o, slot') := UpiStep(table, lines, n - 1, slot);
      assert UpiScan(table, lines, n).0 == prefix + Emitted(o);
    }
  }

  // ------------------------------------------------------------------- results

  /** All Format A transactions in line order, then all Format B transactions in line order. */
  function StatementTransactions(table: Categories.Table, lines: seq<string>): seq<Transaction> {
    WalletTransactions(table, lines, |lines|) + UpiTransactions(table, lines)
  }

  /** The handler body: both recognisers over the lines, with `categoryMap` as the keyword
      table, then the totals over the combined list. The category totals add up to the
      grand total. */
  method ParseStatement(lines: seq<string>)
    returns (transactions: seq<Transaction>, categoryTotals: Assoc.Entries, grandTotal: nat)
    ensures transactions == StatementTransactions(Categories.CategoryMap, lines)
    ensures categoryTotals == Totals.DebitTotals(transactions)
    ensures grandTotal == Totals.DebitSum(transactions)
    ensures Assoc.Sum(categoryTotals) == grandTotal
  {
    var wallet := ParseWalletFormat(Categories.CategoryMap, lines);
    var upi := ParseUpiFormat(Categories.CategoryMap, lines);
    transactions := wallet + upi;
    categoryTotals, grandTotal := Totals.ComputeTotals(transactions);
    Totals.TotalsSumToGrandTotal(transactions);
  }
}
