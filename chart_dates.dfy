/**
 * The date handling of client/src/components/Charts.jsx: `parseDateSafely`
 * with its two explicit formats, the filter to transactions with a valid
 * date, `getMonday`, the `formatDay`/`formatMonth` bucket keys and the
 * month-span granularity rule. Dates are calendar day numbers (see Calendar).
 */
module ChartDates {
  import opened Text
  import opened Wrappers
  import opened Calendar
  import opened Ledger

  // ------------------------------------------------------------ parseDateSafely

  predicate DigitsIn(s: string, i: int, j: int)
    requires 0 <= i <= j <= |s|
  {
    forall k :: i <= k < j ==> IsDigit(s[k])
  }

  /** `/^(\d{2})-(\d{2})-(\d{4})$/` */
  predicate IsDayMonthYear(s: string) {
    |s| == 10 && DigitsIn(s, 0, 2) && s[2] == '-' && DigitsIn(s, 3, 5) && s[5] == '-' && DigitsIn(s, 6, 10)
  }

  /** `/^(\d{2})\/(\d{2})\/(\d{4})$/` */
  predicate IsMonthDayYear(s: string) {
    |s| == 10 && DigitsIn(s, 0, 2) && s[2] == '/' && DigitsIn(s, 3, 5) && s[5] == '/' && DigitsIn(s, 6, 10)
  }

  /** `new Date("YYYY-MM-DD")` for the digits captured: the day of that calendar date, or
      an invalid date when the month or the day is out of range. */
  function IsoDate(year: nat, month: nat, day: nat): (r: Option<int>)
    ensures r.Some? <==> 1 <= month <= 12 && 1 <= day <= DaysInMonth(year, month)
    ensures r.Some? ==> ToCivil(r.value) == Civil(year, month, day)
  {
    if 1 <= month <= 12 && 1 <= day <= DaysInMonth(year, month) then
      ToCivilDayNumber(Civil(year, month, day));
      Some(DayNumber(year, month, day))
    else None
  }

  /**
   * `parseDateSafely(raw)`: `null` for an empty string, the rearranged explicit formats,
   * and otherwise the engine's own `new Date(raw)`, which stands here as the parameter
   * `fallback` (None for an invalid date).
   */
  function ParseDateSafely(raw: string, fallback: string -> Option<int>): Option<int> {
    if raw == "" then None
    else if IsDayMonthYear(raw) then
      IsoDate(DecimalValue(raw[6..10]), DecimalValue(raw[3..5]), DecimalValue(raw[0..2]))
    else if IsMonthDayYear(raw) then
      IsoDate(DecimalValue(raw[6..10]), DecimalValue(raw[0..2]), DecimalValue(raw[3..5]))
    else fallback(raw)
  }

  lemma EmptyDateIsNull(fallback: string -> Option<int>)
    ensures ParseDateSafely("", fallback) == None
  {
  }

  /** The two patterns are anchored and differ in their separators, so at most one applies. */
  lemma ExplicitFormatsExclusive(s: string)
    ensures !(IsDayMonthYear(s) && IsMonthDayYear(s))
  {
  }

  /** An explicit format never consults the engine's parser. */
  lemma ExplicitFormatsIgnoreFallback(s: string, f: string -> Option<int>, g: string -> Option<int>)
    requires IsDayMonthYear(s) || IsMonthDayYear(s)
    ensures ParseDateSafely(s, f) == ParseDateSafely(s, g)
  {
  }

  /** Two two-digit fields and a four-digit field joined by a one-character separator. */
  lemma Joined(a: string, b: string, y: string, sep: string)
    requires |a| == 2 && |b| == 2 && |y| == 4 && |sep| == 1
    requires DigitsIn(a, 0, 2) && DigitsIn(b, 0, 2) && DigitsIn(y, 0, 4)
    ensures var s := a + sep + b + sep + y;
      |s| == 10 && s[0..2] == a && s[3..5] == b && s[6..10] == y && s[2] == sep[0] && s[5] == sep[0]
      && DigitsIn(s, 0, 2) && DigitsIn(s, 3, 5) && DigitsIn(s, 6, 10)
  {
    var s := a + sep + b + sep + y;
    assert s[0..2] == a && s[3..5] == b && s[6..10] == y;
    assert forall k :: 0 <= k < 2 ==> s[k] == a[k];
    assert forall k :: 3 <= k < 5 ==> s[k] == b[k - 3];
    assert forall k :: 6 <= k < 10 ==> s[k] == y[k - 6];
  }

  /** DD-MM-YYYY parses to the calendar date with those digits. */
  lemma DayMonthYearParse(dd: string, mm: string, yyyy: string, fallback: string -> Option<int>)
    requires |dd| == 2 && |mm| == 2 && |yyyy| == 4
    requires DigitsIn(dd, 0, 2) && DigitsIn(mm, 0, 2) && DigitsIn(yyyy, 0, 4)
    ensures ParseDateSafely(dd + "-" + mm + "-" + yyyy, fallback) == IsoDate(DecimalValue(yyyy), DecimalValue(mm), DecimalValue(dd))
  {
    Joined(dd, mm, yyyy, "-");
  }

  /** MM/DD/YYYY parses to the calendar date with those digits. */
  lemma MonthDayYearParse(dd: string, mm: string, yyyy: string, fallback: string -> Option<int>)
    requires |dd| == 2 && |mm| == 2 && |yyyy| == 4
    requires DigitsIn(dd, 0, 2) && DigitsIn(mm, 0, 2) && DigitsIn(yyyy, 0, 4)
    ensures ParseDateSafely(mm + "/" + dd + "/" + yyyy, fallback) == IsoDate(DecimalValue(yyyy), DecimalValue(mm), DecimalValue(dd))
  {
    Joined(mm, dd, yyyy, "/");
  }

  /** The same day written as DD-MM-YYYY and as MM/DD/YYYY parses to the same date, the
      calendar date with those digits. */
  lemma BothFormatsAgree(dd: string, mm: string, yyyy: string, fallback: string -> Option<int>)
    requires |dd| == 2 && |mm| == 2 && |yyyy| == 4
    requires DigitsIn(dd, 0, 2) && DigitsIn(mm, 0, 2) && DigitsIn(yyyy, 0, 4)
    ensures ParseDateSafely(dd + "-" + mm + "-" + yyyy, fallback)
         == ParseDateSafely(mm + "/" + dd + "/" + yyyy, fallback)
  {
    DayMonthYearParse(dd, mm, yyyy, fallback);
    MonthDayYearParse(dd, mm, yyyy, fallback);
  }

  // -------------------------------------------------------------- valid dates

  /** A transaction whose date parsed, kept with its day: an element of `validTransactions`
      together with `parseDateSafely(t.date)`. */
  datatype Point = Point(day: int, amount: nat, category: string)

  /** `validTransactions` and their dates, in order. */
  function ValidPoints(transactions: seq<Transaction>, fallback: string -> Option<int>): (points: seq<Point>)
    ensures |points| <= |transactions|
  {
    if |transactions| == 0 then []
    else
      var t := transactions[0];
      var d := ParseDateSafely(t.date, fallback);
      (if d.Some? then [Point(d.value, t.amount, t.category)] else []) + ValidPoints(transactions[1..], fallback)
  }

  /** Exactly the transactions whose date parses are kept, in order, with their dates. */
  lemma {:induction false} ValidPointsKept(transactions: seq<Transaction>, fallback: string -> Option<int>)
    ensures forall p :: p in ValidPoints(transactions, fallback) ==>
              exists t :: t in transactions && ParseDateSafely(t.date, fallback) == Some(p.day)
                       && p.amount == t.amount && p.category == t.category
    ensures forall t :: t in transactions && ParseDateSafely(t.date, fallback).Some? ==>
              Point(ParseDateSafely(t.date, fallback).value, t.amount, t.category) in ValidPoints(transactions, fallback)
  {
    if |transactions| > 0 {
      ValidPointsKept(transactions[1..], fallback);
      forall t | t in transactions[1..] ensures t in transactions {
      }
      forall t | t in transactions ensures t == transactions[0] || t in transactions[1..] {
        var i :| 0 <= i < |transactions| && transactions[i] == t;
        if i > 0 {
          assert transactions[1..][i - 1] == t;
        }
      }
    }
  }

  /** `Math.min(...validDates)` */
  function MinDay(points: seq<Point>): (m: int)
    requires |points| > 0
    ensures exists i :: 0 <= i < |points| && points[i].day == m
    ensures forall i :: 0 <= i < |points| ==> m <= points[i].day
  {
    if |points| == 1 then points[0].day
    else
      var rest := MinDay(points[1..]);
      assert forall i :: 1 <= i < |points| ==> points[i] == points[1..][i - 1];
      if points[0].day <= rest then points[0].day else rest
  }

  /** `Math.max(...validDates)` */
  function MaxDay(points: seq<Point>): (m: int)
    requires |points| > 0
    ensures exists i :: 0 <= i < |points| && points[i].day == m
    ensures forall i :: 0 <= i < |points| ==> points[i].day <= m
  {
    if |points| == 1 then points[0].day
    else
      var rest := MaxDay(points[1..]);
      assert forall i :: 1 <= i < |points| ==> points[i] == points[1..][i - 1];
      if points[0].day >= rest then points[0].day else rest
  }

  // ---------------------------------------------------------------- getMonday

  /** The Monday of the week (Monday to Sunday) holding day `t`. */
  function MondayOf(t: int): (m: int)
    ensures Weekday(m) == 1 && m <= t < m + 7
  {
    t - (Weekday(t) + 6) % 7
  }

  /** `getMonday(date)`: on a copy, `setDate(getDate() - getDay() + (getDay() === 0 ? -6 : 1))`. */
  method GetMonday(date: int) returns (monday: int)
    ensures monday == MondayOf(date)
    ensures Weekday(monday) == 1 && monday <= date < monday + 7
  {
    var d := new Date(date);
    var day := d.GetDay();
    var diff := d.GetDate() - day + (if day == 0 then -6 else 1);
    MondayShift(date);
    MakeDayShift(date, diff - d.GetDate());
    d.SetDate(diff);
    monday := d.time;
  }

  /** The shift `getMonday` adds to the day of the month. */
  lemma MondayShift(t: int)
    ensures MondayOf(t) == t - Weekday(t) + (if Weekday(t) == 0 then -6 else 1)
  {
  }

  /** A Monday is its own Monday, and a Sunday belongs to the week that began six days
      before it. */
  lemma MondayOfFixedPoints(t: int)
    ensures Weekday(t) == 1 ==> MondayOf(t) == t
    ensures Weekday(t) == 0 ==> MondayOf(t) == t - 6
    ensures MondayOf(MondayOf(t)) == MondayOf(t)
  {
  }

  /** Days of the same week share their Monday; Mondays a week apart are 7 days apart. */
  lemma MondayOfWeek(m: int, k: int)
    requires Weekday(m) == 1 && 0 <= k < 7
    ensures MondayOf(m + k) == m
    ensures MondayOf(m + 7) == m + 7
  {
  }

  /** Every day a whole number of weeks from a Monday is a Monday. */
  lemma WeeksFromMonday(m: int, i: int)
    requires Weekday(m) == 1
    ensures Weekday(m + 7 * i) == 1 && MondayOf(m + 7 * i) == m + 7 * i
  {
    assert (m + 7 * i + 4) % 7 == (m + 4) % 7;
  }

  /** Mondays are whole weeks apart. */
  lemma MondaysApart(a: int, b: int)
    requires Weekday(a) == 1 && Weekday(b) == 1 && a <= b
    ensures (b - a) % 7 == 0 && a + 7 * ((b - a) / 7) == b
  {
    assert (a + 4) % 7 == (b + 4) % 7;
  }

  /** Two different Mondays are at least a week apart. */
  lemma MondaysOrdered(a: int, b: int)
    requires Weekday(a) == 1 && Weekday(b) == 1
    ensures a < b ==> a + 7 <= b
  {
    if a < b {
      MondaysApart(a, b);
    }
  }

  /** A later day's Monday is never earlier. */
  lemma MondayOfMonotone(s: int, t: int)
    requires s <= t
    ensures MondayOf(s) <= MondayOf(t)
  {
    MondaysOrdered(MondayOf(t), MondayOf(s));
  }

  // ---------------------------------------------------------------- bucket keys

  /** `formatDay(date)`: `YYYY-MM-DD` with the month and day zero-padded to two digits. */
  function FormatDay(t: int): string {
    var c := ToCivil(t);
    IntToString(c.year) + "-" + Pad2(c.month) + "-" + Pad2(c.day)
  }

  /** `formatMonth(date)`: `YYYY-MM`. */
  function FormatMonth(t: int): string {
    var c := ToCivil(t);
    IntToString(c.year) + "-" + Pad2(c.month)
  }

  lemma SplitSuffix(a: string, b: string, c: string, d: string)
    requires |b| == |d| && a + b == c + d
    ensures a == c && b == d
  {
    assert a == (a + b)[..|a|];
    assert c == (c + d)[..|c|];
  }

  /** Different days get different day keys. */
  lemma FormatDayInjective(s: int, t: int)
    ensures FormatDay(s) == FormatDay(t) <==> s == t
  {
    if FormatDay(s) == FormatDay(t) {
      var cs, ct := ToCivil(s), ToCivil(t);
      SplitSuffix(IntToString(cs.year) + "-" + Pad2(cs.month) + "-", Pad2(cs.day),
                  IntToString(ct.year) + "-" + Pad2(ct.month) + "-", Pad2(ct.day));
      SplitSuffix(IntToString(cs.year) + "-" + Pad2(cs.month), "-", IntToString(ct.year) + "-" + Pad2(ct.month), "-");
      SplitSuffix(IntToString(cs.year) + "-", Pad2(cs.month), IntToString(ct.year) + "-", Pad2(ct.month));
      SplitSuffix(IntToString(cs.year), "-", IntToString(ct.year), "-");
      IntToStringInjective(cs.year, ct.year);
      Pad2Injective(cs.month, ct.month);
      Pad2Injective(cs.day, ct.day);
      ToCivilInjective(s, t);
    }
  }

  /** The `YYYY-MM` key of month `k`, counted as `MonthIndex` counts. */
  function MonthKeyAt(k: int): string {
    IntToString(k / 12) + "-" + Pad2(k % 12 + 1)
  }

  /** A day's month key is the key of its month. */
  lemma FormatMonthIndex(t: int)
    ensures FormatMonth(t) == MonthKeyAt(MonthIndex(t))
  {
    var c := ToCivil(t);
    var k := c.year * 12 + c.month - 1;
    assert k / 12 == c.year && k % 12 + 1 == c.month;
  }

  /** The first day of month `k` has the key of month `k`. */
  lemma FormatMonthStart(k: int)
    ensures FormatMonth(MonthStart(k)) == MonthKeyAt(k)
  {
    MonthIndexOfMonthStart(k);
    FormatMonthIndex(MonthStart(k));
  }

  /** Different months have different keys. */
  lemma MonthKeyAtInjective(a: int, b: int)
    ensures MonthKeyAt(a) == MonthKeyAt(b) <==> a == b
  {
    if MonthKeyAt(a) == MonthKeyAt(b) {
      SplitSuffix(IntToString(a / 12) + "-", Pad2(a % 12 + 1), IntToString(b / 12) + "-", Pad2(b % 12 + 1));
      SplitSuffix(IntToString(a / 12), "-", IntToString(b / 12), "-");
      IntToStringInjective(a / 12, b / 12);
      Pad2Injective(a % 12 + 1, b % 12 + 1);
    }
  }

  /** Two days get the same month key exactly when they lie in the same month. */
  lemma FormatMonthSameMonth(s: int, t: int)
    ensures FormatMonth(s) == FormatMonth(t) <==> MonthIndex(s) == MonthIndex(t)
  {
    FormatMonthIndex(s);
    FormatMonthIndex(t);
    MonthKeyAtInjective(MonthIndex(s), MonthIndex(t));
  }

  // -------------------------------------------------------------- granularity

  datatype Granularity = ByDay | ByWeek | ByMonth

  /** `monthDiff`: whole calendar months from the first date's month to the last date's. */
  function MonthDiff(minDay: int, maxDay: int): int {
    MonthIndex(maxDay) - MonthIndex(minDay)
  }

  /** Four or more months apart: by month; one to three: by week; otherwise by day. */
  function GranularityOf(monthDiff: int): Granularity {
    if monthDiff >= 4 then ByMonth else if monthDiff >= 1 then ByWeek else ByDay
  }

  /** With the first date not after the last, the series is by day exactly when both lie in
      the same calendar month, by week when they are one to three months apart, and by
      month otherwise. */
  lemma GranularityByMonths(minDay: int, maxDay: int)
    requires minDay <= maxDay
    ensures GranularityOf(MonthDiff(minDay, maxDay)) == ByDay <==> MonthIndex(minDay) == MonthIndex(maxDay)
    ensures GranularityOf(MonthDiff(minDay, maxDay)) == ByWeek <==> 1 <= MonthDiff(minDay, maxDay) <= 3
    ensures GranularityOf(MonthDiff(minDay, maxDay)) == ByMonth <==> MonthDiff(minDay, maxDay) >= 4
  {
    MonthIndexMonotone(minDay, maxDay);
  }
}
