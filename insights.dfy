/**
 * The insights of client/src/components/Charts.jsx that come down to whole
 * numbers: which period, transaction, category and weekday come out on top or
 * at the bottom, the median, the weekend/weekday split, when growth is shown and
 * how many categories there are. Their wording and number formatting are not
 * modelled.
 */
module Insights {
  import opened Wrappers
  import opened Assoc
  import opened Calendar
  import opened ChartDates
  import opened Grouping
  import opened Pie
  import opened Ranking

  // ---------------------------------------- highest and lowest period (2 and 4)

  const EntryValue: ((string, nat)) -> int := (e: (string, nat)) => e.1

  const EntryValueNegated: ((string, nat)) -> int := (e: (string, nat)) => -(e.1 as int)

  /** `highestEntry`: the reduce over `Object.entries(filledTotals)` from `["", 0]` that
      moves to an entry only when its amount is strictly larger. */
  function Highest(series: Entries): (string, nat) {
    BestFrom(("", 0), series, EntryValue)
  }

  /** The highest period is the first one with the largest amount; when no period has
      any spending it stays `["", 0]`. */
  lemma HighestPeriod(series: Entries)
    ensures forall i :: 0 <= i < |series| ==> series[i].1 <= Highest(series).1
    ensures (forall i :: 0 <= i < |series| ==> series[i].1 == 0) ==> Highest(series) == ("", 0)
    ensures (exists i :: 0 <= i < |series| && series[i].1 > 0) ==>
              exists i :: 0 <= i < |series| && Highest(series) == series[i]
                       && forall j :: 0 <= j < i ==> series[j].1 < series[i].1
  {
    BestFromFirstMax(("", 0), series, EntryValue);
    var i := BestIndex(("", 0), series, EntryValue);
    if i >= 0 {
      assert IsFirstMax(series, EntryValue, i);
      assert forall j :: 0 <= j < i ==> series[j].1 < series[i].1;
    }
  }

  /** An amount or JavaScript's `Infinity`. */
  datatype Extended = Finite(value: nat) | Infinity

  /** `lowestEntry`: the reduce from `["", Infinity]` that moves to an entry only when its
      amount is strictly smaller. The first entry is always below `Infinity`, so the
      reduce continues from it. */
  function Lowest(series: Entries): (string, Extended) {
    if |series| == 0 then ("", Infinity)
    else
      var e := BestFrom(series[0], series[1..], EntryValueNegated);
      (e.0, Finite(e.1))
  }

  /** The lowest period is the first one with the smallest amount, zero-spend periods
      included; only an empty series leaves `["", Infinity]`. */
  lemma LowestPeriod(series: Entries)
    ensures |series| == 0 ==> Lowest(series) == ("", Infinity)
    ensures |series| > 0 ==>
              exists i :: 0 <= i < |series| && Lowest(series) == (series[i].0, Finite(series[i].1))
                       && (forall j :: 0 <= j < |series| ==> series[i].1 <= series[j].1)
                       && forall j :: 0 <= j < i ==> series[j].1 > series[i].1
  {
    if |series| > 0 {
      var rest := series[1..];
      BestFromFirstMax(series[0], rest, EntryValueNegated);
      var k := BestIndex(series[0], rest, EntryValueNegated);
      assert forall j :: 1 <= j < |series| ==> series[j] == rest[j - 1];
      if k < 0 {
        assert forall j :: 0 <= j < |rest| ==> series[0].1 <= rest[j].1;
        assert Lowest(series) == (series[0].0, Finite(series[0].1));
      } else {
        var i := k + 1;
        assert IsFirstMax(rest, EntryValueNegated, k);
        assert forall j :: 0 <= j < |rest| ==> rest[k].1 <= rest[j].1;
        assert forall j :: 0 <= j < k ==> rest[j].1 > rest[k].1;
        assert Lowest(series) == (series[i].0, Finite(series[i].1));
      }
    }
  }

  // ------------------------------------ largest and smallest transaction (12, 13)

  const AmountOf: Point -> int := (p: Point) => p.amount

  const AmountNegated: Point -> int := (p: Point) => -(p.amount as int)

  /** `largestTxn`: the reduce from the first transaction that moves only to a strictly
      larger amount; `None` is the `{ amount: 0, date: null }` of an empty list. */
  function Largest(points: seq<Point>): Option<Point> {
    if |points| == 0 then None else Some(BestFrom(points[0], points, AmountOf))
  }

  /** `smallestTxn`, the same reduce with a strictly smaller amount. */
  function Smallest(points: seq<Point>): Option<Point> {
    if |points| == 0 then None else Some(BestFrom(points[0], points, AmountNegated))
  }

  /** The largest transaction is the first one with the largest amount. */
  lemma LargestTransaction(points: seq<Point>)
    ensures Largest(points).None? <==> |points| == 0
    ensures |points| > 0 ==>
              exists i :: 0 <= i < |points| && Largest(points) == Some(points[i])
                       && (forall j :: 0 <= j < |points| ==> points[j].amount <= points[i].amount)
                       && forall j :: 0 <= j < i ==> points[j].amount < points[i].amount
  {
    if |points| > 0 {
      FirstElementBest(points, AmountOf);
      var i :| IsFirstMax(points, AmountOf, i) && BestFrom(points[0], points, AmountOf) == points[i];
      assert forall j :: 0 <= j < |points| ==> points[j].amount <= points[i].amount;
    }
  }

  /** The smallest transaction is the first one with the smallest amount. */
  lemma SmallestTransaction(points: seq<Point>)
    ensures Smallest(points).None? <==> |points| == 0
    ensures |points| > 0 ==>
              exists i :: 0 <= i < |points| && Smallest(points) == Some(points[i])
                       && (forall j :: 0 <= j < |points| ==> points[i].amount <= points[j].amount)
                       && forall j :: 0 <= j < i ==> points[j].amount > points[i].amount
  {
    if |points| > 0 {
      FirstElementBest(points, AmountNegated);
      var i :| IsFirstMax(points, AmountNegated, i) && BestFrom(points[0], points, AmountNegated) == points[i];
      assert forall j :: 0 <= j < |points| ==> points[i].amount <= points[j].amount;
    }
  }

  // ------------------------------------------------------------- median (11)

  /** `validTransactions.map((t) => t.amount)` */
  function Amounts(points: seq<Point>): (amounts: seq<nat>)
    ensures |amounts| == |points|
    ensures forall i :: 0 <= i < |points| ==> amounts[i] == points[i].amount
  {
    seq(|points|, i requires 0 <= i < |points| => points[i].amount)
  }

  const Negated: nat -> int := (a: nat) => -(a as int)

  /** `.sort((a, b) => a - b)`: ascending is descending in the negated amount. */
  function SortedAmounts(points: seq<Point>): (s: seq<nat>)
    ensures |s| == |points|
  {
    SortDesc(Amounts(points), Negated)
  }

  /** `Math.round(a / b)` for whole `a >= 0` and `b > 0`: halves round up. */
  function RoundHalfUp(a: nat, b: nat): nat
    requires b > 0
  {
    (2 * a + b) / (2 * b)
  }

  /** The rounded quotient is the whole number nearest to `a / b`, a half going up. */
  lemma RoundHalfUpNearest(a: nat, b: nat)
    requires b > 0
    ensures 2 * RoundHalfUp(a, b) * b <= 2 * a + b < 2 * RoundHalfUp(a, b) * b + 2 * b
  {
    var r := RoundHalfUp(a, b);
    assert (2 * a + b) == r * (2 * b) + (2 * a + b) % (2 * b);
  }

  /** `medianSpend`, in paise: the middle amount for an odd count; for an even count the
      mean of the two middle amounts in rupees, rounded to whole rupees by `Math.round`. */
  function Median(points: seq<Point>): nat {
    var s := SortedAmounts(points);
    if |s| == 0 then 0
    else
      var mid := |s| / 2;
      if |s| % 2 != 0 then s[mid] else 100 * RoundHalfUp(s[mid - 1] + s[mid], 200)
  }

  /** The median is read off the amounts in ascending order: the middle one for an odd
      count, otherwise the nearest whole rupee to the mean of the two middle ones. */
  lemma MedianOfSorted(points: seq<Point>)
    ensures var s := SortedAmounts(points);
      && multiset(s) == multiset(Amounts(points))
      && (forall i, j :: 0 <= i < j < |s| ==> s[i] <= s[j])
      && (|s| % 2 == 1 ==> Median(points) == s[|s| / 2] && Median(points) in Amounts(points))
      && (|s| > 0 && |s| % 2 == 0 ==>
            var total := s[|s| / 2 - 1] + s[|s| / 2];
            Median(points) % 100 == 0 && Median(points) - 50 <= total / 2 < Median(points) + 50)
  {
    var s := SortedAmounts(points);
    SortDescCorrect(Amounts(points), Negated);
    assert forall i, j :: 0 <= i < j < |s| ==> s[i] <= s[j] by {
      forall i, j | 0 <= i < j < |s| ensures s[i] <= s[j] {
        assert Negated(s[i]) >= Negated(s[j]);
      }
    }
    if |s| % 2 == 1 {
      assert s[|s| / 2] in multiset(s);
    }
    if |s| > 0 && |s| % 2 == 0 {
      RoundHalfUpNearest(s[|s| / 2 - 1] + s[|s| / 2], 200);
    }
  }

  // ---------------------------------------------------- weekend and weekday (14)

  predicate IsWeekend(t: int) {
    Weekday(t) == 0 || Weekday(t) == 6
  }

  /** The sum of the amounts on weekend days (`weekend`) or on weekdays (`!weekend`). */
  function SpendWhere(points: seq<Point>, weekend: bool): nat
    decreases |points|
  {
    if |points| == 0 then 0
    else
      var p := points[|points| - 1];
      SpendWhere(points[..|points| - 1], weekend) + (if IsWeekend(p.day) == weekend then p.amount else 0)
  }

  /** `weekendSpend`: the amounts of Saturday and Sunday transactions, summed. */
  function WeekendSpend(points: seq<Point>): nat {
    SpendWhere(points, true)
  }

  /** `weekdaySpend = total - weekendSpend`, with `total` the sum of the pie's values. */
  function WeekdaySpend(points: seq<Point>): int {
    Sum(CategoryTotals(points)) - WeekendSpend(points)
  }

  lemma {:induction false} SpendSplit(points: seq<Point>)
    ensures SpendWhere(points, true) + SpendWhere(points, false) == AmountSum(points)
    decreases |points|
  {
    if |points| > 0 {
      SpendSplit(points[..|points| - 1]);
    }
  }

  /** The remainder `total - weekendSpend` is exactly what was spent Monday to Friday, so
      weekend and weekday spend add up to the total. */
  lemma WeekendWeekdaySplit(points: seq<Point>)
    ensures WeekdaySpend(points) == SpendWhere(points, false)
    ensures WeekendSpend(points) + WeekdaySpend(points) == AmountSum(points)
  {
    CategoryTotalsCorrect(points);
    SpendSplit(points);
  }

  // ------------------------------------------------------------- growth (9)

  /** The growth insight: "N/A", or the last two values of the series, from which the
      percentage `(last - prev) / prev * 100` is formed. */
  datatype Growth = NotAvailable | Change(last: nat, prev: nat)

  function GrowthOf(series: Entries): Growth {
    if |series| >= 2 then
      var last := series[|series| - 1].1;
      var prev := series[|series| - 2].1;
      if prev > 0 then Change(last, prev) else NotAvailable
    else NotAvailable
  }

  /** Over the filled series, growth is shown exactly when there are at least two periods
      and something was spent in the one before the last; it then compares the totals of
      the last two periods, never dividing by zero. */
  lemma GrowthOfFilled(grouped: Entries, labels: seq<string>)
    ensures var n := |labels|;
      && (GrowthOf(Lookup(grouped, labels)).Change? <==> n >= 2 && Get(grouped, labels[n - 2]) > 0)
      && (GrowthOf(Lookup(grouped, labels)).Change? ==>
            GrowthOf(Lookup(grouped, labels)) == Change(Get(grouped, labels[n - 1]), Get(grouped, labels[n - 2]))
            && GrowthOf(Lookup(grouped, labels)).prev > 0)
  {
  }

  // ------------------------------------------------------- busiest weekday (16)

  /** What `toLocaleDateString("default", { weekday: "long" })` gives in English. */
  const WeekdayNames: seq<string> := ["Sunday", "Monday", "Tuesday", "Wednesday", "Thursday", "Friday", "Saturday"]

  function DayName(t: int): string {
    WeekdayNames[Weekday(t)]
  }

  const DayNameKey: Point -> string := (p: Point) => DayName(p.day)

  /** Each transaction counted as one. */
  function Tallies(points: seq<Point>): (ones: seq<Point>)
    ensures |ones| == |points|
    ensures forall i :: 0 <= i < |points| ==> ones[i] == points[i].(amount := 1)
  {
    seq(|points|, i requires 0 <= i < |points| => points[i].(amount := 1))
  }

  /** `busiestDayCountMap`: `acc[dayName] = (acc[dayName] || 0) + 1` for each transaction. */
  function DayCounts(points: seq<Point>): Entries {
    GroupedBy(Tallies(points), DayNameKey)
  }

  /** Reference: the number of transactions on the weekday called `name`. */
  function CountOn(points: seq<Point>, name: string): nat
    decreases |points|
  {
    if |points| == 0 then 0
    else CountOn(points[..|points| - 1], name) + (if DayName(points[|points| - 1].day) == name then 1 else 0)
  }

  lemma {:induction false} TalliesCount(points: seq<Point>, name: string)
    ensures AmountIn(Tallies(points), DayNameKey, name) == CountOn(points, name)
    decreases |points|
  {
    if |points| > 0 {
      var n := |points| - 1;
      TalliesCount(points[..n], name);
      assert Tallies(points)[..n] == Tallies(points[..n]);
    }
  }

  /** `busiestDayEntry`: the head of the entries sorted by descending count, or
      `["N/A", 0]` when there are none. */
  function BusiestDay(points: seq<Point>): (string, nat) {
    var ranked := SortDesc(DayCounts(points), EntryValue);
    if |ranked| == 0 then ("N/A", 0) else ranked[0]
  }

  /** The busiest weekday has the most transactions of any weekday, and of equally busy
      weekdays it is the one met first in the transactions; without transactions it is
      `["N/A", 0]`. */
  lemma BusiestDayMost(points: seq<Point>)
    ensures |points| == 0 ==> BusiestDay(points) == ("N/A", 0)
    ensures |points| > 0 ==>
              && BusiestDay(points).1 == CountOn(points, BusiestDay(points).0)
              && (forall name :: CountOn(points, name) <= BusiestDay(points).1)
              && exists i :: IsFirstMax(DayCounts(points), EntryValue, i) && BusiestDay(points) == DayCounts(points)[i]
  {
    var counts := DayCounts(points);
    GroupedKeys(Tallies(points), DayNameKey);
    if |points| > 0 {
      assert IsBucketOf(Tallies(points), DayNameKey, DayName(points[0].day)) by {
        assert DayNameKey(Tallies(points)[0]) == DayName(points[0].day);
      }
      SortDescHead(counts, EntryValue);
      var i :| IsFirstMax(counts, EntryValue, i) && SortDesc(counts, EntryValue)[0] == counts[i];
      var best := counts[i];
      GetPresent(counts, i);
      GroupedPerBucket(Tallies(points), DayNameKey, best.0);
      TalliesCount(points, best.0);
      forall name ensures CountOn(points, name) <= best.1 {
        GroupedPerBucket(Tallies(points), DayNameKey, name);
        TalliesCount(points, name);
        if HasKey(counts, name) {
          var j :| 0 <= j < |counts| && counts[j].0 == name;
          GetPresent(counts, j);
          assert EntryValue(counts[j]) <= EntryValue(counts[i]);
        } else {
          GetMissing(counts, name);
        }
      }
    }
  }

  // ---------------------------------------------------- category count (17)

  /** `Object.keys(categoryTotals).length` */
  function CategoryCount(points: seq<Point>): nat {
    |Keys(CategoryTotals(points))|
  }

  lemma {:induction false} DistinctKeysCard(m: Entries)
    requires DistinctKeys(m)
    ensures |set i | 0 <= i < |m| :: m[i].0| == |m|
    decreases |m|
  {
    if |m| > 0 {
      var n := |m| - 1;
      var init := m[..n];
      assert DistinctKeys(init) by {
        forall i, j | 0 <= i < j < |init| ensures init[i].0 != init[j].0 {
          assert init[i] == m[i] && init[j] == m[j];
        }
      }
      DistinctKeysCard(init);
      var before := set i | 0 <= i < |init| :: init[i].0;
      var after := set i | 0 <= i < |m| :: m[i].0;
      assert after == before + {m[n].0} by {
        forall k | k in after ensures k in before + {m[n].0} {
          var i :| 0 <= i < |m| && m[i].0 == k;
          if i < n {
            assert init[i] == m[i];
          }
        }
        forall k | k in before ensures k in after {
          var i :| 0 <= i < |init| && init[i].0 == k;
          assert m[i] == init[i];
        }
      }
      assert m[n].0 !in before by {
        forall i | 0 <= i < |init| ensures init[i].0 != m[n].0 {
          assert init[i] == m[i];
        }
      }
    }
  }

  /** The number of categories is the number of different normalised categories among
      the valid transactions. */
  lemma CategoryCountDistinct(points: seq<Point>)
    ensures CategoryCount(points) == |set i | 0 <= i < |points| :: NormalizeCategory(points[i].category)|
  {
    var totals := CategoryTotals(points);
    CategoryTotalsCorrect(points);
    DistinctKeysCard(totals);
    var keys := set i | 0 <= i < |totals| :: totals[i].0;
    var cats := set i | 0 <= i < |points| :: NormalizeCategory(points[i].category);
    assert keys == cats by {
      forall k | k in keys ensures k in cats {
        var i :| 0 <= i < |totals| && totals[i].0 == k;
        assert HasKey(totals, k);
      }
      forall k | k in cats ensures k in keys {
        var i :| 0 <= i < |points| && NormalizeCategory(points[i].category) == k;
        assert HasKey(totals, k);
      }
    }
  }

  // ------------------------------------------- top categories (1, 5, 7 and 20)

  const DisplayOf: Slice -> int := (s: Slice) => s.display

  /** `[...adjustedPieData].sort((a, b) => b.displayValue - a.displayValue)` */
  function Ranked(slices: seq<Slice>): (r: seq<Slice>)
    ensures |r| == |slices|
  {
    SortDesc(slices, DisplayOf)
  }

  /** `topCategoryData`, the head of the ranking; `None` is `undefined`. */
  function TopCategory(slices: seq<Slice>): Option<Slice> {
    if |slices| == 0 then None else Some(Ranked(slices)[0])
  }

  /** The top category is the first slice with the largest displayed value. */
  lemma TopCategoryFirst(slices: seq<Slice>)
    ensures TopCategory(slices).None? <==> |slices| == 0
    ensures |slices| > 0 ==>
              exists i :: 0 <= i < |slices| && TopCategory(slices) == Some(slices[i])
                       && (forall j :: 0 <= j < |slices| ==> slices[j].display <= slices[i].display)
                       && forall j :: 0 <= j < i ==> slices[j].display < slices[i].display
  {
    if |slices| > 0 {
      SortDescHead(slices, DisplayOf);
      var i :| IsFirstMax(slices, DisplayOf, i) && Ranked(slices)[0] == slices[i];
      assert forall j :: 0 <= j < |slices| ==> slices[j].display <= slices[i].display;
    }
  }

  /** `ranked.slice(0, k).reduce((s, c) => s + c.displayValue, 0)`, times ten: the
      displayed value of the top `k` categories, or of all of them when there are fewer.
      It never exceeds the total displayed value, is all of it once `k` covers every
      category, and is at least the largest slice when `k >= 1`. */
  function TopSum(slices: seq<Slice>, k: nat): (r: nat)
    ensures r <= TotalDisplayed(slices)
    ensures k >= |slices| ==> r == TotalDisplayed(slices)
    ensures k >= 1 ==> forall j :: 0 <= j < |slices| ==> slices[j].display <= r
  {
    var m := if k < |slices| then k else |slices|;
    RankedPrefixBounds(slices, m);
    TotalDisplayed(Ranked(slices)[..m])
  }

  /** Insight 5 as written: `topTwo[0].displayValue + topTwo[1].displayValue`, times ten.
      With fewer than two categories `topTwo[1]` is `undefined` and reading its
      `displayValue` throws, which is `None` here. */
  function TopTwoAsWritten(slices: seq<Slice>): Option<nat> {
    var topTwo := Ranked(slices)[..if 2 < |slices| then 2 else |slices|];
    if |topTwo| < 2 then None else Some(topTwo[0].display + topTwo[1].display)
  }

  /** A statement whose valid transactions fall into fewer than two categories makes
      insight 5 throw, while the corrected sum is the whole displayed value: that of the
      one category, or 0 when there is none. */
  lemma TopTwoThrowsBelowTwoCategories(slices: seq<Slice>)
    requires |slices| < 2
    ensures TopTwoAsWritten(slices).None?
    ensures TopSum(slices, 2) == TotalDisplayed(slices)
    ensures TopSum(slices, 2) == if |slices| == 0 then 0 else slices[0].display
  {
    if |slices| == 1 {
      assert slices[1..] == [];
    }
  }

  /** For instance a single Shopping slice of 500 rupees. */
  lemma TopTwoThrowsOnOneCategory()
    ensures TopTwoAsWritten([Slice("Shopping", 50000, 500000)]).None?
    ensures TopSum([Slice("Shopping", 50000, 500000)], 2) == 500000
  {
    TopTwoThrowsBelowTwoCategories([Slice("Shopping", 50000, 500000)]);
  }

  /** With two or more categories the corrected sum is what insight 5 computes. */
  lemma TopTwoAgrees(slices: seq<Slice>)
    requires |slices| >= 2
    ensures TopTwoAsWritten(slices) == Some(TopSum(slices, 2))
  {
    var r := Ranked(slices);
    var top := r[..2];
    assert top[0] == r[0] && top[1..] == [r[1]] && [r[1]][1..] == [];
    assert TotalDisplayed([r[1]]) == r[1].display + TotalDisplayed([]);
    assert TotalDisplayed(top) == r[0].display + TotalDisplayed([r[1]]);
  }

  lemma {:induction false} TotalDisplayedInsert(sorted: seq<Slice>, x: Slice)
    ensures TotalDisplayed(Insert(sorted, x, DisplayOf)) == TotalDisplayed(sorted) + x.display
    decreases |sorted|
  {
    if |sorted| > 0 && x.display <= sorted[0].display {
      TotalDisplayedInsert(sorted[1..], x);
      assert Insert(sorted, x, DisplayOf)[1..] == Insert(sorted[1..], x, DisplayOf);
    } else {
      assert ([x] + sorted)[1..] == sorted;
    }
  }

  lemma {:induction false} TotalDisplayedAppend(s: seq<Slice>, x: Slice)
    ensures TotalDisplayed(s + [x]) == TotalDisplayed(s) + x.display
    decreases |s|
  {
    if |s| > 0 {
      assert (s + [x])[1..] == s[1..] + [x];
      TotalDisplayedAppend(s[1..], x);
    }
  }

  /** Ranking neither adds nor loses displayed value. */
  lemma {:induction false} TotalDisplayedRanked(slices: seq<Slice>)
    ensures TotalDisplayed(Ranked(slices)) == TotalDisplayed(slices)
    decreases |slices|
  {
    if |slices| > 0 {
      var n := |slices| - 1;
      TotalDisplayedRanked(slices[..n]);
      TotalDisplayedInsert(Ranked(slices[..n]), slices[n]);
      TotalDisplayedAppend(slices[..n], slices[n]);
      assert slices == slices[..n] + [slices[n]];
    }
  }

  lemma {:induction false} TotalDisplayedPrefix(s: seq<Slice>, k: nat)
    requires k <= |s|
    ensures TotalDisplayed(s[..k]) <= TotalDisplayed(s)
    decreases |s|
  {
    if k > 0 {
      TotalDisplayedPrefix(s[1..], k - 1);
      assert s[..k][1..] == s[1..][..k - 1];
    }
  }

  /** The displayed value of a prefix of the ranking: at most the whole, all of it for
      the full ranking, and at least any single slice once the prefix holds the head. */
  lemma RankedPrefixBounds(slices: seq<Slice>, m: nat)
    requires m <= |slices|
    ensures TotalDisplayed(Ranked(slices)[..m]) <= TotalDisplayed(slices)
    ensures m == |slices| ==> TotalDisplayed(Ranked(slices)[..m]) == TotalDisplayed(slices)
    ensures m >= 1 ==> forall j :: 0 <= j < |slices| ==> slices[j].display <= TotalDisplayed(Ranked(slices)[..m])
  {
    var r := Ranked(slices);
    TotalDisplayedRanked(slices);
    TotalDisplayedPrefix(r, m);
    assert r[..|r|] == r;
    if m >= 1 {
      TopCategoryFirst(slices);
      assert r[..m][0] == r[0];
    }
  }
}
