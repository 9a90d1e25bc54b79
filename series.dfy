/**
 * The bar chart's series in client/src/components/Charts.jsx: `groupedTotals`,
 * which adds each valid transaction's amount under the key of its bucket (its
 * day, the Monday of its week, or its month), and `filledTotals`, which walks a
 * `Date` from the first bucket to the last and reads every bucket's total,
 * 0 for an empty one. The grouping itself is `Grouping.GroupedBy` with the
 * bucket key `BucketKey(g)`.
 */
module Series {
  import opened Assoc
  import opened Calendar
  import opened ChartDates
  import opened Grouping

  /** The key of the bucket holding day `t`: `formatDay(date)`, `formatDay(getMonday(date))`
      or `formatMonth(date)`. */
  function Label(g: Granularity, t: int): string {
    match g
    case ByDay => FormatDay(t)
    case ByWeek => FormatDay(MondayOf(t))
    case ByMonth => FormatMonth(t)
  }

  function BucketKey(g: Granularity): Point -> string {
    (p: Point) => Label(g, p.day)
  }

  // ------------------------------------------------------------ groupedTotals

  /** The key computed in the `forEach` for one transaction. */
  method BucketLabel(p: Point, g: Granularity) returns (key: string)
    ensures key == Label(g, p.day)
  {
    key := "";
    if g == ByDay {
      key := FormatDay(p.day);
    } else if g == ByWeek {
      var monday := GetMonday(p.day);
      key := FormatDay(monday);
    } else if g == ByMonth {
      key := FormatMonth(p.day);
    }
  }

  /** The `forEach` that fills `groupedTotals`. */
  method GroupTotals(points: seq<Point>, g: Granularity) returns (grouped: Entries)
    ensures grouped == GroupedBy(points, BucketKey(g))
  {
    grouped := [];
    for i := 0 to |points|
      invariant grouped == GroupedBy(points[..i], BucketKey(g))
    {
      var key := BucketLabel(points[i], g);
      GroupedByStep(points, BucketKey(g), i);
      grouped := Add(grouped, key, points[i].amount);
    }
    assert points[..|points|] == points;
  }

  // ------------------------------------------------------------- filledTotals

  /** The keys `key(0), key(1), ..., key(n - 1)`, in the order the walk visits them. */
  function Labels(key: int -> string, n: nat): (labels: seq<string>)
    ensures |labels| == n
  {
    if n == 0 then [] else Labels(key, n - 1) + [key(n - 1)]
  }

  /** The `i`-th day from `first`. */
  function DayKey(first: int): int -> string {
    i => FormatDay(first + i)
  }

  /** The `i`-th week from the Monday `first`, by its Monday. */
  function WeekKey(first: int): int -> string {
    i => FormatDay(first + 7 * i)
  }

  /** The `i`-th month from month `first` (counted as `MonthIndex` counts), by its first day. */
  function MonthKey(first: int): int -> string {
    i => MonthKeyAt(first + i)
  }

  /** How many buckets the walk visits: it runs while its `Date` is not after the last
      date, the last date's Monday, or the first of the last date's month. */
  function BucketCount(g: Granularity, minDay: int, maxDay: int): nat {
    match g
    case ByDay => if minDay <= maxDay then maxDay - minDay + 1 else 0
    case ByWeek =>
      var first, last := MondayOf(minDay), MondayOf(maxDay);
      if first <= last then (last - first) / 7 + 1 else 0
    case ByMonth =>
      var first, last := MonthIndex(minDay), MonthIndex(maxDay);
      if first <= last then last - first + 1 else 0
  }

  /** The keys of `filledTotals`, in insertion order. */
  function SeriesLabels(g: Granularity, minDay: int, maxDay: int): (labels: seq<string>)
    ensures |labels| == BucketCount(g, minDay, maxDay)
  {
    match g
    case ByDay => Labels(DayKey(minDay), BucketCount(g, minDay, maxDay))
    case ByWeek => Labels(WeekKey(MondayOf(minDay)), BucketCount(g, minDay, maxDay))
    case ByMonth => Labels(MonthKey(MonthIndex(minDay)), BucketCount(g, minDay, maxDay))
  }

  /** The day buckets: from `minDate`, `d.setDate(d.getDate() + 1)` while `d <= maxDate`. */
  method FillDays(grouped: Entries, minDay: int, maxDay: int) returns (filled: Entries)
    ensures filled == Lookup(grouped, SeriesLabels(ByDay, minDay, maxDay))
  {
    filled := [];
    var d := new Date(minDay);
    ghost var n := 0;
    while d.time <= maxDay
      invariant d.time == minDay + n && 0 <= n
      invariant n == 0 || minDay + n - 1 <= maxDay
      invariant filled == Lookup(grouped, Labels(DayKey(minDay), n))
      decreases maxDay - d.time
    {
      var key := FormatDay(d.time);
      DayKeyIs(minDay, n, d.time);
      DayLabelsFresh(minDay, n);
      filled := Record(grouped, filled, key, DayKey(minDay), n);
      d.AddDays(1);
      n := n + 1;
    }
    assert n == BucketCount(ByDay, minDay, maxDay);
  }

  /** The week buckets: from `getMonday(minDate)`, `d.setDate(d.getDate() + 7)` while
      `d <= getMonday(maxDate)`. */
  method FillWeeks(grouped: Entries, minDay: int, maxDay: int) returns (filled: Entries)
    ensures filled == Lookup(grouped, SeriesLabels(ByWeek, minDay, maxDay))
  {
    filled := [];
    var first := GetMonday(minDay);
    var d := new Date(first);
    var lastMonday := GetMonday(maxDay);
    ghost var n := 0;
    while d.time <= lastMonday
      invariant d.time == first + 7 * n && 0 <= n
      invariant n == 0 || first + 7 * (n - 1) <= lastMonday
      invariant filled == Lookup(grouped, Labels(WeekKey(first), n))
      decreases lastMonday - d.time
    {
      var key := FormatDay(d.time);
      WeekKeyIs(first, n, d.time);
      WeekLabelsFresh(first, n);
      filled := Record(grouped, filled, key, WeekKey(first), n);
      d.AddDays(7);
      n := n + 1;
    }
    WeekCount(first, lastMonday, n);
    assert n == BucketCount(ByWeek, minDay, maxDay);
  }

  /** The walk from one Monday to another in steps of a week takes `BucketCount` steps. */
  lemma WeekCount(first: int, last: int, n: nat)
    requires Weekday(first) == 1 && Weekday(last) == 1
    requires first + 7 * n > last
    requires n == 0 || first + 7 * (n - 1) <= last
    ensures n == if first <= last then (last - first) / 7 + 1 else 0
  {
    if n > 0 {
      MondaysApart(first, last);
    }
  }

  /** The month buckets, corrected: from the first of `minDate`'s own month,
      `d.setMonth(d.getMonth() + 1)` while `d <=` the first of `maxDate`'s own month. The
      source builds both bounds with `new Date(y, m, 1)`, which differs in the years 0 to
      99; `FillMonthsAsWritten` is that walk. */
  method FillMonths(grouped: Entries, minDay: int, maxDay: int) returns (filled: Entries)
    ensures filled == Lookup(grouped, SeriesLabels(ByMonth, minDay, maxDay))
  {
    var min := new Date(minDay);
    var max := new Date(maxDay);
    var d := FirstOfOwnMonth(min);
    var lastMonth := FirstOfOwnMonth(max);
    filled := WalkMonths(grouped, d, lastMonth.time, MonthIndex(minDay), MonthIndex(maxDay));
  }

  /** The keys of the month walk as written: from `ConstructedMonth(minDay)` to
      `ConstructedMonth(maxDay)`. */
  function ConstructedMonthLabels(minDay: int, maxDay: int): seq<string> {
    var first, last := ConstructedMonth(minDay), ConstructedMonth(maxDay);
    Labels(MonthKey(first), if first <= last then last - first + 1 else 0)
  }

  /** The month buckets as the source computes them: from
      `new Date(minDate.getFullYear(), minDate.getMonth(), 1)`, `d.setMonth(d.getMonth() + 1)`
      while `d <= new Date(maxDate.getFullYear(), maxDate.getMonth(), 1)`. */
  method FillMonthsAsWritten(grouped: Entries, minDay: int, maxDay: int) returns (filled: Entries)
    ensures filled == Lookup(grouped, ConstructedMonthLabels(minDay, maxDay))
  {
    var min := new Date(minDay);
    var max := new Date(maxDay);
    var d := StartOfMonth(min);
    var lastMonth := StartOfMonth(max);
    filled := WalkMonths(grouped, d, lastMonth.time, ConstructedMonth(minDay), ConstructedMonth(maxDay));
  }

  /** Outside the years 0 to 99 the walk as written is the corrected walk. */
  lemma ConstructedMonthLabelsAgree(minDay: int, maxDay: int)
    requires !(0 <= ToCivil(minDay).year <= 99) && !(0 <= ToCivil(maxDay).year <= 99)
    ensures ConstructedMonthLabels(minDay, maxDay) == SeriesLabels(ByMonth, minDay, maxDay)
  {
    ConstructedMonthOf(minDay);
    ConstructedMonthOf(maxDay);
  }

  /** With the first date in a year from 0 to 99 and no date after the year 99, the walk
      as written reads only keys of the years from 1900 on, which no transaction has:
      every bar is 0, and the bars add up to 0. */
  lemma TwoDigitYearBarsEmpty(points: seq<Point>, minDay: int, maxDay: int)
    requires 0 <= ToCivil(minDay).year <= 99
    requires forall i :: 0 <= i < |points| ==> ToCivil(points[i].day).year <= 99
    ensures forall i :: 0 <= i < |ConstructedMonthLabels(minDay, maxDay)| ==>
              Get(GroupedBy(points, BucketKey(ByMonth)), ConstructedMonthLabels(minDay, maxDay)[i]) == 0
    ensures Sum(Lookup(GroupedBy(points, BucketKey(ByMonth)), ConstructedMonthLabels(minDay, maxDay))) == 0
  {
    var grouped := GroupedBy(points, BucketKey(ByMonth));
    var labels := ConstructedMonthLabels(minDay, maxDay);
    var k0 := ConstructedMonth(minDay);
    ConstructedMonthOf(minDay);
    LabelsAt(MonthKey(k0), |labels|);
    forall i | 0 <= i < |labels| ensures Get(grouped, labels[i]) == 0 {
      NoTransactionInMonth(points, k0 + i);
    }
    SumAtZero(grouped, labels);
    SumLookup(grouped, labels);
  }

  /** A month from the year 1900 on has no total when no transaction is after the year 99. */
  lemma NoTransactionInMonth(points: seq<Point>, k: int)
    requires k >= 12 * 1900
    requires forall i :: 0 <= i < |points| ==> ToCivil(points[i].day).year <= 99
    ensures Get(GroupedBy(points, BucketKey(ByMonth)), MonthKeyAt(k)) == 0
  {
    GroupedKeys(points, BucketKey(ByMonth));
    forall j | 0 <= j < |points| ensures BucketKey(ByMonth)(points[j]) != MonthKeyAt(k) {
      FormatMonthIndex(points[j].day);
      MonthKeyAtInjective(MonthIndex(points[j].day), k);
    }
    GetMissing(GroupedBy(points, BucketKey(ByMonth)), MonthKeyAt(k));
  }

  /** The `while` loop of the month buckets, from the first of month `k0` to the first of
      month `k1`. */
  method WalkMonths(grouped: Entries, d: Date, last: int, ghost k0: int, ghost k1: int) returns (filled: Entries)
    requires d.time == MonthStart(k0) && last == MonthStart(k1)
    modifies d
    ensures filled == Lookup(grouped, Labels(MonthKey(k0), if k0 <= k1 then k1 - k0 + 1 else 0))
  {
    filled := [];
    ghost var n := 0;
    while d.time <= last
      invariant d.time == MonthStart(k0 + n) && 0 <= n
      invariant n == 0 || k0 + n - 1 <= k1
      invariant filled == Lookup(grouped, Labels(MonthKey(k0), n))
      decreases last - d.time
    {
      MonthStartOrder(k1, k0 + n);
      var key := MonthLabelAt(d, k0 + n);
      assert key == MonthKey(k0)(n);
      MonthLabelsFresh(k0, n);
      filled := Record(grouped, filled, key, MonthKey(k0), n);
      MonthStartStep(k0 + n);
      d.NextMonth(k0 + n);
      n := n + 1;
    }
    MonthStartOrder(k1, k0 + n);
    assert n == if k0 <= k1 then k1 - k0 + 1 else 0;
  }

  /** `formatMonth(d)` for `d` on the first of month `k`: the key of month `k`. */
  method MonthLabelAt(d: Date, ghost k: int) returns (key: string)
    requires d.time == MonthStart(k)
    ensures key == MonthKeyAt(k)
  {
    key := FormatMonth(d.time);
    FormatMonthStart(k);
  }

  /** `filledTotals[label] = groupedTotals[label] || 0` for the `n`-th label of a walk,
      one not seen before. */
  method Record(grouped: Entries, filled: Entries, key: string, ghost keys: int -> string, ghost n: nat)
    returns (filled': Entries)
    requires filled == Lookup(grouped, Labels(keys, n))
    requires key == keys(n) && key !in Labels(keys, n)
    ensures filled' == Lookup(grouped, Labels(keys, n + 1))
  {
    LookupAppend(grouped, Labels(keys, n), key);
    filled' := Put(filled, key, Get(grouped, key));
  }

  /** `filledTotals` for the chosen granularity. */
  method FillTotals(grouped: Entries, g: Granularity, minDay: int, maxDay: int) returns (filled: Entries)
    ensures filled == Lookup(grouped, SeriesLabels(g, minDay, maxDay))
  {
    match g
    case ByDay => filled := FillDays(grouped, minDay, maxDay);
    case ByWeek => filled := FillWeeks(grouped, minDay, maxDay);
    case ByMonth => filled := FillMonths(grouped, minDay, maxDay);
  }

  // ------------------------------------------------------ properties of the walk

  lemma {:induction false} LabelsAt(key: int -> string, n: nat)
    ensures forall i :: 0 <= i < n ==> Labels(key, n)[i] == key(i)
  {
    if n > 0 {
      LabelsAt(key, n - 1);
    }
  }

  /** A key that differs from every earlier one is not among the keys already visited. */
  lemma LabelsFresh(key: int -> string, n: nat)
    requires forall i :: 0 <= i < n ==> key(i) != key(n)
    ensures key(n) !in Labels(key, n)
  {
    LabelsAt(key, n);
  }

  /** Keys that never repeat give a list without duplicates. */
  lemma {:induction false} LabelsDistinct(key: int -> string, n: nat)
    requires forall i, j :: 0 <= i < j < n ==> key(i) != key(j)
    ensures Distinct(Labels(key, n))
  {
    if n > 0 {
      LabelsDistinct(key, n - 1);
      LabelsFresh(key, n - 1);
      DistinctAppend(Labels(key, n - 1), key(n - 1));
    }
  }

  /** Different days have different keys. */
  lemma DayKeyInjective(first: int, i: int, j: int)
    ensures DayKey(first)(i) == DayKey(first)(j) <==> i == j
  {
    FormatDayInjective(first + i, first + j);
  }

  lemma DayKeyIs(first: int, i: int, t: int)
    requires first + i == t
    ensures DayKey(first)(i) == FormatDay(t)
  {
  }

  lemma WeekKeyIs(first: int, i: int, t: int)
    requires first + 7 * i == t
    ensures WeekKey(first)(i) == FormatDay(t)
  {
  }

  /** Different weeks have different keys. */
  lemma WeekKeyInjective(first: int, i: int, j: int)
    ensures WeekKey(first)(i) == WeekKey(first)(j) <==> i == j
  {
    FormatDayInjective(first + 7 * i, first + 7 * j);
  }

  /** Different months have different keys. */
  lemma MonthKeyInjective(first: int, i: int, j: int)
    ensures MonthKey(first)(i) == MonthKey(first)(j) <==> i == j
  {
    MonthKeyAtInjective(first + i, first + j);
  }

  /** The next day's key is not among the keys already visited. */
  lemma DayLabelsFresh(first: int, n: nat)
    ensures DayKey(first)(n) !in Labels(DayKey(first), n)
  {
    forall i | 0 <= i < n ensures DayKey(first)(i) != DayKey(first)(n) {
      DayKeyInjective(first, i, n);
    }
    LabelsFresh(DayKey(first), n);
  }

  /** The next week's key is not among the keys already visited. */
  lemma WeekLabelsFresh(first: int, n: nat)
    ensures WeekKey(first)(n) !in Labels(WeekKey(first), n)
  {
    forall i | 0 <= i < n ensures WeekKey(first)(i) != WeekKey(first)(n) {
      WeekKeyInjective(first, i, n);
    }
    LabelsFresh(WeekKey(first), n);
  }

  /** The next month's key is not among the keys already visited. */
  lemma MonthLabelsFresh(first: int, n: nat)
    ensures MonthKey(first)(n) !in Labels(MonthKey(first), n)
  {
    forall i | 0 <= i < n ensures MonthKey(first)(i) != MonthKey(first)(n) {
      MonthKeyInjective(first, i, n);
    }
    LabelsFresh(MonthKey(first), n);
  }

  /** No key repeats along the walk, so each step adds a new key to `filledTotals`. */
  lemma SeriesDistinct(g: Granularity, minDay: int, maxDay: int)
    ensures Distinct(SeriesLabels(g, minDay, maxDay))
  {
    var n := BucketCount(g, minDay, maxDay);
    match g
    case ByDay =>
      forall i, j | 0 <= i < j < n ensures DayKey(minDay)(i) != DayKey(minDay)(j) {
        DayKeyInjective(minDay, i, j);
      }
      LabelsDistinct(DayKey(minDay), n);
    case ByWeek =>
      var first := MondayOf(minDay);
      forall i, j | 0 <= i < j < n ensures WeekKey(first)(i) != WeekKey(first)(j) {
        WeekKeyInjective(first, i, j);
      }
      LabelsDistinct(WeekKey(first), n);
    case ByMonth =>
      var first := MonthIndex(minDay);
      forall i, j | 0 <= i < j < n ensures MonthKey(first)(i) != MonthKey(first)(j) {
        MonthKeyInjective(first, i, j);
      }
      LabelsDistinct(MonthKey(first), n);
  }

  /** The `i`-th key is in the list. */
  lemma LabelsHas(key: int -> string, n: nat, i: int)
    requires 0 <= i < n
    ensures key(i) in Labels(key, n)
  {
    LabelsAt(key, n);
    assert Labels(key, n)[i] == key(i);
  }

  /** Every day from the first date to the last falls into one of the walk's buckets. */
  lemma SeriesCovers(g: Granularity, minDay: int, maxDay: int, t: int)
    requires minDay <= t <= maxDay
    ensures Label(g, t) in SeriesLabels(g, minDay, maxDay)
  {
    var n := BucketCount(g, minDay, maxDay);
    match g
    case ByDay =>
      LabelsHas(DayKey(minDay), n, t - minDay);
    case ByWeek =>
      var i := WeekOf(minDay, maxDay, t);
      LabelsHas(WeekKey(MondayOf(minDay)), n, i);
    case ByMonth =>
      var k0 := MonthIndex(minDay);
      MonthIndexMonotone(minDay, t);
      MonthIndexMonotone(t, maxDay);
      MonthKeyOf(k0, t);
      LabelsHas(MonthKey(k0), n, MonthIndex(t) - k0);
  }

  /** The week of the walk that holds day `t`. */
  lemma WeekOf(minDay: int, maxDay: int, t: int) returns (i: int)
    requires minDay <= t <= maxDay
    ensures 0 <= i < BucketCount(ByWeek, minDay, maxDay)
    ensures WeekKey(MondayOf(minDay))(i) == Label(ByWeek, t)
  {
    var first, mid, last := MondayOf(minDay), MondayOf(t), MondayOf(maxDay);
    MondayOfMonotone(minDay, t);
    MondayOfMonotone(t, maxDay);
    MondaysApart(first, mid);
    MondaysApart(first, last);
    i := (mid - first) / 7;
  }

  /** The key of the month of day `t`, counted from month `k0`. */
  lemma MonthKeyOf(k0: int, t: int)
    ensures MonthKey(k0)(MonthIndex(t) - k0) == FormatMonth(t)
  {
    FormatMonthIndex(t);
  }

  /** The walk starts at the first date's bucket and ends at the last date's. */
  lemma SeriesEnds(g: Granularity, minDay: int, maxDay: int)
    requires minDay <= maxDay
    ensures |SeriesLabels(g, minDay, maxDay)| > 0
    ensures SeriesLabels(g, minDay, maxDay)[0] == Label(g, minDay)
    ensures SeriesLabels(g, minDay, maxDay)[|SeriesLabels(g, minDay, maxDay)| - 1] == Label(g, maxDay)
  {
    match g
    case ByDay => DayEnds(minDay, maxDay);
    case ByWeek => WeekEnds(minDay, maxDay);
    case ByMonth => MonthEnds(minDay, maxDay);
  }

  lemma DayEnds(minDay: int, maxDay: int)
    requires minDay <= maxDay
    ensures var labels := SeriesLabels(ByDay, minDay, maxDay);
      |labels| > 0 && labels[0] == Label(ByDay, minDay) && labels[|labels| - 1] == Label(ByDay, maxDay)
  {
    LabelsEnds(DayKey(minDay), maxDay - minDay + 1);
  }

  lemma WeekEnds(minDay: int, maxDay: int)
    requires minDay <= maxDay
    ensures var labels := SeriesLabels(ByWeek, minDay, maxDay);
      |labels| > 0 && labels[0] == Label(ByWeek, minDay) && labels[|labels| - 1] == Label(ByWeek, maxDay)
  {
    var first, last := MondayOf(minDay), MondayOf(maxDay);
    MondayOfMonotone(minDay, maxDay);
    MondaysApart(first, last);
    var n := BucketCount(ByWeek, minDay, maxDay);
    assert n == (last - first) / 7 + 1;
    LabelsEnds(WeekKey(first), n);
    WeekKeyIs(first, 0, first);
    WeekKeyIs(first, n - 1, last);
  }

  lemma MonthEnds(minDay: int, maxDay: int)
    requires minDay <= maxDay
    ensures var labels := SeriesLabels(ByMonth, minDay, maxDay);
      |labels| > 0 && labels[0] == Label(ByMonth, minDay) && labels[|labels| - 1] == Label(ByMonth, maxDay)
  {
    var k0 := MonthIndex(minDay);
    MonthIndexMonotone(minDay, maxDay);
    MonthKeyOf(k0, minDay);
    MonthKeyOf(k0, maxDay);
    LabelsEnds(MonthKey(k0), BucketCount(ByMonth, minDay, maxDay));
  }

  /** A non-empty walk's first and last keys. */
  lemma LabelsEnds(key: int -> string, n: nat)
    requires n > 0
    ensures Labels(key, n)[0] == key(0) && Labels(key, n)[n - 1] == key(n - 1)
  {
    LabelsAt(key, n);
  }

  /** Reading totals back along distinct keys that include every point's key recovers
      the sum of all amounts. */
  lemma ReadBackSum(points: seq<Point>, key: Point -> string, labels: seq<string>)
    requires Distinct(labels)
    requires forall i :: 0 <= i < |points| ==> key(points[i]) in labels
    ensures Sum(Lookup(GroupedBy(points, key), labels)) == AmountSum(points)
  {
    var grouped := GroupedBy(points, key);
    GroupedKeys(points, key);
    forall i | 0 <= i < |grouped| ensures grouped[i].0 in labels {
      assert HasKey(grouped, grouped[i].0);
      assert IsBucketOf(points, key, grouped[i].0);
    }
    SumAtCovering(grouped, labels);
    SumLookup(grouped, labels);
    GroupedSum(points, key);
  }

  /** When every point lies between the first and the last date, the filled series adds up
      to the sum of all amounts: the walk visits every bucket that has a total, once. */
  lemma FilledSum(points: seq<Point>, g: Granularity, minDay: int, maxDay: int)
    requires forall i :: 0 <= i < |points| ==> minDay <= points[i].day <= maxDay
    ensures Sum(Lookup(GroupedBy(points, BucketKey(g)), SeriesLabels(g, minDay, maxDay))) == AmountSum(points)
  {
    SeriesDistinct(g, minDay, maxDay);
    forall i | 0 <= i < |points| ensures BucketKey(g)(points[i]) in SeriesLabels(g, minDay, maxDay) {
      SeriesCovers(g, minDay, maxDay, points[i].day);
    }
    ReadBackSum(points, BucketKey(g), SeriesLabels(g, minDay, maxDay));
  }
  // ------------------------------------------------- the walks with a time of day

  /** `a <= b` for two `Date`s given by their local day and their time of day in
      milliseconds, when the UTC offset is the same at both. */
  predicate NotLater(aDay: int, aClock: int, bDay: int, bClock: int) {
    aDay < bDay || (aDay == bDay && aClock <= bClock)
  }

  /** The last day the day walk reaches when `minDate` is at `minClock` and `maxDate` at
      `maxClock`: the walk keeps `minDate`'s time of day, so it stops a day short when
      that time is later than `maxDate`'s. */
  function ClockedDayEnd(maxDay: int, minClock: int, maxClock: int): int {
    if minClock <= maxClock then maxDay else maxDay - 1
  }

  /** The same for the week walk, which keeps the time of day of `getMonday(minDate)`
      and compares with `getMonday(maxDate)`: a week short in that case. */
  function ClockedWeekEnd(maxDay: int, minClock: int, maxClock: int): int {
    if minClock <= maxClock then maxDay else MondayOf(maxDay) - 1
  }

  /** The day buckets as the source walks them when the dates carry a time of day:
      `d.setDate(d.getDate() + 1)` keeps `minDate`'s time, and `d <= maxDate` compares
      whole moments. */
  method FillDaysClocked(grouped: Entries, minDay: int, minClock: int, maxDay: int, maxClock: int)
    returns (filled: Entries)
    ensures filled == Lookup(grouped, SeriesLabels(ByDay, minDay, ClockedDayEnd(maxDay, minClock, maxClock)))
  {
    filled := [];
    var d := new Date(minDay);
    ghost var last := ClockedDayEnd(maxDay, minClock, maxClock);
    ghost var n := 0;
    while NotLater(d.time, minClock, maxDay, maxClock)
      invariant d.time == minDay + n && 0 <= n
      invariant n == 0 || minDay + n - 1 <= last
      invariant filled == Lookup(grouped, Labels(DayKey(minDay), n))
      decreases maxDay - d.time
    {
      var key := FormatDay(d.time);
      DayKeyIs(minDay, n, d.time);
      DayLabelsFresh(minDay, n);
      filled := Record(grouped, filled, key, DayKey(minDay), n);
      d.AddDays(1);
      n := n + 1;
    }
    assert n == BucketCount(ByDay, minDay, last);
  }

  /** The week buckets as the source walks them when the dates carry a time of day. */
  method FillWeeksClocked(grouped: Entries, minDay: int, minClock: int, maxDay: int, maxClock: int)
    returns (filled: Entries)
    ensures filled == Lookup(grouped, SeriesLabels(ByWeek, minDay, ClockedWeekEnd(maxDay, minClock, maxClock)))
  {
    filled := [];
    var first := GetMonday(minDay);
    var d := new Date(first);
    var lastMonday := GetMonday(maxDay);
    ghost var bound := if minClock <= maxClock then lastMonday else lastMonday - 7;
    ghost var n := 0;
    while NotLater(d.time, minClock, lastMonday, maxClock)
      invariant d.time == first + 7 * n && 0 <= n
      invariant n == 0 || first + 7 * (n - 1) <= bound
      invariant filled == Lookup(grouped, Labels(WeekKey(first), n))
      decreases lastMonday - d.time
    {
      ClockedWeekStep(first, n, lastMonday, minClock, maxClock);
      var key := FormatDay(d.time);
      WeekKeyIs(first, n, d.time);
      WeekLabelsFresh(first, n);
      filled := Record(grouped, filled, key, WeekKey(first), n);
      d.AddDays(7);
      n := n + 1;
    }
    ClockedWeekCount(minDay, maxDay, first, n, lastMonday, minClock, maxClock);
  }

  /** A Monday of the walk that is not later than the last Monday lies within the bound. */
  lemma ClockedWeekStep(first: int, n: int, lastMonday: int, minClock: int, maxClock: int)
    requires Weekday(first) == 1 && Weekday(lastMonday) == 1 && 0 <= n
    requires NotLater(first + 7 * n, minClock, lastMonday, maxClock)
    ensures first + 7 * n <= if minClock <= maxClock then lastMonday else lastMonday - 7
  {
    WeeksFromMonday(first, n);
    if first + 7 * n < lastMonday {
      MondaysApart(first + 7 * n, lastMonday);
    }
  }

  /** The walk that stopped after `n` Mondays visited `BucketCount` weeks up to the
      clocked end. */
  lemma ClockedWeekCount(minDay: int, maxDay: int, first: int, n: nat, lastMonday: int, minClock: int, maxClock: int)
    requires first == MondayOf(minDay) && lastMonday == MondayOf(maxDay)
    requires !NotLater(first + 7 * n, minClock, lastMonday, maxClock)
    requires n == 0 || first + 7 * (n - 1) <= if minClock <= maxClock then lastMonday else lastMonday - 7
    ensures n == BucketCount(ByWeek, minDay, ClockedWeekEnd(maxDay, minClock, maxClock))
  {
    var bound := if minClock <= maxClock then lastMonday else lastMonday - 7;
    WeeksFromMonday(lastMonday, -1);
    WeekCount(first, bound, n);
    MondayOfWeek(lastMonday - 7, 6);
  }

  /** The day walk that stops a day short is the whole walk without its last key, the
      last date's day. */
  lemma DayLabelsDropLast(minDay: int, maxDay: int)
    requires minDay <= maxDay
    ensures SeriesLabels(ByDay, minDay, maxDay - 1) + [Label(ByDay, maxDay)] == SeriesLabels(ByDay, minDay, maxDay)
  {
    DayKeyIs(minDay, maxDay - minDay, maxDay);
  }

  /** The week walk that stops a week short is the whole walk without its last key, the
      last date's Monday. */
  lemma WeekLabelsDropLast(minDay: int, maxDay: int)
    requires minDay <= maxDay
    ensures SeriesLabels(ByWeek, minDay, MondayOf(maxDay) - 1) + [Label(ByWeek, maxDay)] == SeriesLabels(ByWeek, minDay, maxDay)
  {
    var first, last := MondayOf(minDay), MondayOf(maxDay);
    MondayOfMonotone(minDay, maxDay);
    MondaysApart(first, last);
    WeeksFromMonday(last, -1);
    MondayOfWeek(last - 7, 6);
    var n := BucketCount(ByWeek, minDay, maxDay);
    assert n == (last - first) / 7 + 1;
    assert BucketCount(ByWeek, minDay, last - 1) == n - 1;
    WeekKeyIs(first, n - 1, last);
  }

  /** Reading back along distinct keys that cover every point except those under `k`. */
  lemma ReadBackAllBut(points: seq<Point>, key: Point -> string, labels: seq<string>, k: string)
    requires Distinct(labels + [k])
    requires forall i :: 0 <= i < |points| ==> key(points[i]) in labels + [k]
    ensures k !in labels
    ensures Sum(Lookup(GroupedBy(points, key), labels)) + AmountIn(points, key, k) == AmountSum(points)
  {
    var grouped := GroupedBy(points, key);
    DistinctLast(labels, k);
    ReadBackSum(points, key, labels + [k]);
    SumLookup(grouped, labels + [k]);
    SumLookup(grouped, labels);
    SumAtAppend(grouped, labels, k);
    GroupedPerBucket(points, key, k);
  }

  /** An appended key adds its value. */
  lemma {:induction false} SumAtAppend(m: Entries, keys: seq<string>, k: string)
    ensures SumAt(m, keys + [k]) == SumAt(m, keys) + Get(m, k)
    decreases |keys|
  {
    if |keys| == 0 {
      assert keys + [k] == [k] && [k][1..] == [];
    } else {
      assert (keys + [k])[0] == keys[0] && (keys + [k])[1..] == keys[1..] + [k];
      SumAtAppend(m, keys[1..], k);
    }
  }

  /** The last key of a distinct sequence is not among the ones before it. */
  lemma DistinctLast(keys: seq<string>, k: string)
    requires Distinct(keys + [k])
    ensures k !in keys
  {
    forall i | 0 <= i < |keys| ensures keys[i] != k {
      assert (keys + [k])[i] == keys[i] && (keys + [k])[|keys|] == k;
    }
  }

  /** The whole walk, split as the walk short of its last key and that key, is distinct
      and holds every point's key. */
  lemma CoveredAllBut(points: seq<Point>, g: Granularity, minDay: int, maxDay: int, short: seq<string>)
    requires forall i :: 0 <= i < |points| ==> minDay <= points[i].day <= maxDay
    requires short + [Label(g, maxDay)] == SeriesLabels(g, minDay, maxDay)
    ensures Distinct(short + [Label(g, maxDay)])
    ensures forall i :: 0 <= i < |points| ==> BucketKey(g)(points[i]) in short + [Label(g, maxDay)]
  {
    SeriesDistinct(g, minDay, maxDay);
    forall i | 0 <= i < |points| ensures BucketKey(g)(points[i]) in SeriesLabels(g, minDay, maxDay) {
      SeriesCovers(g, minDay, maxDay, points[i].day);
    }
  }

  /** When `maxDate`'s time of day is earlier than `minDate`'s and the two fall on different
      days, the source's day walk leaves out the last date's day: the bars add up to the
      total less everything dated that day. */
  lemma ClockedDayBarsShort(points: seq<Point>, minDay: int, minClock: int, maxDay: int, maxClock: int)
    requires forall i :: 0 <= i < |points| ==> minDay <= points[i].day <= maxDay
    requires minDay <= maxDay && maxClock < minClock
    ensures Label(ByDay, maxDay) !in SeriesLabels(ByDay, minDay, ClockedDayEnd(maxDay, minClock, maxClock))
    ensures Sum(Lookup(GroupedBy(points, BucketKey(ByDay)), SeriesLabels(ByDay, minDay, ClockedDayEnd(maxDay, minClock, maxClock))))
            + AmountIn(points, BucketKey(ByDay), Label(ByDay, maxDay)) == AmountSum(points)
  {
    DayBarsAllButLast(points, minDay, maxDay);
  }

  /** The day walk up to the day before the last date misses exactly that date's day. */
  lemma DayBarsAllButLast(points: seq<Point>, minDay: int, maxDay: int)
    requires forall i :: 0 <= i < |points| ==> minDay <= points[i].day <= maxDay
    requires minDay <= maxDay
    ensures Label(ByDay, maxDay) !in SeriesLabels(ByDay, minDay, maxDay - 1)
    ensures Sum(Lookup(GroupedBy(points, BucketKey(ByDay)), SeriesLabels(ByDay, minDay, maxDay - 1)))
            + AmountIn(points, BucketKey(ByDay), Label(ByDay, maxDay)) == AmountSum(points)
  {
    var short := SeriesLabels(ByDay, minDay, maxDay - 1);
    DayLabelsDropLast(minDay, maxDay);
    CoveredAllBut(points, ByDay, minDay, maxDay, short);
    ReadBackAllBut(points, BucketKey(ByDay), short, Label(ByDay, maxDay));
  }

  /** The same for the week walk: it leaves out the week of the last date. */
  lemma ClockedWeekBarsShort(points: seq<Point>, minDay: int, minClock: int, maxDay: int, maxClock: int)
    requires forall i :: 0 <= i < |points| ==> minDay <= points[i].day <= maxDay
    requires minDay <= maxDay && maxClock < minClock
    ensures Label(ByWeek, maxDay) !in SeriesLabels(ByWeek, minDay, ClockedWeekEnd(maxDay, minClock, maxClock))
    ensures Sum(Lookup(GroupedBy(points, BucketKey(ByWeek)), SeriesLabels(ByWeek, minDay, ClockedWeekEnd(maxDay, minClock, maxClock))))
            + AmountIn(points, BucketKey(ByWeek), Label(ByWeek, maxDay)) == AmountSum(points)
  {
    var short := SeriesLabels(ByWeek, minDay, MondayOf(maxDay) - 1);
    WeekLabelsDropLast(minDay, maxDay);
    CoveredAllBut(points, ByWeek, minDay, maxDay, short);
    ReadBackAllBut(points, BucketKey(ByWeek), short, Label(ByWeek, maxDay));
  }
}
