/**
 * Calendar days of the proleptic Gregorian calendar, numbered as JavaScript's
 * `Date` numbers them: day 0 is 1970-01-01 (a Thursday). This is the part of
 * `Date` that Charts.jsx relies on: `getFullYear`, `getMonth`, `getDate`,
 * `getDay`, the rollover of `setDate` and `setMonth`, and the day and month
 * labels built from them. Time of day and time zones are not modelled.
 */
module Calendar {

  /** Days from 0000-01-01 to January 1st of year `y`. */
  function DaysBeforeYear(y: int): int {
    365 * y + (y + 3) / 4 - (y + 99) / 100 + (y + 399) / 400
  }

  predicate IsLeapYear(y: int) {
    y % 4 == 0 && (y % 100 != 0 || y % 400 == 0)
  }

  function YearLength(y: int): int {
    if IsLeapYear(y) then 366 else 365
  }

  /** Days from 0000-01-01 to 1970-01-01. */
  const Epoch: int := 719528

  lemma EpochIs1970()
    ensures DaysBeforeYear(1970) == Epoch
  {
  }

  /** Stepping over a multiple of `n` raises `(y + n - 1) / n` by one; any other step leaves it. */
  lemma CeilStep4(y: int)
    ensures (y + 4) / 4 - (y + 3) / 4 == if y % 4 == 0 then 1 else 0
  {
    var q, r := y / 4, y % 4;
    assert y == 4 * q + r && 0 <= r < 4;
    assert (y + 4) / 4 == q + 1;
    assert (y + 3) / 4 == if r == 0 then q else q + 1;
  }

  lemma CeilStep100(y: int)
    ensures (y + 100) / 100 - (y + 99) / 100 == if y % 100 == 0 then 1 else 0
  {
    var q, r := y / 100, y % 100;
    assert y == 100 * q + r && 0 <= r < 100;
    assert (y + 100) / 100 == q + 1;
    assert (y + 99) / 100 == if r == 0 then q else q + 1;
  }

  lemma CeilStep400(y: int)
    ensures (y + 400) / 400 - (y + 399) / 400 == if y % 400 == 0 then 1 else 0
  {
    var q, r := y / 400, y % 400;
    assert y == 400 * q + r && 0 <= r < 400;
    assert (y + 400) / 400 == q + 1;
    assert (y + 399) / 400 == if r == 0 then q else q + 1;
  }

  /** Consecutive years are one year length apart. */
  lemma YearLengthStep(y: int)
    ensures DaysBeforeYear(y + 1) == DaysBeforeYear(y) + YearLength(y)
  {
    CeilStep4(y);
    CeilStep100(y);
    CeilStep400(y);
    MultiplesNest(y);
  }

  /** A multiple of 400 is one of 100, and a multiple of 100 one of 4. */
  lemma MultiplesNest(y: int)
    ensures y % 400 == 0 ==> y % 100 == 0
    ensures y % 100 == 0 ==> y % 4 == 0
  {
    if y % 400 == 0 {
      var q := y / 400;
      assert y == 100 * (4 * q);
    }
    if y % 100 == 0 {
      var q := y / 100;
      assert y == 4 * (25 * q);
    }
  }

  /** On average a year has 146097 / 400 days; the year starts stay within two days of that. */
  lemma DaysBeforeYearApprox(y: int)
    ensures 146097 * y - 396 <= 400 * DaysBeforeYear(y) <= 146097 * y + 699
  {
    var a, b, c := (y + 3) / 4, (y + 99) / 100, (y + 399) / 400;
    assert 4 * a <= y + 3 < 4 * a + 4;
    assert 100 * b <= y + 99 < 100 * b + 100;
    assert 400 * c <= y + 399 < 400 * c + 400;
  }

  lemma DaysBeforeYearIncreasing(a: int, b: int)
    requires a < b
    ensures DaysBeforeYear(a) < DaysBeforeYear(b)
  {
    DaysBeforeYearApprox(a);
    DaysBeforeYearApprox(b);
  }

  /** The year in which day `z` (counted from 0000-01-01) falls, within one of the estimate
      from the average year length. */
  function YearOfOrdinal(z: int): (y: int)
    ensures DaysBeforeYear(y) <= z < DaysBeforeYear(y + 1)
    ensures (400 * z) / 146097 - 1 <= y <= (400 * z) / 146097 + 1
  {
    var y0 := (400 * z) / 146097;
    DaysBeforeYearApprox(y0 - 1);
    DaysBeforeYearApprox(y0);
    DaysBeforeYearApprox(y0 + 1);
    DaysBeforeYearApprox(y0 + 2);
    if DaysBeforeYear(y0 + 1) <= z then y0 + 1
    else if DaysBeforeYear(y0) <= z then y0
    else y0 - 1
  }

  /** Only one year contains a given day. */
  lemma YearUnique(z: int, y: int, y': int)
    requires DaysBeforeYear(y) <= z < DaysBeforeYear(y + 1)
    requires DaysBeforeYear(y') <= z < DaysBeforeYear(y' + 1)
    ensures y == y'
  {
    if y < y' {
      if y + 1 < y' { DaysBeforeYearIncreasing(y + 1, y'); }
    } else if y' < y {
      if y' + 1 < y { DaysBeforeYearIncreasing(y' + 1, y); }
    }
  }

  /** Days of year `y` before the first of month `m` (1-based; 13 stands for the year's end). */
  function DaysBeforeMonth(y: int, m: int): nat
    requires 1 <= m <= 13
  {
    if m == 1 then 0 else DaysBeforeMonth(y, m - 1) + DaysInMonth(y, m - 1)
  }

  function DaysInMonth(y: int, m: int): int
    requires 1 <= m <= 12
  {
    if m == 2 then (if IsLeapYear(y) then 29 else 28)
    else if m == 4 || m == 6 || m == 9 || m == 11 then 30
    else 31
  }

  lemma MonthLengthStep(y: int, m: int)
    requires 1 <= m <= 12
    ensures DaysBeforeMonth(y, m + 1) == DaysBeforeMonth(y, m) + DaysInMonth(y, m)
    ensures DaysBeforeMonth(y, 13) == YearLength(y)
  {
    var leap := if IsLeapYear(y) then 1 else 0;
    assert DaysBeforeMonth(y, 2) == 31;
    assert DaysBeforeMonth(y, 3) == 59 + leap;
    assert DaysBeforeMonth(y, 4) == 90 + leap;
    assert DaysBeforeMonth(y, 5) == 120 + leap;
    assert DaysBeforeMonth(y, 6) == 151 + leap;
    assert DaysBeforeMonth(y, 7) == 181 + leap;
    assert DaysBeforeMonth(y, 8) == 212 + leap;
    assert DaysBeforeMonth(y, 9) == 243 + leap;
    assert DaysBeforeMonth(y, 10) == 273 + leap;
    assert DaysBeforeMonth(y, 11) == 304 + leap;
    assert DaysBeforeMonth(y, 12) == 334 + leap;
  }

  lemma {:induction false} DaysBeforeMonthIncreasing(y: int, a: int, b: int)
    requires 1 <= a < b <= 13
    ensures DaysBeforeMonth(y, a) < DaysBeforeMonth(y, b)
    decreases b
  {
    if a < b - 1 {
      DaysBeforeMonthIncreasing(y, a, b - 1);
    }
  }

  /** The last month `r <= m` of year `y` that starts on or before day-of-year `doy`. */
  function MonthOfDay(y: int, doy: int, m: int): (r: int)
    requires 1 <= m <= 12 && 0 <= doy
    ensures 1 <= r <= m && DaysBeforeMonth(y, r) <= doy
    ensures r < m ==> doy < DaysBeforeMonth(y, r + 1)
    decreases m
  {
    if m == 1 || DaysBeforeMonth(y, m) <= doy then m else MonthOfDay(y, doy, m - 1)
  }

  /** Only one month of a year contains a given day of the year. */
  lemma MonthUnique(y: int, doy: int, m: int, m': int)
    requires 1 <= m <= 12 && DaysBeforeMonth(y, m) <= doy < DaysBeforeMonth(y, m + 1)
    requires 1 <= m' <= 12 && DaysBeforeMonth(y, m') <= doy < DaysBeforeMonth(y, m' + 1)
    ensures m == m'
  {
    if m < m' { DaysBeforeMonthIncreasing(y, m + 1, m'); }
    if m' < m { DaysBeforeMonthIncreasing(y, m' + 1, m); }
  }

  /** A year, a month (1 to 12) and a day of the month. */
  datatype Civil = Civil(year: int, month: int, day: int)

  predicate ValidCivil(c: Civil) {
    1 <= c.month <= 12 && 1 <= c.day <= DaysInMonth(c.year, c.month)
  }

  /** The day number of day `d` of month `m` in year `y`; a `d` outside the month
      rolls over into the neighbouring months, as JavaScript's MakeDay does. */
  function DayNumber(y: int, m: int, d: int): int
    requires 1 <= m <= 12
  {
    DaysBeforeYear(y) + DaysBeforeMonth(y, m) + d - 1 - Epoch
  }

  /** Day `d` of month `m` of year `y` is a valid date with day number `t`. */
  predicate IsCivilOf(t: int, y: int, m: int, d: int) {
    1 <= m <= 12 && 1 <= d <= DaysInMonth(y, m) && DayNumber(y, m, d) == t
  }

  lemma DayOfYearBounds(y: int, m: int, d: int)
    requires 1 <= m <= 12 && 1 <= d <= DaysInMonth(y, m)
    ensures DaysBeforeMonth(y, m) <= DaysBeforeMonth(y, m) + d - 1 < DaysBeforeMonth(y, m + 1)
    ensures DaysBeforeMonth(y, m + 1) <= YearLength(y)
    ensures DaysBeforeYear(y) <= DaysBeforeYear(y) + DaysBeforeMonth(y, m) + d - 1 < DaysBeforeYear(y + 1)
  {
    MonthLengthStep(y, m);
    if m < 12 { DaysBeforeMonthIncreasing(y, m + 1, 13); }
    YearLengthStep(y);
  }

  /** Every day number has a valid date, in the year the average year length predicts
      within one. */
  lemma CivilExists(t: int)
    ensures exists y, m, d :: (400 * (t + Epoch)) / 146097 - 1 <= y <= (400 * (t + Epoch)) / 146097 + 1
                              && 1 <= m <= 12 && 1 <= d <= 31 && IsCivilOf(t, y, m, d)
  {
    var z := t + Epoch;
    var y := YearOfOrdinal(z);
    var doy := z - DaysBeforeYear(y);
    YearLengthStep(y);
    var m := MonthOfDay(y, doy, 12);
    MonthLengthStep(y, m);
    var d := doy - DaysBeforeMonth(y, m) + 1;
    assert IsCivilOf(t, y, m, d);
  }

  /** No two valid dates share a day number. */
  lemma CivilUnique(t: int, y: int, m: int, d: int, y': int, m': int, d': int)
    requires IsCivilOf(t, y, m, d) && IsCivilOf(t, y', m', d')
    ensures y == y' && m == m' && d == d'
  {
    var z := t + Epoch;
    DayOfYearBounds(y, m, d);
    DayOfYearBounds(y', m', d');
    YearUnique(z, y, y');
    MonthUnique(y, DaysBeforeMonth(y, m) + d - 1, m, m');
  }

  lemma CivilUniqueAll(t: int)
    ensures forall y, m, d, y', m', d' :: IsCivilOf(t, y, m, d) && IsCivilOf(t, y', m', d') ==> y == y' && m == m' && d == d'
  {
    forall y, m, d, y', m', d' | IsCivilOf(t, y, m, d) && IsCivilOf(t, y', m', d') ensures y == y' && m == m' && d == d' {
      CivilUnique(t, y, m, d, y', m', d');
    }
  }

  /** Year, month and day of a day number: the one valid date that has it. */
  function ToCivil(t: int): (c: Civil)
    ensures ValidCivil(c)
    ensures DayNumber(c.year, c.month, c.day) == t
  {
    CivilExists(t);
    CivilUniqueAll(t);
    var y0 := (400 * (t + Epoch)) / 146097;
    var y, m, d :| y0 - 1 <= y <= y0 + 1 && 1 <= m <= 12 && 1 <= d <= 31 && IsCivilOf(t, y, m, d);
    Civil(y, m, d)
  }

  /** Converting a valid date to its day number and back gives the same date. */
  lemma ToCivilDayNumber(c: Civil)
    requires ValidCivil(c)
    ensures ToCivil(DayNumber(c.year, c.month, c.day)) == c
  {
    var t := DayNumber(c.year, c.month, c.day);
    var r := ToCivil(t);
    CivilUnique(t, r.year, r.month, r.day, c.year, c.month, c.day);
  }

  /** Different days have different dates. */
  lemma ToCivilInjective(s: int, t: int)
    requires ToCivil(s) == ToCivil(t)
    ensures s == t
  {
  }

  /** `getDay()`: 0 for Sunday through 6 for Saturday. */
  function Weekday(t: int): int {
    (t + 4) % 7
  }

  /** `getFullYear() * 12 + getMonth()`: months counted from January of year 0. */
  function MonthIndex(t: int): int {
    var c := ToCivil(t);
    c.year * 12 + c.month - 1
  }

  /** The day number of the first day of month `k` (counted as `MonthIndex` counts):
      month 0, January of year 0, and then one month length at a time. */
  function MonthStart(k: int): int
    decreases if k < 0 then -k else k
  {
    if k == 0 then -Epoch
    else if k > 0 then MonthStart(k - 1) + DaysInMonth((k - 1) / 12, (k - 1) % 12 + 1)
    else MonthStart(k + 1) - DaysInMonth(k / 12, k % 12 + 1)
  }

  /** The first of month `k` and the first of the month after it are one month length apart. */
  lemma FirstOfMonthStep(k: int)
    ensures DayNumber((k + 1) / 12, (k + 1) % 12 + 1, 1) == DayNumber(k / 12, k % 12 + 1, 1) + DaysInMonth(k / 12, k % 12 + 1)
  {
    var y, m := k / 12, k % 12 + 1;
    MonthLengthStep(y, m);
    if m == 12 {
      assert (k + 1) / 12 == y + 1 && (k + 1) % 12 + 1 == 1;
      YearLengthStep(y);
    } else {
      assert (k + 1) / 12 == y && (k + 1) % 12 + 1 == m + 1;
    }
  }

  /** `FirstOfMonthStep` seen from month `k`, for `k - 1`. */
  lemma FirstOfMonthAfter(k: int)
    ensures DayNumber(k / 12, k % 12 + 1, 1)
            == DayNumber((k - 1) / 12, (k - 1) % 12 + 1, 1) + DaysInMonth((k - 1) / 12, (k - 1) % 12 + 1)
  {
    FirstOfMonthStep(k - 1);
    assert (k - 1) + 1 == k;
  }

  /** Month `k` starts on the first day of month `k % 12 + 1` of year `k / 12`. */
  lemma {:induction false} MonthStartDayNumber(k: int)
    ensures MonthStart(k) == DayNumber(k / 12, k % 12 + 1, 1)
    decreases if k < 0 then -k else k
  {
    if k > 0 {
      MonthStartDayNumber(k - 1);
      FirstOfMonthAfter(k);
    } else if k < 0 {
      MonthStartDayNumber(k + 1);
      FirstOfMonthStep(k);
    }
  }

  lemma MonthIndexOfMonthStart(k: int)
    ensures MonthIndex(MonthStart(k)) == k
    ensures ToCivil(MonthStart(k)).day == 1
  {
    MonthStartDayNumber(k);
    ToCivilDayNumber(Civil(k / 12, k % 12 + 1, 1));
  }

  /** Each month starts exactly one month length after the previous one. */
  lemma MonthStartStep(k: int)
    ensures MonthStart(k + 1) == MonthStart(k) + DaysInMonth(k / 12, k % 12 + 1)
    ensures MonthStart(k) < MonthStart(k + 1)
  {
  }

  /** Month `k = 12 * y + m - 1` is month `m` of year `y`. */
  lemma MonthStartOfYearMonth(y: int, m: int)
    requires 1 <= m <= 12
    ensures MonthStart(12 * y + m - 1) == DayNumber(y, m, 1)
  {
    var k := 12 * y + m - 1;
    MonthStartDayNumber(k);
    assert k / 12 == y && k % 12 + 1 == m;
  }

  /** Later months start later. */
  lemma {:induction false} MonthStartIncreasing(a: int, b: int)
    requires a < b
    ensures MonthStart(a) < MonthStart(b)
    decreases b - a
  {
    MonthStartStep(b - 1);
    if a < b - 1 {
      MonthStartIncreasing(a, b - 1);
    }
  }

  /** Every day lies in its own month: between that month's start and the next month's. */
  lemma MonthIndexBounds(t: int)
    ensures MonthStart(MonthIndex(t)) <= t < MonthStart(MonthIndex(t) + 1)
  {
    var c := ToCivil(t);
    var k := MonthIndex(t);
    assert k / 12 == c.year && k % 12 + 1 == c.month;
    MonthStartDayNumber(k);
    MonthStartStep(k);
  }

  /** A later day never lies in an earlier month. */
  lemma MonthIndexMonotone(s: int, t: int)
    requires s <= t
    ensures MonthIndex(s) <= MonthIndex(t)
  {
    var ks, kt := MonthIndex(s), MonthIndex(t);
    MonthIndexBounds(s);
    MonthIndexBounds(t);
    assert MonthStart(ks) < MonthStart(kt + 1);
    MonthStartOrder(ks, kt + 1);
  }

  /** One month starts before another exactly when it comes first. */
  lemma MonthStartOrder(a: int, b: int)
    ensures MonthStart(a) < MonthStart(b) <==> a < b
  {
    if a < b {
      MonthStartIncreasing(a, b);
    } else if b < a {
      MonthStartIncreasing(b, a);
    }
  }

  /** JavaScript's MakeDay: day `date` of month `month` (0-based, rolling over into
      neighbouring years) of year `year`; `date` rolls over into neighbouring months. */
  function MakeDay(year: int, month: int, date: int): int {
    MonthStart(12 * year + month) + date - 1
  }

  /** `setDate(getDate() + k)` moves exactly `k` days. */
  lemma MakeDayShift(t: int, k: int)
    ensures MakeDay(ToCivil(t).year, ToCivil(t).month - 1, ToCivil(t).day + k) == t + k
  {
    var c := ToCivil(t);
    DayNumberShift(c.year, c.month, c.day, k);
  }

  lemma DayNumberShift(y: int, m: int, d: int, k: int)
    requires 1 <= m <= 12
    ensures MakeDay(y, m - 1, d + k) == DayNumber(y, m, d) + k
  {
    MakeDayInYear(y, m, d + k);
  }

  lemma MakeDayInYear(y: int, m: int, d: int)
    requires 1 <= m <= 12
    ensures MakeDay(y, m - 1, d) == DayNumber(y, m, d)
  {
    MonthStartOfYearMonth(y, m);
  }

  /** `setMonth(getMonth() + 1)` on the first of a month gives the first of the next month. */
  lemma MakeDayNextMonth(k: int)
    ensures MakeDay(ToCivil(MonthStart(k)).year, ToCivil(MonthStart(k)).month - 1 + 1, ToCivil(MonthStart(k)).day)
         == MonthStart(k + 1)
  {
    MonthIndexOfMonthStart(k);
  }

  /** A JavaScript `Date` object, reduced to the calendar day it denotes. */
  class Date {
    var time: int

    /** `new Date(t)` */
    constructor (t: int)
      ensures time == t
    {
      time := t;
    }

    function GetFullYear(): int
      reads this
    {
      ToCivil(time).year
    }

    /** 0 for January through 11 for December. */
    function GetMonth(): int
      reads this
    {
      ToCivil(time).month - 1
    }

    function GetDate(): int
      reads this
    {
      ToCivil(time).day
    }

    function GetDay(): int
      reads this
    {
      Weekday(time)
    }

    /** `setDate(date)`: same year and month, day `date` of it, rolling over. */
    method SetDate(date: int)
      modifies this
      ensures time == MakeDay(old(GetFullYear()), old(GetMonth()), date)
    {
      time := MakeDay(GetFullYear(), GetMonth(), date);
    }

    /** `setMonth(month)`: same year and day of the month, month `month`, rolling over. */
    method SetMonth(month: int)
      modifies this
      ensures time == MakeDay(old(GetFullYear()), month, old(GetDate()))
    {
      time := MakeDay(GetFullYear(), month, GetDate());
    }

    /** `setDate(getDate() + k)`: moves exactly `k` days. */
    method AddDays(k: int)
      modifies this
      ensures time == old(time) + k
    {
      MakeDayShift(time, k);
      SetDate(GetDate() + k);
    }

    /** `setMonth(getMonth() + 1)` on the first of month `k`: the first of month `k + 1`. */
    method NextMonth(ghost k: int)
      requires time == MonthStart(k)
      modifies this
      ensures time == MonthStart(k + 1)
    {
      MakeDayNextMonth(k);
      SetMonth(GetMonth() + 1);
    }
  }

  /** The year the `Date` constructor takes from its first argument: by section 21.4.2.1
      of ECMA-262, a year from 0 to 99 stands for 1900 plus that year. */
  function ConstructorYear(year: int): int {
    if 0 <= year <= 99 then 1900 + year else year
  }

  /** `new Date(year, month, date)` */
  method NewDate(year: int, month: int, date: int) returns (d: Date)
    ensures fresh(d) && d.time == MakeDay(ConstructorYear(year), month, date)
  {
    d := new Date(MakeDay(ConstructorYear(year), month, date));
  }

  /** The month, counted as `MonthIndex` counts, on whose first day
      `new Date(getFullYear(), getMonth(), 1)` of day `t` lies. */
  function ConstructedMonth(t: int): int {
    12 * ConstructorYear(ToCivil(t).year) + ToCivil(t).month - 1
  }

  /** That month is the day's own month, except in the years 0 to 99, where it is the
      same month 1900 years later. */
  lemma ConstructedMonthOf(t: int)
    ensures !(0 <= ToCivil(t).year <= 99) ==> ConstructedMonth(t) == MonthIndex(t)
    ensures 0 <= ToCivil(t).year <= 99 ==> ConstructedMonth(t) == MonthIndex(t) + 12 * 1900
  {
  }

  /** `new Date(date.getFullYear(), date.getMonth(), 1)`: the first of `ConstructedMonth`,
      which is not `date`'s own month when its year is one from 0 to 99. */
  method StartOfMonth(date: Date) returns (first: Date)
    ensures fresh(first) && first.time == MonthStart(ConstructedMonth(date.time))
  {
    var c := ToCivil(date.time);
    MonthStartOfYearMonth(ConstructorYear(c.year), c.month);
    MakeDayInYear(ConstructorYear(c.year), c.month, 1);
    first := NewDate(date.GetFullYear(), date.GetMonth(), 1);
  }

  /** The first of `date`'s own month in every year, as `new Date(date)` followed by
      `setDate(1)` gives it. */
  method FirstOfOwnMonth(date: Date) returns (first: Date)
    ensures fresh(first) && first.time == MonthStart(MonthIndex(date.time))
  {
    var c := ToCivil(date.time);
    MonthStartOfYearMonth(c.year, c.month);
    MakeDayInYear(c.year, c.month, 1);
    first := new Date(date.time);
    first.SetDate(1);
  }
}
