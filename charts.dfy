/**
 * The `Charts` component of client/src/components/Charts.jsx as one computation:
 * from the parsed transactions to the two early messages, or to the pie slices,
 * the granularity, the bar series and the insights' figures.
 */
module Charts {
  import opened Wrappers
  import opened Text
  import opened Calendar
  import opened Assoc
  import opened Ledger
  import opened ChartDates
  import opened Grouping
  import opened Series
  import opened Pie
  import opened Ranking
  import opened Insights

  /** The figures behind the insights that this model covers (amounts in paise, slice
      sums in tenths as in `Pie.Slice`). */
  datatype Figures = Figures(
    highest: (string, nat),           // 2
    lowest: (string, Extended),       // 4
    topTwo: nat,                      // 5, the top two categories' displayed value
    count: nat,                       // 6
    topCategory: Option<Slice>,       // 1 and 7
    growth: Growth,                   // 9
    median: nat,                      // 11
    largest: Option<Point>,           // 12
    smallest: Option<Point>,          // 13
    weekend: nat,                     // 14
    weekday: int,                     // 14
    busiestDay: (string, nat),        // 16
    categories: nat,                  // 17
    topThree: nat,                    // 20
    totalDisplayed: nat)

  function FiguresOf(points: seq<Point>, series: Entries, slices: seq<Slice>): Figures {
    Figures(
      Highest(series), Lowest(series), TopSum(slices, 2), |points|, TopCategory(slices),
      GrowthOf(series), Median(points), Largest(points), Smallest(points),
      WeekendSpend(points), WeekdaySpend(points), BusiestDay(points), CategoryCount(points),
      TopSum(slices, 3), TotalDisplayed(slices))
  }

  /** The pie, the bars and the weekend/weekday split all account for the same money:
      the sum of the valid transactions' amounts. */
  lemma ChartsAgree(points: seq<Point>)
    requires |points| > 0
    ensures var g := GranularityOf(MonthDiff(MinDay(points), MaxDay(points)));
      && Sum(Lookup(GroupedBy(points, BucketKey(g)), SeriesLabels(g, MinDay(points), MaxDay(points)))) == AmountSum(points)
      && Sum(CategoryTotals(points)) == AmountSum(points)
      && WeekendSpend(points) + WeekdaySpend(points) == AmountSum(points)
  {
    var g := GranularityOf(MonthDiff(MinDay(points), MaxDay(points)));
    CategoryTotalsCorrect(points);
    FilledSum(points, g, MinDay(points), MaxDay(points));
    WeekendWeekdaySplit(points);
  }

  /** Where the component as written and this model part: the pie has at least one slice,
      and insight 5 as written throws exactly when it has only one (the model then shows the
      corrected sum); with two or more it computes the corrected sum. Outside the years 0 to
      99 the month walk as written reads the same buckets as the corrected one. */
  lemma RenderFollowsSource(points: seq<Point>)
    requires |points| > 0
    ensures var pie := AdjustedPie(CategoryTotals(points));
      && |pie| >= 1
      && (TopTwoAsWritten(pie).None? <==> |pie| == 1)
      && (|pie| >= 2 ==> TopTwoAsWritten(pie) == Some(TopSum(pie, 2)))
    ensures !(0 <= ToCivil(MinDay(points)).year <= 99) && !(0 <= ToCivil(MaxDay(points)).year <= 99) ==>
              ConstructedMonthLabels(MinDay(points), MaxDay(points)) == SeriesLabels(ByMonth, MinDay(points), MaxDay(points))
  {
    var totals := CategoryTotals(points);
    CategoryTotalsCorrect(points);
    assert HasKey(totals, NormalizeCategory(points[0].category));
    var pie := AdjustedPie(totals);
    if |pie| >= 2 {
      TopTwoAgrees(pie);
    }
    if !(0 <= ToCivil(MinDay(points)).year <= 99) && !(0 <= ToCivil(MaxDay(points)).year <= 99) {
      ConstructedMonthLabelsAgree(MinDay(points), MaxDay(points));
    }
  }

  /** DD-MM-YYYY dates of the year 24 parse to days of the year 24, not 1924. */
  lemma YearTwentyFourParses(fallback: string -> Option<int>)
    ensures ParseDateSafely("15-03-0024", fallback) == Some(DayNumber(24, 3, 15))
    ensures ParseDateSafely("15-09-0024", fallback) == Some(DayNumber(24, 9, 15))
  {
    assert DecimalValue("0024") == 24 by {
      assert "0024"[..3] == "002" && "002"[..2] == "00" && "00"[..1] == "0" && "0"[..0] == "";
    }
    assert DecimalValue("15") == 15 by {
      assert "15"[..1] == "1" && "1"[..0] == "";
    }
    assert DecimalValue("03") == 3 && DecimalValue("09") == 9 by {
      assert "03"[..1] == "0" && "09"[..1] == "0" && "0"[..0] == "";
    }
    MarchLiteral();
    SeptemberLiteral();
    DayMonthYearParse("15", "03", "0024", fallback);
    DayMonthYearParse("15", "09", "0024", fallback);
  }

  lemma MarchLiteral()
    ensures "15" + "-" + "03" + "-" + "0024" == "15-03-0024"
  {
  }

  lemma SeptemberLiteral()
    ensures "15" + "-" + "09" + "-" + "0024" == "15-09-0024"
  {
  }

  /** Two transactions dated 15-03-0024 and 15-09-0024 are both kept, with those days. */
  lemma YearTwentyFourPoints(fallback: string -> Option<int>)
    ensures ValidPoints([Transaction("Amazon", 50000, "Shopping", Debit, "15-03-0024"),
                         Transaction("Amazon", 50000, "Shopping", Debit, "15-09-0024")], fallback)
         == [Point(DayNumber(24, 3, 15), 50000, "Shopping"), Point(DayNumber(24, 9, 15), 50000, "Shopping")]
  {
    var transactions := [Transaction("Amazon", 50000, "Shopping", Debit, "15-03-0024"),
                         Transaction("Amazon", 50000, "Shopping", Debit, "15-09-0024")];
    YearTwentyFourParses(fallback);
    assert transactions[1..][1..] == [];
  }

  /** Those two transactions: the dates lie six months apart, so the bars are by month. The
      month walk as written then reads the months of the year 1924, and all its bars are 0;
      the corrected walk carries both amounts. */
  lemma TwoDigitYearExample(fallback: string -> Option<int>)
    ensures var points := ValidPoints([Transaction("Amazon", 50000, "Shopping", Debit, "15-03-0024"),
                                       Transaction("Amazon", 50000, "Shopping", Debit, "15-09-0024")], fallback);
      && |points| == 2
      && GranularityOf(MonthDiff(MinDay(points), MaxDay(points))) == ByMonth
      && Sum(Lookup(GroupedBy(points, BucketKey(ByMonth)), ConstructedMonthLabels(MinDay(points), MaxDay(points)))) == 0
      && Sum(Lookup(GroupedBy(points, BucketKey(ByMonth)), SeriesLabels(ByMonth, MinDay(points), MaxDay(points)))) == 100000
  {
    YearTwentyFourPoints(fallback);
    var march, september := DayNumber(24, 3, 15), DayNumber(24, 9, 15);
    var points := [Point(march, 50000, "Shopping"), Point(september, 50000, "Shopping")];
    YearTwentyFourSpan(points);
    TwoDigitYearBarsEmpty(points, march, september);
    FilledSum(points, ByMonth, march, september);
    AmountSumPair(points[0], points[1]);
  }

  /** The two days lie in the year 24, with March first and six months between them. */
  lemma YearTwentyFourSpan(points: seq<Point>)
    requires points == [Point(DayNumber(24, 3, 15), 50000, "Shopping"), Point(DayNumber(24, 9, 15), 50000, "Shopping")]
    ensures MinDay(points) == DayNumber(24, 3, 15) && MaxDay(points) == DayNumber(24, 9, 15)
    ensures ToCivil(points[0].day).year == 24 && ToCivil(points[1].day).year == 24
    ensures GranularityOf(MonthDiff(MinDay(points), MaxDay(points))) == ByMonth
  {
    ToCivilDayNumber(Civil(24, 3, 15));
    ToCivilDayNumber(Civil(24, 9, 15));
    assert DayNumber(24, 3, 15) < DayNumber(24, 9, 15);
  }

  lemma AmountSumPair(p: Point, q: Point)
    ensures AmountSum([p, q]) == p.amount + q.amount
  {
    assert [p, q][..1] == [p] && [p][..0] == [];
    assert AmountSum([p]) == p.amount;
    assert AmountSum([p, q]) == AmountSum([p]) + q.amount;
  }

  /** What the component renders. */
  datatype View =
    | NoData
    | NoValidDates
    | Rendered(pie: seq<Slice>, granularity: Granularity, bars: Entries, figures: Figures)

  /**
   * `Charts({ transactions })`, with the two corrections recorded under Findings in
   * README.md. An empty list shows "No data to display"; a list without a single
   * parsable date shows "No valid transaction dates found"; otherwise the charts are
   * drawn. The pie and the bars then account for the same money: the categories' values
   * and the bar series each add up to the sum of the valid transactions' amounts, and so
   * do weekend and weekday spend.
   *
   * The corrections: insight 5 is `TopSum(pie, 2)`, where the source throws when the pie
   * has a single slice; and the month walk starts at the first date's own month, where
   * the source's `new Date(y, m, 1)` reads the years 0 to 99 as 1900 to 1999. The last
   * ensures clauses state where the result is also the source's.
   *
   * Every date here is a calendar day: `fallback` gives a day and no time of day. The
   * source's day and week walks on dates with a time of day are
   * `Series.FillDaysClocked` and `Series.FillWeeksClocked`.
   */
  method Render(transactions: seq<Transaction>, fallback: string -> Option<int>) returns (view: View)
    ensures |transactions| == 0 <==> view == NoData
    ensures view == NoValidDates <==> |transactions| > 0 && |ValidPoints(transactions, fallback)| == 0
    ensures view.Rendered? ==>
              var points := ValidPoints(transactions, fallback);
              var totals := CategoryTotals(points);
              var g := GranularityOf(MonthDiff(MinDay(points), MaxDay(points)));
              && view.pie == AdjustedPie(totals)
              && view.granularity == g
              && view.bars == Lookup(GroupedBy(points, BucketKey(g)), SeriesLabels(g, MinDay(points), MaxDay(points)))
              && view.figures == FiguresOf(points, view.bars, view.pie)
              && Sum(view.bars) == Sum(totals) == AmountSum(points)
              && view.figures.weekend + view.figures.weekday == AmountSum(points)
    ensures view.Rendered? ==>
              && |view.pie| >= 1
              && (TopTwoAsWritten(view.pie).None? <==> |view.pie| == 1)
              && (|view.pie| >= 2 ==> TopTwoAsWritten(view.pie) == Some(view.figures.topTwo))
    ensures view.Rendered? && view.granularity == ByMonth ==>
              var points := ValidPoints(transactions, fallback);
              !(0 <= ToCivil(MinDay(points)).year <= 99) && !(0 <= ToCivil(MaxDay(points)).year <= 99) ==>
                view.bars == Lookup(GroupedBy(points, BucketKey(ByMonth)), ConstructedMonthLabels(MinDay(points), MaxDay(points)))
  {
    if |transactions| == 0 {
      return NoData;
    }
    var points := ValidPoints(transactions, fallback);
    if |points| == 0 {
      return NoValidDates;
    }
    var minDay := MinDay(points);
    var maxDay := MaxDay(points);
    var g := GranularityOf(MonthDiff(minDay, maxDay));
    var totals := CategoryTotals(points);
    var pie := AdjustedPie(totals);
    var grouped := GroupTotals(points, g);
    var bars := FillTotals(grouped, g, minDay, maxDay);
    ChartsAgree(points);
    RenderFollowsSource(points);
    view := Rendered(pie, g, bars, FiguresOf(points, bars, pie));
  }
}
