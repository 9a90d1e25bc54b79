/**
 * The pie chart's data in client/src/components/Charts.jsx: `normalizeCategory`,
 * which folds the parser's categories into the chart's labels; `categoryTotals`,
 * the amount of every valid transaction, Debit or Credit alike, added under its
 * normalised category; and `adjustedPieData`, which widens every slice below a
 * tenth of the total to exactly a tenth so that it stays visible, keeping the
 * true value beside it.
 */
module Pie {
  import opened Text
  import opened Wrappers
  import opened Assoc
  import opened ChartDates
  import opened Grouping

  // -------------------------------------------------------- normalizeCategory

  /** `mergedCategories`, in declaration order. */
  const MergedCategories: seq<(string, string)> := [
    ("groceries", "Essentials"), ("food", "Essentials"), ("shopping", "Shopping"),
    ("travel", "Travel"), ("bills", "Bills"), ("entertainment", "Entertainment"),
    ("medical", "Medical"), ("services", "Services"), ("other", "Other")
  ]

  /** `table[key]`: the value of the first entry with that key, if any. */
  function ValueOf(table: seq<(string, string)>, key: string): (r: Option<string>)
    ensures r.None? <==> forall i :: 0 <= i < |table| ==> table[i].0 != key
    ensures r.Some? ==> exists i :: 0 <= i < |table| && table[i] == (key, r.value)
    decreases |table|
  {
    if |table| == 0 then None
    else if table[0].0 == key then Some(table[0].1)
    else
      var r := ValueOf(table[1..], key);
      assert forall i :: 1 <= i < |table| ==> table[i] == table[1..][i - 1];
      r
  }

  /** `normalizeCategory(cat)`; a missing category is "", the only falsy string. */
  function NormalizeCategory(cat: string): string {
    if cat == "" then "Other"
    else match ValueOf(MergedCategories, ToLower(cat))
      case Some(merged) => merged
      case None => cat
  }

  /** A missing category gives "Other"; one whose lower-cased form is a key of
      `mergedCategories` gives that key's label; any other comes back unchanged. */
  lemma NormalizeCategoryCases(cat: string)
    ensures cat == "" ==> NormalizeCategory(cat) == "Other"
    ensures forall i :: 0 <= i < |MergedCategories| && cat != "" && MergedCategories[i].0 == ToLower(cat)
              ==> NormalizeCategory(cat) == MergedCategories[i].1
    ensures (cat != "" && forall i :: 0 <= i < |MergedCategories| ==> MergedCategories[i].0 != ToLower(cat))
              ==> NormalizeCategory(cat) == cat
  {
    MergedKeysDistinct();
    forall i | 0 <= i < |MergedCategories| && cat != "" && MergedCategories[i].0 == ToLower(cat)
      ensures NormalizeCategory(cat) == MergedCategories[i].1
    {
      ValueOfAt(MergedCategories, i);
    }
  }

  /** The keys of `mergedCategories` are distinct. */
  lemma MergedKeysDistinct()
    ensures forall a, b :: 0 <= a < b < |MergedCategories| ==> MergedCategories[a].0 != MergedCategories[b].0
  {
    assert "shopping"[1] != "services"[1] && "bills"[0] != "other"[0];
  }

  /** With distinct keys, the entry holding `key` gives the value. */
  lemma ValueOfAt(table: seq<(string, string)>, i: int)
    requires 0 <= i < |table|
    requires forall a, b :: 0 <= a < b < |table| ==> table[a].0 != table[b].0
    ensures ValueOf(table, table[i].0) == Some(table[i].1)
  {
    var r := ValueOf(table, table[i].0);
    var j :| 0 <= j < |table| && table[j] == (table[i].0, r.value);
    assert j == i;
  }

  /** A label that lower-cases to its own key is left alone. */
  lemma LabelOfKeyFixed(i: int)
    requires 0 <= i < |MergedCategories|
    requires ToLower(MergedCategories[i].1) == MergedCategories[i].0
    ensures NormalizeCategory(MergedCategories[i].1) == MergedCategories[i].1
  {
    MergedKeysDistinct();
    ValueOfAt(MergedCategories, i);
  }

  /** Lower-casing a word that starts with a capital and goes on in small letters. */
  lemma LowerCapitalized(w: string, lower: string)
    requires |w| == |lower| > 0 && lower[0] == LowerChar(w[0])
    requires forall k :: 1 <= k < |w| ==> !IsAsciiUpper(w[k]) && lower[k] == w[k]
    ensures ToLower(w) == lower
  {
  }

  /** Every label of `mergedCategories` is left alone by `normalizeCategory`. */
  lemma MergedLabelsFixed(i: int)
    requires 0 <= i < |MergedCategories|
    ensures NormalizeCategory(MergedCategories[i].1) == MergedCategories[i].1
  {
    var w := MergedCategories[i].1;
    if i <= 1 {
      assert |ToLower(w)| == 10;
      assert forall j :: 0 <= j < |MergedCategories| ==> |MergedCategories[j].0| != 10;
    } else {
      LowerCapitalized(w, MergedCategories[i].0);
      LabelOfKeyFixed(i);
    }
  }

  /** Normalising twice is normalising once. */
  lemma NormalizeCategoryIdempotent(cat: string)
    ensures NormalizeCategory(NormalizeCategory(cat)) == NormalizeCategory(cat)
  {
    if cat == "" {
      MergedLabelsFixed(8);
    } else {
      var r := ValueOf(MergedCategories, ToLower(cat));
      if r.Some? {
        var i :| 0 <= i < |MergedCategories| && MergedCategories[i] == (ToLower(cat), r.value);
        MergedLabelsFixed(i);
      }
    }
  }

  // ----------------------------------------------------------- categoryTotals

  /** The pie's key for a transaction: its normalised category. */
  const CategoryKey: Point -> string := (p: Point) => NormalizeCategory(p.category)

  /** `categoryTotals`: a `reduce` adding every valid transaction's amount under its
      normalised category. */
  function CategoryTotals(points: seq<Point>): Entries {
    GroupedBy(points, CategoryKey)
  }

  /** The keys are distinct and are exactly the normalised categories of the transactions;
      each holds the sum of the amounts of its transactions, whatever their kind; all
      values together make `total`, the sum of every amount. */
  lemma CategoryTotalsCorrect(points: seq<Point>)
    ensures DistinctKeys(CategoryTotals(points))
    ensures forall k :: HasKey(CategoryTotals(points), k) <==>
              exists i :: 0 <= i < |points| && NormalizeCategory(points[i].category) == k
    ensures forall k :: Get(CategoryTotals(points), k) == AmountIn(points, CategoryKey, k)
    ensures Sum(CategoryTotals(points)) == AmountSum(points)
  {
    GroupedKeys(points, CategoryKey);
    GroupedSum(points, CategoryKey);
    forall k ensures Get(CategoryTotals(points), k) == AmountIn(points, CategoryKey, k) {
      GroupedPerBucket(points, CategoryKey, k);
    }
    forall k ensures IsBucketOf(points, CategoryKey, k) <==>
                       exists i :: 0 <= i < |points| && NormalizeCategory(points[i].category) == k {
      if IsBucketOf(points, CategoryKey, k) {
        var i :| 0 <= i < |points| && CategoryKey(points[i]) == k;
        assert NormalizeCategory(points[i].category) == k;
      }
    }
  }

  // ---------------------------------------------------------- adjustedPieData

  /**
   * An element of `adjustedPieData`: the category `name`, its `value` (also its
   * `actualValue`), and `display`, ten times its `displayValue` (a tenth of the
   * total need not be a whole number of paise, ten times it is).
   */
  datatype Slice = Slice(name: string, value: nat, display: nat)

  /** Ten times `displayValue`: `d.value / total < 0.1 ? total * 0.1 : d.value`. With a
      total of 0 every value is 0, `0 / 0` is NaN, the test fails, and the value is kept. */
  function DisplayTenths(value: nat, total: nat): nat {
    if 10 * value < total then total else 10 * value
  }

  /** `pieData.map(...)` with `total` fixed. */
  function AdjustedFrom(totals: Entries, total: nat): (slices: seq<Slice>)
    ensures |slices| == |totals|
    ensures forall i :: 0 <= i < |totals| ==>
              slices[i] == Slice(totals[i].0, totals[i].1, DisplayTenths(totals[i].1, total))
    decreases |totals|
  {
    if |totals| == 0 then []
    else [Slice(totals[0].0, totals[0].1, DisplayTenths(totals[0].1, total))] + AdjustedFrom(totals[1..], total)
  }

  /** `adjustedPieData`, measured against `total`, the sum of all values. */
  function AdjustedPie(totals: Entries): seq<Slice> {
    AdjustedFrom(totals, Sum(totals))
  }

  /** `totalDisplayed`, times ten. */
  function TotalDisplayed(slices: seq<Slice>): nat
    decreases |slices|
  {
    if |slices| == 0 then 0 else slices[0].display + TotalDisplayed(slices[1..])
  }

  /** Every slice shows at least its actual value and at least a tenth of the total; a
      slice of a tenth or more shows exactly its value; names and actual values are
      `categoryTotals` in order. */
  lemma AdjustedPieSlices(totals: Entries)
    ensures |AdjustedPie(totals)| == |totals|
    ensures forall i :: 0 <= i < |totals| ==>
              var s := AdjustedPie(totals)[i];
              && s.name == totals[i].0 && s.value == totals[i].1
              && s.display >= 10 * s.value && s.display >= Sum(totals)
              && (10 * s.value >= Sum(totals) ==> s.display == 10 * s.value)
              && (10 * s.value < Sum(totals) ==> s.display == Sum(totals))
  {
  }

  /** What is displayed adds up to at least the total: widening only adds. */
  lemma {:induction false} TotalDisplayedAtLeast(totals: Entries, total: nat)
    ensures TotalDisplayed(AdjustedFrom(totals, total)) >= 10 * Sum(totals)
    decreases |totals|
  {
    if |totals| > 0 {
      TotalDisplayedAtLeast(totals[1..], total);
      assert AdjustedFrom(totals, total)[1..] == AdjustedFrom(totals[1..], total);
    }
  }
}
