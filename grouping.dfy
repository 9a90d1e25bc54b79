/**
 * The `reduce`/`forEach` pattern of client/src/components/Charts.jsx that adds
 * each valid transaction's amount to a plain object under a key computed from
 * the transaction: `acc[key] = (acc[key] || 0) + t.amount`. The pie chart keys by
 * normalised category, the bar chart by bucket.
 */
module Grouping {
  import opened Assoc
  import opened ChartDates

  /** The totals after adding each point's amount under `key(point)`, in order. */
  function GroupedBy(points: seq<Point>, key: Point -> string): Entries
    decreases |points|
  {
    if |points| == 0 then []
    else
      var p := points[|points| - 1];
      Add(GroupedBy(points[..|points| - 1], key), key(p), p.amount)
  }

  /** One more point adds its amount under its key. */
  lemma GroupedByStep(points: seq<Point>, key: Point -> string, i: int)
    requires 0 <= i < |points|
    ensures GroupedBy(points[..i + 1], key) == Add(GroupedBy(points[..i], key), key(points[i]), points[i].amount)
  {
    assert points[..i + 1][..i] == points[..i];
  }

  /** The sum of all amounts. */
  function AmountSum(points: seq<Point>): nat
    decreases |points|
  {
    if |points| == 0 then 0 else AmountSum(points[..|points| - 1]) + points[|points| - 1].amount
  }

  /** Reference: the sum of the amounts of the points whose key is `k`. */
  function AmountIn(points: seq<Point>, key: Point -> string, k: string): nat
    decreases |points|
  {
    if |points| == 0 then 0
    else
      var p := points[|points| - 1];
      AmountIn(points[..|points| - 1], key, k) + (if key(p) == k then p.amount else 0)
  }

  /** Some point has key `k`. */
  predicate IsBucketOf(points: seq<Point>, key: Point -> string, k: string) {
    exists i :: 0 <= i < |points| && key(points[i]) == k
  }

  /** The keys are distinct, and they are exactly the keys of the points. */
  lemma {:induction false} GroupedKeys(points: seq<Point>, key: Point -> string)
    ensures DistinctKeys(GroupedBy(points, key))
    ensures forall k :: HasKey(GroupedBy(points, key), k) <==> IsBucketOf(points, key, k)
    decreases |points|
  {
    if |points| > 0 {
      var init := points[..|points| - 1];
      var p := points[|points| - 1];
      GroupedKeys(init, key);
      AddDistinct(GroupedBy(init, key), key(p), p.amount);
      forall k ensures IsBucketOf(points, key, k) <==> IsBucketOf(init, key, k) || key(p) == k {
        if IsBucketOf(points, key, k) {
          var i :| 0 <= i < |points| && key(points[i]) == k;
          if i < |init| {
            assert init[i] == points[i];
          }
        }
        if IsBucketOf(init, key, k) {
          var i :| 0 <= i < |init| && key(init[i]) == k;
          assert points[i] == init[i];
        }
      }
    }
  }

  /** Grouping loses no amount: the totals add up to the sum of all amounts. */
  lemma {:induction false} GroupedSum(points: seq<Point>, key: Point -> string)
    ensures Sum(GroupedBy(points, key)) == AmountSum(points)
    decreases |points|
  {
    if |points| > 0 {
      var init := points[..|points| - 1];
      var p := points[|points| - 1];
      GroupedSum(init, key);
      AddSum(GroupedBy(init, key), key(p), p.amount);
    }
  }

  /** Each bucket's total is the sum of the amounts of the points in it; any other key
      reads as 0. */
  lemma {:induction false} GroupedPerBucket(points: seq<Point>, key: Point -> string, k: string)
    ensures Get(GroupedBy(points, key), k) == AmountIn(points, key, k)
    decreases |points|
  {
    if |points| > 0 {
      var init := points[..|points| - 1];
      var p := points[|points| - 1];
      GroupedPerBucket(init, key, k);
      AddGet(GroupedBy(init, key), key(p), p.amount, k);
    }
  }
}
