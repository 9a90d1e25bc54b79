/**
 * The two ways client/src/components/Charts.jsx picks winners from a list: a
 * `reduce` that replaces its running choice only by a strictly better element,
 * and `Array.prototype.sort` with a descending comparator `(a, b) => key(b) - key(a)`.
 * `sort` is stable (ECMAScript 2019 and later), so both keep the earliest of
 * equally good elements first.
 */
module Ranking {

  // ------------------------------------------------------------------- reduce

  /** `xs.reduce((best, x) => key(x) > key(best) ? x : best, init)` */
  function BestFrom<T>(init: T, xs: seq<T>, key: T -> int): T
    decreases |xs|
  {
    if |xs| == 0 then init
    else
      var best := BestFrom(init, xs[..|xs| - 1], key);
      if key(xs[|xs| - 1]) > key(best) then xs[|xs| - 1] else best
  }

  /** `i` is the first index of `xs` holding its largest key. */
  ghost predicate IsFirstMax<T>(xs: seq<T>, key: T -> int, i: int) {
    && 0 <= i < |xs|
    && (forall j :: 0 <= j < |xs| ==> key(xs[j]) <= key(xs[i]))
    && (forall j :: 0 <= j < i ==> key(xs[j]) < key(xs[i]))
  }

  /** Where the reduce ends: -1 while it still holds `init`, otherwise the index of the
      element it holds. */
  ghost function BestIndex<T>(init: T, xs: seq<T>, key: T -> int): (i: int)
    ensures -1 <= i < |xs|
    decreases |xs|
  {
    if |xs| == 0 then -1
    else
      var b := BestIndex(init, xs[..|xs| - 1], key);
      var best := if b < 0 then init else xs[b];
      if key(xs[|xs| - 1]) > key(best) then |xs| - 1 else b
  }

  /** The reduce keeps `init` when no element beats it, and otherwise ends on the first
      element with the largest key. */
  lemma {:induction false} BestFromFirstMax<T>(init: T, xs: seq<T>, key: T -> int)
    ensures var i := BestIndex(init, xs, key);
      && BestFrom(init, xs, key) == (if i < 0 then init else xs[i])
      && (i < 0 ==> forall j :: 0 <= j < |xs| ==> key(xs[j]) <= key(init))
      && (i >= 0 ==> IsFirstMax(xs, key, i) && key(xs[i]) > key(init))
    decreases |xs|
  {
    if |xs| > 0 {
      var n := |xs| - 1;
      var init' := xs[..n];
      BestFromFirstMax(init, init', key);
      assert forall j :: 0 <= j < n ==> init'[j] == xs[j];
    }
  }

  /** `xs.reduce((best, x) => key(x) > key(best) ? x : best, xs[0])`: the first element
      with the largest key. */
  lemma FirstElementBest<T>(xs: seq<T>, key: T -> int)
    requires |xs| > 0
    ensures exists i :: IsFirstMax(xs, key, i) && BestFrom(xs[0], xs, key) == xs[i]
  {
    BestFromFirstMax(xs[0], xs, key);
    var i := BestIndex(xs[0], xs, key);
    if i < 0 {
      assert IsFirstMax(xs, key, 0);
    }
  }

  // --------------------------------------------------------------------- sort

  /** Places `x` after every element whose key is at least `key(x)`. */
  function Insert<T>(sorted: seq<T>, x: T, key: T -> int): (r: seq<T>)
    ensures |r| == |sorted| + 1
    decreases |sorted|
  {
    if |sorted| == 0 then [x]
    else if key(x) > key(sorted[0]) then [x] + sorted
    else [sorted[0]] + Insert(sorted[1..], x, key)
  }

  /** `[...xs].sort((a, b) => key(b) - key(a))`, as a stable insertion sort. */
  function SortDesc<T>(xs: seq<T>, key: T -> int): (r: seq<T>)
    ensures |r| == |xs|
    decreases |xs|
  {
    if |xs| == 0 then [] else Insert(SortDesc(xs[..|xs| - 1], key), xs[|xs| - 1], key)
  }

  ghost predicate Descending<T>(s: seq<T>, key: T -> int) {
    forall i, j :: 0 <= i < j < |s| ==> key(s[i]) >= key(s[j])
  }

  /** The elements whose key is `v`, in order. */
  function WithKey<T>(s: seq<T>, key: T -> int, v: int): seq<T>
    decreases |s|
  {
    if |s| == 0 then [] else (if key(s[0]) == v then [s[0]] else []) + WithKey(s[1..], key, v)
  }

  /** Dropping the head keeps a sequence descending, below its head. */
  lemma DescendingTail<T>(s: seq<T>, key: T -> int)
    requires Descending(s, key) && |s| > 0
    ensures Descending(s[1..], key)
    ensures forall i :: 0 <= i < |s| - 1 ==> key(s[1..][i]) <= key(s[0])
  {
    var rest := s[1..];
    forall i, j | 0 <= i < j < |rest| ensures key(rest[i]) >= key(rest[j]) {
      assert rest[i] == s[i + 1] && rest[j] == s[j + 1];
    }
    forall i | 0 <= i < |rest| ensures key(rest[i]) <= key(s[0]) {
      assert rest[i] == s[i + 1];
    }
  }

  /** Inserting keeps every element and adds `x`. */
  lemma {:induction false} InsertMultiset<T>(sorted: seq<T>, x: T, key: T -> int)
    ensures multiset(Insert(sorted, x, key)) == multiset(sorted) + multiset{x}
    decreases |sorted|
  {
    if |sorted| > 0 && key(x) <= key(sorted[0]) {
      InsertMultiset(sorted[1..], x, key);
      assert sorted == [sorted[0]] + sorted[1..];
    }
  }

  /** Inserting below a bound keeps every key below it. */
  lemma {:induction false} InsertBound<T>(sorted: seq<T>, x: T, key: T -> int, b: int)
    requires forall i :: 0 <= i < |sorted| ==> key(sorted[i]) <= b
    requires key(x) <= b
    ensures forall i :: 0 <= i < |sorted| + 1 ==> key(Insert(sorted, x, key)[i]) <= b
    decreases |sorted|
  {
    if |sorted| > 0 && key(x) <= key(sorted[0]) {
      InsertBound(sorted[1..], x, key, b);
    }
  }

  lemma {:induction false} InsertDescending<T>(sorted: seq<T>, x: T, key: T -> int)
    requires Descending(sorted, key)
    ensures Descending(Insert(sorted, x, key), key)
    decreases |sorted|
  {
    if |sorted| > 0 && key(x) <= key(sorted[0]) {
      var rest := sorted[1..];
      DescendingTail(sorted, key);
      InsertDescending(rest, x, key);
      InsertBound(rest, x, key, key(sorted[0]));
    }
  }

  lemma WithKeyCons<T>(x: T, s: seq<T>, key: T -> int, v: int)
    ensures WithKey([x] + s, key, v) == (if key(x) == v then [x] else []) + WithKey(s, key, v)
  {
    assert ([x] + s)[1..] == s;
  }

  /** Inserting `x` appends it to the elements with the same key: it goes after all of them. */
  lemma {:induction false} InsertWithKey<T>(sorted: seq<T>, x: T, key: T -> int, v: int)
    requires Descending(sorted, key)
    ensures WithKey(Insert(sorted, x, key), key, v)
            == WithKey(sorted, key, v) + (if key(x) == v then [x] else [])
    decreases |sorted|
  {
    if |sorted| == 0 {
      WithKeyCons(x, [], key, v);
    } else if key(x) > key(sorted[0]) {
      WithKeyCons(x, sorted, key, v);
      if key(x) == v {
        WithKeyNone(sorted, key, v);
      }
    } else {
      var rest := sorted[1..];
      DescendingTail(sorted, key);
      InsertWithKey(rest, x, key, v);
      WithKeyCons(sorted[0], Insert(rest, x, key), key, v);
      WithKeyCons(sorted[0], rest, key, v);
      assert sorted == [sorted[0]] + rest;
    }
  }

  /** A descending sequence led by a key below `v` has no element with key `v`. */
  lemma {:induction false} WithKeyNone<T>(s: seq<T>, key: T -> int, v: int)
    requires Descending(s, key) && (|s| == 0 || key(s[0]) < v)
    ensures WithKey(s, key, v) == []
    decreases |s|
  {
    if |s| > 0 {
      var rest := s[1..];
      DescendingTail(s, key);
      WithKeyNone(rest, key, v);
    }
  }

  /** `WithKey` distributes over concatenation. */
  lemma {:induction false} WithKeyAppend<T>(s: seq<T>, x: T, key: T -> int, v: int)
    ensures WithKey(s + [x], key, v) == WithKey(s, key, v) + (if key(x) == v then [x] else [])
    decreases |s|
  {
    if |s| > 0 {
      assert (s + [x])[1..] == s[1..] + [x];
      WithKeyAppend(s[1..], x, key, v);
    }
  }

  /** The sort orders by descending key, keeps every element, and is stable: the elements
      with any one key come out in their original order. */
  lemma {:induction false} SortDescCorrect<T>(xs: seq<T>, key: T -> int)
    ensures Descending(SortDesc(xs, key), key)
    ensures multiset(SortDesc(xs, key)) == multiset(xs)
    ensures forall v :: WithKey(SortDesc(xs, key), key, v) == WithKey(xs, key, v)
    decreases |xs|
  {
    if |xs| > 0 {
      var n := |xs| - 1;
      SortDescCorrect(xs[..n], key);
      InsertDescending(SortDesc(xs[..n], key), xs[n], key);
      InsertMultiset(SortDesc(xs[..n], key), xs[n], key);
      assert xs == xs[..n] + [xs[n]];
      forall v ensures WithKey(SortDesc(xs, key), key, v) == WithKey(xs, key, v) {
        InsertWithKey(SortDesc(xs[..n], key), xs[n], key, v);
        WithKeyAppend(xs[..n], xs[n], key, v);
      }
    }
  }

  /** The head of the sorted list is what the reduce from the first element picks:
      the first element with the largest key. */
  lemma {:induction false} SortDescHead<T>(xs: seq<T>, key: T -> int)
    requires |xs| > 0
    ensures SortDesc(xs, key)[0] == BestFrom(xs[0], xs, key)
    ensures exists i :: IsFirstMax(xs, key, i) && SortDesc(xs, key)[0] == xs[i]
    decreases |xs|
  {
    var n := |xs| - 1;
    if n > 0 {
      SortDescHead(xs[..n], key);
      assert xs[..n][0] == xs[0];
    }
    FirstElementBest(xs, key);
  }
}
