/**
 * A plain JavaScript object used as a dictionary from string keys to numbers,
 * as `categoryTotals`, `groupedTotals`, `filledTotals` and the weekday counts
 * are: its entries in insertion order (what `Object.entries` returns for keys
 * that are not array indices, as none of the program's keys is), keys
 * distinct. A missing key reads as 0, as in `(acc[k] || 0)`.
 */
module Assoc {

  type Entries = seq<(string, nat)>

  /** `Object.keys(m)` */
  function Keys(m: Entries): (ks: seq<string>)
    ensures |ks| == |m|
    ensures forall i :: 0 <= i < |m| ==> ks[i] == m[i].0
  {
    if |m| == 0 then [] else [m[0].0] + Keys(m[1..])
  }

  predicate HasKey(m: Entries, k: string) {
    exists i :: 0 <= i < |m| && m[i].0 == k
  }

  predicate Distinct(ks: seq<string>) {
    forall i, j :: 0 <= i < j < |ks| ==> ks[i] != ks[j]
  }

  predicate DistinctKeys(m: Entries) {
    forall i, j :: 0 <= i < j < |m| ==> m[i].0 != m[j].0
  }

  /** `m[k] || 0` */
  function Get(m: Entries, k: string): nat {
    if |m| == 0 then 0 else if m[0].0 == k then m[0].1 else Get(m[1..], k)
  }

  /** `m[k] = (m[k] || 0) + a`: an existing key keeps its place, a new key goes last. */
  function Add(m: Entries, k: string, a: nat): Entries {
    if |m| == 0 then [(k, a)]
    else if m[0].0 == k then [(k, m[0].1 + a)] + m[1..]
    else [m[0]] + Add(m[1..], k, a)
  }

  /** Past a first entry with another key, the key is in the dictionary exactly when it is
      in the rest. */
  lemma HasKeyTail(m: Entries, k: string)
    requires |m| > 0 && m[0].0 != k
    ensures HasKey(m, k) <==> HasKey(m[1..], k)
  {
    if HasKey(m, k) {
      var i :| 0 <= i < |m| && m[i].0 == k;
      assert i != 0;
      assert m[1..][i - 1].0 == k;
    }
    if HasKey(m[1..], k) {
      var i :| 0 <= i < |m[1..]| && m[1..][i].0 == k;
      assert m[i + 1].0 == k;
    }
  }

  /** `m[k] = v`: an existing key keeps its place and takes the new value, a new key goes last. */
  function Put(m: Entries, k: string, v: nat): (r: Entries)
    ensures HasKey(m, k) ==> |r| == |m|
    ensures !HasKey(m, k) ==> r == m + [(k, v)]
  {
    if |m| == 0 then [(k, v)]
    else if m[0].0 == k then [(k, v)] + m[1..]
    else
      HasKeyTail(m, k);
      [m[0]] + Put(m[1..], k, v)
  }

  /** Reading after `m[k] = v` gives `v` at `k` and the old value everywhere else. */
  lemma {:induction false} PutGet(m: Entries, k: string, v: nat, j: string)
    ensures Get(Put(m, k, v), j) == if j == k then v else Get(m, j)
  {
    if |m| > 0 && m[0].0 != k {
      PutGet(m[1..], k, v, j);
      assert Put(m, k, v)[1..] == Put(m[1..], k, v);
    }
  }

  /** `Object.values(m).reduce((s, v) => s + v, 0)` */
  function Sum(m: Entries): nat {
    if |m| == 0 then 0 else m[0].1 + Sum(m[1..])
  }

  lemma GetMissing(m: Entries, k: string)
    requires !HasKey(m, k)
    ensures Get(m, k) == 0
  {
    if |m| > 0 {
      assert m[0].0 != k;
      assert forall i :: 0 <= i < |m[1..]| ==> m[1..][i] == m[i + 1];
      GetMissing(m[1..], k);
    }
  }

  lemma GetPresent(m: Entries, i: int)
    requires DistinctKeys(m) && 0 <= i < |m|
    ensures Get(m, m[i].0) == m[i].1
  {
    if i > 0 {
      assert m[0].0 != m[i].0;
      GetPresent(m[1..], i - 1);
    }
  }

  /** Adding `a` under `k` raises the value read at `k` by `a` and leaves every other key alone. */
  lemma {:induction false} AddGet(m: Entries, k: string, a: nat, j: string)
    ensures Get(Add(m, k, a), j) == Get(m, j) + (if j == k then a else 0)
  {
    if |m| > 0 && m[0].0 != k {
      AddGet(m[1..], k, a, j);
      assert Add(m, k, a)[1..] == Add(m[1..], k, a);
    }
  }

  /** Adding `a` raises the sum of all values by exactly `a`. */
  lemma {:induction false} AddSum(m: Entries, k: string, a: nat)
    ensures Sum(Add(m, k, a)) == Sum(m) + a
  {
    if |m| > 0 {
      if m[0].0 == k {
        assert Add(m, k, a)[1..] == m[1..];
      } else {
        AddSum(m[1..], k, a);
        assert Add(m, k, a)[1..] == Add(m[1..], k, a);
      }
    }
  }

  /** The keys after adding are the old keys, with `k` appended when it was new. */
  lemma {:induction false} AddKeys(m: Entries, k: string, a: nat)
    ensures Keys(Add(m, k, a)) == if HasKey(m, k) then Keys(m) else Keys(m) + [k]
  {
    if |m| > 0 {
      if m[0].0 != k {
        AddKeys(m[1..], k, a);
        HasKeyTail(m, k);
      } else {
        assert m[0].0 == k;
      }
    }
  }

  lemma KeysHasKey(m: Entries, k: string)
    ensures k in Keys(m) <==> HasKey(m, k)
  {
    if k in Keys(m) {
      var i :| 0 <= i < |m| && Keys(m)[i] == k;
    }
  }

  /** Adding keeps the keys distinct and introduces no key but `k`. */
  lemma AddDistinct(m: Entries, k: string, a: nat)
    requires DistinctKeys(m)
    ensures DistinctKeys(Add(m, k, a))
    ensures forall j :: HasKey(Add(m, k, a), j) <==> HasKey(m, j) || j == k
  {
    AddKeys(m, k, a);
    var r := Add(m, k, a);
    forall j ensures HasKey(r, j) <==> HasKey(m, j) || j == k {
      KeysHasKey(r, j);
      KeysHasKey(m, j);
      KeysHasKey(m, k);
    }
    KeysHasKey(m, k);
    assert Distinct(Keys(r)) by {
      if !HasKey(m, k) {
        forall i | 0 <= i < |m| ensures Keys(m)[i] != k {
        }
      }
    }
  }

  /** Appending a new key keeps a key list distinct. */
  lemma DistinctAppend(keys: seq<string>, k: string)
    requires Distinct(keys) && k !in keys
    ensures Distinct(keys + [k])
  {
    var next := keys + [k];
    forall i, j | 0 <= i < j < |next| ensures next[i] != next[j] {
      assert next[i] == keys[i];
      if j < |keys| {
        assert next[j] == keys[j];
      }
    }
  }

  /** `Get(m, keys[0]) + Get(m, keys[1]) + ...` */
  function SumAt(m: Entries, keys: seq<string>): nat {
    if |keys| == 0 then 0 else Get(m, keys[0]) + SumAt(m, keys[1..])
  }

  /** The entries `[key, m[key] || 0]` for each key in order, as `filledTotals` is built. */
  function Lookup(m: Entries, keys: seq<string>): (r: Entries)
    ensures |r| == |keys|
    ensures forall i :: 0 <= i < |keys| ==> r[i] == (keys[i], Get(m, keys[i]))
  {
    if |keys| == 0 then [] else [(keys[0], Get(m, keys[0]))] + Lookup(m, keys[1..])
  }

  /** A key is present in `Lookup(m, keys)` exactly when it is one of `keys`. */
  lemma LookupHasKey(m: Entries, keys: seq<string>, k: string)
    ensures HasKey(Lookup(m, keys), k) <==> k in keys
  {
    if k in keys {
      var i :| 0 <= i < |keys| && keys[i] == k;
      assert Lookup(m, keys)[i].0 == k;
    }
  }

  /** Assigning a new key's value after reading along `keys` is reading along `keys + [k]`. */
  lemma LookupAppend(m: Entries, keys: seq<string>, k: string)
    requires k !in keys
    ensures Put(Lookup(m, keys), k, Get(m, k)) == Lookup(m, keys + [k])
  {
    LookupHasKey(m, keys, k);
    var next := Lookup(m, keys + [k]);
    assert next == Lookup(m, keys) + [(k, Get(m, k))] by {
      forall j | 0 <= j < |keys| + 1 ensures next[j] == (Lookup(m, keys) + [(k, Get(m, k))])[j] {
        assert (keys + [k])[j] == if j < |keys| then keys[j] else k;
      }
    }
  }

  lemma {:induction false} SumLookup(m: Entries, keys: seq<string>)
    ensures Sum(Lookup(m, keys)) == SumAt(m, keys)
  {
    if |keys| > 0 {
      SumLookup(m, keys[1..]);
      assert Lookup(m, keys)[1..] == Lookup(m, keys[1..]);
    }
  }

  /** Reading through `m` along distinct keys that differ from `m'` only at `k`. */
  lemma {:induction false} SumAtOneKey(m: Entries, m': Entries, k: string, v: nat, keys: seq<string>)
    requires Distinct(keys)
    requires forall x :: Get(m, x) == Get(m', x) + (if x == k then v else 0)
    ensures SumAt(m, keys) == SumAt(m', keys) + (if k in keys then v else 0)
  {
    if |keys| > 0 {
      assert Distinct(keys[1..]) by {
        forall i, j | 0 <= i < j < |keys[1..]| ensures keys[1..][i] != keys[1..][j] {
          assert keys[i + 1] != keys[j + 1];
        }
      }
      SumAtOneKey(m, m', k, v, keys[1..]);
      assert k in keys <==> k == keys[0] || k in keys[1..] by {
        if k in keys {
          var i :| 0 <= i < |keys| && keys[i] == k;
          if i > 0 { assert keys[1..][i - 1] == k; }
        }
      }
      if k == keys[0] {
        assert k !in keys[1..] by {
          forall i | 0 <= i < |keys[1..]| ensures keys[1..][i] != k {
            assert keys[1..][i] == keys[i + 1];
          }
        }
      }
    }
  }

  /** Reading a dictionary back along distinct keys that include all of its own keys
      recovers the sum of all its values: nothing is lost and nothing counted twice. */
  lemma {:induction false} SumAtCovering(m: Entries, keys: seq<string>)
    requires DistinctKeys(m) && Distinct(keys)
    requires forall i :: 0 <= i < |m| ==> m[i].0 in keys
    ensures SumAt(m, keys) == Sum(m)
  {
    if |m| == 0 {
      SumAtEmpty(m, keys);
    } else {
      var m' := m[1..];
      var k := m[0].0;
      var v := m[0].1;
      assert !HasKey(m', k) by {
        forall i | 0 <= i < |m'| ensures m'[i].0 != k {
          assert m'[i] == m[i + 1];
        }
      }
      forall x ensures Get(m, x) == Get(m', x) + (if x == k then v else 0) {
        if x == k { GetMissing(m', k); }
      }
      SumAtOneKey(m, m', k, v, keys);
      assert forall i, j :: 0 <= i < j < |m'| ==> m'[i].0 == m[i + 1].0 && m'[j].0 == m[j + 1].0;
      assert forall i :: 0 <= i < |m'| ==> m'[i] == m[i + 1];
      SumAtCovering(m', keys);
    }
  }

  /** Keys that all read as 0 add up to 0. */
  lemma {:induction false} SumAtZero(m: Entries, keys: seq<string>)
    requires forall i :: 0 <= i < |keys| ==> Get(m, keys[i]) == 0
    ensures SumAt(m, keys) == 0
  {
    if |keys| > 0 {
      assert forall i :: 0 <= i < |keys[1..]| ==> keys[1..][i] == keys[i + 1];
      SumAtZero(m, keys[1..]);
    }
  }

  lemma {:induction false} SumAtEmpty(m: Entries, keys: seq<string>)
    requires |m| == 0
    ensures SumAt(m, keys) == 0
  {
    if |keys| > 0 {
      SumAtEmpty(m, keys[1..]);
    }
  }
}
