/**
 * Python dictionaries with string keys, as the source builds them with
 * `dict(zip(...))`, dict comprehensions and `.get`: the entries in insertion
 * order, where storing an existing key overwrites its value in place.
 */
module Dicts {
  import opened Wrappers

  /** A dict's (key, value) entries in insertion order. */
  type Dict<V> = seq<(string, V)>

  function Keys<V>(d: Dict<V>): set<string> {
    set i | 0 <= i < |d| :: d[i].0
  }

  /** The key of entry `i`. */
  function KeyAt<V>(d: Dict<V>, i: nat): string
    requires i < |d|
  {
    d[i].0
  }

  /** No key occurs twice (stated on `KeyAt`, so that it is used only where a proof names the entries it compares). */
  predicate DistinctKeys<V>(d: Dict<V>) {
    forall i, j :: 0 <= i < j < |d| ==> KeyAt(d, i) != KeyAt(d, j)
  }

  /** Two entries of a dict without repeated keys have different keys. */
  lemma {:induction false} KeysApart<V>(d: Dict<V>, i: nat, j: nat)
    requires DistinctKeys(d) && i < |d| && j < |d| && i != j
    ensures d[i].0 != d[j].0
  {
    if i < j {
      assert KeyAt(d, i) != KeyAt(d, j);
    } else {
      assert KeyAt(d, j) != KeyAt(d, i);
    }
  }

  /** Appending an entry adds its key. */
  lemma {:induction false} KeysSnoc<V>(d: Dict<V>, e: (string, V))
    ensures Keys(d + [e]) == Keys(d) + {e.0}
  {
    assert (d + [e])[|d|] == e;
    forall x | x in Keys(d) ensures x in Keys(d + [e]) {
      var i :| 0 <= i < |d| && d[i].0 == x;
      assert (d + [e])[i] == d[i];
    }
  }

  /** The position of the entry for `k`: the first whose key is `k`. */
  function KeyIndex<V>(d: Dict<V>, k: string): (r: Option<nat>)
    ensures r.None? <==> k !in Keys(d)
    ensures r.Some? ==> r.value < |d| && d[r.value].0 == k && forall j :: 0 <= j < r.value ==> KeyAt(d, j) != k
  {
    var r := KeyIndexFrom(d, k, 0);
    assert k in Keys(d) ==> exists i :: 0 <= i < |d| && KeyAt(d, i) == k by {
      if k in Keys(d) {
        var i :| 0 <= i < |d| && d[i].0 == k;
        assert KeyAt(d, i) == k;
      }
    }
    r
  }

  /** The first entry at or after `from` whose key is `k`. */
  function KeyIndexFrom<V>(d: Dict<V>, k: string, from: nat): (r: Option<nat>)
    requires from <= |d|
    ensures r.None? <==> forall j :: from <= j < |d| ==> KeyAt(d, j) != k
    ensures r.Some? ==> from <= r.value < |d| && d[r.value].0 == k && forall j :: from <= j < r.value ==> KeyAt(d, j) != k
    decreases |d| - from
  {
    if from == |d| then None
    else if d[from].0 == k then assert KeyAt(d, from) == k; Some(from)
    else KeyIndexFrom(d, k, from + 1)
  }

  /** `d.get(k)`: the value stored under `k`, or None. */
  function Get<V>(d: Dict<V>, k: string): (r: Option<V>)
    ensures r.None? <==> k !in Keys(d)
    ensures r.Some? ==> exists i :: 0 <= i < |d| && d[i] == (k, r.value)
  {
    match KeyIndex(d, k)
    case None => None
    case Some(i) => Some(d[i].1)
  }

  /** `d.get(k, default)`. */
  function GetOr<V>(d: Dict<V>, k: string, default: V): (r: V)
    ensures k !in Keys(d) ==> r == default
    ensures k in Keys(d) ==> Get(d, k) == Some(r)
  {
    match Get(d, k)
    case Some(v) => v
    case None => default
  }

  /** `d[k] = v`: overwrites an existing entry in place, else appends one. */
  function Put<V>(d: Dict<V>, k: string, v: V): (r: Dict<V>)
    ensures Keys(r) == Keys(d) + {k}
    ensures DistinctKeys(d) ==> DistinctKeys(r)
    ensures Get(r, k) == Some(v)
    ensures forall k' :: k' != k ==> Get(r, k') == Get(d, k')
  {
    match KeyIndex(d, k)
    case Some(i) =>
      var r := d[i := (k, v)];
      assert Keys(r) == Keys(d) by {
        forall x | x in Keys(d) ensures x in Keys(r) {
          var j :| 0 <= j < |d| && d[j].0 == x;
          assert r[j].0 == x;
        }
      }
      assert KeyIndex(r, k) == Some(i) by {
        var b := KeyIndex(r, k);
        assert b.Some? by { assert r[i].0 in Keys(r); }
        assert KeyAt(r, i) == k;
        assert b.value != i ==> KeyAt(d, b.value) == KeyAt(r, b.value);
      }
      forall k' | k' != k ensures Get(r, k') == Get(d, k') {
        SameKeyIndex(d, r, k');
      }
      assert DistinctKeys(d) ==> DistinctKeys(r) by {
        if DistinctKeys(d) {
          forall a, b | 0 <= a < b < |r| ensures KeyAt(r, a) != KeyAt(r, b) {
            KeysApart(d, a, b);
          }
        }
      }
      r
    case None =>
      var r := d + [(k, v)];
      KeysSnoc(d, (k, v));
      assert KeyIndex(r, k) == Some(|d|);
      forall k' | k' != k ensures Get(r, k') == Get(d, k') {
        SameKeyIndex(d, r, k');
      }
      assert DistinctKeys(d) ==> DistinctKeys(r) by {
        if DistinctKeys(d) {
          forall a, b | 0 <= a < b < |r| ensures KeyAt(r, a) != KeyAt(r, b) {
            if b < |d| {
              KeysApart(d, a, b);
            } else {
              assert r[a].0 in Keys(d);
            }
          }
        }
      }
      r
  }

  /** Two dicts that hold the same entries wherever either has key `k` find `k` at the same place. */
  lemma {:induction false} SameKeyIndex<V>(d: Dict<V>, r: Dict<V>, k: string)
    requires forall j :: 0 <= j < |d| && d[j].0 == k ==> j < |r| && r[j] == d[j]
    requires forall j :: 0 <= j < |r| && r[j].0 == k ==> j < |d| && d[j] == r[j]
    ensures KeyIndex(r, k) == KeyIndex(d, k)
    ensures Get(r, k) == Get(d, k)
  {
    var a, b := KeyIndex(d, k), KeyIndex(r, k);
    if a.Some? {
      assert r[a.value].0 in Keys(r);
      assert KeyAt(r, a.value) == k;
    }
    if b.Some? {
      assert d[b.value].0 in Keys(d);
      assert KeyAt(d, b.value) == k;
    }
  }

  /** `dict(zip(keys, vals))`: the pairs up to the shorter length inserted in order, a later key overwriting an earlier one. */
  function ZipDict<V>(keys: seq<string>, vals: seq<V>): (r: Dict<V>)
    ensures DistinctKeys(r)
    ensures Keys(r) == set i | 0 <= i < |keys| && i < |vals| :: keys[i]
  {
    var n := if |keys| <= |vals| then |keys| else |vals|;
    assert (set i | 0 <= i < |keys| && i < |vals| :: keys[i]) == set i | 0 <= i < n :: keys[i];
    ZipFirst(keys, vals, n)
  }

  /** The dict after inserting the first `n` pairs of `zip(keys, vals)`. */
  function ZipFirst<V>(keys: seq<string>, vals: seq<V>, n: nat): (r: Dict<V>)
    requires n <= |keys| && n <= |vals|
    ensures DistinctKeys(r)
    ensures Keys(r) == set i | 0 <= i < n :: keys[i]
  {
    if n == 0 then []
    else
      assert (set i | 0 <= i < n :: keys[i]) == (set i | 0 <= i < n - 1 :: keys[i]) + {keys[n - 1]};
      Put(ZipFirst(keys, vals, n - 1), keys[n - 1], vals[n - 1])
  }

  /** A key that no later pair repeats keeps the value paired with it. */
  lemma {:induction false} ZipFirstAt<V>(keys: seq<string>, vals: seq<V>, n: nat, j: nat)
    requires j < n <= |keys| && n <= |vals|
    requires forall i :: j < i < n ==> keys[i] != keys[j]
    ensures Get(ZipFirst(keys, vals, n), keys[j]) == Some(vals[j])
  {
    if j < n - 1 {
      ZipFirstAt(keys, vals, n - 1, j);
    }
  }

  /** In `dict(zip(keys, vals))`, key `j` maps to value `j` unless a later pair repeats the key. */
  lemma {:induction false} ZipDictAt<V>(keys: seq<string>, vals: seq<V>, j: nat)
    requires j < |keys| && j < |vals|
    requires forall i :: j < i < |keys| && i < |vals| ==> keys[i] != keys[j]
    ensures Get(ZipDict(keys, vals), keys[j]) == Some(vals[j])
  {
    ZipFirstAt(keys, vals, if |keys| <= |vals| then |keys| else |vals|, j);
  }

  /** In a dict without repeated keys, looking up the key of entry `i` gives that entry's value. */
  lemma {:induction false} GetAt<V>(d: Dict<V>, i: nat)
    requires DistinctKeys(d) && i < |d|
    ensures Get(d, d[i].0) == Some(d[i].1)
  {
    var x := KeyIndex(d, d[i].0).value;
    if x != i {
      KeysApart(d, x, i);
    }
  }
}
