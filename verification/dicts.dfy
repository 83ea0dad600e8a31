/** Python dictionaries as the wrapper uses them: an ordered collection of
    (key, value) pairs whose iteration order is insertion order. Lookups see
    the first pair with a key; assignment replaces the value in place or
    appends a new pair; `pop` removes the key. */
module Dicts {
  import opened Wrappers

  /** A dict, as its (key, value) pairs in iteration order. */
  type Dict<K, V> = seq<(K, V)>

  /** The keys in iteration order (`list(d)`). */
  function Keys<K, V>(d: Dict<K, V>): (ks: seq<K>)
    ensures |ks| == |d|
    ensures forall i :: 0 <= i < |d| ==> ks[i] == d[i].0
  {
    if |d| == 0 then [] else [d[0].0] + Keys(d[1..])
  }

  /** `key in d`. */
  predicate HasKey<K(==, !new), V>(d: Dict<K, V>, k: K) {
    k in Keys(d)
  }

  /** `d.get(k)`: the value of the first pair with key `k`, if any. */
  function Get<K(==, !new), V>(d: Dict<K, V>, k: K): (r: Option<V>)
    ensures r.None? <==> !HasKey(d, k)
    ensures r.Some? ==> exists i :: 0 <= i < |d| && d[i] == (k, r.value)
  {
    if |d| == 0 then None
    else if d[0].0 == k then Some(d[0].1)
    else
      var r := Get(d[1..], k);
      assert Keys(d) == [d[0].0] + Keys(d[1..]);
      assert r.Some? ==> exists i :: 0 <= i < |d[1..]| && d[1..][i] == (k, r.value);
      r
  }

  /** The pair a lookup finds is the first one with the key. */
  lemma {:induction false} GetAt<K(!new), V>(d: Dict<K, V>, k: K, i: nat)
    requires i < |d| && d[i].0 == k
    requires forall j :: 0 <= j < i ==> d[j].0 != k
    ensures Get(d, k) == Some(d[i].1)
    decreases i
  {
    if i > 0 {
      assert d[0].0 != k;
      assert forall j :: 0 <= j < i - 1 ==> d[1..][j] == d[j + 1];
      GetAt(d[1..], k, i - 1);
    }
  }

  /** No key appears twice: what every real Python dict satisfies. */
  predicate DistinctKeys<K(==, !new), V>(d: Dict<K, V>) {
    forall i, j :: 0 <= i < j < |d| ==> d[i].0 != d[j].0
  }

  function Replace<K(==, !new), V>(d: Dict<K, V>, k: K, v: V): (r: Dict<K, V>)
    ensures Keys(r) == Keys(d)
    ensures HasKey(d, k) ==> Get(r, k) == Some(v)
    ensures forall k' :: k' != k ==> Get(r, k') == Get(d, k')
  {
    if |d| == 0 then []
    else
      var rest := Replace(d[1..], k, v);
      assert Keys(d) == [d[0].0] + Keys(d[1..]);
      [if d[0].0 == k then (k, v) else d[0]] + rest
  }

  /** `d[k] = v`: an existing key keeps its place and takes the new value; a
      new key is appended. No other key changes. */
  function Set<K(==, !new), V>(d: Dict<K, V>, k: K, v: V): (r: Dict<K, V>)
    ensures Get(r, k) == Some(v)
    ensures forall k' :: k' != k ==> Get(r, k') == Get(d, k')
    ensures Keys(r) == if HasKey(d, k) then Keys(d) else Keys(d) + [k]
  {
    if HasKey(d, k) then Replace(d, k, v)
    else
      SnocGet(d, k, v);
      d + [(k, v)]
  }

  lemma {:induction false} SnocGet<K(!new), V>(d: Dict<K, V>, k: K, v: V)
    requires !HasKey(d, k)
    ensures Get(d + [(k, v)], k) == Some(v)
    ensures forall k' :: k' != k ==> Get(d + [(k, v)], k') == Get(d, k')
    ensures Keys(d + [(k, v)]) == Keys(d) + [k]
  {
    if |d| > 0 {
      var e := d + [(k, v)];
      assert e[0] == d[0];
      assert e[1..] == d[1..] + [(k, v)];
      SnocGet(d[1..], k, v);
      assert Keys(e) == [d[0].0] + Keys(e[1..]);
      assert Keys(d) == [d[0].0] + Keys(d[1..]);
    } else {
      assert d + [(k, v)] == [(k, v)];
    }
  }

  /** `d.pop(k, None)` on every pair with key `k`; the other pairs keep their
      order. */
  function Remove<K(==, !new), V>(d: Dict<K, V>, k: K): (r: Dict<K, V>)
    ensures !HasKey(r, k)
    ensures forall k' :: k' != k ==> Get(r, k') == Get(d, k')
    ensures forall k' :: k' != k ==> HasKey(r, k') == HasKey(d, k')
    ensures |r| <= |d|
  {
    forall k'
      ensures Get(RemoveAll(d, {k}), k') == if k' == k then None else Get(d, k')
      ensures HasKey(RemoveAll(d, {k}), k') == (k' != k && HasKey(d, k'))
    {
      RemoveAllGet(d, {k}, k');
    }
    RemoveAll(d, {k})
  }

  /** `d` without every pair whose key is in `ks`, order preserved. */
  function RemoveAll<K(==, !new), V>(d: Dict<K, V>, ks: set<K>): (r: Dict<K, V>)
    ensures |r| <= |d|
    ensures forall i :: 0 <= i < |r| ==> r[i].0 !in ks
  {
    if |d| == 0 then []
    else
      var rest := RemoveAll(d[1..], ks);
      if d[0].0 in ks then rest else [d[0]] + rest
  }

  /** A key in `ks` is gone after `RemoveAll`; any other key keeps its value. */
  lemma {:induction false} RemoveAllGet<K(!new), V>(d: Dict<K, V>, ks: set<K>, k: K)
    ensures Get(RemoveAll(d, ks), k) == if k in ks then None else Get(d, k)
  {
    if |d| > 0 {
      RemoveAllGet(d[1..], ks, k);
    }
  }

  /** Removing keys one after another removes the union of them, in the
      same order-preserving way. */
  lemma {:induction false} RemoveAllTwice<K(!new), V>(d: Dict<K, V>, a: set<K>, b: set<K>)
    ensures RemoveAll(RemoveAll(d, a), b) == RemoveAll(d, a + b)
  {
    if |d| > 0 {
      RemoveAllTwice(d[1..], a, b);
      if d[0].0 !in a {
        assert RemoveAll(d, a) == [d[0]] + RemoveAll(d[1..], a);
        assert ([d[0]] + RemoveAll(d[1..], a))[1..] == RemoveAll(d[1..], a);
      }
    }
  }

  /** Assignment keeps a dict's keys distinct. */
  lemma SetKeepsDistinct<K(!new), V>(d: Dict<K, V>, k: K, v: V)
    requires DistinctKeys(d)
    ensures DistinctKeys(Set(d, k, v))
  {
    var r := Set(d, k, v);
    forall i, j | 0 <= i < j < |r|
      ensures r[i].0 != r[j].0
    {
      assert Keys(r)[i] == r[i].0 && Keys(r)[j] == r[j].0;
      if HasKey(d, k) {
        assert Keys(d)[i] == d[i].0 && Keys(d)[j] == d[j].0;
      } else if j < |d| {
        assert Keys(d)[i] == d[i].0 && Keys(d)[j] == d[j].0;
      } else {
        assert Keys(d)[i] == d[i].0;
      }
    }
  }
}
