/**
 * Python dictionaries as the code uses them: insertion-ordered sequences of
 * (key, value) entries with distinct keys. `d[k] = v` overwrites an existing
 * entry where it stands and appends a new one at the end.
 */
module Assoc {
  import opened Wrappers

  function Keys<K, V>(d: seq<(K, V)>): (ks: seq<K>)
    ensures |ks| == |d|
  {
    if d == [] then [] else [d[0].0] + Keys(d[1..])
  }

  function Values<K, V>(d: seq<(K, V)>): (vs: seq<V>)
    ensures |vs| == |d|
  {
    if d == [] then [] else [d[0].1] + Values(d[1..])
  }

  lemma {:induction false} KeysAt<K, V>(d: seq<(K, V)>, i: nat)
    requires i < |d|
    ensures Keys(d)[i] == d[i].0 && Values(d)[i] == d[i].1
  {
    if i > 0 {
      KeysAt(d[1..], i - 1);
    }
  }

  lemma {:induction false} KeysAppend<K, V>(d: seq<(K, V)>, e: seq<(K, V)>)
    ensures Keys(d + e) == Keys(d) + Keys(e) && Values(d + e) == Values(d) + Values(e)
  {
    if d != [] {
      assert (d + e)[1..] == d[1..] + e;
      KeysAppend(d[1..], e);
    } else {
      assert d + e == e;
    }
  }

  predicate DistinctKeys<K(==), V>(d: seq<(K, V)>)
  {
    d == [] || (d[0].0 !in Keys(d[1..]) && DistinctKeys(d[1..]))
  }

  predicate Distinct<T(==)>(s: seq<T>)
  {
    s == [] || (s[0] !in s[1..] && Distinct(s[1..]))
  }

  lemma {:induction false} DistinctKeysIff<K, V>(d: seq<(K, V)>)
    ensures DistinctKeys(d) <==> Distinct(Keys(d))
  {
    if d != [] {
      assert Keys(d)[1..] == Keys(d[1..]);
      DistinctKeysIff(d[1..]);
    }
  }

  /** `d.get(k)`: the value stored under `k`, `None` when there is none. */
  function Get<K(==), V>(d: seq<(K, V)>, k: K): (r: Option<V>)
    ensures r.None? <==> k !in Keys(d)
  {
    if d == [] then None else if d[0].0 == k then Some(d[0].1) else Get(d[1..], k)
  }

  /** Looking a key up in a list with a known head. */
  lemma GetCons<K, V>(k: K, v: V, rest: seq<(K, V)>, key: K)
    ensures Get([(k, v)] + rest, key) == if k == key then Some(v) else Get(rest, key)
  {
    assert ([(k, v)] + rest)[1..] == rest;
  }

  /** The value read back is one stored under that key. */
  lemma {:induction false} GetStored<K, V>(d: seq<(K, V)>, k: K)
    requires Get(d, k).Some?
    ensures (k, Get(d, k).value) in d
  {
    if d[0].0 != k {
      GetStored(d[1..], k);
      assert (k, Get(d, k).value) in d[1..];
    }
  }

  /** `d[k] = v`. */
  function Put<K(==), V>(d: seq<(K, V)>, k: K, v: V): (r: seq<(K, V)>)
    ensures k in Keys(d) ==> Keys(r) == Keys(d)
    ensures k !in Keys(d) ==> r == d + [(k, v)]
  {
    if d == [] then [(k, v)]
    else if d[0].0 == k then [(k, v)] + d[1..]
    else [d[0]] + Put(d[1..], k, v)
  }

  /** Writing back the value a key already has changes nothing. */
  lemma {:induction false} PutSame<K, V>(d: seq<(K, V)>, k: K, v: V)
    requires Get(d, k) == Some(v)
    ensures Put(d, k, v) == d
  {
    if d[0].0 != k {
      PutSame(d[1..], k, v);
    }
  }

  lemma {:induction false} PutGet<K, V>(d: seq<(K, V)>, k: K, v: V, k': K)
    requires DistinctKeys(d)
    ensures DistinctKeys(Put(d, k, v))
    ensures Get(Put(d, k, v), k') == if k' == k then Some(v) else Get(d, k')
  {
    if d != [] && d[0].0 != k {
      PutGet(d[1..], k, v, k');
      PutKeys(d[1..], k, v, d[0].0);
    }
  }

  /** `d[k] = v` adds at most the key `k`. */
  lemma {:induction false} PutKeys<K, V>(d: seq<(K, V)>, k: K, v: V, x: K)
    ensures x in Keys(Put(d, k, v)) <==> x in Keys(d) || x == k
  {
    if d != [] && d[0].0 != k {
      PutKeys(d[1..], k, v, x);
    }
  }

  /** `d.pop(k, None)`: the entry for `k` is removed, the others keep their order. */
  function Pop<K(==), V>(d: seq<(K, V)>, k: K): (r: seq<(K, V)>)
    ensures |r| <= |d|
    ensures k !in Keys(d) ==> r == d
  {
    if d == [] then []
    else if d[0].0 == k then d[1..]
    else [d[0]] + Pop(d[1..], k)
  }

  /** Popping `k` removes its entry, keeps the keys distinct and leaves every other key reading as before. */
  lemma {:induction false} PopGet<K, V>(d: seq<(K, V)>, k: K, k': K)
    requires DistinctKeys(d)
    ensures DistinctKeys(Pop(d, k)) && k !in Keys(Pop(d, k))
    ensures k' != k ==> Get(Pop(d, k), k') == Get(d, k')
  {
    if d != [] && d[0].0 != k {
      PopGet(d[1..], k, k');
      PopKeys(d[1..], k, d[0].0);
    }
  }

  /** Popping never adds a key. */
  lemma {:induction false} PopKeys<K, V>(d: seq<(K, V)>, k: K, x: K)
    ensures x in Keys(Pop(d, k)) ==> x in Keys(d)
  {
    if d != [] && d[0].0 != k {
      PopKeys(d[1..], k, x);
    }
  }
}
