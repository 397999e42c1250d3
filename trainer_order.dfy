/**
 * The orderings crispo/trainer/trainer.py relies on: Python's stable
 * `sorted(..., reverse=True)`, `list.index` on a sorted list, and drawing
 * items at random without replacement (`random.sample`, `random.shuffle`).
 * An ascending `sorted(..., key=k)` is the descending sort on `-k`: both put
 * the smaller `k` first and keep equal keys in input order.
 */
module TrainerOrder {
  import opened Assoc

  /**
   * Placing `x`, which came after every element of `s` in the input, into
   * the best-first list `s`: it goes after every element whose key is at
   * least its own.
   */
  function Insert<T>(x: T, s: seq<T>, key: T -> real): (r: seq<T>)
    ensures |r| == |s| + 1
    ensures multiset(r) == multiset(s) + multiset{x}
  {
    if s == [] || key(s[0]) < key(x) then [x] + s
    else
      assert s == [s[0]] + s[1..];
      [s[0]] + Insert(x, s[1..], key)
  }

  /** `sorted(s, key=key, reverse=True)`: the highest key first, and a permutation of `s`. */
  function SortDesc<T>(s: seq<T>, key: T -> real): (r: seq<T>)
    ensures |r| == |s|
    ensures multiset(r) == multiset(s)
  {
    if s == [] then []
    else
      assert s == s[..|s| - 1] + [s[|s| - 1]];
      Insert(s[|s| - 1], SortDesc(s[..|s| - 1], key), key)
  }

  predicate NonIncreasing<T>(s: seq<T>, key: T -> real)
  {
    forall a, b :: 0 <= a < b < |s| ==> key(s[a]) >= key(s[b])
  }

  lemma {:induction false} InsertKeepsOrder<T>(x: T, s: seq<T>, key: T -> real)
    requires NonIncreasing(s, key)
    ensures NonIncreasing(Insert(x, s, key), key)
  {
    if s != [] && key(s[0]) >= key(x) {
      var t := Insert(x, s[1..], key);
      InsertKeepsOrder(x, s[1..], key);
      forall b | 0 <= b < |t|
        ensures key(s[0]) >= key(t[b])
      {
        assert t[b] in multiset(t);
        if t[b] != x {
          assert t[b] in multiset(s[1..]);
          var j :| 0 <= j < |s[1..]| && s[1..][j] == t[b];
          assert s[j + 1] == t[b];
        }
      }
      assert Insert(x, s, key) == [s[0]] + t;
    } else if s != [] {
      assert forall b :: 0 <= b < |s| ==> key(s[b]) <= key(s[0]);
    }
  }

  /** The result of the sort is best-first: keys never increase along it. */
  lemma {:induction false} SortDescOrdered<T>(s: seq<T>, key: T -> real)
    ensures NonIncreasing(SortDesc(s, key), key)
  {
    if s != [] {
      SortDescOrdered(s[..|s| - 1], key);
      InsertKeepsOrder(s[|s| - 1], SortDesc(s[..|s| - 1], key), key);
    }
  }

  /** The elements of `s` whose key is `v`, in their order in `s`. */
  function WithKey<T>(s: seq<T>, key: T -> real, v: real): seq<T>
  {
    if s == [] then [] else (if key(s[0]) == v then [s[0]] else []) + WithKey(s[1..], key, v)
  }

  lemma {:induction false} WithKeyAppend<T>(s: seq<T>, t: seq<T>, key: T -> real, v: real)
    ensures WithKey(s + t, key, v) == WithKey(s, key, v) + WithKey(t, key, v)
  {
    if s != [] {
      assert (s + t)[1..] == s[1..] + t;
      WithKeyAppend(s[1..], t, key, v);
    } else {
      assert s + t == t;
    }
  }

  lemma {:induction false} WithKeyNone<T>(s: seq<T>, key: T -> real, v: real)
    requires forall i :: 0 <= i < |s| ==> key(s[i]) != v
    ensures WithKey(s, key, v) == []
  {
    if s != [] {
      WithKeyNone(s[1..], key, v);
    }
  }

  lemma {:induction false} InsertWithKey<T>(x: T, s: seq<T>, key: T -> real, v: real)
    requires NonIncreasing(s, key)
    ensures WithKey(Insert(x, s, key), key, v) == WithKey(s, key, v) + (if key(x) == v then [x] else [])
  {
    if s == [] || key(s[0]) < key(x) {
      assert ([x] + s)[1..] == s;
      if key(x) == v && s != [] {
        assert forall i :: 0 <= i < |s| ==> key(s[i]) <= key(s[0]);
        WithKeyNone(s, key, v);
      }
    } else {
      InsertWithKey(x, s[1..], key, v);
      assert ([s[0]] + Insert(x, s[1..], key))[1..] == Insert(x, s[1..], key);
    }
  }

  /** The sort is stable: the elements sharing any one key keep their relative order. */
  lemma {:induction false} SortDescStable<T>(s: seq<T>, key: T -> real, v: real)
    ensures WithKey(SortDesc(s, key), key, v) == WithKey(s, key, v)
  {
    if s != [] {
      var init, last := s[..|s| - 1], s[|s| - 1];
      var sortedInit := SortDesc(init, key);
      var tail := if key(last) == v then [last] else [];
      assert s == init + [last];
      assert SortDesc(s, key) == Insert(last, sortedInit, key);
      SortDescStable(init, key, v);
      SortDescOrdered(init, key);
      InsertWithKey(last, sortedInit, key, v);
      assert WithKey(SortDesc(s, key), key, v) == WithKey(init, key, v) + tail;
      WithKeyAppend(init, [last], key, v);
      assert [last][1..] == [];
      assert WithKey([last], key, v) == tail;
    }
  }

  lemma {:induction false} InsertAtEnd<T>(x: T, s: seq<T>, key: T -> real)
    requires forall i :: 0 <= i < |s| ==> key(s[i]) >= key(x)
    ensures Insert(x, s, key) == s + [x]
  {
    if s != [] {
      InsertAtEnd(x, s[1..], key);
      assert [s[0]] + (s[1..] + [x]) == s + [x];
    }
  }

  /** A list that is already best-first is left exactly as it is. */
  lemma {:induction false} SortDescSortedNoop<T>(s: seq<T>, key: T -> real)
    requires NonIncreasing(s, key)
    ensures SortDesc(s, key) == s
  {
    if s != [] {
      var init, last := s[..|s| - 1], s[|s| - 1];
      NonIncreasingInit(s, key);
      SortDescSortedNoop(init, key);
      InsertAtEnd(last, init, key);
      assert init + [last] == s;
    }
  }

  /** Dropping the last element of a best-first list leaves one, and none of it is below that element. */
  lemma NonIncreasingInit<T>(s: seq<T>, key: T -> real)
    requires NonIncreasing(s, key) && s != []
    ensures NonIncreasing(s[..|s| - 1], key)
    ensures forall i :: 0 <= i < |s| - 1 ==> key(s[i]) >= key(s[|s| - 1])
  {
    var init := s[..|s| - 1];
    forall a, b | 0 <= a < b < |init|
      ensures key(init[a]) >= key(init[b])
    {
      assert init[a] == s[a] && init[b] == s[b];
    }
    forall i | 0 <= i < |init|
      ensures key(init[i]) >= key(s[|s| - 1])
    {
      assert init[i] == s[i];
    }
  }

  /** Sorting a sorted list again changes nothing. */
  lemma SortDescIdempotent<T>(s: seq<T>, key: T -> real)
    ensures SortDesc(SortDesc(s, key), key) == SortDesc(s, key)
  {
    SortDescOrdered(s, key);
    SortDescSortedNoop(SortDesc(s, key), key);
  }

  /** Sorting a dictionary's items keeps its keys, and keeps them distinct. */
  lemma {:induction false} InsertKeys<K, V>(x: (K, V), s: seq<(K, V)>, key: ((K, V)) -> real)
    ensures forall k :: k in Keys(Insert(x, s, key)) <==> k in Keys(s) || k == x.0
    ensures DistinctKeys(s) && x.0 !in Keys(s) ==> DistinctKeys(Insert(x, s, key))
  {
    if s == [] || key(s[0]) < key(x) {
      assert ([x] + s)[1..] == s;
    } else {
      InsertKeys(x, s[1..], key);
      assert ([s[0]] + Insert(x, s[1..], key))[1..] == Insert(x, s[1..], key);
    }
  }

  lemma {:induction false} SortKeys<K, V>(d: seq<(K, V)>, key: ((K, V)) -> real)
    ensures forall k :: k in Keys(SortDesc(d, key)) <==> k in Keys(d)
    ensures DistinctKeys(d) ==> DistinctKeys(SortDesc(d, key))
  {
    if d != [] {
      var init, last := d[..|d| - 1], d[|d| - 1];
      var sortedInit := SortDesc(init, key);
      assert d == init + [last];
      assert SortDesc(d, key) == Insert(last, sortedInit, key);
      SortKeys(init, key);
      InsertKeys(last, sortedInit, key);
      KeysAppend(init, [last]);
      assert Keys(d) == Keys(init) + [last.0];
      if DistinctKeys(d) {
        DistinctLast(d);
      }
    }
  }

  lemma DistinctLast<K, V>(d: seq<(K, V)>)
    requires DistinctKeys(d) && d != []
    ensures DistinctKeys(d[..|d| - 1]) && d[|d| - 1].0 !in Keys(d[..|d| - 1])
  {
    var init, last := d[..|d| - 1], d[|d| - 1];
    assert d == init + [last];
    KeysAppend(init, [last]);
    assert Keys([last]) == [last.0];
    DistinctKeysIff(d);
    DistinctKeysIff(init);
    DistinctUnsnoc(Keys(init), last.0);
  }

  /** A list without repeats that ends in `x` has no `x` before it, and no repeats there either. */
  lemma DistinctUnsnoc<T>(s: seq<T>, x: T)
    requires Distinct(s + [x])
    ensures Distinct(s) && x !in s
  {
    DistinctCounts(s + [x]);
    DistinctCounts(s);
    assert multiset(s + [x]) == multiset(s) + multiset{x};
    forall y
      ensures multiset(s)[y] <= 1
    {
      assert multiset(s + [x])[y] <= 1;
    }
    assert multiset(s + [x])[x] <= 1;
  }

  /** A list has no repeated element exactly when no element occurs twice in its multiset. */
  lemma {:induction false} DistinctCounts<T>(s: seq<T>)
    ensures Distinct(s) <==> forall x :: multiset(s)[x] <= 1
  {
    if s != [] {
      DistinctCounts(s[1..]);
      assert s == [s[0]] + s[1..];
      assert multiset(s) == multiset{s[0]} + multiset(s[1..]);
      if Distinct(s) {
        forall x
          ensures multiset(s)[x] <= 1
        {
          if x == s[0] {
            assert multiset(s[1..])[x] == 0;
          }
        }
      }
      if forall x :: multiset(s)[x] <= 1 {
        assert multiset(s)[s[0]] <= 1;
        assert multiset(s[1..])[s[0]] == 0;
        forall x
          ensures multiset(s[1..])[x] <= 1
        {
          assert multiset(s)[x] <= 1;
        }
      }
    }
  }

  /** A permutation, or a selection, of a list without repeats has no repeats. */
  lemma SubMultisetDistinct<T>(r: seq<T>, s: seq<T>)
    requires multiset(r) <= multiset(s) && Distinct(s)
    ensures Distinct(r)
  {
    DistinctCounts(s);
    forall x
      ensures multiset(r)[x] <= 1
    {
      assert multiset(r)[x] <= multiset(s)[x];
    }
    DistinctCounts(r);
  }

  function Identity(x: real): real { x }

  /** Python's `list.index(v)`: the position of the first element equal to `v`. */
  function IndexOf(s: seq<real>, v: real): (i: nat)
    requires v in s
    ensures i < |s| && s[i] == v && v !in s[..i]
  {
    if s[0] == v then 0
    else
      var i := IndexOf(s[1..], v) + 1;
      assert s[..i] == [s[0]] + s[1..][..i - 1];
      i
  }

  /** How many elements of `s` are strictly greater than `v`. */
  function CountAbove(s: seq<real>, v: real): (n: nat)
    ensures n <= |s|
  {
    if s == [] then 0 else (if s[0] > v then 1 else 0) + CountAbove(s[1..], v)
  }

  lemma {:induction false} CountAboveAppend(s: seq<real>, t: seq<real>, v: real)
    ensures CountAbove(s + t, v) == CountAbove(s, v) + CountAbove(t, v)
  {
    if s != [] {
      assert (s + t)[1..] == s[1..] + t;
      CountAboveAppend(s[1..], t, v);
    } else {
      assert s + t == t;
    }
  }

  lemma {:induction false} CountAboveInsert(x: real, s: seq<real>, key: real -> real, v: real)
    ensures CountAbove(Insert(x, s, key), v) == CountAbove(s, v) + (if x > v then 1 else 0)
  {
    if s == [] || key(s[0]) < key(x) {
      assert ([x] + s)[1..] == s;
    } else {
      CountAboveInsert(x, s[1..], key, v);
      assert ([s[0]] + Insert(x, s[1..], key))[1..] == Insert(x, s[1..], key);
    }
  }

  /** Sorting does not change how many elements exceed a value. */
  lemma {:induction false} CountAboveSort(s: seq<real>, key: real -> real, v: real)
    ensures CountAbove(SortDesc(s, key), v) == CountAbove(s, v)
  {
    if s != [] {
      var init, last := s[..|s| - 1], s[|s| - 1];
      CountAboveSort(init, key, v);
      CountAboveInsert(last, SortDesc(init, key), key, v);
      assert s == init + [last];
      CountAboveAppend(init, [last], v);
      assert [last][1..] == [];
    }
  }

  lemma {:induction false} CountAboveNone(s: seq<real>, v: real)
    requires forall i :: 0 <= i < |s| ==> s[i] <= v
    ensures CountAbove(s, v) == 0
  {
    if s != [] {
      CountAboveNone(s[1..], v);
    }
  }

  /** In a list sorted from the highest value down, the first `v` comes right after the values above `v`. */
  lemma {:induction false} IndexOfSorted(s: seq<real>, v: real)
    requires v in s && NonIncreasing(s, Identity)
    ensures IndexOf(s, v) == CountAbove(s, v)
  {
    if s[0] == v {
      assert forall i :: 0 <= i < |s| ==> Identity(s[0]) >= Identity(s[i]);
      CountAboveNone(s[1..], v);
    } else {
      var j :| 0 <= j < |s| && s[j] == v;
      assert Identity(s[0]) >= Identity(s[j]);
      assert v in s[1..] by { assert s[1..][j - 1] == v; }
      IndexOfSorted(s[1..], v);
    }
  }

  /**
   * Drawing up to `k` items without replacement, as `random.sample` and
   * `random.shuffle` do: draw number `t` takes, of the items still left, the
   * one at position `rand(t) % |pool|`. `rand` is the generator's output.
   */
  function Draw<T>(pool: seq<T>, k: nat, rand: nat -> nat, t: nat): (r: seq<T>)
    ensures |r| == if k < |pool| then k else |pool|
    ensures multiset(r) <= multiset(pool)
    decreases k
  {
    if k == 0 || pool == [] then []
    else
      var j := rand(t) % |pool|;
      var rest := pool[..j] + pool[j + 1..];
      assert pool == pool[..j] + [pool[j]] + pool[j + 1..];
      [pool[j]] + Draw(rest, k - 1, rand, t + 1)
  }

  /** `list(range(n))`. */
  function Range(n: nat): (r: seq<nat>)
    ensures |r| == n && forall i :: 0 <= i < n ==> r[i] == i
  {
    if n == 0 then [] else Range(n - 1) + [n - 1]
  }

  lemma {:induction false} RangeDistinct(n: nat)
    ensures Distinct(Range(n))
  {
    var r := Range(n);
    forall x
      ensures multiset(r)[x] <= 1
    {
      if n > 0 {
        RangeDistinct(n - 1);
        DistinctCounts(Range(n - 1));
        assert r == Range(n - 1) + [n - 1];
        assert n - 1 !in Range(n - 1);
      }
    }
    DistinctCounts(r);
  }

  /**
   * `x` comes before `y` in a best-first order that breaks ties by `idx`:
   * a higher key, or the same key and a smaller index.
   */
  predicate Precedes<T>(x: T, y: T, key: T -> real, idx: T -> int)
  {
    key(x) > key(y) || (key(x) == key(y) && idx(x) < idx(y))
  }

  predicate Ranked<T>(s: seq<T>, key: T -> real, idx: T -> int)
  {
    forall a, b :: 0 <= a < b < |s| ==> Precedes(s[a], s[b], key, idx)
  }

  lemma {:induction false} InsertRanked<T>(x: T, s: seq<T>, key: T -> real, idx: T -> int)
    requires Ranked(s, key, idx)
    requires forall y :: y in s ==> idx(y) < idx(x)
    ensures Ranked(Insert(x, s, key), key, idx)
  {
    if s == [] || key(s[0]) < key(x) {
      var r := [x] + s;
      forall a, b | 0 <= a < b < |r|
        ensures Precedes(r[a], r[b], key, idx)
      {
        if a == 0 {
          assert r[b] == s[b - 1];
          if b > 1 {
            assert Precedes(s[0], s[b - 1], key, idx);
          }
        } else {
          assert Precedes(s[a - 1], s[b - 1], key, idx);
        }
      }
    } else {
      var t := Insert(x, s[1..], key);
      assert forall y :: y in s[1..] ==> y in s;
      InsertRanked(x, s[1..], key, idx);
      var r := [s[0]] + t;
      forall a, b | 0 <= a < b < |r|
        ensures Precedes(r[a], r[b], key, idx)
      {
        if a == 0 {
          var y := t[b - 1];
          assert y in multiset(t);
          if y == x {
            assert s[0] in s;
          } else {
            assert y in multiset(s[1..]);
            var c :| 0 <= c < |s[1..]| && s[1..][c] == y;
            assert Precedes(s[0], s[c + 1], key, idx);
          }
        } else {
          assert r[a] == t[a - 1] && r[b] == t[b - 1];
        }
      }
      assert Insert(x, s, key) == r;
    }
  }

  /**
   * Sorting a list whose indices increase gives the order of `Precedes`:
   * stability turns into "equal keys by increasing index".
   */
  lemma {:induction false} SortDescRanked<T>(s: seq<T>, key: T -> real, idx: T -> int)
    requires forall a, b :: 0 <= a < b < |s| ==> idx(s[a]) < idx(s[b])
    ensures Ranked(SortDesc(s, key), key, idx)
  {
    if s != [] {
      var init, last := s[..|s| - 1], s[|s| - 1];
      assert s == init + [last];
      SortDescRanked(init, key, idx);
      var sorted := SortDesc(init, key);
      forall y | y in sorted
        ensures idx(y) < idx(last)
      {
        assert y in multiset(init);
        var c :| 0 <= c < |init| && init[c] == y;
        assert idx(s[c]) < idx(s[|s| - 1]);
      }
      InsertRanked(last, sorted, key, idx);
    }
  }

  /** `[x for x in s if keep(x)]`. */
  function Filter<T(!new)>(s: seq<T>, keep: T -> bool): (r: seq<T>)
    ensures forall y :: y in r <==> y in s && keep(y)
    ensures multiset(r) <= multiset(s)
  {
    if s == [] then []
    else
      assert s == [s[0]] + s[1..];
      (if keep(s[0]) then [s[0]] else []) + Filter(s[1..], keep)
  }

  /** Filtering keeps the relative order. */
  lemma {:induction false} FilterRanked<T(!new)>(s: seq<T>, keep: T -> bool, key: T -> real, idx: T -> int)
    requires Ranked(s, key, idx)
    ensures Ranked(Filter(s, keep), key, idx)
  {
    if s != [] {
      var rest := Filter(s[1..], keep);
      FilterRanked(s[1..], keep, key, idx);
      if keep(s[0]) {
        var r := [s[0]] + rest;
        forall a, b | 0 <= a < b < |r|
          ensures Precedes(r[a], r[b], key, idx)
        {
          if a == 0 {
            assert r[b] in s[1..];
            var c :| 0 <= c < |s[1..]| && s[1..][c] == r[b];
            assert Precedes(s[0], s[c + 1], key, idx);
          } else {
            assert r[a] == rest[a - 1] && r[b] == rest[b - 1];
          }
        }
      }
    }
  }

  /** In a ranked list, every element of a prefix precedes every element left out of it. */
  lemma PrefixPrecedesRest<T>(s: seq<T>, m: nat, key: T -> real, idx: T -> int, x: T, y: T)
    requires Ranked(s, key, idx) && m <= |s|
    requires x in s[..m] && y in s && y !in s[..m]
    ensures Precedes(x, y, key, idx)
  {
    var a :| 0 <= a < m && s[..m][a] == x;
    var b :| 0 <= b < |s| && s[b] == y;
    assert forall c :: 0 <= c < m ==> s[c] == s[..m][c];
    assert s[a] == x;
  }

  /** A sequence whose positions hold pairwise different elements has no duplicates. */
  lemma {:induction false} DistinctPairwise<T>(s: seq<T>)
    requires forall a, b :: 0 <= a < b < |s| ==> s[a] != s[b]
    ensures Distinct(s)
  {
    if s != [] {
      forall c | 0 <= c < |s| - 1
        ensures s[1..][c] != s[0]
      {
        assert s[1..][c] == s[c + 1];
      }
      DistinctPairwise(s[1..]);
    }
  }

  /** A sub-multiset of the same size is the whole multiset: a full draw is a permutation. */
  lemma SameSizeSubMultiset<T>(r: seq<T>, s: seq<T>)
    requires multiset(r) <= multiset(s) && |r| == |s|
    ensures multiset(r) == multiset(s)
  {
    var rest := multiset(s) - multiset(r);
    assert multiset(s) == multiset(r) + rest;
    assert |multiset(s)| == |multiset(r)| + |rest|;
  }

  lemma PrefixSubMultiset<T>(s: seq<T>, m: nat)
    requires m <= |s|
    ensures multiset(s[..m]) <= multiset(s)
  {
    assert s == s[..m] + s[m..];
  }

  lemma SubMultisetLength<T>(r: seq<T>, s: seq<T>)
    requires multiset(r) <= multiset(s)
    ensures |r| <= |s|
  {
    var rest := multiset(s) - multiset(r);
    assert multiset(s) == multiset(r) + rest;
    assert |multiset(s)| == |multiset(r)| + |rest|;
  }

  /** No element occurs at two positions of a duplicate-free sequence. */
  lemma {:induction false} DistinctApart<T>(s: seq<T>)
    requires Distinct(s)
    ensures forall a, b :: 0 <= a < b < |s| ==> s[a] != s[b]
  {
    if s != [] {
      DistinctApart(s[1..]);
      forall a, b | 0 <= a < b < |s|
        ensures s[a] != s[b]
      {
        if a == 0 {
          assert s[b] == s[1..][b - 1];
        } else {
          assert s[a] == s[1..][a - 1] && s[b] == s[1..][b - 1];
        }
      }
    }
  }

  /** Appending an element not yet present keeps a sequence duplicate-free. */
  lemma {:induction false} DistinctSnoc<T>(s: seq<T>, x: T)
    requires Distinct(s) && x !in s
    ensures Distinct(s + [x])
  {
    if s != [] {
      assert (s + [x])[1..] == s[1..] + [x];
      DistinctSnoc(s[1..], x);
    }
  }
}
