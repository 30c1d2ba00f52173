/**
 * The parts of Kotlin's collection library the screens and repositories rely on: `filter`, and
 * the stable `sortedBy` / `sortedByDescending` (Kotlin sorts lists with a stable merge sort, so
 * elements with equal keys keep their relative order).
 */
module Lists {

  /** The first i + 1 elements are the first i and then element i. */
  lemma TakeSnoc<T>(s: seq<T>, i: nat)
    requires i < |s|
    ensures s[..i + 1] == s[..i] + [s[i]]
  {
  }

  /** `filter(p)`. */
  function Filter<T(!new)>(xs: seq<T>, p: T -> bool): (r: seq<T>)
    ensures |r| <= |xs|
    ensures forall x :: x in r <==> x in xs && p(x)
    ensures forall i :: 0 <= i < |r| ==> p(r[i])
  {
    if xs == [] then []
    else (if p(xs[0]) then [xs[0]] else []) + Filter(xs[1..], p)
  }

  /** a is obtained from b by deleting elements, keeping the order of the rest. */
  predicate Subsequence<T(==)>(a: seq<T>, b: seq<T>)
    decreases |b|
  {
    if a == [] then true
    else if b == [] then false
    else (a[0] == b[0] && Subsequence(a[1..], b[1..])) || Subsequence(a, b[1..])
  }

  lemma {:induction false} SubsequenceRefl<T>(xs: seq<T>)
    ensures Subsequence(xs, xs)
    decreases |xs|
  {
    if xs != [] {
      SubsequenceRefl(xs[1..]);
    }
  }

  lemma {:induction false} FilterSubsequence<T(!new)>(xs: seq<T>, p: T -> bool)
    ensures Subsequence(Filter(xs, p), xs)
    decreases |xs|
  {
    if xs != [] {
      FilterSubsequence(xs[1..], p);
      var r := Filter(xs, p);
      if p(xs[0]) {
        assert r[0] == xs[0] && r[1..] == Filter(xs[1..], p);
      } else {
        assert r == Filter(xs[1..], p);
      }
    }
  }

  /** A filter every element passes keeps the list as it is. */
  lemma {:induction false} FilterAllPass<T(!new)>(xs: seq<T>, p: T -> bool)
    requires forall i :: 0 <= i < |xs| ==> p(xs[i])
    ensures Filter(xs, p) == xs
    decreases |xs|
  {
    if xs != [] {
      FilterAllPass(xs[1..], p);
    }
  }

  /** A filter no element passes keeps nothing. */
  lemma {:induction false} FilterNonePass<T(!new)>(xs: seq<T>, p: T -> bool)
    requires forall i :: 0 <= i < |xs| ==> !p(xs[i])
    ensures Filter(xs, p) == []
    decreases |xs|
  {
    if xs != [] {
      FilterNonePass(xs[1..], p);
    }
  }

  lemma {:induction false} FilterAppend<T(!new)>(a: seq<T>, b: seq<T>, p: T -> bool)
    ensures Filter(a + b, p) == Filter(a, p) + Filter(b, p)
    decreases |a|
  {
    if a == [] {
      assert a + b == b;
    } else {
      assert (a + b)[1..] == a[1..] + b;
      FilterAppend(a[1..], b, p);
    }
  }

  /** le is a total order: any two keys compare, the order is antisymmetric and transitive. */
  ghost predicate TotalOrder<K(!new)>(le: (K, K) -> bool)
  {
    (forall a, b :: le(a, b) || le(b, a)) &&
    (forall a, b :: le(a, b) && le(b, a) ==> a == b) &&
    (forall a, b, c :: le(a, b) && le(b, c) ==> le(a, c))
  }

  predicate SortedBy<T, K>(xs: seq<T>, key: T -> K, le: (K, K) -> bool)
  {
    forall i, j :: 0 <= i < j < |xs| ==> le(key(xs[i]), key(xs[j]))
  }

  /** The elements of xs whose key is k, in their order in xs. */
  function WithKey<T, K(==)>(xs: seq<T>, key: T -> K, k: K): seq<T>
  {
    if xs == [] then [] else (if key(xs[0]) == k then [xs[0]] else []) + WithKey(xs[1..], key, k)
  }

  /** Inserts x after every element whose key is not larger than x's. */
  function Insert<T, K(==)>(x: T, ys: seq<T>, key: T -> K, le: (K, K) -> bool): (r: seq<T>)
    ensures |r| == |ys| + 1
  {
    if ys == [] then [x]
    else if le(key(x), key(ys[0])) && key(x) != key(ys[0]) then [x] + ys
    else [ys[0]] + Insert(x, ys[1..], key, le)
  }

  /** `sortedBy(key)`: insertion of each element, left to right, into the sorted prefix. */
  function SortBy<T, K(==)>(xs: seq<T>, key: T -> K, le: (K, K) -> bool): (r: seq<T>)
    ensures |r| == |xs|
  {
    if xs == [] then [] else Insert(xs[|xs| - 1], SortBy(xs[..|xs| - 1], key, le), key, le)
  }

  lemma {:induction false} InsertPermutes<T, K>(x: T, ys: seq<T>, key: T -> K, le: (K, K) -> bool)
    ensures multiset(Insert(x, ys, key, le)) == multiset(ys) + multiset{x}
    decreases |ys|
  {
    if ys != [] && !(le(key(x), key(ys[0])) && key(x) != key(ys[0])) {
      InsertPermutes(x, ys[1..], key, le);
      assert ys == [ys[0]] + ys[1..];
    }
  }

  /** `sortedBy` only reorders: the result is a permutation of its input. */
  lemma {:induction false} SortByPermutes<T, K>(xs: seq<T>, key: T -> K, le: (K, K) -> bool)
    ensures multiset(SortBy(xs, key, le)) == multiset(xs)
    decreases |xs|
  {
    if xs != [] {
      SortByPermutes(xs[..|xs| - 1], key, le);
      InsertPermutes(xs[|xs| - 1], SortBy(xs[..|xs| - 1], key, le), key, le);
      assert xs == xs[..|xs| - 1] + [xs[|xs| - 1]];
    }
  }

  lemma {:induction false} WithKeyAppend<T, K>(a: seq<T>, b: seq<T>, key: T -> K, k: K)
    ensures WithKey(a + b, key, k) == WithKey(a, key, k) + WithKey(b, key, k)
    decreases |a|
  {
    if a == [] {
      assert a + b == b;
    } else {
      var h := if key(a[0]) == k then [a[0]] else [];
      assert (a + b)[0] == a[0];
      assert (a + b)[1..] == a[1..] + b;
      assert WithKey(a + b, key, k) == h + WithKey(a[1..] + b, key, k);
      WithKeyAppend(a[1..], b, key, k);
      assert WithKey(a, key, k) == h + WithKey(a[1..], key, k);
      assert h + (WithKey(a[1..], key, k) + WithKey(b, key, k))
          == (h + WithKey(a[1..], key, k)) + WithKey(b, key, k);
    }
  }

  lemma {:induction false} WithKeyNone<T, K>(xs: seq<T>, key: T -> K, k: K)
    requires forall i :: 0 <= i < |xs| ==> key(xs[i]) != k
    ensures WithKey(xs, key, k) == []
    decreases |xs|
  {
    if xs != [] {
      WithKeyNone(xs[1..], key, k);
    }
  }

  /** A lower bound of x and of every key in ys bounds every key after insertion. */
  lemma {:induction false} InsertLowerBound<T, K>(x: T, ys: seq<T>, key: T -> K, le: (K, K) -> bool, lo: K)
    requires le(lo, key(x)) && forall i :: 0 <= i < |ys| ==> le(lo, key(ys[i]))
    ensures forall i :: 0 <= i < |ys| + 1 ==> le(lo, key(Insert(x, ys, key, le)[i]))
    decreases |ys|
  {
    if ys != [] && !(le(key(x), key(ys[0])) && key(x) != key(ys[0])) {
      InsertLowerBound(x, ys[1..], key, le, lo);
      var r := Insert(x, ys, key, le);
      assert forall i :: 1 <= i < |r| ==> r[i] == Insert(x, ys[1..], key, le)[i - 1];
    }
  }

  lemma {:induction false} InsertSorted<T, K(!new)>(x: T, ys: seq<T>, key: T -> K, le: (K, K) -> bool)
    requires TotalOrder(le) && SortedBy(ys, key, le)
    ensures SortedBy(Insert(x, ys, key, le), key, le)
    decreases |ys|
  {
    if ys == [] {
    } else if le(key(x), key(ys[0])) && key(x) != key(ys[0]) {
      var r := [x] + ys;
      forall i, j | 0 <= i < j < |r| ensures le(key(r[i]), key(r[j])) {
        if i == 0 && j > 1 {
          assert le(key(ys[0]), key(ys[j - 1]));
        }
      }
    } else {
      var tail := Insert(x, ys[1..], key, le);
      assert SortedBy(ys[1..], key, le);
      InsertSorted(x, ys[1..], key, le);
      assert le(key(ys[0]), key(x));
      InsertLowerBound(x, ys[1..], key, le, key(ys[0]));
      var r := [ys[0]] + tail;
      assert forall i :: 1 <= i < |r| ==> r[i] == tail[i - 1];
    }
  }

  /** In a sorted list whose first key is strictly above kx, no key equals kx. */
  lemma AboveHasNoKey<T, K(!new)>(kx: K, ys: seq<T>, key: T -> K, le: (K, K) -> bool)
    requires TotalOrder(le) && SortedBy(ys, key, le)
    requires ys != [] && le(kx, key(ys[0])) && kx != key(ys[0])
    ensures forall i :: 0 <= i < |ys| ==> key(ys[i]) != kx
  {
    forall i | 0 < i < |ys| ensures key(ys[i]) != kx {
      assert le(key(ys[0]), key(ys[i]));
    }
  }

  /** Inserting x in front of larger keys: x is the only element with its key. */
  lemma InsertFrontWithKey<T, K(!new)>(x: T, ys: seq<T>, key: T -> K, le: (K, K) -> bool, k: K)
    requires TotalOrder(le) && SortedBy(ys, key, le)
    requires ys != [] && le(key(x), key(ys[0])) && key(x) != key(ys[0])
    ensures WithKey([x] + ys, key, k) == WithKey(ys, key, k) + (if key(x) == k then [x] else [])
  {
    assert ([x] + ys)[1..] == ys;
    if key(x) == k {
      AboveHasNoKey(key(x), ys, key, le);
      WithKeyNone(ys, key, k);
    }
  }

  /** Inserting x into a sorted list appends it to the elements that share its key. */
  lemma {:induction false} InsertWithKey<T, K(!new)>(x: T, ys: seq<T>, key: T -> K, le: (K, K) -> bool, k: K)
    requires TotalOrder(le) && SortedBy(ys, key, le)
    ensures WithKey(Insert(x, ys, key, le), key, k)
         == WithKey(ys, key, k) + (if key(x) == k then [x] else [])
    decreases |ys|
  {
    if ys == [] {
    } else if le(key(x), key(ys[0])) && key(x) != key(ys[0]) {
      InsertFrontWithKey(x, ys, key, le, k);
    } else {
      var tail := Insert(x, ys[1..], key, le);
      assert Insert(x, ys, key, le) == [ys[0]] + tail;
      assert SortedBy(ys[1..], key, le);
      InsertWithKey(x, ys[1..], key, le, k);
      assert ([ys[0]] + tail)[1..] == tail;
      assert WithKey([ys[0]] + tail, key, k)
          == (if key(ys[0]) == k then [ys[0]] else []) + WithKey(tail, key, k);
      assert WithKey(ys, key, k)
          == (if key(ys[0]) == k then [ys[0]] else []) + WithKey(ys[1..], key, k);
    }
  }

  lemma {:induction false} SortBySorted<T, K(!new)>(xs: seq<T>, key: T -> K, le: (K, K) -> bool)
    requires TotalOrder(le)
    ensures SortedBy(SortBy(xs, key, le), key, le)
    decreases |xs|
  {
    if xs != [] {
      SortBySorted(xs[..|xs| - 1], key, le);
      InsertSorted(xs[|xs| - 1], SortBy(xs[..|xs| - 1], key, le), key, le);
    }
  }

  /** Stability: the elements sharing any one key appear in the order they had in xs. */
  lemma {:induction false} SortByStable<T, K(!new)>(xs: seq<T>, key: T -> K, le: (K, K) -> bool, k: K)
    requires TotalOrder(le)
    ensures WithKey(SortBy(xs, key, le), key, k) == WithKey(xs, key, k)
    decreases |xs|
  {
    if xs != [] {
      var init, x := xs[..|xs| - 1], xs[|xs| - 1];
      SortByStable(init, key, le, k);
      SortBySorted(init, key, le);
      StableStep(init, x, key, le, k);
      assert init + [x] == xs;
    }
  }

  lemma StableStep<T, K(!new)>(init: seq<T>, x: T, key: T -> K, le: (K, K) -> bool, k: K)
    requires TotalOrder(le) && SortedBy(SortBy(init, key, le), key, le)
    requires WithKey(SortBy(init, key, le), key, k) == WithKey(init, key, k)
    ensures WithKey(SortBy(init + [x], key, le), key, k) == WithKey(init + [x], key, k)
  {
    var xs := init + [x];
    assert xs[..|xs| - 1] == init && xs[|xs| - 1] == x;
    assert SortBy(xs, key, le) == Insert(x, SortBy(init, key, le), key, le);
    InsertWithKey(x, SortBy(init, key, le), key, le, k);
    WithKeyAppend(init, [x], key, k);
    assert [x][1..] == [];
  }

  lemma SortByStableAll<T, K(!new)>(xs: seq<T>, key: T -> K, le: (K, K) -> bool)
    requires TotalOrder(le)
    ensures forall k :: WithKey(SortBy(xs, key, le), key, k) == WithKey(xs, key, k)
  {
    forall k ensures WithKey(SortBy(xs, key, le), key, k) == WithKey(xs, key, k) {
      SortByStable(xs, key, le, k);
    }
  }

  lemma {:induction false} SubsequenceSnoc<T>(a: seq<T>, b: seq<T>, x: T)
    requires Subsequence(a, b)
    ensures Subsequence(a, b + [x]) && Subsequence(a + [x], b + [x])
    decreases |b|
  {
    if a == [] {
      if b != [] {
        SubsequenceSnoc(a, b[1..], x);
        assert (b + [x])[1..] == b[1..] + [x];
      }
      assert ([] + [x])[1..] == [];
    } else {
      assert (b + [x])[1..] == b[1..] + [x];
      assert (a + [x])[1..] == a[1..] + [x];
      if a[0] == b[0] && Subsequence(a[1..], b[1..]) {
        SubsequenceSnoc(a[1..], b[1..], x);
      } else {
        SubsequenceSnoc(a, b[1..], x);
      }
    }
  }

  /** Some element of xs has key k. */
  predicate HasKey<T, K(==)>(xs: seq<T>, key: T -> K, k: K)
  {
    exists j :: 0 <= j < |xs| && key(xs[j]) == k
  }

  /** `distinctBy(key)`: each element whose key no earlier element has, in order. */
  function DistinctBy<T, K(==)>(xs: seq<T>, key: T -> K): (r: seq<T>)
    ensures |r| <= |xs|
    decreases |xs|
  {
    if xs == [] then []
    else
      var init := DistinctBy(xs[..|xs| - 1], key);
      if HasKey(init, key, key(xs[|xs| - 1])) then init else init + [xs[|xs| - 1]]
  }

  /** No two elements of xs share a key. */
  ghost predicate UniqueKeys<T, K>(xs: seq<T>, key: T -> K)
  {
    forall i, j :: 0 <= i < j < |xs| ==> key(xs[i]) != key(xs[j])
  }

  /** distinctBy keeps exactly the keys of its input. */
  lemma {:induction false} DistinctByKeys<T, K>(xs: seq<T>, key: T -> K, k: K)
    ensures HasKey(DistinctBy(xs, key), key, k) <==> HasKey(xs, key, k)
    decreases |xs|
  {
    if xs != [] {
      var init, x := xs[..|xs| - 1], xs[|xs| - 1];
      var d, r := DistinctBy(init, key), DistinctBy(xs, key);
      assert r[..|d|] == d && (|r| == |d| || r == d + [x]);
      DistinctByKeys(init, key, k);
      if HasKey(r, key, k) {
        var j :| 0 <= j < |r| && key(r[j]) == k;
        if j < |d| {
          assert key(d[j]) == k;
          var i :| 0 <= i < |init| && key(init[i]) == k;
          assert key(xs[i]) == k;
        } else {
          assert key(xs[|xs| - 1]) == k;
        }
      }
      if HasKey(xs, key, k) {
        var i :| 0 <= i < |xs| && key(xs[i]) == k;
        if i < |init| {
          assert key(init[i]) == k;
          var j :| 0 <= j < |d| && key(d[j]) == k;
          assert key(r[j]) == k;
        } else if HasKey(d, key, k) {
          var j :| 0 <= j < |d| && key(d[j]) == k;
          assert key(r[j]) == k;
        } else {
          assert r == d + [x] && key(r[|d|]) == k;
        }
      }
    }
  }

  /** No two elements distinctBy keeps share a key. */
  lemma {:induction false} DistinctByUnique<T, K>(xs: seq<T>, key: T -> K)
    ensures UniqueKeys(DistinctBy(xs, key), key)
    decreases |xs|
  {
    if xs != [] {
      var init, x := xs[..|xs| - 1], xs[|xs| - 1];
      var d, r := DistinctBy(init, key), DistinctBy(xs, key);
      DistinctByUnique(init, key);
      assert r == if HasKey(d, key, key(x)) then d else d + [x];
      if !HasKey(d, key, key(x)) {
        forall i, j | 0 <= i < j < |r| ensures key(r[i]) != key(r[j]) {
          if j == |d| {
            assert r[i] == d[i] && r[j] == x;
            assert key(d[i]) != key(x);
          } else {
            assert r[i] == d[i] && r[j] == d[j];
            assert key(d[i]) != key(d[j]);
          }
        }
      }
    }
  }

  /** distinctBy only deletes elements: the rest keep their order. */
  lemma {:induction false} DistinctBySubsequence<T, K>(xs: seq<T>, key: T -> K)
    ensures Subsequence(DistinctBy(xs, key), xs)
    decreases |xs|
  {
    if xs != [] {
      var init, x := xs[..|xs| - 1], xs[|xs| - 1];
      DistinctBySubsequence(init, key);
      SubsequenceSnoc(DistinctBy(init, key), init, x);
      assert init + [x] == xs;
    }
  }

  /** The first element with each key is kept. */
  lemma {:induction false} DistinctByKeepsFirst<T, K>(xs: seq<T>, key: T -> K, i: int)
    requires 0 <= i < |xs|
    requires forall k :: 0 <= k < i ==> key(xs[k]) != key(xs[i])
    ensures xs[i] in DistinctBy(xs, key)
    decreases |xs|
  {
    var init, x := xs[..|xs| - 1], xs[|xs| - 1];
    var d := DistinctBy(init, key);
    if i < |init| {
      DistinctByKeepsFirst(init, key, i);
    } else {
      DistinctByKeys(init, key, key(x));
      assert DistinctBy(xs, key) == d + [x];
    }
  }
}
