/**
 * An insertion-ordered map, as Kotlin's `LinkedHashMap` (`linkedMapOf`, `buildMap`,
 * `mutableMapOf`): entries iterate in the order their keys were first put, and putting
 * an existing key replaces its value where it stands.
 */
module LinkedMap {
  import opened Wrappers

  type Entries<K, V> = seq<(K, V)>

  function Keys<K, V>(m: Entries<K, V>): (ks: seq<K>)
    ensures |ks| == |m|
    ensures forall i :: 0 <= i < |m| ==> ks[i] == m[i].0
  {
    seq(|m|, i requires 0 <= i < |m| => m[i].0)
  }

  predicate DistinctKeys<K(==), V>(m: Entries<K, V>)
  {
    forall i, j :: 0 <= i < j < |m| ==> m[i].0 != m[j].0
  }

  predicate HasKey<K(==), V>(m: Entries<K, V>, k: K)
  {
    exists i :: 0 <= i < |m| && m[i].0 == k
  }

  /** `m[k]`: the value of the first entry with key k. */
  function Get<K(==), V>(m: Entries<K, V>, k: K): (r: Option<V>)
    ensures r.None? <==> !HasKey(m, k)
    ensures r.Some? ==> exists i :: 0 <= i < |m| && m[i] == (k, r.value)
  {
    if m == [] then None
    else if m[0].0 == k then Some(m[0].1)
    else
      var r := Get(m[1..], k);
      assert HasKey(m[1..], k) ==> HasKey(m, k) by {
        if HasKey(m[1..], k) {
          var i :| 0 <= i < |m[1..]| && m[1..][i].0 == k;
          assert m[i + 1].0 == k;
        }
      }
      assert HasKey(m, k) ==> HasKey(m[1..], k) by {
        if HasKey(m, k) {
          var i :| 0 <= i < |m| && m[i].0 == k;
          assert i > 0 && m[1..][i - 1].0 == k;
        }
      }
      r
  }

  /** `m[k] = v`. */
  function Put<K(==), V>(m: Entries<K, V>, k: K, v: V): (r: Entries<K, V>)
    ensures HasKey(m, k) ==> |r| == |m| && forall i :: 0 <= i < |m| ==> r[i].0 == m[i].0
    ensures !HasKey(m, k) ==> r == m + [(k, v)]
    ensures forall i :: 0 <= i < |m| && m[i].0 != k ==> r[i] == m[i]
  {
    if m == [] then [(k, v)]
    else if m[0].0 == k then [(k, v)] + m[1..]
    else
      var rest := Put(m[1..], k, v);
      assert HasKey(m[1..], k) <==> HasKey(m, k) by {
        if HasKey(m, k) {
          var i :| 0 <= i < |m| && m[i].0 == k;
          assert m[1..][i - 1].0 == k;
        }
        if HasKey(m[1..], k) {
          var i :| 0 <= i < |m[1..]| && m[1..][i].0 == k;
          assert m[i + 1].0 == k;
        }
      }
      [m[0]] + rest
  }

  lemma {:induction false} PutGet<K, V>(m: Entries<K, V>, k: K, v: V, q: K)
    ensures Get(Put(m, k, v), q) == if q == k then Some(v) else Get(m, q)
  {
    if m != [] && m[0].0 != k {
      PutGet(m[1..], k, v, q);
      assert Put(m, k, v) == [m[0]] + Put(m[1..], k, v);
      assert ([m[0]] + Put(m[1..], k, v))[1..] == Put(m[1..], k, v);
    }
  }

  lemma PutDistinct<K, V>(m: Entries<K, V>, k: K, v: V)
    requires DistinctKeys(m)
    ensures DistinctKeys(Put(m, k, v))
  {
    var r := Put(m, k, v);
    if HasKey(m, k) {
      forall i, j | 0 <= i < j < |r| ensures r[i].0 != r[j].0 {
        assert r[i].0 == m[i].0 && r[j].0 == m[j].0;
      }
    }
  }

  /** Puts the pairs in order, as a `for ((k, v) in pairs) m[k] = v` loop. */
  function PutAll<K(==), V>(m: Entries<K, V>, pairs: seq<(K, V)>): (r: Entries<K, V>)
    decreases |pairs|
  {
    if pairs == [] then m else PutAll(Put(m, pairs[0].0, pairs[0].1), pairs[1..])
  }

  lemma {:induction false} PutAllDistinct<K, V>(m: Entries<K, V>, pairs: seq<(K, V)>)
    requires DistinctKeys(m)
    ensures DistinctKeys(PutAll(m, pairs))
    decreases |pairs|
  {
    if pairs != [] {
      PutDistinct(m, pairs[0].0, pairs[0].1);
      PutAllDistinct(Put(m, pairs[0].0, pairs[0].1), pairs[1..]);
    }
  }

  /** Putting a + b is putting a, then b. */
  lemma {:induction false} PutAllAppend<K, V>(m: Entries<K, V>, a: seq<(K, V)>, b: seq<(K, V)>)
    ensures PutAll(m, a + b) == PutAll(PutAll(m, a), b)
    decreases |a|
  {
    if a != [] {
      assert (a + b)[1..] == a[1..] + b;
      PutAllAppend(Put(m, a[0].0, a[0].1), a[1..], b);
    } else {
      assert a + b == b;
    }
  }

  /** After putting all pairs, a key's value is the one of its last pair, or its old value. */
  lemma {:induction false} PutAllGet<K, V>(m: Entries<K, V>, pairs: seq<(K, V)>, q: K)
    ensures Get(PutAll(m, pairs), q) == LastValue(pairs, q, Get(m, q))
    decreases |pairs|
  {
    if pairs != [] {
      var m' := Put(m, pairs[0].0, pairs[0].1);
      PutGet(m, pairs[0].0, pairs[0].1, q);
      PutAllGet(m', pairs[1..], q);
      LastValueCons(pairs, q, Get(m, q));
    }
  }

  /** The value of the last pair whose key is q, or `otherwise`. */
  function LastValue<K(==), V>(pairs: seq<(K, V)>, q: K, otherwise: Option<V>): Option<V>
  {
    if pairs == [] then otherwise
    else if pairs[|pairs| - 1].0 == q then Some(pairs[|pairs| - 1].1)
    else LastValue(pairs[..|pairs| - 1], q, otherwise)
  }

  lemma {:induction false} LastValueCons<K, V>(pairs: seq<(K, V)>, q: K, otherwise: Option<V>)
    requires pairs != []
    ensures LastValue(pairs, q, otherwise)
         == LastValue(pairs[1..], q, if pairs[0].0 == q then Some(pairs[0].1) else otherwise)
    decreases |pairs|
  {
    if |pairs| > 1 && pairs[|pairs| - 1].0 != q {
      LastValueCons(pairs[..|pairs| - 1], q, otherwise);
      assert pairs[..|pairs| - 1][1..] == pairs[1..][..|pairs[1..]| - 1];
    }
  }

  /** Putting one more pair is one more put. */
  lemma PutAllSnoc<K, V>(m: Entries<K, V>, pairs: seq<(K, V)>, k: K, v: V)
    ensures PutAll(m, pairs + [(k, v)]) == Put(PutAll(m, pairs), k, v)
  {
    PutAllAppend(m, pairs, [(k, v)]);
    assert [(k, v)][1..] == [];
  }

  /** Putting pairs whose keys are new and distinct appends them in order. */
  lemma {:induction false} PutAllFresh<K, V>(m: Entries<K, V>, pairs: seq<(K, V)>)
    requires DistinctKeys(m + pairs)
    ensures PutAll(m, pairs) == m + pairs
    decreases |pairs|
  {
    if pairs != [] {
      var p := pairs[0];
      forall i | 0 <= i < |m| ensures m[i].0 != p.0 {
        assert (m + pairs)[i] == m[i] && (m + pairs)[|m|] == p;
      }
      assert (m + [p]) + pairs[1..] == m + pairs;
      PutAllFresh(m + [p], pairs[1..]);
    }
  }

  /** Putting never moves or drops a key: the old keys stay first, in their order. */
  lemma {:induction false} PutAllKeepsKeys<K, V>(m: Entries<K, V>, pairs: seq<(K, V)>)
    ensures |PutAll(m, pairs)| >= |m|
    ensures forall i :: 0 <= i < |m| ==> PutAll(m, pairs)[i].0 == m[i].0
    decreases |pairs|
  {
    if pairs != [] {
      PutAllKeepsKeys(Put(m, pairs[0].0, pairs[0].1), pairs[1..]);
    }
  }

  /** The last pair with key q decides the value. */
  lemma {:induction false} LastValueAt<K, V>(pairs: seq<(K, V)>, q: K, otherwise: Option<V>, i: nat)
    requires i < |pairs| && pairs[i].0 == q
    requires forall j :: i < j < |pairs| ==> pairs[j].0 != q
    ensures LastValue(pairs, q, otherwise) == Some(pairs[i].1)
    decreases |pairs|
  {
    if i < |pairs| - 1 {
      LastValueAt(pairs[..|pairs| - 1], q, otherwise, i);
    }
  }

  /** With no pair for q, the value is the one it had. */
  lemma {:induction false} LastValueNone<K, V>(pairs: seq<(K, V)>, q: K, otherwise: Option<V>)
    requires forall j :: 0 <= j < |pairs| ==> pairs[j].0 != q
    ensures LastValue(pairs, q, otherwise) == otherwise
    decreases |pairs|
  {
    if pairs != [] {
      LastValueNone(pairs[..|pairs| - 1], q, otherwise);
    }
  }
}
