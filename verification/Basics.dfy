/**
 Types shared by every part of the model: optional values, results, content identifiers
 and finite maps of amounts in which an absent key means zero.
 */
module Basics {
  datatype Option<+T> = None | Some(value: T)

  datatype Result<+T, +E> = Ok(value: T) | Err(error: E)
  {
    predicate IsFailure() {
      Err?
    }

    function PropagateFailure<U>(): Result<U, E>
      requires Err?
    {
      Err(error)
    }

    function Extract(): T
      requires Ok?
    {
      value
    }
  }

  /** A content identifier.  The hash is taken to be injective and the blockstore to keep every
      block it was given, so a CID stands for the block it links to: equal CIDs, equal content. */
  datatype Cid<T> = Cid(content: T)

  type ActorID = nat

  /** The value stored at `k`, where an absent key counts as zero. */
  function Get<K>(m: map<K, int>, k: K): int {
    if k in m then m[k] else 0
  }

  /** Stores `v` at `k`; zero is stored by removing the key. */
  function Put<K>(m: map<K, int>, k: K, v: int): map<K, int> {
    if v == 0 then m - {k} else m[k := v]
  }

  ghost predicate AllPositive<K>(m: map<K, int>) {
    forall k | k in m :: m[k] > 0
  }

  /** The sum of all values of a map. */
  ghost function Sum<K>(m: map<K, int>): int {
    if m == map[] then 0
    else
      var k :| k in m;
      m[k] + Sum(m - {k})
  }

  /** The sum does not depend on which key is taken out first. */
  lemma {:induction false} SumRemove<K>(m: map<K, int>, k: K)
    requires k in m
    ensures Sum(m) == m[k] + Sum(m - {k})
  {
    var j :| j in m && Sum(m) == m[j] + Sum(m - {j});
    if j != k {
      SumRemove(m - {j}, k);
      SumRemove(m - {k}, j);
      assert m - {j} - {k} == m - {k} - {j};
    }
  }

  lemma SumPut<K>(m: map<K, int>, k: K, v: int)
    ensures Sum(Put(m, k, v)) == Sum(m) - Get(m, k) + v
  {
    var rest := m - {k};
    assert Sum(m) == Get(m, k) + Sum(rest) by {
      if k in m { SumRemove(m, k); } else { assert rest == m; }
    }
    if v == 0 {
      assert Put(m, k, v) == rest;
    } else {
      SumRemove(m[k := v], k);
      assert m[k := v] - {k} == rest;
    }
  }

  /** In a map of positive amounts no entry exceeds the sum. */
  lemma {:induction false} SumBounds<K>(m: map<K, int>, k: K)
    requires AllPositive(m)
    ensures 0 <= Get(m, k) <= Sum(m)
    decreases |m|
  {
    if k in m {
      SumRemove(m, k);
      SumNonNegative(m - {k});
    } else {
      SumNonNegative(m);
    }
  }

  lemma {:induction false} SumNonNegative<K>(m: map<K, int>)
    requires AllPositive(m)
    ensures 0 <= Sum(m)
    decreases |m|
  {
    if m != map[] {
      var k :| k in m;
      SumRemove(m, k);
      SumNonNegative(m - {k});
    }
  }

  /** Without stored zeros, equal functions are equal maps. */
  lemma GetExtensional<K(!new)>(m: map<K, int>, n: map<K, int>)
    requires AllPositive(m) && AllPositive(n)
    requires forall k :: Get(m, k) == Get(n, k)
    ensures m == n
  {
    forall k ensures k in m <==> k in n {
      assert Get(m, k) == Get(n, k);
    }
    forall k | k in m ensures m[k] == n[k] {
      assert Get(m, k) == Get(n, k);
    }
  }

  lemma PutPut<K>(m: map<K, int>, k: K, v: int, w: int)
    ensures Put(Put(m, k, v), k, w) == Put(m, k, w)
  {
  }

  lemma PutGet<K>(m: map<K, int>, k: K)
    requires AllPositive(m)
    ensures Put(m, k, Get(m, k)) == m
  {
  }

  lemma SubsetCount<T>(s: set<T>, t: set<T>)
    requires s <= t
    ensures |s| <= |t|
  {
    assert t == s + (t - s);
  }

  lemma SameSize<T>(s: set<T>, t: set<T>)
    requires s <= t && |s| == |t|
    ensures s == t
  {
    assert t == s + (t - s);
  }
}
