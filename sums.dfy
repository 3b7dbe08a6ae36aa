/** Sums of real values, independent of any iteration order.

    Python sums a dictionary's values in insertion order; over `real` the
    order does not matter, which is what `SumRemove` establishes. */
module Sums {

  /** The sum of the values of a map, peeling off an arbitrary key. */
  ghost function MapSum<K>(m: map<K, real>): real
    decreases m.Keys
  {
    if m.Keys == {} then 0.0
    else
      var k :| k in m.Keys;
      m[k] + MapSum(m - {k})
  }

  /** Any key may be peeled off first: the sum does not depend on the order. */
  lemma {:induction false} SumRemove<K>(m: map<K, real>, k: K)
    requires k in m
    ensures MapSum(m) == m[k] + MapSum(m - {k})
    decreases m.Keys
  {
    var j :| j in m.Keys && MapSum(m) == m[j] + MapSum(m - {j});
    if j != k {
      var mj, mk := m - {j}, m - {k};
      assert mj.Keys < m.Keys;
      SumRemove(mj, k);
      SumRemove(mk, j);
      assert mj - {k} == mk - {j};
    }
  }

  /** The entries of `m` whose keys are in `keys`. */
  function Restrict<K, V>(m: map<K, V>, keys: set<K>): (r: map<K, V>)
    ensures r.Keys == m.Keys * keys
    ensures forall k :: k in r ==> r[k] == m[k]
  {
    map k | k in keys && k in m :: m[k]
  }

  /** Peeling one key off a restriction is restricting to one key fewer. */
  lemma RestrictRemove<K>(m: map<K, real>, keys: set<K>, k: K)
    requires k in keys && k in m
    ensures MapSum(Restrict(m, keys)) == m[k] + MapSum(Restrict(m, keys - {k}))
  {
    SumRemove(Restrict(m, keys), k);
    assert Restrict(m, keys) - {k} == Restrict(m, keys - {k});
  }

  /** The sum of `f(lo), ..., f(hi - 1)`. */
  function RangeSum(f: int -> real, lo: int, hi: int): real
    decreases hi - lo
  {
    if hi <= lo then 0.0 else RangeSum(f, lo, hi - 1) + f(hi - 1)
  }

  /** A map whose keys are exactly `lo..hi-1` sums to the range sum. */
  lemma {:induction false} MapSumOfRange(m: map<int, real>, lo: int, hi: int)
    requires lo <= hi
    requires forall w :: w in m <==> lo <= w < hi
    ensures MapSum(m) == RangeSum(k => if k in m then m[k] else 0.0, lo, hi)
    decreases hi - lo
  {
    var f := k => if k in m then m[k] else 0.0;
    if hi == lo {
      assert forall w :: w !in m.Keys;
    } else {
      assert hi - 1 in m;
      SumRemove(m, hi - 1);
      var m' := m - {hi - 1};
      MapSumOfRange(m', lo, hi - 1);
      var f' := k => if k in m' then m'[k] else 0.0;
      RangeSumAgree(f, f', lo, hi - 1);
    }
  }

  lemma {:induction false} RangeSumAgree(f: int -> real, g: int -> real, lo: int, hi: int)
    requires forall k :: lo <= k < hi ==> f(k) == g(k)
    ensures RangeSum(f, lo, hi) == RangeSum(g, lo, hi)
    decreases hi - lo
  {
    if lo < hi {
      RangeSumAgree(f, g, lo, hi - 1);
    }
  }

  /** `sum(m.values())`, adding the values in whatever order the keys come. */
  method SumOfValues<K>(m: map<K, real>) returns (total: real)
    ensures total == MapSum(m)
  {
    total := 0.0;
    var left := m.Keys;
    assert Restrict(m, left) == m;
    while left != {}
      invariant left <= m.Keys
      invariant total + MapSum(Restrict(m, left)) == MapSum(m)
      decreases left
    {
      var k :| k in left;
      RestrictRemove(m, left, k);
      total := total + m[k];
      left := left - {k};
    }
    assert Restrict(m, left).Keys == {};
  }

  /** Some element of a non-empty set, as iterating over it yields first. */
  method Pick<K>(s: set<K>) returns (k: K)
    requires s != {}
    ensures k in s
  {
    k :| k in s;
  }
}
