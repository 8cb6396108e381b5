/** The sum of the values of a finite map, and how it reacts to updates. */
module Totals {
  import opened Basics

  ghost function Total<K>(m: map<K, int>): int
    decreases |m|
  {
    if m == map[] then 0
    else
      var k :| k in m;
      WithoutIsSmaller(m, k);
      m[k] + Total(Without(m, k))
  }

  lemma WithoutIsSmaller<K, V>(m: map<K, V>, k: K)
    requires k in m
    ensures |Without(m, k)| < |m|
  {
    assert Without(m, k).Keys == m.Keys - {k};
    assert |m.Keys| == |m| && |Without(m, k).Keys| == |Without(m, k)|;
  }

  /** The total does not depend on the order in which the entries are added. */
  lemma {:induction false} TotalSplit<K>(m: map<K, int>, k: K)
    requires k in m
    ensures Total(m) == m[k] + Total(Without(m, k))
    decreases |m|
  {
    var c :| c in m && Total(m) == m[c] + Total(Without(m, c));
    if c != k {
      WithoutIsSmaller(m, c);
      TotalSplit(Without(m, c), k);
      WithoutIsSmaller(m, k);
      TotalSplit(Without(m, k), c);
      assert Without(Without(m, c), k) == Without(Without(m, k), c);
    }
  }

  lemma TotalUpdate<K>(m: map<K, int>, k: K, v: int)
    ensures Total(m[k := v]) == Total(m) + v - (if k in m then m[k] else 0)
  {
    TotalSplit(m[k := v], k);
    if k in m {
      TotalSplit(m, k);
      assert Without(m[k := v], k) == Without(m, k);
    } else {
      assert Without(m[k := v], k) == m;
    }
  }

  lemma {:induction false} TotalMonotone<K>(m: map<K, int>, n: map<K, int>)
    requires forall k :: k in m ==> k in n && m[k] <= n[k]
    requires forall k :: k in n ==> 0 <= n[k]
    ensures Total(m) <= Total(n)
    decreases |n|
  {
    if n == map[] {
      assert m == map[];
    } else {
      var k :| k in n;
      TotalSplit(n, k);
      WithoutIsSmaller(n, k);
      TotalMonotone(Without(m, k), Without(n, k));
      if k in m {
        TotalSplit(m, k);
      } else {
        assert Without(m, k) == m;
      }
    }
  }

  lemma TotalNonNegative<K>(m: map<K, int>)
    requires forall k :: k in m ==> 0 <= m[k]
    ensures 0 <= Total(m)
  {
    TotalMonotone(map[], m);
  }
}
