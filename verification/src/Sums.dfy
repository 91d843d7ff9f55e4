/** Sums over the values of a finite map, independent of the order of summation. */
module Sums {
  function At<K>(m: map<K, int>, k: K): int {
    if k in m then m[k] else 0
  }

  ghost function SumMap<K(!new)>(m: map<K, int>): int
    decreases |m|
  {
    if m == map[] then 0 else
      var k :| k in m;
      m[k] + SumMap(m - {k})
  }

  ghost predicate NonNegative<K(!new)>(m: map<K, int>) {
    forall k :: k in m ==> 0 <= m[k]
  }

  /** Any key may be taken first. */
  lemma {:induction false} SumTake<K(!new)>(m: map<K, int>, k: K)
    requires k in m
    ensures SumMap(m) == m[k] + SumMap(m - {k})
    decreases |m|
  {
    var j :| j in m && SumMap(m) == m[j] + SumMap(m - {j});
    if j != k {
      SumTake(m - {j}, k);
      SumTake(m - {k}, j);
      assert m - {j} - {k} == m - {k} - {j};
    }
  }

  lemma SumPut<K(!new)>(m: map<K, int>, k: K, v: int)
    ensures SumMap(m[k := v]) == SumMap(m) - At(m, k) + v
  {
    SumTake(m[k := v], k);
    assert m[k := v] - {k} == m - {k};
    if k in m {
      SumTake(m, k);
    } else {
      assert m - {k} == m;
    }
  }

  lemma {:induction false} SumNonNegative<K(!new)>(m: map<K, int>)
    requires NonNegative(m)
    ensures 0 <= SumMap(m)
    ensures forall k :: k in m ==> m[k] <= SumMap(m)
    decreases |m|
  {
    forall k | k in m
      ensures 0 <= m[k] <= SumMap(m)
    {
      SumTake(m, k);
      SumNonNegative(m - {k});
    }
    if m != map[] {
      var k :| k in m;
      assert 0 <= m[k] <= SumMap(m);
    }
  }

  function AddMaps<K>(m: map<K, int>, n: map<K, int>): (r: map<K, int>)
    ensures r.Keys == m.Keys + n.Keys
  {
    map k | k in m.Keys + n.Keys :: At(m, k) + At(n, k)
  }

  lemma AddNothing<K(!new)>(m: map<K, int>)
    ensures AddMaps(m, map[]) == m
  {
  }

  lemma {:induction false} SumAddMaps<K(!new)>(m: map<K, int>, n: map<K, int>)
    ensures SumMap(AddMaps(m, n)) == SumMap(m) + SumMap(n)
    decreases |n|
  {
    hide AddMaps;
    if n == map[] {
      AddNothing(m);
    } else {
      var k :| k in n;
      SumAddMaps(m, n - {k});
      SumAddOne(m, n, k);
    }
  }

  lemma SumAddOne<K(!new)>(m: map<K, int>, n: map<K, int>, k: K)
    requires k in n && SumMap(AddMaps(m, n - {k})) == SumMap(m) + SumMap(n - {k})
    ensures SumMap(AddMaps(m, n)) == SumMap(m) + SumMap(n)
  {
    hide SumMap, AddMaps;
    SumTake(n, k);
    AddMapsPeel(m, n, k);
    SumPut(AddMaps(m, n - {k}), k, At(m, k) + n[k]);
  }

  lemma AddMapsPeel<K(!new)>(m: map<K, int>, n: map<K, int>, k: K)
    requires k in n
    ensures AddMaps(m, n) == AddMaps(m, n - {k})[k := At(m, k) + n[k]]
    ensures At(AddMaps(m, n - {k}), k) == At(m, k)
  {
    var rest := n - {k};
    assert k !in rest && At(rest, k) == 0;
    forall j | j in m.Keys + n.Keys && j != k
      ensures At(n, j) == At(rest, j)
    {
    }
  }

  lemma AddMapsAt<K(!new)>(m: map<K, int>, n: map<K, int>, k: K)
    ensures At(AddMaps(m, n), k) == At(m, k) + At(n, k)
  {
  }

  /** Entries that are zero, or absent, do not matter. */
  lemma {:induction false} SumSupport<K(!new)>(m: map<K, int>, n: map<K, int>)
    requires m.Keys <= n.Keys
    requires forall k :: k in n ==> n[k] == At(m, k)
    ensures SumMap(m) == SumMap(n)
    decreases |n|
  {
    if n != map[] {
      var k :| k in n;
      SumTake(n, k);
      if k in m {
        SumTake(m, k);
        SumSupport(m - {k}, n - {k});
      } else {
        SumSupport(m, n - {k});
      }
    }
  }

  /** A map that is the pointwise sum of two others. */
  lemma SumPointwise<K(!new)>(m: map<K, int>, n: map<K, int>, r: map<K, int>)
    requires r.Keys == m.Keys == n.Keys
    requires forall k :: k in r ==> r[k] == m[k] + n[k]
    ensures SumMap(r) == SumMap(m) + SumMap(n)
  {
    var added := AddMaps(m, n);
    SumAddMaps(m, n);
    forall k | k in r
      ensures added[k] == r[k]
    {
    }
    assert added == r;
  }
}
