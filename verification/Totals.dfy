/** Sums over finite maps, for reservations and capacities. */
module Totals {
  ghost function Total<K>(m: map<K, nat>): nat {
    if m == map[] then 0
    else
      var k :| k in m;
      m[k] + Total(m - {k})
  }

  lemma {:induction false} TotalSplits<K>(m: map<K, nat>, k: K)
    requires k in m
    ensures Total(m) == m[k] + Total(m - {k})
    decreases |m|
  {
    var j :| j in m && Total(m) == m[j] + Total(m - {j});
    if j != k {
      TotalSplits(m - {j}, k);
      TotalSplits(m - {k}, j);
      assert m - {j} - {k} == m - {k} - {j};
    }
  }

  lemma TotalUpdates<K>(m: map<K, nat>, k: K, v: nat)
    ensures Total(m[k := v]) == Total(m - {k}) + v
  {
    TotalSplits(m[k := v], k);
    assert m[k := v] - {k} == m - {k};
  }

  lemma {:induction false} TotalMonotone<K>(m: map<K, nat>, n: map<K, nat>)
    requires m.Keys <= n.Keys
    requires forall k :: k in m ==> m[k] <= n[k]
    ensures Total(m) <= Total(n)
    decreases |m|
  {
    if m != map[] {
      var k :| k in m;
      TotalSplits(m, k);
      TotalSplits(n, k);
      TotalMonotone(m - {k}, n - {k});
    }
  }

  lemma SizeGrows<K, V>(m: map<K, V>, k: K, v: V)
    requires k !in m
    ensures |m[k := v]| == |m| + 1
  {
    assert m[k := v].Keys == m.Keys + {k};
  }

  lemma {:induction false} SizeMonotone<K, V, W>(m: map<K, V>, n: map<K, W>)
    requires m.Keys <= n.Keys
    ensures |m| <= |n|
    decreases |m|
  {
    if m != map[] {
      var k :| k in m;
      SizeMonotone(m - {k}, n - {k});
    }
  }

  lemma SizePuts<K, V>(m: map<K, V>, k: K, v: V)
    ensures |m[k := v]| == if k in m then |m| else |m| + 1
  {
    if k in m {
      assert m[k := v].Keys == m.Keys;
    } else {
      SizeGrows(m, k, v);
    }
  }

  lemma TotalPuts<K>(m: map<K, nat>, k: K, v: nat)
    ensures Total(m[k := v]) == Total(m) - (if k in m then m[k] else 0) + v
  {
    TotalUpdates(m, k, v);
    if k in m {
      TotalSplits(m, k);
    } else {
      assert m - {k} == m;
    }
    hide Total;
  }
}
