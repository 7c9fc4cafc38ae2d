/** Sums over maps that read absent keys as zero, as a contract's mappings do. */
module MapSums {
  function Get<K>(m: map<K, nat>, k: K): nat {
    if k in m then m[k] else 0
  }

  function Credit<K>(m: map<K, nat>, k: K, amount: nat): map<K, nat> {
    m[k := Get(m, k) + amount]
  }

  ghost function Sum<K>(m: map<K, nat>): nat {
    if m == map[] then 0 else var k :| k in m; m[k] + Sum(m - {k})
  }

  lemma {:induction false} SumSplit<K>(m: map<K, nat>, k: K)
    ensures Sum(m) == Get(m, k) + Sum(m - {k})
    decreases |m|
  {
    if k !in m {
      assert m - {k} == m;
    } else {
      var j :| j in m && Sum(m) == m[j] + Sum(m - {j});
      if j != k {
        SumSplit(m - {j}, k);
        SumSplit(m - {k}, j);
        assert m - {j} - {k} == m - {k} - {j};
      }
    }
  }

  lemma SumUpdate<K>(m: map<K, nat>, k: K, v: nat)
    ensures Sum(m[k := v]) + Get(m, k) == Sum(m) + v
  {
    SumSplit(m, k);
    SumSplit(m[k := v], k);
    assert m[k := v] - {k} == m - {k};
  }

  lemma CreditSum<K>(m: map<K, nat>, k: K, amount: nat)
    ensures Sum(Credit(m, k, amount)) == Sum(m) + amount
  {
    SumUpdate(m, k, Get(m, k) + amount);
  }

  lemma GetAtMostSum<K>(m: map<K, nat>, k: K)
    ensures Get(m, k) <= Sum(m)
  {
    SumSplit(m, k);
  }

  lemma {:induction false} SumMonotone<K>(a: map<K, nat>, b: map<K, nat>)
    requires forall k :: Get(a, k) <= Get(b, k)
    ensures Sum(a) <= Sum(b)
    decreases |a|
  {
    if a != map[] {
      var k :| k in a;
      SumSplit(a, k);
      SumSplit(b, k);
      forall j
        ensures Get(a - {k}, j) <= Get(b - {k}, j)
      {
        assert Get(a, j) <= Get(b, j);
      }
      SumMonotone(a - {k}, b - {k});
    }
  }

  lemma {:induction false} SumAdds<K>(a: map<K, nat>, b: map<K, nat>, c: map<K, nat>)
    requires forall k :: Get(a, k) + Get(b, k) == Get(c, k)
    ensures Sum(a) + Sum(b) == Sum(c)
    decreases a.Keys + b.Keys + c.Keys
  {
    var keys := a.Keys + b.Keys + c.Keys;
    if keys == {} {
      assert a == map[] && b == map[] && c == map[];
    } else {
      var k :| k in keys;
      SumSplit(a, k);
      SumSplit(b, k);
      SumSplit(c, k);
      AddsWithout(a, b, c, k);
      SumAdds(a - {k}, b - {k}, c - {k});
    }
  }

  lemma AddsWithout<K>(a: map<K, nat>, b: map<K, nat>, c: map<K, nat>, k: K)
    requires forall j :: Get(a, j) + Get(b, j) == Get(c, j)
    ensures forall j :: Get(a - {k}, j) + Get(b - {k}, j) == Get(c - {k}, j)
  {
    forall j
      ensures Get(a - {k}, j) + Get(b - {k}, j) == Get(c - {k}, j)
    {
      assert Get(a, j) + Get(b, j) == Get(c, j);
    }
  }
}
