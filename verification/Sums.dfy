/** Sums over the values of a finite map, independent of the order of its keys. */
module Sums {
  ghost function Sum<K, V>(m: map<K, V>, f: V -> int): int
    decreases m.Keys
  {
    if m == map[] then 0
    else
      var k :| k in m;
      f(m[k]) + Sum(m - {k}, f)
  }

  lemma {:induction false} SumRemove<K, V>(m: map<K, V>, f: V -> int, k: K)
    requires k in m
    ensures Sum(m, f) == f(m[k]) + Sum(m - {k}, f)
    decreases m.Keys
  {
    var k0 :| k0 in m && Sum(m, f) == f(m[k0]) + Sum(m - {k0}, f);
    if k0 != k {
      SumRemove(m - {k0}, f, k);
      SumRemove(m - {k}, f, k0);
      assert m - {k0} - {k} == m - {k} - {k0};
    }
  }

  lemma SumPut<K, V>(m: map<K, V>, f: V -> int, k: K, v: V)
    ensures Sum(m[k := v], f) == Sum(m, f) + f(v) - (if k in m then f(m[k]) else 0)
  {
    SumRemove(m[k := v], f, k);
    assert m[k := v] - {k} == m - {k};
    if k in m {
      SumRemove(m, f, k);
    } else {
      assert m - {k} == m;
    }
  }

  lemma {:induction false} SumZero<K, V>(m: map<K, V>, f: V -> int)
    requires forall k :: k in m ==> f(m[k]) == 0
    ensures Sum(m, f) == 0
    decreases m.Keys
  {
    if m == map[] {
    } else {
      var k :| k in m;
      SumRemove(m, f, k);
      SumZero(m - {k}, f);
    }
  }

  // A sum of non-negative terms is zero only if every term is.
  lemma {:induction false} SumNonNegative<K, V>(m: map<K, V>, f: V -> int)
    requires forall k :: k in m ==> f(m[k]) >= 0
    ensures forall k :: k in m ==> 0 <= f(m[k]) <= Sum(m, f)
    ensures Sum(m, f) >= 0
    decreases m.Keys
  {
    if m == map[] {
    } else {
      var k :| k in m;
      SumRemove(m, f, k);
      SumNonNegative(m - {k}, f);
      forall j | j in m
        ensures 0 <= f(m[j]) <= Sum(m, f)
      {
        if j != k {
          assert j in m - {k};
        }
      }
    }
  }

  lemma Scale(bound: nat, smaller: nat, larger: nat)
    requires smaller <= larger
    ensures bound * smaller <= bound * larger
  {}

  lemma Distribute(bound: nat, smaller: nat, larger: nat)
    requires larger == smaller + 1
    ensures bound * smaller + bound == bound * larger
  {}

  lemma {:induction false} SumBound<K, V>(m: map<K, V>, f: V -> int, bound: nat)
    requires forall k :: k in m ==> f(m[k]) <= bound
    ensures Sum(m, f) <= bound * |m|
    decreases m.Keys
  {
    if m == map[] {
    } else {
      var k :| k in m;
      SumRemove(m, f, k);
      SumBound(m - {k}, f, bound);
      assert (m - {k}).Keys == m.Keys - {k};
      Distribute(bound, |m - {k}|, |m|);
    }
  }

  lemma Expand(factor: int, sum: int, term: int, rest: int)
    requires sum == term + rest
    ensures factor * sum == factor * term + factor * rest
  {}

  // Sums are linear.
  lemma {:induction false} SumLinear<K, V>(m: map<K, V>, f: V -> int, g: V -> int, h: V -> int, factor: int)
    requires forall k :: k in m ==> f(m[k]) == g(m[k]) + factor * h(m[k])
    ensures Sum(m, f) == Sum(m, g) + factor * Sum(m, h)
    decreases m.Keys
  {
    if m == map[] {
    } else {
      var k :| k in m;
      SumRemove(m, f, k);
      SumRemove(m, g, k);
      SumRemove(m, h, k);
      SumLinear(m - {k}, f, g, h, factor);
      Expand(factor, Sum(m, h), h(m[k]), Sum(m - {k}, h));
    }
  }

  // Two maps whose values count the same, key by key, have the same sum.
  lemma {:induction false} SumSame<K, V, W>(m: map<K, V>, f: V -> int, n: map<K, W>, g: W -> int)
    requires m.Keys == n.Keys
    requires forall k :: k in m ==> f(m[k]) == g(n[k])
    ensures Sum(m, f) == Sum(n, g)
    decreases m.Keys
  {
    if m == map[] {
      assert n == map[];
    } else {
      var k :| k in m;
      SumRemove(m, f, k);
      SumRemove(n, g, k);
      SumSame(m - {k}, f, n - {k}, g);
    }
  }
}
