/** Sums over the accounts of a ledger. */
module Totals {

  /** The sum of `f` over the values of a map, in any order. */
  ghost function Total<K, V>(m: map<K, V>, f: V -> int): int
    decreases |m|
  {
    if m == map[] then 0 else
      var k :| k in m;
      assert k !in m - {k} && (m - {k}).Keys < m.Keys;
      f(m[k]) + Total(m - {k}, f)
  }

  /** Any account can be taken out of the sum first. */
  lemma {:induction false} TotalRemove<K, V>(m: map<K, V>, k: K, f: V -> int)
    requires k in m
    ensures Total(m, f) == f(m[k]) + Total(m - {k}, f)
    decreases |m|
  {
    var k0 :| k0 in m && Total(m, f) == f(m[k0]) + Total(m - {k0}, f);
    if k0 != k {
      assert (m - {k0}).Keys < m.Keys && (m - {k}).Keys < m.Keys;
      TotalRemove(m - {k0}, k, f);
      TotalRemove(m - {k}, k0, f);
      assert m - {k0} - {k} == m - {k} - {k0};
    }
  }

  /** The same for an account that may not be there. */
  lemma TotalWithout<K, V>(m: map<K, V>, k: K, f: V -> int)
    ensures Total(m, f) == Total(m - {k}, f) + if k in m then f(m[k]) else 0
  {
    if k in m {
      TotalRemove(m, k, f);
    } else {
      assert m - {k} == m;
    }
  }

  /** A common factor comes out of the sum. */
  lemma {:induction false} TotalScaled<K, V>(m: map<K, V>, a: int, f: V -> int, g: V -> int)
    requires forall i | i in m :: g(m[i]) == a * f(m[i])
    ensures Total(m, g) == a * Total(m, f)
    decreases |m|
  {
    if m != map[] {
      var k :| k in m;
      TotalRemove(m, k, f);
      TotalRemove(m, k, g);
      assert (m - {k}).Keys < m.Keys;
      TotalScaled(m - {k}, a, f, g);
      AddScaled(a, f(m[k]), Total(m - {k}, f));
    }
  }

  /** Writing one account changes the sum by the change of that account. */
  lemma {:induction false} TotalPut<K, V>(m: map<K, V>, k: K, v: V, f: V -> int)
    ensures Total(m[k := v], f) == Total(m, f) + f(v) - (if k in m then f(m[k]) else 0)
  {
    var m' := m[k := v];
    TotalRemove(m', k, f);
    assert m' - {k} == m - {k};
    if k in m {
      TotalRemove(m, k, f);
    } else {
      assert m - {k} == m;
    }
  }

  /** With nonnegative terms no account exceeds the sum. */
  lemma {:induction false} TotalBoundsMember<K, V>(m: map<K, V>, k: K, f: V -> int)
    requires forall i | i in m :: f(m[i]) >= 0
    requires k in m
    ensures 0 <= f(m[k]) <= Total(m, f)
  {
    TotalRemove(m, k, f);
    TotalNonnegative(m - {k}, f);
  }

  lemma {:induction false} TotalNonnegative<K, V>(m: map<K, V>, f: V -> int)
    requires forall i | i in m :: f(m[i]) >= 0
    ensures Total(m, f) >= 0
    decreases |m|
  {
    if m != map[] {
      var k :| k in m;
      TotalRemove(m, k, f);
      assert (m - {k}).Keys < m.Keys;
      TotalNonnegative(m - {k}, f);
    }
  }

  lemma {:induction false} TotalZero<K, V>(m: map<K, V>, f: V -> int)
    requires forall i | i in m :: f(m[i]) == 0
    ensures Total(m, f) == 0
    decreases |m|
  {
    if m != map[] {
      var k :| k in m;
      TotalRemove(m, k, f);
      assert (m - {k}).Keys < m.Keys;
      TotalZero(m - {k}, f);
    }
  }

  /** A linear bound on every account is the same bound on the sums. */
  lemma {:induction false} TotalLinear<K, V>(m: map<K, V>, a: int, low: V -> int, f: V -> int, b: int, g: V -> int)
    requires forall i | i in m :: a * low(m[i]) <= f(m[i]) + b * g(m[i])
    ensures a * Total(m, low) <= Total(m, f) + b * Total(m, g)
    decreases |m|
  {
    if m != map[] {
      var k :| k in m;
      TotalRemove(m, k, low);
      TotalRemove(m, k, f);
      TotalRemove(m, k, g);
      var rest := m - {k};
      assert rest.Keys < m.Keys;
      TotalLinear(rest, a, low, f, b, g);
      AddScaled(a, low(m[k]), Total(rest, low));
      AddScaled(b, g(m[k]), Total(rest, g));
    }
  }

  /** A sum of a combination is the combination of the sums. */
  lemma {:induction false} TotalCombined<K, V>(m: map<K, V>, f: V -> int, a: int, g: V -> int, h: V -> int)
    requires forall i | i in m :: h(m[i]) == f(m[i]) + a * g(m[i])
    ensures Total(m, h) == Total(m, f) + a * Total(m, g)
    decreases |m|
  {
    if m != map[] {
      var k :| k in m;
      var rest := m - {k};
      TotalRemove(m, k, f);
      TotalRemove(m, k, g);
      TotalRemove(m, k, h);
      assert rest.Keys < m.Keys;
      TotalCombined(rest, f, a, g, h);
      AddScaled(a, g(m[k]), Total(rest, g));
    }
  }

  lemma AddScaled(a: int, x: int, y: int)
    ensures a * (x + y) == a * x + a * y
  {
  }
}
