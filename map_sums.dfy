/**
 Sums over the entries of a map, taken in no particular order: the sum of
 `f(m[k])` over every key `k` of `m`. Used to state that per-application
 totals add up to the grand totals.
 */
module MapSums {

  /** The sum of `f` over the values of `m`. */
  ghost function SumOver<V>(m: map<string, V>, f: V -> real): real
    decreases |m|
  {
    if m == map[] then 0.0
    else
      var k :| k in m;
      assert |m - {k}| < |m| by { assert m.Keys - {k} < m.Keys; }
      f(m[k]) + SumOver(m - {k}, f)
  }

  /** A sum can be split at any key, not only at the one `SumOver` picks. */
  lemma {:induction false} SumOverRemove<V>(m: map<string, V>, f: V -> real, k: string)
    requires k in m
    ensures SumOver(m, f) == f(m[k]) + SumOver(m - {k}, f)
    decreases |m|
  {
    var j :| j in m && SumOver(m, f) == f(m[j]) + SumOver(m - {j}, f);
    if j != k {
      assert (m - {j}) - {k} == (m - {k}) - {j};
      assert |m - {j}| < |m| by { assert m.Keys - {j} < m.Keys; }
      assert |m - {k}| < |m| by { assert m.Keys - {k} < m.Keys; }
      SumOverRemove(m - {j}, f, k);
      SumOverRemove(m - {k}, f, j);
    }
  }

  /** Setting key `k` to `v` replaces that key's share of the sum. */
  lemma SumOverUpdate<V>(m: map<string, V>, f: V -> real, k: string, v: V)
    ensures SumOver(m[k := v], f) == SumOver(m, f) - (if k in m then f(m[k]) else 0.0) + f(v)
  {
    SumOverRemove(m[k := v], f, k);
    assert m[k := v] - {k} == m - {k};
    if k in m {
      SumOverRemove(m, f, k);
    } else {
      assert m - {k} == m;
    }
  }

  /** `c` times `x`; kept as a function so that proofs about sums see
      multiplication only where a lemma introduces it. */
  function Scale(c: real, x: real): real
  {
    c * x
  }

  lemma ScaleDistributes(c: real, x: real, y: real)
    ensures Scale(c, x + y) == Scale(c, x) + Scale(c, y)
  {
  }

  /** Two maps over the same keys whose values correspond up to a factor `c`
      have sums that differ by that factor. */
  lemma {:induction false} SumOverScaled<U, V>(m: map<string, U>, f: U -> real, n: map<string, V>, g: V -> real, c: real)
    requires m.Keys == n.Keys
    requires forall k :: k in m ==> g(n[k]) == Scale(c, f(m[k]))
    ensures SumOver(n, g) == Scale(c, SumOver(m, f))
    decreases |m|
  {
    if m != map[] {
      var k :| k in m;
      var m', n' := m - {k}, n - {k};
      assert |m'| < |m| by { assert m.Keys - {k} < m.Keys; }
      assert m'.Keys == n'.Keys;
      SumOverScaled(m', f, n', g, c);
      SumOverRemove(m, f, k);
      SumOverRemove(n, g, k);
      ScaleDistributes(c, f(m[k]), SumOver(m', f));
    } else {
      assert n == map[];
    }
  }
}
