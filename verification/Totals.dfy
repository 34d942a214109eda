/** Totals over finite tables: what a table holds does not depend on the order its rows are counted in. */
module Totals {

  /** Sum of `f` over the rows of `m`. */
  ghost function Sum<K, V>(m: map<K, V>, f: V -> nat): nat
    decreases |m.Keys|
  {
    if m == map[] then 0
    else
      var k :| k in m;
      Shrinks(m, k);
      f(m[k]) + Sum(m - {k}, f)
  }

  /** Everything the rows of `m` contribute, counted with multiplicity. */
  ghost function Bag<K, V, G>(m: map<K, V>, f: V -> multiset<G>): multiset<G>
    decreases |m.Keys|
  {
    if m == map[] then multiset{}
    else
      var k :| k in m;
      Shrinks(m, k);
      f(m[k]) + Bag(m - {k}, f)
  }

  lemma Shrinks<K, V>(m: map<K, V>, k: K)
    requires k in m
    ensures |(m - {k}).Keys| < |m.Keys|
  {
    assert (m - {k}).Keys == m.Keys - {k};
  }

  lemma {:induction false} SumTakeOut<K, V>(m: map<K, V>, f: V -> nat, k: K)
    requires k in m
    ensures Sum(m, f) == f(m[k]) + Sum(m - {k}, f)
    decreases |m.Keys|
  {
    var j :| j in m && Sum(m, f) == f(m[j]) + Sum(m - {j}, f);
    if j != k {
      Shrinks(m, j);
      Shrinks(m, k);
      SumTakeOut(m - {j}, f, k);
      SumTakeOut(m - {k}, f, j);
      assert m - {j} - {k} == m - {k} - {j};
    }
  }

  lemma {:induction false} BagTakeOut<K, V, G>(m: map<K, V>, f: V -> multiset<G>, k: K)
    requires k in m
    ensures Bag(m, f) == f(m[k]) + Bag(m - {k}, f)
    decreases |m.Keys|
  {
    var j :| j in m && Bag(m, f) == f(m[j]) + Bag(m - {j}, f);
    if j != k {
      Shrinks(m, j);
      Shrinks(m, k);
      BagTakeOut(m - {j}, f, k);
      BagTakeOut(m - {k}, f, j);
      assert m - {j} - {k} == m - {k} - {j};
    }
  }

  /** Writing row `k`: the total loses what the old row held and gains what the new one holds. */
  lemma SumPut<K, V>(m: map<K, V>, f: V -> nat, k: K, v: V)
    ensures Sum(m[k := v], f) + (if k in m then f(m[k]) else 0) == Sum(m, f) + f(v)
  {
    SumTakeOut(m[k := v], f, k);
    assert m[k := v] - {k} == m - {k};
    if k in m {
      SumTakeOut(m, f, k);
    } else {
      assert m - {k} == m;
    }
  }

  lemma BagPut<K, V, G>(m: map<K, V>, f: V -> multiset<G>, k: K, v: V)
    ensures Bag(m[k := v], f) + (if k in m then f(m[k]) else multiset{}) == Bag(m, f) + f(v)
  {
    BagTakeOut(m[k := v], f, k);
    assert m[k := v] - {k} == m - {k};
    if k in m {
      BagTakeOut(m, f, k);
    } else {
      assert m - {k} == m;
    }
  }

  /** Moving one row to a free place keeps the contents. */
  lemma BagMove<K, V, G>(m: map<K, V>, f: V -> multiset<G>, a: K, b: K)
    requires a in m && (b !in m || b == a)
    ensures Bag((m - {a})[b := m[a]], f) == Bag(m, f)
  {
    BagTakeOut(m, f, a);
    BagPut(m - {a}, f, b, m[a]);
    assert b !in m - {a};
    var moved := Bag((m - {a})[b := m[a]], f);
    assert moved + multiset{} == moved;
    assert Bag(m - {a}, f) + f(m[a]) == f(m[a]) + Bag(m - {a}, f);
  }

  lemma Cancel<G>(a: multiset<G>, b: multiset<G>, x: multiset<G>)
    requires a + x == b + x
    ensures a == b
  {
    forall g ensures a[g] == b[g] {
      assert (a + x)[g] == (b + x)[g];
    }
  }

  /** Rewriting a row that contributes the same as before. */
  lemma BagRewrite<K, V, G>(m: map<K, V>, f: V -> multiset<G>, k: K, v: V)
    requires k in m && f(v) == f(m[k])
    ensures Bag(m[k := v], f) == Bag(m, f)
  {
    BagPut(m, f, k, v);
    Cancel(Bag(m[k := v], f), Bag(m, f), f(v));
  }
}
