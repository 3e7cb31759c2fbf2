/** Sums of the values of a finite map, used to state that money is conserved between the
    order ledger and the customer ledger. */
module Sums {

  /** The sum of `m[k]` over the keys `k` in `ks`. */
  ghost function SumOver<K>(m: map<K, real>, ks: set<K>): real
    requires ks <= m.Keys
    decreases ks
  {
    if ks == {} then 0.0
    else
      var k :| k in ks;
      m[k] + SumOver(m, ks - {k})
  }

  /** The sum of all values of `m`. */
  ghost function Total<K>(m: map<K, real>): real
  {
    SumOver(m, m.Keys)
  }

  /** Any key may be taken out first: the sum does not depend on the order of the keys. */
  lemma {:induction false} SumOverRemove<K>(m: map<K, real>, ks: set<K>, k: K)
    requires ks <= m.Keys && k in ks
    ensures SumOver(m, ks) == m[k] + SumOver(m, ks - {k})
    decreases ks
  {
    var j :| j in ks && SumOver(m, ks) == m[j] + SumOver(m, ks - {j});
    if j != k {
      assert (ks - {j}) - {k} == (ks - {k}) - {j};
      SumOverRemove(m, ks - {j}, k);
      SumOverRemove(m, ks - {k}, j);
    }
  }

  /** The sum over `ks` reads only the values at `ks`. */
  lemma {:induction false} SumOverAgree<K>(m: map<K, real>, m': map<K, real>, ks: set<K>)
    requires ks <= m.Keys && ks <= m'.Keys
    requires forall k :: k in ks ==> m[k] == m'[k]
    ensures SumOver(m, ks) == SumOver(m', ks)
    decreases ks
  {
    if ks != {} {
      var j :| j in ks && SumOver(m, ks) == m[j] + SumOver(m, ks - {j});
      SumOverRemove(m', ks, j);
      SumOverAgree(m, m', ks - {j});
    }
  }

  /** Writing `v` at key `k` changes the total by `v` minus what `k` held before (nothing when
      `k` was absent). */
  lemma TotalUpdate<K>(m: map<K, real>, k: K, v: real)
    ensures Total(m[k := v]) == Total(m) - (if k in m then m[k] else 0.0) + v
  {
    var m' := m[k := v];
    var rest := m.Keys - {k};
    assert m'.Keys - {k} == rest;
    SumOverRemove(m', m'.Keys, k);
    SumOverAgree(m, m', rest);
    if k in m {
      SumOverRemove(m, m.Keys, k);
    } else {
      assert rest == m.Keys;
    }
  }
}
