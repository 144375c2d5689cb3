/** Sums over the values of a finite map, and how single-key updates move them. */
module MapSums {

  /** A dictionary lookup with default 0. */
  function Get<K(==)>(m: map<K, real>, k: K): real {
    if k in m then m[k] else 0.0
  }

  /** `m[k] += v`, creating the key when it is missing. */
  function Credit<K(==)>(m: map<K, real>, k: K, v: real): map<K, real> {
    m[k := Get(m, k) + v]
  }

  ghost function Total<K>(m: map<K, real>): real {
    if m == map[] then 0.0
    else
      var k :| k in m;
      m[k] + Total(m - {k})
  }

  /** The sum does not depend on the order in which keys are taken out. */
  lemma {:induction false} TotalWithout<K>(m: map<K, real>, k: K)
    ensures Total(m - {k}) == Total(m) - Get(m, k)
    decreases |m|
  {
    if k in m {
      var c :| c in m && Total(m) == m[c] + Total(m - {c});
      if c != k {
        TotalWithout(m - {c}, k);
        TotalWithout(m - {k}, c);
        assert m - {c} - {k} == m - {k} - {c};
      }
    } else {
      assert m - {k} == m;
    }
  }

  lemma TotalSet<K>(m: map<K, real>, k: K, v: real)
    ensures Total(m[k := v]) == Total(m) - Get(m, k) + v
  {
    TotalWithout(m, k);
    TotalWithout(m[k := v], k);
    assert m[k := v] - {k} == m - {k};
  }

  lemma TotalCredit<K>(m: map<K, real>, k: K, v: real)
    ensures Total(Credit(m, k, v)) == Total(m) + v
  {
    TotalSet(m, k, Get(m, k) + v);
  }

  ghost predicate AtLeast<K(!new)>(m: map<K, real>, low: real) {
    forall k :: k in m ==> m[k] >= low
  }

  lemma CreditAtLeast<K(!new)>(m: map<K, real>, k: K, v: real, low: real)
    requires AtLeast(m, low) && Get(m, k) + v >= low
    ensures AtLeast(Credit(m, k, v), low)
  {
  }

  lemma CreditTwice<K>(m: map<K, real>, k: K, v: real, w: real)
    ensures Credit(Credit(m, k, v), k, w) == Credit(m, k, v + w)
  {
  }
}
