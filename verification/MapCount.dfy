/** How many entries of a map satisfy a condition, and how an update changes it. */
module MapCount {

  function B(b: bool): nat { if b then 1 else 0 }

  ghost function Where<K, V>(m: map<K, V>, p: V -> bool): set<K> {
    set k | k in m && p(m[k])
  }

  ghost function Count<K, V>(m: map<K, V>, p: V -> bool): nat {
    |Where(m, p)|
  }

  lemma CountPut<K, V>(m: map<K, V>, k: K, v: V, p: V -> bool)
    ensures Count(m[k := v], p) == Count(m - {k}, p) + B(p(v))
  {
    if p(v) {
      assert Where(m[k := v], p) == Where(m - {k}, p) + {k};
    } else {
      assert Where(m[k := v], p) == Where(m - {k}, p);
    }
  }

  lemma CountOut<K, V>(m: map<K, V>, k: K, p: V -> bool)
    ensures k in m ==> Count(m, p) == Count(m - {k}, p) + B(p(m[k]))
    ensures k !in m ==> Count(m, p) == Count(m - {k}, p)
  {
    if k in m {
      assert m == m[k := m[k]];
      CountPut(m, k, m[k], p);
    } else {
      assert m - {k} == m;
    }
  }

  lemma CountMove<K, V>(m: map<K, V>, k: K, v: V, p: V -> bool)
    ensures k in m ==> Count(m[k := v], p) == Count(m, p) - B(p(m[k])) + B(p(v))
    ensures k !in m ==> Count(m[k := v], p) == Count(m, p) + B(p(v))
  {
    CountPut(m, k, v, p);
    CountOut(m, k, p);
  }

  lemma CountNone<K, V>(m: map<K, V>, p: V -> bool)
    requires forall k :: k in m ==> !p(m[k])
    ensures Count(m, p) == 0
  {
    assert Where(m, p) == {};
  }

  /** The weights of all entries together. */
  ghost function Sum<K, V>(m: map<K, V>, f: V -> nat): nat
    decreases |m|
  {
    if m == map[] then 0
    else
      var k :| k in m;
      OutShrinks(m, k);
      f(m[k]) + Sum(m - {k}, f)
  }

  lemma OutShrinks<K, V>(m: map<K, V>, k: K)
    requires k in m
    ensures |m - {k}| == |m| - 1
  {
    assert (m - {k}).Keys == m.Keys - {k};
    assert |m.Keys| == |m.Keys - {k}| + 1;
    assert |(m - {k}).Keys| == |m - {k}| && |m.Keys| == |m|;
  }

  lemma {:induction false} SumOut<K, V>(m: map<K, V>, k: K, f: V -> nat)
    requires k in m
    ensures Sum(m, f) == f(m[k]) + Sum(m - {k}, f)
    decreases |m|
  {
    var j :| j in m && Sum(m, f) == f(m[j]) + Sum(m - {j}, f);
    if j != k {
      OutShrinks(m, j);
      OutShrinks(m, k);
      SumOut(m - {j}, k, f);
      SumOut(m - {k}, j, f);
      assert m - {j} - {k} == m - {k} - {j};
    }
  }

  lemma SumPut<K, V>(m: map<K, V>, k: K, v: V, f: V -> nat)
    ensures Sum(m[k := v], f) == Sum(m - {k}, f) + f(v)
  {
    SumOut(m[k := v], k, f);
    assert m[k := v] - {k} == m - {k};
  }

  lemma SumNew<K, V>(m: map<K, V>, k: K, v: V, f: V -> nat)
    requires k !in m
    ensures Sum(m[k := v], f) == Sum(m, f) + f(v)
  {
    SumPut(m, k, v, f);
    assert m - {k} == m;
  }

  lemma SumMove<K, V>(m: map<K, V>, k: K, v: V, f: V -> nat)
    requires k in m
    ensures Sum(m[k := v], f) + f(m[k]) == Sum(m, f) + f(v)
  {
    SumPut(m, k, v, f);
    SumOut(m, k, f);
  }
}
