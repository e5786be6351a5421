/** Sums over maps. */
module Sums {
  /** The sum of a measure over a map. */
  ghost function Sum<K, T>(m: map<K, T>, f: T -> nat): nat
    decreases |m|
  {
    if m == map[] then 0
    else
      var k :| k in m;
      assert |m - {k}| < |m| by { Fewer(m, k); }
      f(m[k]) + Sum(m - {k}, f)
  }

  lemma Fewer<K, T>(m: map<K, T>, k: K)
    requires k in m
    ensures |m - {k}| == |m| - 1
  {
    assert (m - {k}).Keys == m.Keys - {k};
    assert |m.Keys| == |m| && |(m - {k}).Keys| == |m - {k}|;
  }

  lemma SumNone<K, T>(f: T -> nat)
    ensures Sum<K, T>(map[], f) == 0
  {}

  lemma {:induction false} SumRemove<K, T>(m: map<K, T>, f: T -> nat, k: K)
    requires k in m
    ensures Sum(m, f) == f(m[k]) + Sum(m - {k}, f)
    decreases |m|
  {
    var j :| j in m && Sum(m, f) == f(m[j]) + Sum(m - {j}, f);
    if j != k {
      Fewer(m, j);
      Fewer(m, k);
      SumRemove(m - {j}, f, k);
      SumRemove(m - {k}, f, j);
      assert m - {j} - {k} == m - {k} - {j};
    }
  }

  lemma SumPut<K, T>(m: map<K, T>, f: T -> nat, k: K, v: T)
    ensures k !in m ==> Sum(m[k := v], f) == Sum(m, f) + f(v)
    ensures k in m ==> Sum(m[k := v], f) == Sum(m, f) - f(m[k]) + f(v)
  {
    SumRemove(m[k := v], f, k);
    assert m[k := v] - {k} == m - {k};
    if k in m { SumRemove(m, f, k); } else { assert m - {k} == m; }
  }

  lemma {:induction false} SumSub<K, T>(m: map<K, T>, n: map<K, T>, f: T -> nat)
    requires m.Keys <= n.Keys && forall k :: k in m ==> m[k] == n[k]
    ensures Sum(m, f) <= Sum(n, f)
    decreases |m|
  {
    if m != map[] {
      var k :| k in m;
      SumRemove(m, f, k);
      SumRemove(n, f, k);
      Fewer(m, k);
      SumSub(m - {k}, n - {k}, f);
    }
  }

  // ---- Working through a map

  /** A map taken apart: what is done and what is left. */
  ghost predicate Apart<K, T>(all: map<K, T>, done: map<K, T>, rest: map<K, T>) {
    && done.Keys + rest.Keys == all.Keys && done.Keys !! rest.Keys
    && (forall k :: k in done ==> done[k] == all[k]) && forall k :: k in rest ==> rest[k] == all[k]
  }

  lemma ApartStart<K, T>(all: map<K, T>)
    ensures Apart(all, map[], all)
  {}

  lemma ApartNext<K, T>(all: map<K, T>, done: map<K, T>, rest: map<K, T>, k: K)
    requires Apart(all, done, rest) && k in rest
    ensures Apart(all, done[k := rest[k]], rest - {k}) && k in all && all[k] == rest[k] && k !in done
  {
    assert (rest - {k}).Keys == rest.Keys - {k};
    assert done[k := rest[k]].Keys == done.Keys + {k};
  }

  lemma ApartEnd<K, T>(all: map<K, T>, done: map<K, T>)
    requires Apart(all, done, map[])
    ensures done == all
  {}
}
