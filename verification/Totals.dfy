/** Sums over finite maps, independent of the order in which the keys are visited. */
module Totals {

  ghost function Pick<K, V>(m: map<K, V>): (k: K)
    requires m != map[]
    ensures k in m
  {
    var k :| k in m; k
  }

  ghost function Total<K, V>(m: map<K, V>, w: V -> nat): nat
    decreases |m|
  {
    if m == map[] then 0
    else
      var k := Pick(m);
      w(m[k]) + Total(m - {k}, w)
  }

  lemma TotalEmpty<K, V>(m: map<K, V>, w: V -> nat)
    requires m == map[]
    ensures Total(m, w) == 0
  {
  }

  /** Any key can be split off, not only the one Total happened to pick. */
  lemma {:induction false} TotalRemove<K, V>(m: map<K, V>, w: V -> nat, k: K)
    requires k in m
    ensures Total(m, w) == w(m[k]) + Total(m - {k}, w)
    decreases |m|
  {
    var p := Pick(m);
    if p != k {
      TotalRemove(m - {p}, w, k);
      TotalRemove(m - {k}, w, p);
      assert m - {p} - {k} == m - {k} - {p};
    }
  }

  lemma TotalInsert<K, V>(m: map<K, V>, w: V -> nat, k: K, v: V)
    requires k !in m
    ensures Total(m[k := v], w) == Total(m, w) + w(v)
  {
    TotalRemove(m[k := v], w, k);
    assert m[k := v] - {k} == m;
  }

  lemma TotalUpdate<K, V>(m: map<K, V>, w: V -> nat, k: K, v: V)
    requires k in m
    ensures Total(m[k := v], w) + w(m[k]) == Total(m, w) + w(v)
  {
    TotalRemove(m, w, k);
    TotalRemove(m[k := v], w, k);
    assert m[k := v] - {k} == m - {k};
  }

  lemma {:induction false} TotalSubmap<K, V>(m: map<K, V>, n: map<K, V>, w: V -> nat)
    requires forall k :: k in m ==> k in n && n[k] == m[k]
    ensures Total(m, w) <= Total(n, w)
    decreases |m|
  {
    if m != map[] {
      var k := Pick(m);
      TotalRemove(n, w, k);
      TotalSubmap(m - {k}, n - {k}, w);
    }
  }

  /** A total splits into that of a part and that of the rest. */
  lemma {:induction false} TotalSplit<K, V>(m: map<K, V>, part: map<K, V>, w: V -> nat)
    requires forall k :: k in part ==> k in m && m[k] == part[k]
    ensures Total(m, w) == Total(part, w) + Total(m - part.Keys, w)
    decreases |part|
  {
    hide Total;
    if part == map[] {
      assert m - part.Keys == m;
      TotalEmpty(part, w);
    } else {
      var k := Pick(part);
      TotalRemove(m, w, k);
      TotalRemove(part, w, k);
      TotalSplit(m - {k}, part - {k}, w);
      assert m - {k} - (part - {k}).Keys == m - part.Keys;
    }
  }

  lemma {:induction false} TotalSame<K, V>(m: map<K, V>, n: map<K, V>, w: V -> nat)
    requires m.Keys == n.Keys && forall k :: k in m ==> w(m[k]) == w(n[k])
    ensures Total(m, w) == Total(n, w)
    decreases |m|
  {
    hide Total;
    if m == map[] {
      assert n == map[];
    } else {
      var k := Pick(m);
      assert k in n;
      TotalRemove(m, w, k);
      TotalRemove(n, w, k);
      TotalSame(m - {k}, n - {k}, w);
    }
  }
}
