/** Sums over finite maps: the totals that a ledger of positions must conserve. */
module MapSums {
  ghost function Total(m: map<nat, int>): int
    decreases m.Keys
  {
    if m == map[] then 0 else
      var k :| k in m;
      m[k] + Total(m - {k})
  }

  /** Any key can be taken out of the sum. */
  lemma {:induction false} TotalExtract(m: map<nat, int>, k: nat)
    requires k in m
    ensures Total(m) == m[k] + Total(m - {k})
    decreases m.Keys
  {
    var j :| j in m && Total(m) == m[j] + Total(m - {j});
    if j != k {
      TotalExtract(m - {j}, k);
      TotalExtract(m - {k}, j);
      assert m - {j} - {k} == m - {k} - {j};
    }
  }

  lemma TotalSet(m: map<nat, int>, k: nat, v: int)
    ensures Total(m[k := v]) == v + Total(m - {k})
  {
    TotalExtract(m[k := v], k);
    assert m[k := v] - {k} == m - {k};
  }

  lemma TotalReplace(m: map<nat, int>, k: nat, v: int)
    requires k in m
    ensures Total(m[k := v]) == Total(m) - m[k] + v
  {
    TotalSet(m, k, v);
    TotalExtract(m, k);
  }

  lemma TotalInsert(m: map<nat, int>, k: nat, v: int)
    requires k !in m
    ensures Total(m[k := v]) == Total(m) + v
  {
    TotalSet(m, k, v);
    assert m - {k} == m;
  }

  /** Sums are linear in their summands. */
  lemma {:induction false} TotalSum(m: map<nat, int>, base: map<nat, int>, rest: map<nat, int>)
    requires m.Keys == base.Keys == rest.Keys
    requires forall k :: k in m ==> m[k] == base[k] + rest[k]
    ensures Total(m) == Total(base) + Total(rest)
    decreases m.Keys
  {
    if m == map[] {
      assert base == map[] && rest == map[];
    } else {
      var k :| k in m;
      TotalExtract(m, k);
      TotalExtract(base, k);
      TotalExtract(rest, k);
      TotalSum(m - {k}, base - {k}, rest - {k});
    }
  }

  ghost function Scaled(m: map<nat, int>, c: int): map<nat, int> {
    map k | k in m :: c * m[k]
  }

  lemma {:induction false} TotalScaled(m: map<nat, int>, c: int)
    ensures Total(Scaled(m, c)) == c * Total(m)
    decreases m.Keys
  {
    if m == map[] {
      assert Scaled(m, c) == map[];
    } else {
      var k :| k in m;
      TotalExtract(m, k);
      TotalExtract(Scaled(m, c), k);
      assert Scaled(m, c) - {k} == Scaled(m - {k}, c);
      TotalScaled(m - {k}, c);
      Distribute(c, m[k], Total(m - {k}));
    }
  }

  lemma Distribute(c: int, x: int, y: int)
    ensures c * (x + y) == c * x + c * y
  {
  }

  lemma {:induction false} TotalIsNonNegative(m: map<nat, int>)
    requires forall k :: k in m ==> m[k] >= 0
    ensures Total(m) >= 0
    decreases m.Keys
  {
    if m != map[] {
      var k :| k in m;
      TotalExtract(m, k);
      TotalIsNonNegative(m - {k});
    }
  }

  lemma TotalCovers(m: map<nat, int>, k: nat)
    requires k in m && forall j :: j in m ==> m[j] >= 0
    ensures m[k] <= Total(m)
  {
    TotalExtract(m, k);
    TotalIsNonNegative(m - {k});
  }
}
