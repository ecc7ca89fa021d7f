/** What all positions together hold: their liquidity, and what each accumulator owes them. */
module Books {
  import opened Numbers
  import opened Settlement
  import opened Vestings
  import opened Positions
  import opened MapSums

  type PositionMap = map<Id, PositionView>

  /** The four accumulators a position draws on. */
  datatype Account = Fee(token: Index) | Reward(index: Index) {
    function Scale(): nat {
      if Fee? then Q128 else Q192
    }

    function StreamOf(p: PositionView): Stream {
      if Fee? then p.fees.Get(token) else p.rewards.Get(index)
    }

    /** Pending and unsettled earnings of a position, unrounded, times the scale. */
    ghost function ClaimOf(p: PositionView, stored: nat): int {
      StreamOf(p).Claim(p.Liquidity(), stored, Scale())
    }
  }

  ghost function Claims(positions: PositionMap, a: Account, stored: nat): map<Id, int> {
    map id | id in positions :: a.ClaimOf(positions[id], stored)
  }

  ghost function Owed(positions: PositionMap, a: Account, stored: nat): int {
    Total(Claims(positions, a, stored))
  }

  ghost predicate UpToDate(positions: PositionMap, a: Account, stored: nat) {
    forall id :: id in positions ==> a.StreamOf(positions[id]).checkpoint <= stored
  }

  ghost function Liquidities(positions: PositionMap): map<Id, int> {
    map id | id in positions :: positions[id].Liquidity()
  }

  ghost function Permanents(positions: PositionMap): map<Id, int> {
    map id | id in positions :: positions[id].permanent
  }

  ghost function TotalLiquidity(positions: PositionMap): int {
    Total(Liquidities(positions))
  }

  ghost function TotalPermanent(positions: PositionMap): int {
    Total(Permanents(positions))
  }

  // ---------------------------------------------------------------------------------------------
  // One position changes
  // ---------------------------------------------------------------------------------------------

  lemma LiquidityAfter(positions: PositionMap, id: Id, p: PositionView)
    ensures id in positions ==>
              && TotalLiquidity(positions[id := p]) == TotalLiquidity(positions) - positions[id].Liquidity() + p.Liquidity()
              && TotalPermanent(positions[id := p]) == TotalPermanent(positions) - positions[id].permanent + p.permanent
    ensures id !in positions ==>
              && TotalLiquidity(positions[id := p]) == TotalLiquidity(positions) + p.Liquidity()
              && TotalPermanent(positions[id := p]) == TotalPermanent(positions) + p.permanent
  {
    hide PositionView.Liquidity, Total;
    var after := positions[id := p];
    assert Liquidities(after) == Liquidities(positions)[id := p.Liquidity()];
    assert Permanents(after) == Permanents(positions)[id := p.permanent];
    if id in positions {
      TotalReplace(Liquidities(positions), id, p.Liquidity());
      TotalReplace(Permanents(positions), id, p.permanent);
    } else {
      TotalInsert(Liquidities(positions), id, p.Liquidity());
      TotalInsert(Permanents(positions), id, p.permanent);
    }
  }

  lemma OwedAfter(positions: PositionMap, id: Id, p: PositionView, a: Account, stored: nat)
    ensures id in positions ==>
              Owed(positions[id := p], a, stored)
              == Owed(positions, a, stored) - a.ClaimOf(positions[id], stored) + a.ClaimOf(p, stored)
    ensures id !in positions ==> Owed(positions[id := p], a, stored) == Owed(positions, a, stored) + a.ClaimOf(p, stored)
  {
    hide Account.ClaimOf, Total;
    assert Claims(positions[id := p], a, stored) == Claims(positions, a, stored)[id := a.ClaimOf(p, stored)];
    if id in positions {
      TotalReplace(Claims(positions, a, stored), id, a.ClaimOf(p, stored));
    } else {
      TotalInsert(Claims(positions, a, stored), id, a.ClaimOf(p, stored));
    }
  }

  lemma WithoutPosition(positions: PositionMap, id: Id, a: Account, stored: nat)
    requires id in positions
    ensures TotalLiquidity(positions - {id}) == TotalLiquidity(positions) - positions[id].Liquidity()
    ensures TotalPermanent(positions - {id}) == TotalPermanent(positions) - positions[id].permanent
    ensures Owed(positions - {id}, a, stored) == Owed(positions, a, stored) - a.ClaimOf(positions[id], stored)
  {
    hide Account.ClaimOf, PositionView.Liquidity, Total;
    assert Liquidities(positions - {id}) == Liquidities(positions) - {id};
    assert Permanents(positions - {id}) == Permanents(positions) - {id};
    assert Claims(positions - {id}, a, stored) == Claims(positions, a, stored) - {id};
    TotalExtract(Liquidities(positions), id);
    TotalExtract(Permanents(positions), id);
    TotalExtract(Claims(positions, a, stored), id);
  }

  // ---------------------------------------------------------------------------------------------
  // Bounds and growth
  // ---------------------------------------------------------------------------------------------

  lemma ClaimIsNonNegative(p: PositionView, a: Account, stored: nat)
    requires a.StreamOf(p).checkpoint <= stored
    ensures 0 <= a.Scale() * a.StreamOf(p).pending <= a.ClaimOf(p, stored)
  {
  }

  /** No position is owed more than all of them. */
  lemma OwedCovers(positions: PositionMap, id: Id, a: Account, stored: nat)
    requires UpToDate(positions, a, stored)
    ensures 0 <= Owed(positions, a, stored)
    ensures id in positions ==> a.ClaimOf(positions[id], stored) <= Owed(positions, a, stored)
  {
    hide Account.ClaimOf, Account.StreamOf, Total;
    forall k | k in positions ensures a.ClaimOf(positions[k], stored) >= 0 {
      ClaimIsNonNegative(positions[k], a, stored);
    }
    TotalIsNonNegative(Claims(positions, a, stored));
    if id in positions {
      TotalCovers(Claims(positions, a, stored), id);
    }
  }

  lemma LiquidityCovers(positions: PositionMap, id: Id)
    ensures 0 <= TotalLiquidity(positions)
    ensures id in positions ==> positions[id].Liquidity() <= TotalLiquidity(positions)
  {
    hide Total;
    TotalIsNonNegative(Liquidities(positions));
    if id in positions {
      TotalCovers(Liquidities(positions), id);
    }
  }

  lemma TwoLiquiditiesCovered(positions: PositionMap, id: Id, other: Id)
    requires id in positions && other in positions && id != other
    ensures positions[id].Liquidity() + positions[other].Liquidity() <= TotalLiquidity(positions)
    ensures positions[id].permanent + positions[other].permanent <= TotalPermanent(positions)
  {
    hide PositionView.Liquidity, Total;
    var rest := positions - {id};
    assert Liquidities(rest) == Liquidities(positions) - {id};
    assert Permanents(rest) == Permanents(positions) - {id};
    TotalExtract(Liquidities(positions), id);
    TotalExtract(Permanents(positions), id);
    TotalCovers(Liquidities(rest), other);
    TotalCovers(Permanents(rest), other);
  }

  lemma TwoClaimsCovered(positions: PositionMap, id: Id, other: Id, a: Account, stored: nat)
    requires id in positions && other in positions && id != other && UpToDate(positions, a, stored)
    ensures a.ClaimOf(positions[id], stored) + a.ClaimOf(positions[other], stored) <= Owed(positions, a, stored)
  {
    hide Account.ClaimOf, Total;
    WithoutPosition(positions, id, a, stored);
    OwedCovers(positions - {id}, other, a, stored);
  }

  /** Growth of an accumulator is owed to the liquidity of all positions, whoever holds it. */
  lemma OwedGrows(positions: PositionMap, a: Account, stored: nat, later: nat)
    ensures Owed(positions, a, later) == Owed(positions, a, stored) + (later - stored) * TotalLiquidity(positions)
  {
    hide Account.ClaimOf, PositionView.Liquidity, Total;
    var growth := Scaled(Liquidities(positions), later - stored);
    forall id | id in positions
      ensures a.ClaimOf(positions[id], later) == a.ClaimOf(positions[id], stored) + growth[id]
    {
      ClaimGrows(positions[id], a, stored, later);
    }
    TotalSum(Claims(positions, a, later), Claims(positions, a, stored), growth);
    TotalScaled(Liquidities(positions), later - stored);
  }

  lemma ClaimGrows(p: PositionView, a: Account, stored: nat, later: nat)
    ensures a.ClaimOf(p, later) == a.ClaimOf(p, stored) + (later - stored) * p.Liquidity()
  {
    ClaimMoves(a.StreamOf(p), p.Liquidity(), stored, later, a.Scale());
  }

  // ---------------------------------------------------------------------------------------------
  // Outstanding vestings
  // ---------------------------------------------------------------------------------------------

  ghost function OpenVestings(vestings: map<Id, VestingView>, id: Id): map<Id, int> {
    map v | v in vestings && vestings[v].position == id :: vestings[v].Outstanding()
  }

  /** What the open vestings of a position have yet to release. */
  ghost function OutstandingOf(vestings: map<Id, VestingView>, id: Id): int {
    Total(OpenVestings(vestings, id))
  }

  lemma OutstandingAfterInsert(vestings: map<Id, VestingView>, v: Id, vesting: VestingView, id: Id)
    requires v !in vestings
    ensures OutstandingOf(vestings[v := vesting], id)
         == OutstandingOf(vestings, id) + if vesting.position == id then vesting.Outstanding() else 0
  {
    hide VestingView.Outstanding, Total;
    if vesting.position == id {
      assert OpenVestings(vestings[v := vesting], id) == OpenVestings(vestings, id)[v := vesting.Outstanding()];
      TotalInsert(OpenVestings(vestings, id), v, vesting.Outstanding());
    } else {
      assert OpenVestings(vestings[v := vesting], id) == OpenVestings(vestings, id);
    }
  }

  lemma OutstandingAfterRelease(vestings: map<Id, VestingView>, v: Id, vesting: VestingView, id: Id)
    requires v in vestings && vesting.position == vestings[v].position
    ensures OutstandingOf(vestings[v := vesting], id)
         == OutstandingOf(vestings, id)
          + if vesting.position == id then vesting.Outstanding() - vestings[v].Outstanding() else 0
  {
    hide VestingView.Outstanding, Total;
    if vesting.position == id {
      assert OpenVestings(vestings[v := vesting], id) == OpenVestings(vestings, id)[v := vesting.Outstanding()];
      TotalReplace(OpenVestings(vestings, id), v, vesting.Outstanding());
    } else {
      assert OpenVestings(vestings[v := vesting], id) == OpenVestings(vestings, id);
    }
  }

  lemma OutstandingAfterClose(vestings: map<Id, VestingView>, v: Id, id: Id)
    requires v in vestings
    ensures OutstandingOf(vestings - {v}, id)
         == OutstandingOf(vestings, id) - if vestings[v].position == id then vestings[v].Outstanding() else 0
  {
    hide VestingView.Outstanding, Total;
    if vestings[v].position == id {
      assert OpenVestings(vestings - {v}, id) == OpenVestings(vestings, id) - {v};
      TotalExtract(OpenVestings(vestings, id), v);
    } else {
      assert OpenVestings(vestings - {v}, id) == OpenVestings(vestings, id);
    }
  }

  /** A position without vested liquidity has no open vesting that still holds something. */
  lemma OpenVestingIsOutstanding(vestings: map<Id, VestingView>, v: Id, id: Id)
    requires v in vestings && vestings[v].position == id
    requires forall w :: w in vestings ==> vestings[w].Outstanding() >= 0
    ensures 0 <= vestings[v].Outstanding() <= OutstandingOf(vestings, id)
  {
    hide VestingView.Outstanding, Total;
    TotalCovers(OpenVestings(vestings, id), v);
  }
}
