/** The invariant of every run: prices in range, liquidity conserved, vestings balanced, and every vault enough for
    all that is owed out of it. */
module Solvency {
  import opened Numbers
  import opened Arithmetic
  import opened Curve
  import opened Fees
  import opened Deposits
  import opened Settlement
  import opened Rewards
  import opened Vestings
  import opened Positions
  import opened Pools
  import opened Books
  import opened Ledgers

  ghost function Stored(pool: PoolView, a: Account): nat {
    if a.Fee? then pool.fees.Get(a.token).feePerLiquidity else pool.rewards.Get(a.index).rewardPerTokenStored
  }

  /** What a vault holds beyond the protocol's and the partner's fees, or beyond the reserve of a running campaign,
      times the scale of the account. */
  ghost function Backing(l: Ledger, a: Account): int {
    if a.Fee? then
      var fees := l.pool.fees.Get(a.token);
      Q128 * (l.vaults.Get(a.token) - fees.protocolFee - fees.partnerFee)
    else
      Q192 * l.rewardVaults.Get(a.index) - Q128 * l.pool.rewards.Get(a.index).Reserved()
  }

  /** What is left of it after everything positions are owed, pending or unsettled. */
  ghost function Slack(l: Ledger, a: Account): int {
    Backing(l, a) - Owed(l.positions, a, Stored(l.pool, a))
  }

  /** `surplus / 2^128` is at least the unrounded principal of the curve in a token. */
  ghost predicate Covered(c: CurveState, token: Index, surplus: int)
    requires c.InRange()
  {
    Q128 * (c.liquidity * Unit(c, token)) <= surplus * Scale(c, token)
  }

  ghost predicate AccountSolvent(l: Ledger, a: Account)
    requires l.pool.Curve().InRange()
  {
    && UpToDate(l.positions, a, Stored(l.pool, a))
    && (if a.Fee? then Covered(l.pool.Curve(), a.token, Slack(l, a)) else Slack(l, a) >= 0)
  }

  ghost predicate Solvent(l: Ledger)
    requires l.pool.Curve().InRange()
  {
    forall a: Account :: AccountSolvent(l, a)
  }

  ghost predicate PoolSound(pool: PoolView, now: nat) {
    && InGlobalRange(pool.Curve())
    && pool.config.baseFee.Validate().Pass?
    && pool.config.percents.Valid()
    && pool.dynamicFee.Sound(now)
    && pool.rewards.zero.Sound(now) && pool.rewards.one.Sound(now)
  }

  ghost predicate LiquidityConserved(l: Ledger) {
    && l.pool.liquidity == TotalLiquidity(l.positions)
    && l.pool.permanentLockLiquidity == TotalPermanent(l.positions)
  }

  ghost predicate VestingSound(positions: PositionMap, v: VestingView, point: uint64) {
    v.position in positions && v.WellFormed() && v.ReleasedBy(point) && v.Outstanding() > 0
  }

  ghost predicate VestingsBalanced(positions: PositionMap, vestings: map<Id, VestingView>, point: uint64) {
    && (forall v :: v in vestings ==> VestingSound(positions, vestings[v], point))
    && (forall id :: id in positions ==> positions[id].vested == OutstandingOf(vestings, id))
  }

  ghost predicate Inv(l: Ledger) {
    && PoolSound(l.pool, l.Now())
    && LiquidityConserved(l)
    && VestingsBalanced(l.positions, l.vestings, l.Point())
    && Solvent(l)
  }

  // ---------------------------------------------------------------------------------------------
  // Parts of the invariant
  // ---------------------------------------------------------------------------------------------

  lemma InvConserves(l: Ledger)
    requires Inv(l)
    ensures LiquidityConserved(l) && l.pool.Curve().InRange()
  {
  }

  lemma InvSoundPool(l: Ledger)
    requires Inv(l)
    ensures PoolSound(l.pool, l.Now())
  {
  }

  lemma InvSoundReward(l: Ledger, i: Index)
    requires Inv(l)
    ensures l.pool.rewards.Get(i).Sound(l.Now())
  {
  }

  lemma InvFrom(l: Ledger)
    requires PoolSound(l.pool, l.Now()) && LiquidityConserved(l) && VestingsBalanced(l.positions, l.vestings, l.Point())
    requires l.pool.Curve().InRange() && forall a: Account :: AccountSolvent(l, a)
    ensures Inv(l)
  {
  }

  lemma InvBalances(l: Ledger)
    requires Inv(l)
    ensures VestingsBalanced(l.positions, l.vestings, l.Point())
  {
  }

  lemma SameBacking(l: Ledger, m: Ledger, a: Account)
    requires l.pool == m.pool && l.vaults == m.vaults && l.rewardVaults == m.rewardVaults
    ensures Backing(l, a) == Backing(m, a)
  {
  }

  // ---------------------------------------------------------------------------------------------
  // Coverage
  // ---------------------------------------------------------------------------------------------

  lemma CoveredMono(c: CurveState, token: Index, surplus: int, more: int)
    requires c.InRange() && Covered(c, token, surplus) && surplus <= more
    ensures Covered(c, token, more)
  {
    hide Unit;
    ScalesArePositive(c);
    hide Scale;
    MulMono(surplus, more, Scale(c, token));
  }

  lemma CoveredIsNonNegative(c: CurveState, token: Index, surplus: int)
    requires c.InRange() && Covered(c, token, surplus)
    ensures surplus >= 0
  {
    hide Unit;
    ScalesArePositive(c);
    hide Scale;
    assert c.liquidity * Unit(c, token) >= 0;
    CancelFactor(0, surplus, Scale(c, token));
  }

  /** Everything positions are owed fits what backs it. */
  lemma AccountIsBacked(l: Ledger, a: Account)
    requires Inv(l)
    ensures Slack(l, a) >= 0 && 0 <= Owed(l.positions, a, Stored(l.pool, a)) <= Backing(l, a)
  {
    hide Backing, Stored, Covered, Owed, LiquidityConserved, VestingsBalanced;
    assert AccountSolvent(l, a);
    OwedCovers(l.positions, 0, a, Stored(l.pool, a));
    if a.Fee? {
      CoveredIsNonNegative(l.pool.Curve(), a.token, Slack(l, a));
    }
  }

  ghost function Balance(l: Ledger, a: Account): uint64 {
    if a.Fee? then l.vaults.Get(a.token) else l.rewardVaults.Get(a.index)
  }

  lemma ReservedIsNonNegative(r: RewardView, now: nat)
    requires r.Sound(now)
    ensures r.Reserved() >= 0
  {
    var duration: nat :| r.WithinCampaign(now, duration);
  }

  lemma BackingBelowBalance(l: Ledger, a: Account)
    requires PoolSound(l.pool, l.Now())
    ensures Backing(l, a) <= a.Scale() * Balance(l, a)
  {
    hide RewardView.Reserved, RewardView.Sound, DynamicFee.Sound, InGlobalRange, BaseFee.Validate;
    ReservedIsNonNegative(l.pool.rewards.zero, l.Now());
    ReservedIsNonNegative(l.pool.rewards.one, l.Now());
  }

  lemma ClaimIsBacked(l: Ledger, id: Id, a: Account)
    requires Inv(l) && id in l.positions
    ensures a.StreamOf(l.positions[id]).checkpoint <= Stored(l.pool, a)
    ensures 0 <= a.Scale() * a.StreamOf(l.positions[id]).pending <= a.ClaimOf(l.positions[id], Stored(l.pool, a))
         <= Owed(l.positions, a, Stored(l.pool, a)) <= Backing(l, a) <= a.Scale() * Balance(l, a)
  {
    hide Backing, Stored, Covered, Owed, LiquidityConserved, VestingsBalanced, Balance, Account.ClaimOf, Account.Scale;
    assert AccountSolvent(l, a);
    AccountIsBacked(l, a);
    OwedCovers(l.positions, id, a, Stored(l.pool, a));
    ClaimIsNonNegative(l.positions[id], a, Stored(l.pool, a));
    BackingBelowBalance(l, a);
  }

  lemma LiquidityFits(l: Ledger, id: Id)
    requires Inv(l) && id in l.positions
    ensures l.positions[id].Liquidity() <= l.pool.liquidity
    ensures l.positions[id].TotalLiquidity() == Ok(l.positions[id].Liquidity())
  {
    hide Solvent, VestingsBalanced, PoolSound, TotalLiquidity, TotalPermanent;
    LiquidityCovers(l.positions, id);
  }

  // ---------------------------------------------------------------------------------------------
  // A position is settled
  // ---------------------------------------------------------------------------------------------

  ghost predicate SameHoldings(p: PositionView, q: PositionView) {
    p.unlocked == q.unlocked && p.vested == q.vested && p.permanent == q.permanent
  }

  ghost predicate AccountKept(p: PositionView, q: PositionView, pool: PoolView, a: Account) {
    && a.StreamOf(q).checkpoint <= Stored(pool, a) && a.StreamOf(q).claimed == a.StreamOf(p).claimed
    && a.ClaimOf(q, Stored(pool, a)) <= a.ClaimOf(p, Stored(pool, a)) < a.ClaimOf(q, Stored(pool, a)) + a.Scale()
  }

  /** The holder of `q` is owed no more than the holder of `p`, and in no account a whole unit less. */
  ghost predicate NoRicher(p: PositionView, q: PositionView, pool: PoolView) {
    forall a: Account :: AccountKept(p, q, pool, a)
  }

  ghost predicate Settled(p: PositionView, pool: PoolView, a: Account) {
    a.StreamOf(p).checkpoint == Stored(pool, a)
  }

  /** What one settlement of a position guarantees. */
  ghost predicate Settles(p: PositionView, q: PositionView, pool: PoolView) {
    SameHoldings(p, q) && NoRicher(p, q, pool)
  }

  lemma StreamSettles(l: Ledger, id: Id, a: Account, liquidity: uint128, stored: uint256)
    requires Inv(l) && id in l.positions
    requires liquidity == l.positions[id].Liquidity() && stored == Stored(l.pool, a)
    ensures var s := a.StreamOf(l.positions[id]);
            var r := s.Settle(liquidity, stored, a.Scale());
            && r.Ok? && r.value.checkpoint == stored && r.value.claimed == s.claimed
            && r.value.Claim(liquidity, stored, a.Scale()) <= s.Claim(liquidity, stored, a.Scale())
             < r.value.Claim(liquidity, stored, a.Scale()) + a.Scale()
  {
    hide Stored, Stream.Settle, Balance;
    ClaimIsBacked(l, id, a);
    hide Inv, Owed;
    var s := a.StreamOf(l.positions[id]);
    CoveredClaimSettles(s, liquidity, stored, a.Scale(), Balance(l, a));
    SettleBounds(s, liquidity, stored, a.Scale());
  }

  /** A position that keeps its liquidity gains or loses only in the accounts where its streams differ. */
  lemma KeptWhereStreamsAre(p: PositionView, q: PositionView, pool: PoolView, a: Account)
    requires SameHoldings(p, q) && a.StreamOf(q).checkpoint <= Stored(pool, a) && a.StreamOf(q).claimed == a.StreamOf(p).claimed
    requires a.StreamOf(q).Claim(p.Liquidity(), Stored(pool, a), a.Scale())
          <= a.StreamOf(p).Claim(p.Liquidity(), Stored(pool, a), a.Scale())
           < a.StreamOf(q).Claim(p.Liquidity(), Stored(pool, a), a.Scale()) + a.Scale()
    ensures AccountKept(p, q, pool, a)
  {
    hide Stream.Claim, Stored, Account.StreamOf, Account.Scale;
  }

  /** Settling the fees of a position always succeeds and makes nobody richer. */
  lemma FeesSettle(l: Ledger, id: Id)
    requires Inv(l) && id in l.positions
    ensures var p := l.positions[id];
            var r := p.UpdateFee(l.pool.FeePerLiquidity());
            && r.Ok? && Settles(p, r.value, l.pool) && r.value.rewards == p.rewards
            && Settled(r.value, l.pool, Fee(TOKEN_A)) && Settled(r.value, l.pool, Fee(TOKEN_B))
  {
    hide Inv, Stream.Settle, Stream.Claim, AccountKept;
    var p := l.positions[id];
    LiquidityFits(l, id);
    StreamSettles(l, id, Fee(TOKEN_A), p.Liquidity(), l.pool.fees.zero.feePerLiquidity);
    StreamSettles(l, id, Fee(TOKEN_B), p.Liquidity(), l.pool.fees.one.feePerLiquidity);
    var q := p.UpdateFee(l.pool.FeePerLiquidity()).value;
    forall a: Account ensures AccountKept(p, q, l.pool, a) {
      ClaimIsBacked(l, id, a);
      IdleClaim(a.StreamOf(p), a.StreamOf(q), Stored(l.pool, a), a.Scale());
      KeptWhereStreamsAre(p, q, l.pool, a);
    }
  }

  /** Without liquidity only the pending amount counts. */
  lemma IdleClaim(s: Stream, t: Stream, stored: nat, scale: nat)
    ensures s.pending == t.pending ==> s.Claim(0, stored, scale) == t.Claim(0, stored, scale)
  {
  }

  /** Two settlements in a row, of different accounts. */
  lemma KeptTwice(p: PositionView, q: PositionView, r: PositionView, pool: PoolView, a: Account)
    requires SameHoldings(p, q) && SameHoldings(q, r) && AccountKept(p, q, pool, a) && AccountKept(q, r, pool, a)
    requires a.StreamOf(q) == a.StreamOf(p) || a.StreamOf(r) == a.StreamOf(q)
    ensures AccountKept(p, r, pool, a)
  {
    hide Stored, Account.Scale, Account.StreamOf;
  }

  lemma KeptAsIs(l: Ledger, id: Id)
    requires Inv(l) && id in l.positions
    ensures NoRicher(l.positions[id], l.positions[id], l.pool)
  {
    hide Inv, Stored, Account.ClaimOf, Owed, Backing, Balance;
    forall a: Account ensures AccountKept(l.positions[id], l.positions[id], l.pool, a) {
      ClaimIsBacked(l, id, a);
    }
  }

  lemma UninitializedHasNothing(l: Ledger, i: Index)
    requires Inv(l)
    ensures !l.pool.rewards.Get(i).initialized ==> l.pool.rewards.Get(i).rewardPerTokenStored == 0
  {
    hide Inv, RewardView.WithinCampaign;
    InvSoundReward(l, i);
  }

  lemma RewardSettles(l: Ledger, id: Id, i: Index)
    requires Inv(l) && id in l.positions
    ensures var p := l.positions[id];
            p.Liquidity() <= U128_MAX &&
            var r := p.UpdateReward(i, p.Liquidity(), l.pool.rewards.Get(i));
            && r.Ok? && Settles(p, r.value, l.pool) && r.value.fees == p.fees
            && r.value.rewards == p.rewards.Set(i, r.value.rewards.Get(i))
            && Settled(r.value, l.pool, Reward(i))
  {
    hide Inv, Stream.Settle, Stream.Claim, AccountKept;
    UninitializedHasNothing(l, i);
    var p := l.positions[id];
    LiquidityFits(l, id);
    ClaimIsBacked(l, id, Reward(i));
    StreamSettles(l, id, Reward(i), p.Liquidity(), l.pool.rewards.Get(i).rewardPerTokenStored);
    var q := p.UpdateReward(i, p.Liquidity(), l.pool.rewards.Get(i)).value;
    forall a: Account ensures AccountKept(p, q, l.pool, a) {
      ClaimIsBacked(l, id, a);
      KeptWhereStreamsAre(p, q, l.pool, a);
    }
  }

  /** Vestings only look at the vested liquidity of positions. */
  lemma VestingsKept(positions: PositionMap, later: PositionMap, vestings: map<Id, VestingView>, point: uint64)
    requires VestingsBalanced(positions, vestings, point) && positions.Keys == later.Keys
    requires forall id :: id in positions ==> later[id].vested == positions[id].vested
    ensures VestingsBalanced(later, vestings, point)
  {
    hide OutstandingOf, VestingView.WellFormed, VestingView.ReleasedBy, VestingView.Outstanding;
  }

  lemma LiquidityKept(positions: PositionMap, id: Id, q: PositionView)
    requires id in positions && SameHoldings(positions[id], q)
    ensures TotalLiquidity(positions[id := q]) == TotalLiquidity(positions)
    ensures TotalPermanent(positions[id := q]) == TotalPermanent(positions)
  {
    LiquidityAfter(positions, id, q);
  }

  /** Exchanging a position for a settled one keeps the invariant. */
  lemma ReplaceKeeps(l: Ledger, id: Id, q: PositionView)
    requires Inv(l) && id in l.positions && Settles(l.positions[id], q, l.pool)
    ensures Inv(l.With(id, q))
  {
    hide NoRicher, AccountSolvent, OutstandingOf, VestingSound, TotalLiquidity, TotalPermanent;
    assert l.pool.Curve().InRange();
    hide PoolSound;
    var m := l.With(id, q);
    LiquidityKept(l.positions, id, q);
    VestingsKept(l.positions, m.positions, l.vestings, l.Point());
    forall a: Account ensures AccountSolvent(m, a) {
      ReplaceAccount(l, id, q, a);
    }
  }

  lemma ReplaceAccount(l: Ledger, id: Id, q: PositionView, a: Account)
    requires Inv(l) && id in l.positions && Settles(l.positions[id], q, l.pool)
    ensures AccountSolvent(l.With(id, q), a)
  {
    var m := l.With(id, q);
    assert AccountSolvent(l, a) && AccountKept(l.positions[id], q, l.pool, a);
    OwedAfter(l.positions, id, q, a, Stored(l.pool, a));
    hide Account.ClaimOf, Owed, Stored, Inv, Covered;
    assert Backing(m, a) == Backing(l, a);
    if a.Fee? {
      CoveredMono(l.pool.Curve(), a.token, Slack(l, a), Slack(m, a));
    }
  }

  // ---------------------------------------------------------------------------------------------
  // Rewards accrue
  // ---------------------------------------------------------------------------------------------

  /** What one update of a campaign guarantees: every elapsed second is streamed or counted, and the liquidity is handed
      no more than is released from the reserve. */
  ghost predicate Accrues(r: RewardView, u: RewardView, supply: nat, now: nat) {
    && u.Sound(now)
    && u == r.(rewardPerTokenStored := u.rewardPerTokenStored, lastUpdateTime := u.lastUpdateTime,
               emptySeconds := u.emptySeconds)
    && r.rewardPerTokenStored <= u.rewardPerTokenStored
    && supply * (u.rewardPerTokenStored - r.rewardPerTokenStored) + Q128 * u.Reserved() <= Q128 * r.Reserved()
    && (if r.initialized then Streamed(r, u, supply, now) && u.Reserved() == r.Reserved() - Released(r, supply, now)
        else u == r)
  }

  /** The accumulator of a campaign has room for what has to be streamed. */
  ghost predicate RewardFits(r: RewardView, supply: nat, now: nat) {
    !r.initialized || supply == 0 || GrowthFits(r, supply, now)
  }

  lemma StreamsAccrue(r: RewardView, u: RewardView, supply: nat, now: nat, duration: nat)
    requires r.initialized && r.Sound(now) && Streams(r, u, supply, now, duration)
    ensures Accrues(r, u, supply, now)
  {
    assert u.WithinCampaign(now, duration);
    hide RewardView.WithinCampaign, RewardView.Reserved;
    if supply == 0 {
      assert supply * (u.rewardPerTokenStored - r.rewardPerTokenStored) == 0;
    }
  }

  lemma RewardAccrues(r: RewardView, supply: uint128, now: uint64)
    requires r.Sound(now)
    ensures var u := r.UpdateRewards(supply, now);
            && (u.Ok? <==> RewardFits(r, supply, now))
            && (u.Ok? ==> Accrues(r, u.value, supply, now))
            && (u.Err? ==> u.error == MathOverflow)
  {
    if r.initialized {
      var duration: nat :| r.WithinCampaign(now, duration);
      hide RewardView.WithinCampaign, RewardView.Reserved, Streams, GrowthFits, Accrues, RewardView.UpdateRewards;
      UpdateKeepsCampaign(r, supply, now, duration);
      if r.UpdateRewards(supply, now).Ok? {
        StreamsAccrue(r, r.UpdateRewards(supply, now).value, supply, now, duration);
      }
    }
  }

  /** The pool after an accrual, as far as solvency is concerned. */
  ghost predicate AccruesTo(l: Ledger, m: Ledger) {
    && m == l.(pool := l.pool.(rewards := m.pool.rewards))
    && Accrues(l.pool.rewards.zero, m.pool.rewards.zero, l.pool.liquidity, l.Now())
    && Accrues(l.pool.rewards.one, m.pool.rewards.one, l.pool.liquidity, l.Now())
  }

  /** Both accumulators have room. */
  ghost predicate RewardsFit(l: Ledger) {
    RewardFits(l.pool.rewards.zero, l.pool.liquidity, l.Now()) && RewardFits(l.pool.rewards.one, l.pool.liquidity, l.Now())
  }

  lemma AccrueRewardsIs(l: Ledger)
    requires PoolSound(l.pool, l.Now())
    ensures var r := l.AccrueRewards();
            && (r.Ok? <==> RewardsFit(l))
            && (r.Ok? ==> AccruesTo(l, r.value))
            && (r.Err? ==> r.error == MathOverflow)
  {
    hide RewardView.UpdateRewards, Accrues, RewardFits;
    RewardAccrues(l.pool.rewards.zero, l.pool.liquidity, l.Now());
    RewardAccrues(l.pool.rewards.one, l.pool.liquidity, l.Now());
  }

  lemma AccruedReward(l: Ledger, m: Ledger, i: Index)
    requires l.pool.Curve().InRange() && AccountSolvent(l, Reward(i)) && LiquidityConserved(l) && AccruesTo(l, m)
    ensures m.pool.Curve().InRange() && AccountSolvent(m, Reward(i))
  {
    hide Owed, TotalLiquidity, TotalPermanent, Accrues, RewardView.Reserved, CurveState.InRange, Account.StreamOf;
    var r, u := l.pool.rewards.Get(i), m.pool.rewards.Get(i);
    OwedGrows(l.positions, Reward(i), r.rewardPerTokenStored, u.rewardPerTokenStored);
    GrowthIsReleased(r, u, l.pool.liquidity, l.Now());
  }

  lemma AccruedAccount(l: Ledger, m: Ledger, a: Account)
    requires Inv(l) && AccruesTo(l, m)
    ensures AccountSolvent(m, a)
  {
    hide Owed, Accrues, Slack, UpToDate, LiquidityConserved;
    InvConserves(l);
    assert AccountSolvent(l, a);
    if a.Reward? {
      AccruedReward(l, m, a.index);
    } else {
      hide Inv;
      SameAccount(l, m, a);
    }
  }

  /** An account whose vault, fees, accumulator and positions stay the same stays as it was. */
  lemma SameAccount(l: Ledger, m: Ledger, a: Account)
    requires l.positions == m.positions
    requires if a.Fee? then
               l.vaults.Get(a.token) == m.vaults.Get(a.token) && l.pool.fees.Get(a.token) == m.pool.fees.Get(a.token)
             else
               l.rewardVaults.Get(a.index) == m.rewardVaults.Get(a.index) && l.pool.rewards.Get(a.index) == m.pool.rewards.Get(a.index)
    ensures Stored(l.pool, a) == Stored(m.pool, a) && Backing(l, a) == Backing(m, a) && Slack(l, a) == Slack(m, a)
  {
  }

  /** An update hands the positions together all that the elapsed seconds stream, but for less than one unit of the
      accumulator: nothing is kept from them. */
  lemma AccrualIsOwed(l: Ledger, m: Ledger, i: Index)
    requires LiquidityConserved(l) && AccruesTo(l, m) && l.pool.rewards.Get(i).initialized && l.pool.liquidity > 0
    ensures var streamed := Q128 * (l.pool.rewards.Get(i).rewardRate * Elapsed(l.pool.rewards.Get(i), l.Now()));
            var owed := Owed(m.positions, Reward(i), Stored(m.pool, Reward(i))) - Owed(l.positions, Reward(i), Stored(l.pool, Reward(i)));
            owed <= streamed < owed + l.pool.liquidity
  {
    hide Owed, TotalLiquidity, TotalPermanent, RewardView.Reserved, RewardView.Sound, Elapsed;
    var r, u := l.pool.rewards.Get(i), m.pool.rewards.Get(i);
    OwedGrows(l.positions, Reward(i), r.rewardPerTokenStored, u.rewardPerTokenStored);
  }

  lemma GrowthIsReleased(r: RewardView, u: RewardView, supply: nat, now: nat)
    requires Accrues(r, u, supply, now)
    ensures r.rewardPerTokenStored <= u.rewardPerTokenStored
    ensures (u.rewardPerTokenStored - r.rewardPerTokenStored) * supply <= Q128 * r.Reserved() - Q128 * u.Reserved()
  {
    hide RewardView.Sound, RewardView.Reserved;
  }

  lemma AccrualKeeps(l: Ledger, m: Ledger)
    requires Inv(l) && AccruesTo(l, m)
    ensures Inv(m)
  {
    hide AccountSolvent, TotalLiquidity, TotalPermanent, OutstandingOf, VestingSound, DynamicFee.Sound, RewardView.Reserved,
         BaseFee.Validate;
    forall a: Account ensures AccountSolvent(m, a) {
      AccruedAccount(l, m, a);
    }
    assert PoolSound(m.pool, m.Now());
  }
}
