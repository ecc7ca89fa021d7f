/** Every handler that settles, deposits, withdraws or pays keeps the invariant, and no vault ever falls short. */
module Safety {
  import opened Numbers
  import opened Arithmetic
  import opened Curve
  import opened Fees
  import opened Deposits
  import opened Rewards
  import opened Positions
  import opened Pools
  import opened Books
  import opened Ledgers
  import opened Solvency

  /** A handler keeps the invariant, and if it fails it is not for lack of funds. */
  ghost predicate Safe(r: Result<Ledger>) {
    if r.Ok? then Inv(r.value) else r.error != VaultShortfall
  }

  ghost predicate AllSettled(p: PositionView, pool: PoolView) {
    forall a: Account :: Settled(p, pool, a)
  }

  // ---------------------------------------------------------------------------------------------
  // Settlement steps
  // ---------------------------------------------------------------------------------------------

  /** `m` differs from `l` by what one position is owed, and there by less than a unit in each account. */
  ghost predicate SettledAt(l: Ledger, m: Ledger, id: Id) {
    && id in l.positions && id in m.positions
    && m == l.(positions := l.positions[id := m.positions[id]])
    && Settles(l.positions[id], m.positions[id], l.pool)
  }

  lemma SettleFeeIs(l: Ledger, id: Id)
    requires Inv(l) && id in l.positions
    ensures var r := l.SettleFee(id);
            && r.Ok? && Inv(r.value) && SettledAt(l, r.value, id)
            && r.value.positions[id].rewards == l.positions[id].rewards
            && Settled(r.value.positions[id], l.pool, Fee(TOKEN_A)) && Settled(r.value.positions[id], l.pool, Fee(TOKEN_B))
  {
    hide Inv, NoRicher, PositionView.UpdateFee, Stored;
    FeesSettle(l, id);
    ReplaceKeeps(l, id, l.positions[id].UpdateFee(l.pool.FeePerLiquidity()).value);
  }

  lemma SettleRewardIs(l: Ledger, id: Id)
    requires Inv(l) && id in l.positions
    ensures var r := l.SettleReward(id);
            && r.Ok? && Inv(r.value) && SettledAt(l, r.value, id)
            && r.value.positions[id].fees == l.positions[id].fees
            && Settled(r.value.positions[id], l.pool, Reward(0)) && Settled(r.value.positions[id], l.pool, Reward(1))
  {
    hide Inv, NoRicher, PositionView.UpdateReward;
    LiquidityFits(l, id);
    RewardSettles(l, id, 0);
    var liquidity := l.positions[id].Liquidity();
    var first := l.positions[id].UpdateReward(0, liquidity, l.pool.rewards.zero).value;
    ReplaceKeeps(l, id, first);
    var m := l.With(id, first);
    RewardSettles(m, id, 1);
    var second := first.UpdateReward(1, liquidity, l.pool.rewards.one).value;
    ReplaceKeeps(m, id, second);
    assert m.With(id, second) == l.With(id, second);
    RewardsSettleTwice(l.positions[id], first, second, l.pool);
  }

  /** The two rewards are settled one after the other. */
  lemma RewardsSettleTwice(p: PositionView, q: PositionView, r: PositionView, pool: PoolView)
    requires Settles(p, q, pool) && q.rewards == p.rewards.Set(0, q.rewards.Get(0)) && q.fees == p.fees
    requires Settles(q, r, pool) && r.rewards == q.rewards.Set(1, r.rewards.Get(1)) && r.fees == q.fees
    ensures Settles(p, r, pool)
  {
    hide AccountKept;
    forall a: Account ensures AccountKept(p, r, pool, a) {
      assert AccountKept(p, q, pool, a) && AccountKept(q, r, pool, a);
      KeptTwice(p, q, r, pool, a);
    }
  }

  /** `m` is `l` after its campaigns accrued and position `id` was settled with them. */
  ghost predicate RewardedAt(l: Ledger, m: Ledger, id: Id) {
    && AccruesTo(l, l.(pool := m.pool))
    && SettledAt(l.(pool := m.pool), m, id)
    && m.positions[id].fees == l.positions[id].fees
    && Settled(m.positions[id], m.pool, Reward(0)) && Settled(m.positions[id], m.pool, Reward(1))
  }

  lemma NothingAccrued(l: Ledger, id: Id, i: Index)
    requires Inv(l) && id in l.positions && !l.pool.rewards.Get(i).initialized
    ensures Settled(l.positions[id], l.pool, Reward(i))
  {
    ClaimIsBacked(l, id, Reward(i));
  }

  lemma NothingAccrues(l: Ledger)
    requires Inv(l) && !l.pool.RewardInitialized()
    ensures AccruesTo(l, l) && RewardsFit(l)
  {
    hide Inv, RewardView.Sound, RewardView.Reserved;
    InvSoundReward(l, 0);
    InvSoundReward(l, 1);
  }

  /** Settling rewards only fails when an accumulator overflows. */
  lemma UpdateRewardsIs(l: Ledger, id: Id)
    requires Inv(l) && id in l.positions
    ensures var r := l.UpdateRewards(id);
            && (r.Ok? <==> RewardsFit(l))
            && (r.Ok? ==> Inv(r.value) && RewardedAt(l, r.value, id))
            && (r.Err? ==> r.error == MathOverflow)
  {
    hide Ledger.AccrueRewards, Ledger.SettleReward, Settled, Settles, Accrues, RewardFits;
    if l.pool.RewardInitialized() {
      AccrueRewardsIs(l);
      var accrued := l.AccrueRewards();
      if accrued.Ok? {
        AccrualKeeps(l, accrued.value);
        SettleRewardIs(accrued.value, id);
        hide Inv;
      }
    } else {
      NothingAccrued(l, id, 0);
      NothingAccrued(l, id, 1);
      NothingAccrues(l);
      SettlesAsIs(l, id);
      assert l.positions == l.positions[id := l.positions[id]];
    }
  }

  lemma SettlesAsIs(l: Ledger, id: Id)
    requires Inv(l) && id in l.positions
    ensures Settles(l.positions[id], l.positions[id], l.pool)
  {
    KeptAsIs(l, id);
  }

  // ---------------------------------------------------------------------------------------------
  // One position and one vault change
  // ---------------------------------------------------------------------------------------------

  /** The slack of an account moves with its backing and against the claim of the position that changes. */
  lemma SlackAfter(l: Ledger, m: Ledger, id: Id, a: Account)
    requires id in l.positions && id in m.positions && m.positions == l.positions[id := m.positions[id]]
    requires Stored(m.pool, a) == Stored(l.pool, a) && UpToDate(l.positions, a, Stored(l.pool, a))
    requires a.StreamOf(m.positions[id]).checkpoint <= Stored(l.pool, a)
    ensures UpToDate(m.positions, a, Stored(m.pool, a))
    ensures var stored := Stored(l.pool, a);
            Slack(m, a) - Slack(l, a)
            == Backing(m, a) - Backing(l, a) + a.ClaimOf(l.positions[id], stored) - a.ClaimOf(m.positions[id], stored)
  {
    hide Backing, Stored, Owed, Account.ClaimOf;
    OwedAfter(l.positions, id, m.positions[id], a, Stored(l.pool, a));
  }

  lemma SolventWithMore(l: Ledger, m: Ledger, a: Account)
    requires l.pool.Curve().InRange() && AccountSolvent(l, a) && m.pool.Curve() == l.pool.Curve()
    requires UpToDate(m.positions, a, Stored(m.pool, a)) && Slack(l, a) <= Slack(m, a)
    ensures AccountSolvent(m, a)
  {
    hide Slack, Covered, Stored, UpToDate, CurveState.InRange;
    if a.Fee? {
      CoveredMono(l.pool.Curve(), a.token, Slack(l, a), Slack(m, a));
    }
  }

  /** Positions are owed the same whenever liquidity and streams are the same. */
  lemma SameClaim(p: PositionView, q: PositionView, a: Account, stored: nat)
    requires p.Liquidity() == q.Liquidity() && a.StreamOf(p) == a.StreamOf(q)
    ensures a.ClaimOf(p, stored) == a.ClaimOf(q, stored)
  {
  }

  /** Once settled, a position is owed just what is pending, whatever its liquidity. */
  lemma SettledClaimIs(p: PositionView, pool: PoolView, a: Account)
    requires Settled(p, pool, a)
    ensures a.ClaimOf(p, Stored(pool, a)) == a.Scale() * a.StreamOf(p).pending
  {
  }

  /** A position moves liquidity between its buckets; nothing else changes but the permanent lock total. */
  lemma ShiftKeepsAccount(l: Ledger, m: Ledger, id: Id, a: Account)
    requires Inv(l) && id in l.positions && id in m.positions
    requires m.positions == l.positions[id := m.positions[id]]
    requires m.pool == l.pool.(permanentLockLiquidity := m.pool.permanentLockLiquidity)
    requires m.vaults == l.vaults && m.rewardVaults == l.rewardVaults
    requires var p, q := l.positions[id], m.positions[id];
             p.Liquidity() == q.Liquidity() && p.fees == q.fees && p.rewards == q.rewards
    ensures AccountSolvent(m, a)
  {
    assert AccountSolvent(l, a);
    assert Stored(m.pool, a) == Stored(l.pool, a) && Backing(m, a) == Backing(l, a);
    SameClaim(l.positions[id], m.positions[id], a, Stored(l.pool, a));
    hide Inv, Backing, Slack, Stored, Covered, Account.ClaimOf;
    SlackAfter(l, m, id, a);
    SolventWithMore(l, m, a);
  }

  // ---------------------------------------------------------------------------------------------
  // Deposits and withdrawals
  // ---------------------------------------------------------------------------------------------

  /** `paid` covers the exact worth of `delta` units of liquidity; both are negative for a withdrawal. */
  ghost predicate PaysFor(c: CurveState, token: Index, delta: int, paid: int)
    requires c.InRange()
  {
    delta * Unit(c, token) <= paid * Scale(c, token)
  }

  lemma CoveredAfter(l: nat, delta: int, unit: nat, surplus: int, paid: int, scale: nat)
    requires Q128 * (l * unit) <= surplus * scale && delta * unit <= paid * scale
    ensures Q128 * ((l + delta) * unit) <= (surplus + Q128 * paid) * scale
  {
    assert (l + delta) * unit == l * unit + delta * unit;
    MulMono(delta * unit, paid * scale, Q128);
    assert (surplus + Q128 * paid) * scale == surplus * scale + Q128 * (paid * scale);
  }

  /** Position `id` gains `delta` unlocked liquidity against `paid` of each token. */
  ghost predicate LiquidityMoves(l: Ledger, m: Ledger, id: Id, delta: int, paid: Pair<int>) {
    && id in l.positions && id in m.positions
    && m == l.(positions := l.positions[id := m.positions[id]], pool := l.pool.(liquidity := m.pool.liquidity),
               vaults := m.vaults)
    && m.positions[id] == l.positions[id].(unlocked := m.positions[id].unlocked)
    && m.positions[id].unlocked == l.positions[id].unlocked + delta
    && m.pool.liquidity == l.pool.liquidity + delta
    && m.vaults.zero == l.vaults.zero + paid.zero && m.vaults.one == l.vaults.one + paid.one
  }

  /** What adding or removing liquidity does to the ledger: one position, the pool's liquidity and the two vaults change
      as stated, campaigns accrue, and everything else stays. */
  ghost predicate LiquidityChanged(l: Ledger, m: Ledger, id: Id, delta: int, paid: Pair<int>) {
    && id in l.positions && id in m.positions
    && SameHoldings(l.positions[id].(unlocked := m.positions[id].unlocked), m.positions[id])
    && m.positions[id].unlocked == l.positions[id].unlocked + delta
    && m.pool.liquidity == l.pool.liquidity + delta
    && m.pool == l.pool.(liquidity := m.pool.liquidity, rewards := m.pool.rewards)
    && m.vaults.zero == l.vaults.zero + paid.zero && m.vaults.one == l.vaults.one + paid.one
    && m == l.(positions := l.positions[id := m.positions[id]], pool := m.pool, vaults := m.vaults)
  }

  /** The stream of an account moved up to the accumulator: what is pending is the whole claim, rounded down. */
  ghost predicate SettledStream(p: PositionView, q: PositionView, pool: PoolView, a: Account) {
    && Settled(q, pool, a) && a.StreamOf(q).claimed == a.StreamOf(p).claimed
    && a.Scale() * a.StreamOf(q).pending <= a.ClaimOf(p, Stored(pool, a)) < a.Scale() * a.StreamOf(q).pending + a.Scale()
  }

  /** In every account position `id` has pending, to the unit, what it was owed once the campaigns accrued. */
  ghost predicate AccruedAndSettled(l: Ledger, m: Ledger, id: Id)
    requires id in l.positions && id in m.positions
  {
    && AccruesTo(l, l.(pool := l.pool.(rewards := m.pool.rewards)))
    && forall a: Account :: SettledStream(l.positions[id], m.positions[id], m.pool, a)
  }

  lemma ChangedAfterSettling(l: Ledger, r: Ledger, s: Ledger, m: Ledger, id: Id, delta: int, paid: Pair<int>)
    requires RewardedAt(l, r, id) && SettledAt(r, s, id) && LiquidityMoves(s, m, id, delta, paid)
    ensures LiquidityChanged(l, m, id, delta, paid)
  {
    hide Settled, NoRicher, Accrues;
  }

  /** Two settlements that leave all accounts settled. */
  lemma SettledTwice(p: PositionView, q: PositionView, r: PositionView, pool: PoolView, a: Account)
    requires SameHoldings(p, q) && SameHoldings(q, r) && AccountKept(p, q, pool, a) && AccountKept(q, r, pool, a)
    requires a.StreamOf(q) == a.StreamOf(p) || a.StreamOf(r) == a.StreamOf(q)
    requires Settled(r, pool, a)
    ensures SettledStream(p, r, pool, a)
  {
    KeptTwice(p, q, r, pool, a);
    SettledClaimIs(r, pool, a);
    hide Stored, Account.Scale, Account.StreamOf, Account.ClaimOf;
  }

  lemma SameStreamSettled(p: PositionView, q: PositionView, r: PositionView, pool: PoolView, a: Account)
    requires SettledStream(p, q, pool, a) && a.StreamOf(r) == a.StreamOf(q)
    ensures SettledStream(p, r, pool, a)
  {
  }

  lemma AllStreamsSettled(l: Ledger, r: Ledger, s: Ledger, m: Ledger, id: Id)
    requires RewardedAt(l, r, id) && SettledAt(r, s, id) && s.positions[id].rewards == r.positions[id].rewards
    requires AllSettled(s.positions[id], s.pool) && id in m.positions
    requires m.pool == s.pool.(liquidity := m.pool.liquidity)
    requires m.positions[id] == s.positions[id].(unlocked := m.positions[id].unlocked)
    ensures id in l.positions && AccruedAndSettled(l, m, id)
  {
    hide Settled, AccountKept, Accrues, SettledStream;
    var p, q, t := l.positions[id], r.positions[id], s.positions[id];
    forall a: Account ensures SettledStream(p, m.positions[id], m.pool, a) {
      assert AccountKept(p, q, r.pool, a) && AccountKept(q, t, r.pool, a) && Settled(t, r.pool, a);
      SettledTwice(p, q, t, r.pool, a);
      SameStreamSettled(p, t, m.positions[id], r.pool, a);
      SameStored(r.pool, m.pool, p, m.positions[id], a);
    }
  }

  lemma SameStored(pool: PoolView, later: PoolView, p: PositionView, q: PositionView, a: Account)
    requires later.fees == pool.fees && later.rewards == pool.rewards && SettledStream(p, q, pool, a)
    ensures SettledStream(p, q, later, a)
  {
    assert Stored(pool, a) == Stored(later, a);
    hide Stored, Account.ClaimOf, Account.Scale;
  }

  lemma MovedAccount(l: Ledger, m: Ledger, id: Id, delta: int, paid: Pair<int>, a: Account)
    requires l.pool.Curve().InRange() && AccountSolvent(l, a)
    requires LiquidityMoves(l, m, id, delta, paid) && Settled(l.positions[id], l.pool, a)
    requires a.Fee? ==> PaysFor(l.pool.Curve(), a.token, delta, paid.Get(a.token))
    ensures AccountSolvent(m, a)
  {
    assert Stored(m.pool, a) == Stored(l.pool, a);
    assert Backing(m, a) == Backing(l, a) + if a.Fee? then Q128 * paid.Get(a.token) else 0;
    SettledClaimIs(l.positions[id], l.pool, a);
    SettledClaimIs(m.positions[id], m.pool, a);
    assert a.StreamOf(l.positions[id]) == a.StreamOf(m.positions[id]);
    hide Backing, Slack, Stored, Account.ClaimOf;
    SlackAfter(l, m, id, a);
    if a.Fee? {
      CoveredAfter(l.pool.liquidity, delta, Unit(l.pool.Curve(), a.token), Slack(l, a), paid.Get(a.token),
                   Scale(l.pool.Curve(), a.token));
    }
  }

  lemma MovedHas(l: Ledger, m: Ledger, id: Id, delta: int, paid: Pair<int>)
    requires LiquidityMoves(l, m, id, delta, paid)
    ensures id in l.positions && id in m.positions && m.pool == l.pool.(liquidity := m.pool.liquidity)
    ensures m.positions[id] == l.positions[id].(unlocked := m.positions[id].unlocked)
  {
  }

  lemma LiquidityMoveKeeps(l: Ledger, m: Ledger, id: Id, delta: int, paid: Pair<int>)
    requires Inv(l) && LiquidityMoves(l, m, id, delta, paid) && AllSettled(l.positions[id], l.pool)
    requires PaysFor(l.pool.Curve(), TOKEN_A, delta, paid.zero) && PaysFor(l.pool.Curve(), TOKEN_B, delta, paid.one)
    ensures Inv(m)
  {
    hide AccountSolvent, PaysFor, TotalLiquidity, TotalPermanent, OutstandingOf, VestingSound, DynamicFee.Sound,
         RewardView.Sound, BaseFee.Validate;
    LiquidityAfter(l.positions, id, m.positions[id]);
    VestingsKept(l.positions, m.positions, l.vestings, l.Point());
    forall a: Account ensures AccountSolvent(m, a) {
      assert AccountSolvent(l, a) && Settled(l.positions[id], l.pool, a);
      MovedAccount(l, m, id, delta, paid, a);
    }
  }

  lemma DepositPays(c: CurveState, delta: uint128)
    requires c.InRange() && c.Amounts(delta, Up).Ok?
    ensures var amounts := c.Amounts(delta, Up).value;
            PaysFor(c, TOKEN_A, delta, amounts.zero) && PaysFor(c, TOKEN_B, delta, amounts.one)
  {
    hide Unit, Scale, CurveState.Amounts, CurveState.InRange, DivRound;
    AmountsAreRounded(c, delta, Up);
    ScalesArePositive(c);
    DivRoundBounds(delta * Unit(c, TOKEN_A), Scale(c, TOKEN_A), Up);
    DivRoundBounds(delta * Unit(c, TOKEN_B), Scale(c, TOKEN_B), Up);
  }

  lemma WithdrawalPays(c: CurveState, delta: uint128)
    requires c.InRange() && c.Amounts(delta, Down).Ok?
    ensures var amounts := c.Amounts(delta, Down).value;
            && PaysFor(c, TOKEN_A, 0 - delta as int, 0 - amounts.zero as int)
            && PaysFor(c, TOKEN_B, 0 - delta as int, 0 - amounts.one as int)
  {
    hide Unit, Scale, CurveState.Amounts, CurveState.InRange, DivRound;
    AmountsAreRounded(c, delta, Down);
    ScalesArePositive(c);
    DivRoundBounds(delta * Unit(c, TOKEN_A), Scale(c, TOKEN_A), Down);
    DivRoundBounds(delta * Unit(c, TOKEN_B), Scale(c, TOKEN_B), Down);
    Negated(delta, Unit(c, TOKEN_A), c.Amounts(delta, Down).value.zero, Scale(c, TOKEN_A));
    Negated(delta, Unit(c, TOKEN_B), c.Amounts(delta, Down).value.one, Scale(c, TOKEN_B));
  }

  lemma Negated(x: int, y: int, z: int, w: int)
    requires z * w <= x * y
    ensures (0 - x) * y <= (0 - z) * w
  {
  }

  /** After the position's rewards and fees are settled, all its accounts are. */
  lemma BothSettled(l: Ledger, r: Ledger, s: Ledger, id: Id)
    requires id in l.positions && RewardedAt(l, r, id) && SettledAt(r, s, id)
    requires s.positions[id].rewards == r.positions[id].rewards
    requires Settled(s.positions[id], r.pool, Fee(TOKEN_A)) && Settled(s.positions[id], r.pool, Fee(TOKEN_B))
    ensures AllSettled(s.positions[id], s.pool)
  {
    forall a: Account ensures Settled(s.positions[id], s.pool, a) {
      assert a == Fee(TOKEN_A) || a == Fee(TOKEN_B) || a == Reward(0) || a == Reward(1);
    }
  }

  /** What has to fit for a deposit of `delta` units of liquidity against `amounts`. */
  ghost predicate DepositFits(l: Ledger, delta: uint128, amounts: Pair<uint64>, max: Pair<uint64>) {
    && (amounts.zero > 0 || amounts.one > 0)
    && l.pool.liquidity + delta <= U128_MAX
    && amounts.zero <= max.zero && amounts.one <= max.one
    && l.vaults.zero + amounts.zero <= U64_MAX && l.vaults.one + amounts.one <= U64_MAX
  }

  /** The steps of a deposit once rewards are settled. */
  lemma SettledDeposit(l: Ledger, r: Ledger, id: Id, delta: uint128, amounts: Pair<uint64>)
    requires Inv(r) && RewardedAt(l, r, id) && r.pool.Curve().Amounts(delta, Up) == Ok(amounts)
    ensures var s := r.SettleFee(id);
            && s.Ok? && id in s.value.positions
            && var g := s.value.DepositLiquidity(id, delta);
            && (g.Ok? <==> l.pool.liquidity + delta <= U128_MAX)
            && (g.Err? ==> g.error == MathOverflow)
            && (g.Ok? ==>
                  var m := g.value.CreditBoth(amounts);
                  && (m.Ok? <==> l.vaults.zero + amounts.zero <= U64_MAX && l.vaults.one + amounts.one <= U64_MAX)
                  && (m.Ok? ==>
                        && Inv(m.value) && LiquidityChanged(l, m.value, id, delta, amounts)
                        && id in l.positions && id in m.value.positions && AccruedAndSettled(l, m.value, id))
                  && (m.Err? ==> m.error == VaultOverflow))
  {
    hide Inv, RewardedAt, SettledAt, Settled, CurveState.Amounts, CurveState.InRange, LiquidityMoves, LiquidityChanged,
         AllSettled, PaysFor, AccruedAndSettled, Ledger.SettleFee, Ledger.DepositLiquidity, Ledger.CreditBoth;
    RewardedHas(l, r, id);
    InvConserves(r);
    SettleFeeIs(r, id);
    var s := r.SettleFee(id).value;
    SettledHas(r, s, id);
    LiquidityFits(s, id);
    DepositMoves(s, id, delta, amounts);
    DepositPays(r.pool.Curve(), delta);
    BothSettled(l, r, s, id);
    var g := s.DepositLiquidity(id, delta);
    if g.Ok? && g.value.CreditBoth(amounts).Ok? {
      var m := g.value.CreditBoth(amounts).value;
      LiquidityMoveKeeps(s, m, id, delta, amounts);
      ChangedAfterSettling(l, r, s, m, id, delta, amounts);
      MovedHas(s, m, id, delta, amounts);
      AllStreamsSettled(l, r, s, m, id);
    }
  }

  /** What the handler returns once rewards and fees are settled. */
  lemma DepositOutcome(l: Ledger, r: Ledger, s: Ledger, id: Id, delta: uint128, max: Pair<uint64>, amounts: Pair<uint64>)
    requires id in l.positions && delta > 0 && id in r.positions && id in s.positions
    requires l.UpdateRewards(id) == Ok(r) && r.pool.Curve().Amounts(delta, Up) == Ok(amounts) && r.SettleFee(id) == Ok(s)
    ensures var g := s.DepositLiquidity(id, delta);
            l.AddLiquidity(id, delta, max)
            == if amounts.zero == 0 && amounts.one == 0 then Err(AmountIsZero)
               else if g.Err? then Err(g.error)
               else if amounts.zero > max.zero || amounts.one > max.one then Err(ExceededSlippage)
               else g.value.CreditBoth(amounts)
  {
    hide CurveState.Amounts, Ledger.UpdateRewards, Ledger.SettleFee, Ledger.DepositLiquidity, Ledger.CreditBoth;
  }

  /** Adding liquidity goes through exactly when some is asked for, rewards accrue, the amounts are not zero and fit the
      limits, and the pool's liquidity and the vaults have room; it then takes exactly the rounded-up worth and keeps the
      invariant, whatever is owed or vested elsewhere. */
  lemma AddLiquiditySucceedsExactly(l: Ledger, id: Id, delta: uint128, max: Pair<uint64>)
    requires Inv(l)
    ensures var amounts, r := l.pool.Curve().Amounts(delta, Up), l.AddLiquidity(id, delta, max);
            && (r.Ok? <==>
                  && id in l.positions && delta > 0 && RewardsFit(l)
                  && amounts.Ok? && DepositFits(l, delta, amounts.value, max))
            && (r.Ok? ==>
                  && Inv(r.value) && LiquidityChanged(l, r.value, id, delta, amounts.value)
                  && id in r.value.positions && AccruedAndSettled(l, r.value, id))
            && Safe(r)
  {
    hide Inv, RewardedAt, AccruedAndSettled, RewardsFit, CurveState.Amounts, CurveState.InRange, LiquidityChanged,
         Ledger.UpdateRewards, Ledger.SettleFee, Ledger.DepositLiquidity, Ledger.CreditBoth;
    if id in l.positions && delta > 0 {
      UpdateRewardsIs(l, id);
      if l.UpdateRewards(id).Ok? {
        var r := l.UpdateRewards(id).value;
        RewardedHas(l, r, id);
        InvConserves(l);
        AmountsErrors(l.pool.Curve(), delta, Up);
        if l.pool.Curve().Amounts(delta, Up).Ok? {
          var amounts := l.pool.Curve().Amounts(delta, Up).value;
          SettledDeposit(l, r, id, delta, amounts);
          DepositOutcome(l, r, r.SettleFee(id).value, id, delta, max, amounts);
          hide Ledger.AddLiquidity;
        }
      }
    }
  }

  lemma RewardedHas(l: Ledger, r: Ledger, id: Id)
    requires RewardedAt(l, r, id)
    ensures id in l.positions && id in r.positions && SameHoldings(l.positions[id], r.positions[id])
    ensures r.pool.Curve() == l.pool.Curve()
    ensures r.vaults == l.vaults && r.rewardVaults == l.rewardVaults && r.clock == l.clock && r.vestings == l.vestings
  {
  }

  lemma SettledHas(l: Ledger, r: Ledger, id: Id)
    requires SettledAt(l, r, id)
    ensures id in l.positions && id in r.positions && SameHoldings(l.positions[id], r.positions[id])
    ensures r.pool == l.pool
    ensures r.vaults == l.vaults && r.rewardVaults == l.rewardVaults && r.clock == l.clock && r.vestings == l.vestings
  {
  }

  lemma AmountsErrors(c: CurveState, delta: uint128, rounding: Rounding)
    requires c.InRange()
    ensures c.Amounts(delta, rounding).Err? ==> c.Amounts(delta, rounding).error == MathOverflow
  {
    hide CurveState.Amounts, Unit, Scale;
    AmountsAreRounded(c, delta, rounding);
  }

  lemma DepositMoves(s: Ledger, id: Id, delta: uint128, amounts: Pair<uint64>)
    requires id in s.positions && s.positions[id].unlocked <= s.pool.liquidity
    ensures var g := s.DepositLiquidity(id, delta);
            && (g.Ok? <==> s.pool.liquidity + delta <= U128_MAX)
            && (g.Err? ==> g.error == MathOverflow)
            && (g.Ok? ==>
                  var m := g.value.CreditBoth(amounts);
                  && (m.Ok? <==> s.vaults.zero + amounts.zero <= U64_MAX && s.vaults.one + amounts.one <= U64_MAX)
                  && (m.Err? ==> m.error == VaultOverflow)
                  && (m.Ok? ==> LiquidityMoves(s, m.value, id, delta, amounts)))
  {
  }

  lemma BelowSurplus(l: nat, delta: nat, unit: nat, surplus: int, out: nat, scale: nat)
    requires scale > 0 && delta <= l && out * scale <= delta * unit && Q128 * (l * unit) <= surplus * scale
    ensures Q128 * out <= surplus
  {
    MulMono(delta, l, unit);
    MulMono(out * scale, l * unit, Q128);
    assert Q128 * (out * scale) == (Q128 * out) * scale;
    CancelFactor(Q128 * out, surplus, scale);
  }

  /** A withdrawal of liquidity the pool has is worth no more than the vaults hold. */
  lemma WithdrawalIsBacked(l: Ledger, delta: uint128)
    requires Inv(l) && delta <= l.pool.liquidity
    ensures var amounts := l.pool.Curve().Amounts(delta, Down);
            amounts.Ok? && amounts.value.zero <= l.vaults.zero && amounts.value.one <= l.vaults.one
  {
    var c := l.pool.Curve();
    InvConserves(l);
    AmountsAreRounded(c, delta, Down);
    ScalesArePositive(c);
    VaultCovers(l, TOKEN_A);
    VaultCovers(l, TOKEN_B);
    hide CurveState.Amounts, Unit, Scale, DivRound, Inv, Covered, Slack, CurveState.InRange;
    OneSideIsBacked(c, delta, TOKEN_A, Slack(l, Fee(TOKEN_A)), l.vaults.zero);
    OneSideIsBacked(c, delta, TOKEN_B, Slack(l, Fee(TOKEN_B)), l.vaults.one);
  }

  lemma OneSideIsBacked(c: CurveState, delta: uint128, token: Index, surplus: int, balance: nat)
    requires c.InRange() && Scale(c, token) > 0 && delta <= c.liquidity
    requires Covered(c, token, surplus) && surplus <= Q128 * balance
    ensures DivRound(delta * Unit(c, token), Scale(c, token), Down) <= balance
  {
    hide Unit, Scale;
    DivRoundBounds(delta * Unit(c, token), Scale(c, token), Down);
    var out := DivRound(delta * Unit(c, token), Scale(c, token), Down);
    hide DivRound;
    BelowSurplus(c.liquidity, delta, Unit(c, token), surplus, out, Scale(c, token));
    CancelFactor(out, balance, Q128);
  }

  /** The curve's principal is covered by what the vault holds beyond everything else it owes. */
  lemma VaultCovers(l: Ledger, token: Index)
    requires Inv(l)
    ensures l.pool.Curve().InRange() && Covered(l.pool.Curve(), token, Slack(l, Fee(token)))
    ensures Slack(l, Fee(token)) <= Q128 * l.vaults.Get(token)
  {
    InvConserves(l);
    hide Backing, Owed, Stored, Covered, LiquidityConserved, VestingsBalanced, InGlobalRange, CurveState.InRange;
    assert AccountSolvent(l, Fee(token));
    AccountIsBacked(l, Fee(token));
    BackingBelowBalance(l, Fee(token));
  }

  lemma WithdrawalMoves(s: Ledger, id: Id, delta: uint128, amounts: Pair<uint64>)
    requires id in s.positions && delta <= s.positions[id].unlocked && delta <= s.pool.liquidity
    requires amounts.zero <= s.vaults.zero && amounts.one <= s.vaults.one
    ensures var g := s.WithdrawLiquidity(id, delta);
            && g.Ok?
            && var m := g.value.DebitBoth(amounts);
            && m.Ok?
            && LiquidityMoves(s, m.value, id, 0 - delta as int, Pair(0 - amounts.zero as int, 0 - amounts.one as int))
  {
  }

  /** A withdrawal pays out and keeps the invariant whenever its own conditions hold; the vaults always suffice. */
  lemma RemoveLiquiditySucceedsExactly(l: Ledger, id: Id, delta: Option<uint128>, min: Pair<uint64>)
    requires Inv(l) && id in l.positions
    ensures var removed := if delta.Some? then delta.value else l.positions[id].unlocked;
            var amounts := l.pool.Curve().Amounts(removed, Down);
            var r := l.RemoveLiquidity(id, delta, min);
            && (removed <= l.positions[id].unlocked ==> amounts.Ok?)
            && (r.Ok? ==>
                  && amounts.Ok? && Inv(r.value)
                  && LiquidityChanged(l, r.value, id, 0 - removed as int,
                                      Pair(0 - amounts.value.zero as int, 0 - amounts.value.one as int))
                  && id in r.value.positions && AccruedAndSettled(l, r.value, id))
            && (r.Ok? <==>
                  && 0 < removed <= l.positions[id].unlocked
                  && RewardsFit(l)
                  && (amounts.value.zero > 0 || amounts.value.one > 0)
                  && amounts.value.zero >= min.zero && amounts.value.one >= min.one)
            && (r.Err? ==> r.error in {InsufficientLiquidity, MathOverflow, AmountIsZero, ExceededSlippage})
  {
    hide Inv, RewardedAt, SettledAt, Settled, CurveState.Amounts, CurveState.InRange, LiquidityMoves, LiquidityChanged,
         AllSettled, PaysFor, AccruedAndSettled, RewardsFit, Ledger.UpdateRewards, Ledger.SettleFee, Ledger.WithdrawLiquidity,
         Ledger.DebitBoth;
    var removed := l.Removed(id, delta);
    if removed <= l.positions[id].unlocked {
      LiquidityFits(l, id);
      WithdrawalIsBacked(l, removed);
      UpdateRewardsIs(l, id);
      if l.UpdateRewards(id).Ok? {
        var r := l.UpdateRewards(id).value;
        RewardedHas(l, r, id);
        InvConserves(r);
        SettleFeeIs(r, id);
        var s := r.SettleFee(id).value;
        SettledHas(r, s, id);
        LiquidityFits(s, id);
        var amounts := r.pool.Curve().Amounts(removed, Down).value;
        WithdrawalMoves(s, id, removed, amounts);
        WithdrawalPays(r.pool.Curve(), removed);
        BothSettled(l, r, s, id);
        var m := s.WithdrawLiquidity(id, removed).value.DebitBoth(amounts).value;
        var paid := Pair(0 - amounts.zero as int, 0 - amounts.one as int);
        LiquidityMoveKeeps(s, m, id, 0 - removed as int, paid);
        ChangedAfterSettling(l, r, s, m, id, 0 - removed as int, paid);
        MovedHas(s, m, id, 0 - removed as int, paid);
        AllStreamsSettled(l, r, s, m, id);
      }
    }
  }
}
