/** Whole runs: a new pool satisfies the invariant, every instruction keeps it, and what follows for any sequence of
    instructions. */
module Runs {
  import opened Numbers
  import opened Arithmetic
  import opened Curve
  import opened Fees
  import opened Deposits
  import opened Settlement
  import opened Rewards
  import opened Positions
  import opened Pools
  import opened MapSums
  import opened Books
  import opened Ledgers
  import opened Solvency
  import opened Safety
  import opened SwapSafety
  import opened ClaimSafety
  import opened LockSafety
  import opened SplitSafety
  import opened RewardSafety

  // ---------------------------------------------------------------------------------------------
  // Creation
  // ---------------------------------------------------------------------------------------------

  lemma NewPoolIsSound(clock: Clock, parameters: PoolParameters)
    requires parameters.Validate().Pass? && parameters.creation.Percents().Valid()
    ensures PoolSound(parameters.ToPool(clock), clock.timestamp)
  {
    assert NO_REWARD.WithinCampaign(clock.timestamp, 0);
    hide BaseFee.Validate;
  }

  lemma InitialAmountsPay(parameters: PoolParameters, clock: Clock)
    requires parameters.Validate().Pass?
    ensures var c := parameters.ToPool(clock).Curve();
            var amounts := InitializeAmounts(
              parameters.sqrtMinPrice, parameters.sqrtMaxPrice, parameters.sqrtPrice, parameters.liquidity);
            && c.InRange()
            && (amounts.Ok? ==> c.Amounts(c.liquidity, Up) == Ok(Pair(amounts.value.0, amounts.value.1)))
  {
    hide BaseFee.Validate, DeltaAmountA, DeltaAmountB;
  }

  /** The only position of a new pool holds all its liquidity and is owed nothing. */
  lemma FirstPosition(id: Id, liquidity: uint128)
    ensures var p := NO_POSITION.(unlocked := liquidity);
            && p.Liquidity() == liquidity && p.permanent == 0 && p.vested == 0
            && forall a: Account :: a.StreamOf(p) == Stream(0, 0, 0)
  {
  }

  lemma NothingClaimedYet(p: PositionView, a: Account)
    requires a.StreamOf(p) == Stream(0, 0, 0)
    ensures a.ClaimOf(p, 0) == 0
  {
    assert p.Liquidity() * 0 == 0;
  }

  lemma OnlyPosition(id: Id, p: PositionView, a: Account)
    requires a.StreamOf(p) == Stream(0, 0, 0)
    ensures var positions: PositionMap := map[id := p];
            && TotalLiquidity(positions) == p.Liquidity() && TotalPermanent(positions) == p.permanent
            && UpToDate(positions, a, 0) && Owed(positions, a, 0) == 0
  {
    hide PositionView.Liquidity, Account.ClaimOf, Account.StreamOf;
    var none: PositionMap := map[];
    assert none[id := p] == map[id := p];
    assert Liquidities(none) == map[] && Permanents(none) == map[] && Claims(none, a, 0) == map[];
    LiquidityAfter(none, id, p);
    OwedAfter(none, id, p, a, 0);
    NothingClaimedYet(p, a);
  }

  /** A new pool has nothing booked, nothing accrued and nothing reserved. */
  ghost predicate Fresh(pool: PoolView) {
    && pool.fees == Pair(FeeLedger(0, 0, 0, 0, 0, 0), FeeLedger(0, 0, 0, 0, 0, 0))
    && pool.rewards.zero.rewardPerTokenStored == 0 && pool.rewards.one.rewardPerTokenStored == 0
    && pool.rewards.zero.rewardRate == 0 && pool.rewards.one.rewardRate == 0
    && pool.permanentLockLiquidity == 0
  }

  lemma NewPoolIsFresh(parameters: PoolParameters, clock: Clock)
    ensures Fresh(parameters.ToPool(clock)) && parameters.ToPool(clock).liquidity == parameters.liquidity
  {
  }

  lemma FreshAccount(l: Ledger, id: Id, a: Account)
    requires l.pool.Curve().InRange() && Fresh(l.pool) && id in l.positions && l.positions == map[id := l.positions[id]]
    requires a.StreamOf(l.positions[id]) == Stream(0, 0, 0)
    requires PaysFor(l.pool.Curve(), TOKEN_A, l.pool.liquidity, l.vaults.zero)
    requires PaysFor(l.pool.Curve(), TOKEN_B, l.pool.liquidity, l.vaults.one)
    ensures AccountSolvent(l, a)
  {
    OnlyPosition(id, l.positions[id], a);
    FreshBacking(l, a);
    hide Owed, Backing, CurveState.InRange, Fresh, Unit, Scale;
    if a.Fee? {
      CoveredAfter(0, l.pool.liquidity, Unit(l.pool.Curve(), a.token), 0, l.vaults.Get(a.token), Scale(l.pool.Curve(), a.token));
    }
  }

  lemma FreshBacking(l: Ledger, a: Account)
    requires Fresh(l.pool)
    ensures Stored(l.pool, a) == 0 && Backing(l, a) == a.Scale() * Balance(l, a)
  {
  }

  lemma MorePaysToo(c: CurveState, token: Index, delta: int, paid: int, more: int)
    requires c.InRange() && PaysFor(c, token, delta, paid) && paid <= more
    ensures PaysFor(c, token, delta, more)
  {
    ScalesArePositive(c);
    hide Unit, Scale;
    MulMono(paid, more, Scale(c, token));
  }

  /** A pool that can be created, by whichever handler, with or without a partner, starts out solvent. */
  lemma NewPoolKeepsInvariant(clock: Clock, id: Id, parameters: PoolParameters)
    requires parameters.creation.Percents().Valid()
    ensures var r := InitializePool(clock, id, parameters); r.Ok? ==> Inv(r.value)
  {
    hide PoolParameters.Validate, PoolParameters.ToPool, InitializeAmounts, CurveState.Amounts, CurveState.InRange, PaysFor,
         PoolSound, Fresh, TotalLiquidity, TotalPermanent, AccountSolvent, Account.StreamOf, PositionView.Liquidity;
    var r := InitializePool(clock, id, parameters);
    if r.Ok? {
      var l := r.value;
      var c := l.pool.Curve();
      NewPoolIsSound(clock, parameters);
      NewPoolIsFresh(parameters, clock);
      InitialAmountsPay(parameters, clock);
      DepositPays(c, c.liquidity);
      var amounts := c.Amounts(c.liquidity, Up).value;
      MorePaysToo(c, TOKEN_A, c.liquidity, amounts.zero, l.vaults.zero);
      MorePaysToo(c, TOKEN_B, c.liquidity, amounts.one, l.vaults.one);
      FirstPosition(id, parameters.liquidity);
      OnlyPosition(id, l.positions[id], Fee(TOKEN_A));
      forall a: Account ensures AccountSolvent(l, a) {
        FreshAccount(l, id, a);
      }
      FreshLedger(l, id);
    }
  }

  lemma FreshLedger(l: Ledger, id: Id)
    requires l.pool.Curve().InRange() && Fresh(l.pool) && l.vestings == map[]
    requires id in l.positions && l.positions == map[id := l.positions[id]]
    requires l.positions[id].vested == 0 && l.positions[id].permanent == 0 && l.positions[id].Liquidity() == l.pool.liquidity
    requires PoolSound(l.pool, l.Now())
    requires TotalLiquidity(l.positions) == l.positions[id].Liquidity()
    requires TotalPermanent(l.positions) == l.positions[id].permanent
    requires forall a: Account :: AccountSolvent(l, a)
    ensures Inv(l)
  {
    hide AccountSolvent, PoolSound, TotalLiquidity, TotalPermanent;
    assert OpenVestings(l.vestings, id) == map[];
  }

  // ---------------------------------------------------------------------------------------------
  // Every instruction
  // ---------------------------------------------------------------------------------------------

  lemma NotFound(l: Ledger, instruction: Instruction)
    requires match instruction
             case RemoveLiquidity(id, _, _) => id !in l.positions
             case ClaimPositionFee(id) => id !in l.positions
             case RefreshVesting(id, _) => id !in l.positions
             case PermanentLockPosition(id, _) => id !in l.positions
             case ClaimReward(id, _, _, _) => id !in l.positions
             case _ => false
    ensures Execute(l, instruction) == Err(AccountNotFound)
  {
  }

  /** No instruction breaks the invariant, and none fails because a vault cannot pay. */
  lemma ExecuteIsSafe(l: Ledger, instruction: Instruction)
    requires Inv(l)
    ensures Safe(Execute(l, instruction))
  {
    hide Inv, Ledger.AddLiquidity, Ledger.Swap, Ledger.LockPosition, Ledger.SplitPosition, Ledger.InitializeReward,
         Ledger.UpdateRewardDuration, Ledger.FundReward, Ledger.WithdrawIneligibleReward, Ledger.Elapse,
         Ledger.CreatePosition, Ledger.ClosePosition, Ledger.ClaimPartnerFee, Ledger.ClaimProtocolFee,
         Ledger.RemoveLiquidity, Ledger.ClaimPositionFee, Ledger.RefreshAll, Ledger.PermanentLockPosition,
         Ledger.ClaimReward, LiquidityChanged, AccruedAndSettled, DepositFits, SwappedTo, SwapConditions, VolatilityMoves,
         FeesTaken, RewardTaken, RewardedAt, SettledAt, RewardsFit, Refunded, CampaignChanges, WorthOfEmpty, LockedAt,
         PermanentlyLockedAt, SplitAt, ValidParts, BookedFeesPaid, ProtocolPaid, PartnerPaid, StartsEmpty, Idle;
    match instruction
    case Elapse(slots, seconds) => ElapseSucceedsExactly(l, slots, seconds);
    case CreatePosition(id) => CreatePositionSucceedsExactly(l, id);
    case ClosePosition(id) => ClosePositionSucceedsExactly(l, id);
    case AddLiquidity(id, added, max) => AddLiquiditySucceedsExactly(l, id, added, max);
    case RemoveLiquidity(id, removed, min) =>
      if id in l.positions { RemoveLiquiditySucceedsExactly(l, id, removed, min); } else { NotFound(l, instruction); }
    case Swap(received, minimumOut, direction, hasReferral) =>
      SwapSucceedsExactly(l, received, minimumOut, direction, hasReferral);
    case ClaimPositionFee(id) =>
      if id in l.positions { ClaimPositionFeeSucceedsExactly(l, id); } else { NotFound(l, instruction); }
    case ClaimProtocolFee(max) => ClaimProtocolFeeIsPaid(l, max);
    case ClaimPartnerFee(max) => ClaimPartnerFeeIsPaid(l, max);
    case LockPosition(id, vestingId, vesting) => LockPositionSucceedsExactly(l, id, vestingId, vesting);
    case RefreshVesting(id, vestingIds) =>
      if id in l.positions { RefreshAllIsSafe(l, id, vestingIds); } else { NotFound(l, instruction); }
    case PermanentLockPosition(id, amount) =>
      if id in l.positions { PermanentLockSucceedsExactly(l, id, amount); } else { NotFound(l, instruction); }
    case SplitPosition(first, second, split) => SplitSucceedsExactly(l, first, second, split);
    case InitializeReward(i, duration) => InitializeRewardSucceedsExactly(l, i, duration);
    case UpdateRewardDuration(i, duration) => UpdateRewardDurationSucceedsExactly(l, i, duration);
    case FundReward(i, received, carryForward) => FundRewardSucceedsExactly(l, i, received, carryForward);
    case WithdrawIneligibleReward(i) => WithdrawIneligibleSucceedsExactly(l, i);
    case ClaimReward(id, i, frozen, skip) =>
      if id in l.positions { ClaimRewardSucceedsExactly(l, id, i, frozen, skip); } else { NotFound(l, instruction); }
  }

  /** Whole-run solvency: from any solvent ledger, after any instructions, each vault covers the unrounded principal
      of the curve, the fees of protocol and partner, everything positions are owed, pending or not, and every reward
      reserve; prices are in range, liquidity is conserved and vestings balance. */
  lemma {:induction false} RunKeepsInvariant(l: Ledger, instructions: seq<Instruction>)
    requires Inv(l)
    ensures Inv(Run(l, instructions))
    decreases |instructions|
  {
    hide Inv, Execute;
    if instructions != [] {
      ExecuteIsSafe(l, instructions[0]);
      RunKeepsInvariant(Transact(l, instructions[0]), instructions[1..]);
    }
  }

  /** No payout of any run ever finds its vault short. */
  lemma NoPayoutFails(clock: Clock, id: Id, parameters: PoolParameters, instructions: seq<Instruction>, next: Instruction)
    requires parameters.creation.Percents().Valid() && InitializePool(clock, id, parameters).Ok?
    ensures var l := Run(InitializePool(clock, id, parameters).value, instructions);
            Inv(l) && Execute(l, next) != Err(VaultShortfall)
  {
    hide Inv, Execute, InitializePool;
    NewPoolKeepsInvariant(clock, id, parameters);
    var l := InitializePool(clock, id, parameters).value;
    RunKeepsInvariant(l, instructions);
    ExecuteIsSafe(Run(l, instructions), next);
  }

  // ---------------------------------------------------------------------------------------------
  // What the invariant means in whole units
  // ---------------------------------------------------------------------------------------------

  ghost function Pendings(positions: PositionMap, a: Account): map<Id, int> {
    map id | id in positions :: a.StreamOf(positions[id]).pending
  }

  lemma OwedCoversPending(positions: PositionMap, a: Account, stored: nat)
    requires UpToDate(positions, a, stored)
    ensures a.Scale() * Total(Pendings(positions, a)) <= Owed(positions, a, stored)
  {
    hide Account.ClaimOf, Account.StreamOf, Account.Scale, Total;
    var pending := Scaled(Pendings(positions, a), a.Scale());
    var rest: map<Id, int> := map id | id in positions :: a.ClaimOf(positions[id], stored) - pending[id];
    forall id | id in positions ensures rest[id] >= 0 {
      ClaimIsNonNegative(positions[id], a, stored);
    }
    TotalSum(Claims(positions, a, stored), pending, rest);
    TotalIsNonNegative(rest);
    TotalScaled(Pendings(positions, a), a.Scale());
  }

  /** What withdrawing all liquidity at once would pay of a token. */
  ghost function Redeemable(c: CurveState, token: Index): nat
    requires c.InRange()
  {
    ScalesArePositive(c);
    DivRound(c.liquidity * Unit(c, token), Scale(c, token), Down)
  }

  /** Each vault holds, in whole units, at least what withdrawing all liquidity would pay, what protocol and partner can
      claim and what all positions have pending, all at once. */
  lemma VaultHoldsEverything(l: Ledger, token: Index)
    requires Inv(l)
    ensures l.pool.Curve().InRange()
    ensures Redeemable(l.pool.Curve(), token)
          + l.pool.fees.Get(token).protocolFee + l.pool.fees.Get(token).partnerFee
          + Total(Pendings(l.positions, Fee(token)))
         <= l.vaults.Get(token)
  {
    hide Inv, Owed, Covered, CurveState.InRange, Pendings, UpToDate, Total, Unit;
    var c, a := l.pool.Curve(), Fee(token);
    VaultCovers(l, token);
    ScalesArePositive(c);
    hide Scale;
    InvUpToDate(l, a);
    OwedCoversPending(l.positions, a, Stored(l.pool, a));
    var out := DivRound(c.liquidity * Unit(c, token), Scale(c, token), Down);
    DivRoundBounds(c.liquidity * Unit(c, token), Scale(c, token), Down);
    hide DivRound, Stored;
    PrincipalBelowSlack(c, token, Slack(l, a), out);
  }

  lemma PrincipalBelowSlack(c: CurveState, token: Index, surplus: int, out: nat)
    requires c.InRange() && Scale(c, token) > 0 && Covered(c, token, surplus)
    requires out * Scale(c, token) <= c.liquidity * Unit(c, token)
    ensures Q128 * out <= surplus
  {
    hide Unit, Scale;
    BelowSurplus(c.liquidity, c.liquidity, Unit(c, token), surplus, out, Scale(c, token));
  }

  /** Each reward vault holds at least what all positions have pending and what the campaign has yet to stream or to
      return. */
  lemma RewardVaultHoldsEverything(l: Ledger, i: Index)
    requires Inv(l)
    ensures l.pool.rewards.Get(i).Reserved() >= 0
    ensures Total(Pendings(l.positions, Reward(i))) + l.pool.rewards.Get(i).Reserved() / Q64 <= l.rewardVaults.Get(i)
  {
    hide Inv, Owed, Covered, Pendings, UpToDate, Total, RewardView.Reserved;
    var a := Reward(i);
    InvSoundReward(l, i);
    ReservedIsNonNegative(l.pool.rewards.Get(i), l.Now());
    AccountIsBacked(l, a);
    InvUpToDate(l, a);
    OwedCoversPending(l.positions, a, Stored(l.pool, a));
    hide Stored, RewardView.Sound;
    FloorBounds(l.pool.rewards.Get(i).Reserved(), Q64);
  }
}
