/** The instruction handlers on the accounts themselves, in the order of the source's steps.

    A handler is given the accounts of its transaction and, as a ghost, the ledger `l` of all accounts before it. It is
    proved to write exactly what its namesake on the ledger computes: the accounts it was given hold the new values,
    and every other account keeps the value it has in `l`. After an error the runtime discards all changes, so only the
    status is promised then. */
module Handlers {
  import opened Numbers
  import opened Curve
  import opened Fees
  import opened Rewards
  import opened Vestings
  import opened Positions
  import opened Pools
  import opened Ledgers
  import opened StatusSafety
  import opened PositionAccounts
  import opened PoolAccounts
  import opened VestingAccounts

  class TokenAccount {
    var amount: uint64

    constructor (amount: uint64)
      ensures this.amount == amount
    {
      this.amount := amount;
    }

    /** `transfer_from_user`: the vault gains what reaches it. */
    method Credit(x: uint64) returns (r: Result<()>)
      modifies this
      ensures r == if old(amount) + x <= U64_MAX then Ok(()) else Err(VaultOverflow)
      ensures r.Ok? ==> amount == old(amount) + x
    {
      var balance := amount + x;
      var _ :- Require(balance <= U64_MAX, VaultOverflow);
      amount := balance;
      return Ok(());
    }

    /** `transfer_from_pool`. */
    method Debit(x: uint64) returns (r: Result<()>)
      modifies this
      ensures r == if x <= old(amount) then Ok(()) else Err(VaultShortfall)
      ensures r.Ok? ==> amount == old(amount) - x
    {
      var _ :- Require(x <= amount, VaultShortfall);
      amount := amount - x;
      return Ok(());
    }
  }

  /** The accounts that most transactions load. */
  datatype Context = Context(clock: Clock, pool: Pool, tokenAVault: TokenAccount, tokenBVault: TokenAccount) {
    ghost predicate Valid() {
      pool.Valid() && tokenAVault != tokenBVault
    }

    ghost predicate Loads(l: Ledger)
      reads pool, pool.dynamicFee, pool.rewardInfos, tokenAVault, tokenBVault
    {
      && Valid()
      && l.clock == clock && l.pool == pool.View()
      && l.vaults == Pair(tokenAVault.amount, tokenBVault.amount)
    }

    function Vault(token: Index): TokenAccount {
      if token == TOKEN_A then tokenAVault else tokenBVault
    }

    function Point(): uint64 {
      clock.Point(pool.config.activationType)
    }
  }

  ghost predicate LoadsPosition(l: Ledger, id: Id, position: Position)
    reads position, position.rewardInfos
  {
    position.Valid() && id in l.positions && l.positions[id] == position.View()
  }

  /** `m` differs from `l` at most in the pool, the two vaults and position `id`. */
  ghost predicate OnlyAt(l: Ledger, m: Ledger, id: Id) {
    id in m.positions && m == l.(pool := m.pool, vaults := m.vaults, positions := l.positions[id := m.positions[id]])
  }

  lemma OnlyAtComposes(l: Ledger, m: Ledger, n: Ledger, id: Id)
    requires OnlyAt(l, m, id) && OnlyAt(m, n, id)
    ensures OnlyAt(l, n, id)
  {
    assert m.positions[id := n.positions[id]] == l.positions[id := n.positions[id]];
  }

  // ---------------------------------------------------------------------------------------------
  // Steps
  // ---------------------------------------------------------------------------------------------

  method CreditBoth(ghost l: Ledger, ctx: Context, amounts: Pair<uint64>) returns (r: Result<()>)
    requires ctx.Loads(l)
    modifies ctx.tokenAVault, ctx.tokenBVault
    ensures r == l.CreditBoth(amounts).Status()
    ensures r.Ok? ==> ctx.Loads(l.CreditBoth(amounts).value)
  {
    var _ :- ctx.tokenAVault.Credit(amounts.zero);
    var _ :- ctx.tokenBVault.Credit(amounts.one);
    return Ok(());
  }

  method DebitBoth(ghost l: Ledger, ctx: Context, amounts: Pair<uint64>) returns (r: Result<()>)
    requires ctx.Loads(l)
    modifies ctx.tokenAVault, ctx.tokenBVault
    ensures r == l.DebitBoth(amounts).Status()
    ensures r.Ok? ==> ctx.Loads(l.DebitBoth(amounts).value)
  {
    var _ :- ctx.tokenAVault.Debit(amounts.zero);
    var _ :- ctx.tokenBVault.Debit(amounts.one);
    return Ok(());
  }

  lemma VaultsOnly(l: Ledger, id: Id, amounts: Pair<uint64>)
    requires id in l.positions
    ensures l.CreditBoth(amounts).Ok? ==> OnlyAt(l, l.CreditBoth(amounts).value, id)
    ensures l.DebitBoth(amounts).Ok? ==> OnlyAt(l, l.DebitBoth(amounts).value, id)
  {
    assert l.positions[id := l.positions[id]] == l.positions;
  }

  method AccrueRewards(ghost l: Ledger, ctx: Context) returns (r: Result<()>)
    requires ctx.Loads(l)
    modifies ctx.pool.rewardInfos
    ensures r == l.AccrueRewards().Status()
    ensures r.Ok? ==> var m := l.AccrueRewards().value; ctx.Loads(m) && m == l.(pool := m.pool)
  {
    hide PoolView.UpdateRewards;
    r := ctx.pool.UpdateRewards(ctx.clock.timestamp);
    if r.Ok? {
      AccruedConfig(l.pool, l.Now());
    }
  }

  lemma AccruedConfig(pool: PoolView, now: uint64)
    ensures pool.UpdateRewards(now).Ok? ==>
              var after := pool.UpdateRewards(now).value;
              && after == pool.(rewards := after.rewards)
              && after.rewards.zero.initialized == pool.rewards.zero.initialized
              && after.rewards.one.initialized == pool.rewards.one.initialized
  {
    hide RewardView.RewardPerTokenSince;
  }

  method SettleReward(ghost l: Ledger, ctx: Context, id: Id, position: Position) returns (r: Result<()>)
    requires ctx.Loads(l) && LoadsPosition(l, id, position)
    modifies position.rewardInfos
    ensures r == l.SettleReward(id).Status()
    ensures r.Ok? ==>
              && l.SettleReward(id).value == l.With(id, position.View())
              && LoadsPosition(l.SettleReward(id).value, id, position)
  {
    hide PositionView.UpdatePositionReward;
    r := position.UpdatePositionReward([ctx.pool.rewardInfos[0].View(), ctx.pool.rewardInfos[1].View()]);
  }

  /** `Position::update_rewards`: the pool first, then the position. */
  method UpdateRewards(ghost l: Ledger, ctx: Context, id: Id, position: Position) returns (r: Result<()>)
    requires ctx.Loads(l) && LoadsPosition(l, id, position)
    modifies ctx.pool.rewardInfos, position.rewardInfos
    ensures r == l.UpdateRewards(id).Status()
    ensures r.Ok? ==>
              var m := l.UpdateRewards(id).value; ctx.Loads(m) && LoadsPosition(m, id, position) && OnlyAt(l, m, id)
  {
    hide Ledger.AccrueRewards, Ledger.SettleReward;
    if ctx.pool.rewardInfos[0].initialized || ctx.pool.rewardInfos[1].initialized {
      var _ :- AccrueRewards(l, ctx);
      var _ :- SettleReward(l.AccrueRewards().value, ctx, id, position);
    } else {
      assert l.positions[id := l.positions[id]] == l.positions;
    }
    return Ok(());
  }

  /** Settles the position's fees and adds liquidity to position and pool. */
  method ApplyAddLiquidity(ghost l: Ledger, ctx: Context, id: Id, position: Position, delta: uint128) returns (r: Result<()>)
    requires ctx.Loads(l) && LoadsPosition(l, id, position)
    modifies ctx.pool, position
    ensures l.SettleFee(id).Err? ==> r == l.SettleFee(id).Status()
    ensures l.SettleFee(id).Ok? ==>
              id in l.SettleFee(id).value.positions && r == l.SettleFee(id).value.DepositLiquidity(id, delta).Status()
    ensures r.Ok? ==>
              var m := l.SettleFee(id).value.DepositLiquidity(id, delta).value;
              ctx.Loads(m) && LoadsPosition(m, id, position) && OnlyAt(l, m, id)
  {
    hide PositionView.UpdateFee;
    r := ctx.pool.ApplyAddLiquidity(position, delta);
    if r.Ok? {
      assert l.positions[id := l.SettleFee(id).value.positions[id]][id := position.View()] == l.positions[id := position.View()];
    }
  }

  method ApplyRemoveLiquidity(ghost l: Ledger, ctx: Context, id: Id, position: Position, delta: uint128) returns (r: Result<()>)
    requires ctx.Loads(l) && LoadsPosition(l, id, position)
    modifies ctx.pool, position
    ensures l.SettleFee(id).Err? ==> r == l.SettleFee(id).Status()
    ensures l.SettleFee(id).Ok? ==>
              id in l.SettleFee(id).value.positions && r == l.SettleFee(id).value.WithdrawLiquidity(id, delta).Status()
    ensures r.Ok? ==>
              var m := l.SettleFee(id).value.WithdrawLiquidity(id, delta).value;
              ctx.Loads(m) && LoadsPosition(m, id, position) && OnlyAt(l, m, id)
  {
    hide PositionView.UpdateFee;
    r := ctx.pool.ApplyRemoveLiquidity(position, delta);
    if r.Ok? {
      assert l.positions[id := l.SettleFee(id).value.positions[id]][id := position.View()] == l.positions[id := position.View()];
    }
  }

  // ---------------------------------------------------------------------------------------------
  // Liquidity
  // ---------------------------------------------------------------------------------------------

  method HandleAddLiquidity(ghost l: Ledger, ctx: Context, id: Id, position: Position, delta: uint128, max: Pair<uint64>)
    returns (r: Result<()>)
    requires ctx.Loads(l) && LoadsPosition(l, id, position)
    modifies ctx.pool, ctx.pool.rewardInfos, position, position.rewardInfos, ctx.tokenAVault, ctx.tokenBVault
    ensures r == l.AddLiquidity(id, delta, max).Status()
    ensures SafeStatus(l, r, l.AddLiquidity(id, delta, max))
    ensures r.Ok? ==>
              var m := l.AddLiquidity(id, delta, max).value;
              ctx.Loads(m) && LoadsPosition(m, id, position) && OnlyAt(l, m, id)
  {
    AddLiquidityStatus(l, id, delta, max);
    hide Ledger.UpdateRewards, Ledger.SettleFee, Ledger.DepositLiquidity, Ledger.CreditBoth, CurveState.Amounts, OnlyAt, SafeStatus;
    var _ :- Require(delta > 0, InvalidParameters);
    var _ :- UpdateRewards(l, ctx, id, position);
    ghost var rewarded := l.UpdateRewards(id).value;
    var amounts :- ctx.pool.View().Curve().Amounts(delta, Up);
    var _ :- Require(amounts.zero > 0 || amounts.one > 0, AmountIsZero);
    var _ :- ApplyAddLiquidity(rewarded, ctx, id, position, delta);
    ghost var grown := rewarded.SettleFee(id).value.DepositLiquidity(id, delta).value;
    var _ :- Require(amounts.zero <= max.zero, ExceededSlippage);
    var _ :- Require(amounts.one <= max.one, ExceededSlippage);
    var _ :- CreditBoth(grown, ctx, amounts);
    VaultsOnly(grown, id, amounts);
    OnlyAtComposes(l, rewarded, grown, id);
    OnlyAtComposes(l, grown, grown.CreditBoth(amounts).value, id);
    CreditsKeepPosition(grown, id, amounts);
    return Ok(());
  }

  lemma CreditsKeepPosition(l: Ledger, id: Id, amounts: Pair<uint64>)
    requires id in l.positions
    ensures l.CreditBoth(amounts).Ok? ==> l.CreditBoth(amounts).value.positions == l.positions
    ensures l.DebitBoth(amounts).Ok? ==> l.DebitBoth(amounts).value.positions == l.positions
  {
  }

  method HandleRemoveLiquidity(ghost l: Ledger, ctx: Context, id: Id, position: Position, delta: Option<uint128>, min: Pair<uint64>)
    returns (r: Result<()>)
    requires ctx.Loads(l) && LoadsPosition(l, id, position)
    modifies ctx.pool, ctx.pool.rewardInfos, position, position.rewardInfos, ctx.tokenAVault, ctx.tokenBVault
    ensures r == l.RemoveLiquidity(id, delta, min).Status()
    ensures SafeStatus(l, r, l.RemoveLiquidity(id, delta, min))
    ensures r.Ok? ==>
              var m := l.RemoveLiquidity(id, delta, min).value;
              ctx.Loads(m) && LoadsPosition(m, id, position) && OnlyAt(l, m, id)
  {
    RemoveLiquidityStatus(l, id, delta, min);
    hide Ledger.UpdateRewards, Ledger.SettleFee, Ledger.WithdrawLiquidity, Ledger.DebitBoth, CurveState.Amounts, OnlyAt, SafeStatus;
    var removed := if delta.Some? then delta.value else position.unlockedLiquidity;
    var _ :- Require(0 < removed <= position.unlockedLiquidity, InsufficientLiquidity);
    var _ :- UpdateRewards(l, ctx, id, position);
    ghost var rewarded := l.UpdateRewards(id).value;
    var amounts :- ctx.pool.View().Curve().Amounts(removed, Down);
    var _ :- Require(amounts.zero > 0 || amounts.one > 0, AmountIsZero);
    var _ :- Require(amounts.zero >= min.zero, ExceededSlippage);
    var _ :- Require(amounts.one >= min.one, ExceededSlippage);
    var _ :- ApplyRemoveLiquidity(rewarded, ctx, id, position, removed);
    ghost var shrunk := rewarded.SettleFee(id).value.WithdrawLiquidity(id, removed).value;
    var _ :- DebitBoth(shrunk, ctx, amounts);
    VaultsOnly(shrunk, id, amounts);
    OnlyAtComposes(l, rewarded, shrunk, id);
    OnlyAtComposes(l, shrunk, shrunk.DebitBoth(amounts).value, id);
    CreditsKeepPosition(shrunk, id, amounts);
    return Ok(());
  }

  // ---------------------------------------------------------------------------------------------
  // Swaps
  // ---------------------------------------------------------------------------------------------

  /** Input into its vault, output and referral fee out of theirs. */
  method MoveSwap(ghost l: Ledger, ctx: Context, received: uint64, result: SwapResult, direction: TradeDirection, mode: FeeMode)
    returns (r: Result<()>)
    requires ctx.Loads(l)
    modifies ctx.tokenAVault, ctx.tokenBVault
    ensures r == l.MoveSwap(received, result, direction, mode).Status()
    ensures r.Ok? ==> ctx.Loads(l.MoveSwap(received, result, direction, mode).value)
  {
    var _ :- ctx.Vault(InputToken(direction)).Credit(received);
    var _ :- ctx.Vault(InputToken(direction.Opposite())).Debit(result.outputAmount);
    if mode.hasReferral {
      var _ :- ctx.Vault(mode.FeeToken()).Debit(result.referralFee);
    }
    return Ok(());
  }

  /** `received` is what reaches the input vault. */
  method HandleSwap(ghost l: Ledger, ctx: Context, received: uint64, minimumOut: uint64, direction: TradeDirection,
                    hasReferral: bool)
    returns (r: Result<()>)
    requires ctx.Loads(l)
    modifies ctx.pool, ctx.pool.dynamicFee, ctx.tokenAVault, ctx.tokenBVault
    ensures r == l.Swap(received, minimumOut, direction, hasReferral).Status()
    ensures SafeStatus(l, r, l.Swap(received, minimumOut, direction, hasReferral))
    ensures r.Ok? ==>
              var m := l.Swap(received, minimumOut, direction, hasReferral).value;
              ctx.Loads(m) && m == l.(pool := m.pool, vaults := m.vaults)
  {
    SwapStatus(l, received, minimumOut, direction, hasReferral);
    hide PoolView.GetSwapResult, PoolView.ApplySwapResult, Ledger.MoveSwap, DynamicFee.BeforeSwap, GetFeeMode, SafeStatus;
    var _ :- Require(received > 0, AmountIsZero);
    var _ :- ctx.pool.UpdatePreSwap(ctx.clock.timestamp);
    ghost var referenced := ctx.pool.View();
    var mode := GetFeeMode(ctx.pool.config.collectFeeMode, direction, hasReferral);
    var result :- ctx.pool.View().GetSwapResult(received, mode, direction, ctx.Point());
    var _ :- Require(result.outputAmount >= minimumOut, ExceededSlippage);
    var _ :- ctx.pool.ApplySwapResult(result, mode, ctx.clock.timestamp);
    ghost var swapped := l.(pool := ctx.pool.View());
    AppliedConfig(referenced, result, mode, ctx.clock.timestamp);
    var moved := MoveSwap(swapped, ctx, received, result, direction, mode);
    if moved.Ok? {
      MovedOnlyVaults(swapped, received, result, direction, mode);
    }
    return moved;
  }

  lemma AppliedConfig(pool: PoolView, result: SwapResult, mode: FeeMode, now: uint64)
    ensures pool.ApplySwapResult(result, mode, now).Ok? ==> pool.ApplySwapResult(result, mode, now).value.config == pool.config
  {
    hide ShlDiv128, FeeLedger.Accumulate, DynamicFee.AfterSwap;
  }

  lemma MovedOnlyVaults(l: Ledger, received: uint64, result: SwapResult, direction: TradeDirection, mode: FeeMode)
    requires l.MoveSwap(received, result, direction, mode).Ok?
    ensures var m := l.MoveSwap(received, result, direction, mode).value; m == l.(vaults := m.vaults)
  {
  }

  // ---------------------------------------------------------------------------------------------
  // Fee claims
  // ---------------------------------------------------------------------------------------------

  /** `metrics.accumulate_claimed_fee`, then `reset_pending_fee`. */
  method TakeFees(position: Position) returns (r: Result<Pair<uint64>>)
    requires position.Valid()
    modifies position
    ensures position.Valid()
    ensures r.Status() == old(position.View()).ClaimFees().Status()
    ensures r.Ok? ==>
              && position.View() == old(position.View()).ClaimFees().value
              && r.value == Pair(old(position.feeAPending), old(position.feeBPending))
  {
    var feeAPending, feeBPending := position.feeAPending, position.feeBPending;
    var metrics := position.AccumulateClaimedFee(feeAPending, feeBPending);
    if metrics.Err? {
      return Err(metrics.error);
    }
    position.ResetPendingFee();
    return Ok(Pair(feeAPending, feeBPending));
  }

  method HandleClaimPositionFee(ghost l: Ledger, ctx: Context, id: Id, position: Position) returns (r: Result<()>)
    requires ctx.Loads(l) && LoadsPosition(l, id, position)
    modifies position, ctx.tokenAVault, ctx.tokenBVault
    ensures r == l.ClaimPositionFee(id).Status()
    ensures SafeStatus(l, r, l.ClaimPositionFee(id))
    ensures r.Ok? ==>
              var m := l.ClaimPositionFee(id).value;
              ctx.Loads(m) && LoadsPosition(m, id, position) && OnlyAt(l, m, id)
  {
    ClaimPositionFeeStatus(l, id);
    hide PositionView.UpdateFee, PositionView.ClaimFees, Ledger.DebitBoth, OnlyAt, SafeStatus;
    var _ :- position.UpdateFee(ctx.pool.feeAPerLiquidity, ctx.pool.feeBPerLiquidity);
    ghost var settled := l.SettleFee(id).value;
    var taken := TakeFees(position);
    if taken.Err? {
      return Err(taken.error);
    }
    ghost var claimed := settled.With(id, position.View());
    assert OnlyAt(l, claimed, id) by {
      WithTwice(l, id, settled.positions[id], position.View());
    }
    var _ :- DebitBoth(claimed, ctx, taken.value);
    VaultsOnly(claimed, id, taken.value);
    OnlyAtComposes(l, claimed, claimed.DebitBoth(taken.value).value, id);
    CreditsKeepPosition(claimed, id, taken.value);
    return Ok(());
  }

  lemma WithTwice(l: Ledger, id: Id, p: PositionView, q: PositionView)
    ensures l.With(id, p).With(id, q) == l.With(id, q)
    ensures OnlyAt(l, l.With(id, q), id)
  {
    assert l.positions[id := p][id := q] == l.positions[id := q];
  }

  method HandleClaimProtocolFee(ghost l: Ledger, ctx: Context, maxAmountA: uint64, maxAmountB: uint64) returns (r: Result<()>)
    requires ctx.Loads(l)
    modifies ctx.pool, ctx.tokenAVault, ctx.tokenBVault
    ensures r == l.ClaimProtocolFee(Pair(maxAmountA, maxAmountB)).Status()
    ensures SafeStatus(l, r, l.ClaimProtocolFee(Pair(maxAmountA, maxAmountB)))
    ensures r.Ok? ==>
              var m := l.ClaimProtocolFee(Pair(maxAmountA, maxAmountB)).value;
              ctx.Loads(m) && m == l.(pool := m.pool, vaults := m.vaults)
  {
    ClaimProtocolFeeStatus(l, Pair(maxAmountA, maxAmountB));
    hide SafeStatus;
    var amountA, amountB := ctx.pool.ClaimProtocolFee(maxAmountA, maxAmountB);
    r := DebitBoth(l.(pool := ctx.pool.View()), ctx, Pair(amountA, amountB));
  }

  method HandleClaimPartnerFee(ghost l: Ledger, ctx: Context, maxAmountA: uint64, maxAmountB: uint64) returns (r: Result<()>)
    requires ctx.Loads(l)
    modifies ctx.pool, ctx.tokenAVault, ctx.tokenBVault
    ensures r == l.ClaimPartnerFee(Pair(maxAmountA, maxAmountB)).Status()
    ensures SafeStatus(l, r, l.ClaimPartnerFee(Pair(maxAmountA, maxAmountB)))
    ensures r.Ok? ==>
              var m := l.ClaimPartnerFee(Pair(maxAmountA, maxAmountB)).value;
              ctx.Loads(m) && m == l.(pool := m.pool, vaults := m.vaults)
  {
    ClaimPartnerFeeStatus(l, Pair(maxAmountA, maxAmountB));
    hide SafeStatus;
    var amountA, amountB := ctx.pool.ClaimPartnerFee(maxAmountA, maxAmountB);
    r := DebitBoth(l.(pool := ctx.pool.View()), ctx, Pair(amountA, amountB));
  }

  method HandleLockPosition(ghost l: Ledger, ctx: Context, id: Id, position: Position, vestingId: Id,
                            parameters: VestingParameters)
    returns (r: Result<Vesting>)
    requires ctx.Loads(l) && LoadsPosition(l, id, position) && vestingId !in l.vestings
    modifies position
    ensures r.Ok? <==> l.LockPosition(id, vestingId, parameters).Ok?
    ensures r.Err? ==> l.LockPosition(id, vestingId, parameters) == Err(r.error)
    ensures SafeStatus(l, r.Status(), l.LockPosition(id, vestingId, parameters))
    ensures r.Ok? ==>
              && fresh(r.value)
              && l.LockPosition(id, vestingId, parameters).value
                 == l.With(id, position.View()).(vestings := l.vestings[vestingId := r.value.View()])
  {
    LockPositionStatus(l, id, vestingId, parameters);
    hide PositionView.Lock, SafeStatus;
    var currentPoint := ctx.Point();
    var total :- parameters.Validate(currentPoint, MaxVestingDuration(ctx.pool.config.activationType));
    var vesting := new Vesting(id, parameters.CliffPoint(currentPoint), parameters.periodFrequency,
                               parameters.cliffUnlockLiquidity, parameters.liquidityPerPeriod, parameters.numberOfPeriod);
    var locked := position.Lock(total);
    if locked.Err? {
      return Err(locked.error);
    }
    return Ok(vesting);
  }

  /** Rewards of the pool and of both positions. */
  ghost function BothRewarded(l: Ledger, first: Id, second: Id): Result<Ledger>
    requires first in l.positions && second in l.positions
  {
    var accrued :- l.AccrueRewards();
    var one :- accrued.SettleReward(first);
    one.SettleReward(second)
  }

  method SettleBoth(ghost l: Ledger, ctx: Context, firstId: Id, first: Position, secondId: Id, second: Position)
    returns (r: Result<()>)
    requires ctx.Loads(l) && LoadsPosition(l, firstId, first) && LoadsPosition(l, secondId, second)
    requires firstId != secondId && Separate(first, second)
    modifies ctx.pool.rewardInfos, first.rewardInfos, second.rewardInfos
    ensures r == BothRewarded(l, firstId, secondId).Status()
    ensures r.Ok? ==>
              var m := BothRewarded(l, firstId, secondId).value;
              && ctx.Loads(m) && LoadsPosition(m, firstId, first) && LoadsPosition(m, secondId, second)
              && m == l.(pool := m.pool).With(firstId, first.View()).With(secondId, second.View())
              && first.View().vested == old(first.View().vested)
  {
    hide Ledger.AccrueRewards, Ledger.SettleReward, PositionView.UpdatePositionReward;
    var _ :- AccrueRewards(l, ctx);
    ghost var accrued := l.AccrueRewards().value;
    var _ :- SettleReward(accrued, ctx, firstId, first);
    r := SettleReward(accrued.SettleReward(firstId).value, ctx, secondId, second);
  }

  lemma WrittenTwice(l: Ledger, first: Id, second: Id, p: PositionView, q: PositionView, x: PositionView, y: PositionView)
    requires first != second
    ensures l.With(first, p).With(second, q).With(first, x).With(second, y) == l.With(first, x).With(second, y)
  {
    assert l.positions[first := p][second := q][first := x][second := y] == l.positions[first := x][second := y];
  }

  /** The split of two settled positions. */
  ghost function SplitSettled(l: Ledger, first: Id, second: Id, parameters: SplitParameters): Result<Ledger>
    requires first in l.positions && second in l.positions
  {
    var initialized := Pair(l.pool.rewards.zero.initialized, l.pool.rewards.one.initialized);
    var split :- Split(l.positions[first], l.positions[second]).Apply(l.pool.FeePerLiquidity(), initialized, parameters);
    Ok(l.With(first, split.first).With(second, split.second))
  }

  method ApplySplit(ghost l: Ledger, ctx: Context, firstId: Id, first: Position, secondId: Id, second: Position,
                    parameters: SplitParameters)
    returns (r: Result<()>)
    requires ctx.Loads(l) && LoadsPosition(l, firstId, first) && LoadsPosition(l, secondId, second)
    requires firstId != secondId && Separate(first, second)
    modifies first, second, first.rewardInfos, second.rewardInfos
    ensures r == SplitSettled(l, firstId, secondId, parameters).Status()
    ensures r.Ok? ==>
              var m := SplitSettled(l, firstId, secondId, parameters).value;
              && ctx.Loads(m) && LoadsPosition(m, firstId, first) && LoadsPosition(m, secondId, second)
              && m == l.With(firstId, first.View()).With(secondId, second.View())
  {
    hide Split.Apply;
    r := ctx.pool.ApplySplitPosition(first, second, parameters);
  }

  /** A split is the split of both positions once their rewards are settled. */
  lemma SplitIs(l: Ledger, first: Id, second: Id, parameters: SplitParameters)
    requires first in l.positions && second in l.positions && first != second
    requires parameters.Validate().Pass? && l.positions[first].vested == 0
    ensures var both, r := BothRewarded(l, first, second), l.SplitPosition(first, second, parameters);
            && (both.Err? ==> r == both)
            && (both.Ok? && first in both.value.positions && second in both.value.positions ==>
                  r == SplitSettled(both.value, first, second, parameters))
  {
    hide Ledger.AccrueRewards, PositionView.UpdatePositionReward, Split.Apply, SplitParameters.Validate;
    AccruedStays(l);
  }

  method HandleSplitPosition(ghost l: Ledger, ctx: Context, firstId: Id, first: Position, secondId: Id, second: Position,
                             parameters: SplitParameters)
    returns (r: Result<()>)
    requires ctx.Loads(l) && LoadsPosition(l, firstId, first) && LoadsPosition(l, secondId, second)
    requires firstId != secondId && Separate(first, second)
    modifies ctx.pool.rewardInfos, first, second, first.rewardInfos, second.rewardInfos
    ensures r == l.SplitPosition(firstId, secondId, parameters).Status()
    ensures SafeStatus(l, r, l.SplitPosition(firstId, secondId, parameters))
    ensures r.Ok? ==>
              var m := l.SplitPosition(firstId, secondId, parameters).value;
              && ctx.Loads(m) && LoadsPosition(m, firstId, first) && LoadsPosition(m, secondId, second)
              && m == l.(pool := m.pool).With(firstId, first.View()).With(secondId, second.View())
  {
    SplitPositionStatus(l, firstId, secondId, parameters);
    ValidateFails(l, firstId, secondId, parameters);
    hide Ledger.SplitPosition, BothRewarded, SplitSettled, SplitParameters.Validate, SafeStatus;
    var _ :- parameters.Validate();
    var _ :- Require(first.vestedLiquidity == 0, UnsupportPositionHasVestingLock);
    SplitIs(l, firstId, secondId, parameters);
    var _ :- SettleBoth(l, ctx, firstId, first, secondId, second);
    ghost var both := BothRewarded(l, firstId, secondId).value;
    ghost var p, q := first.View(), second.View();
    r := ApplySplit(both, ctx, firstId, first, secondId, second, parameters);
    WrittenTwice(l.(pool := both.pool), firstId, secondId, p, q, first.View(), second.View());
  }

  lemma ValidateFails(l: Ledger, first: Id, second: Id, parameters: SplitParameters)
    requires first in l.positions && second in l.positions && first != second
    ensures parameters.Validate().Fail? ==> l.SplitPosition(first, second, parameters) == Err(parameters.Validate().error)
    ensures parameters.Validate().Pass? && l.positions[first].vested != 0 ==>
              l.SplitPosition(first, second, parameters) == Err(UnsupportPositionHasVestingLock)
  {
    hide SplitParameters.Validate, Ledger.AccrueRewards;
  }

  lemma AccruedStays(l: Ledger)
    ensures l.AccrueRewards().Ok? ==>
              var m := l.AccrueRewards().value;
              && m == l.(pool := m.pool)
              && m.pool.FeePerLiquidity() == l.pool.FeePerLiquidity()
              && m.pool.rewards.zero.initialized == l.pool.rewards.zero.initialized
              && m.pool.rewards.one.initialized == l.pool.rewards.one.initialized
  {
    hide PoolView.UpdateRewards;
    AccruedConfig(l.pool, l.Now());
  }

  // ---------------------------------------------------------------------------------------------
  // Rewards
  // ---------------------------------------------------------------------------------------------

  method HandleInitializeReward(ghost l: Ledger, ctx: Context, rewardIndex: Index, duration: uint64) returns (r: Result<()>)
    requires ctx.Loads(l)
    modifies ctx.pool.rewardInfos
    ensures r == l.InitializeReward(rewardIndex, duration).Status()
    ensures SafeStatus(l, r, l.InitializeReward(rewardIndex, duration))
    ensures r.Ok? ==> var m := l.InitializeReward(rewardIndex, duration).value; ctx.Loads(m) && m == l.(pool := m.pool)
  {
    InitializeRewardStatus(l, rewardIndex, duration);
    hide SafeStatus;
    var info := ctx.pool.rewardInfos[rewardIndex];
    var _ :- Require(MIN_REWARD_DURATION <= duration <= MAX_REWARD_DURATION, InvalidRewardDuration);
    var _ :- Require(!info.initialized, RewardInitialized);
    info.InitReward(duration);
    return Ok(());
  }

  /** Only after the end of the campaign. */
  method HandleUpdateRewardDuration(ghost l: Ledger, ctx: Context, rewardIndex: Index, duration: uint64) returns (r: Result<()>)
    requires ctx.Loads(l)
    modifies ctx.pool.rewardInfos
    ensures r == l.UpdateRewardDuration(rewardIndex, duration).Status()
    ensures SafeStatus(l, r, l.UpdateRewardDuration(rewardIndex, duration))
    ensures r.Ok? ==> var m := l.UpdateRewardDuration(rewardIndex, duration).value; ctx.Loads(m) && m == l.(pool := m.pool)
  {
    UpdateRewardDurationStatus(l, rewardIndex, duration);
    hide SafeStatus;
    var info := ctx.pool.rewardInfos[rewardIndex];
    var _ :- Require(MIN_REWARD_DURATION <= duration <= MAX_REWARD_DURATION, InvalidRewardDuration);
    var _ :- Require(info.initialized, RewardInitialized);
    var _ :- Require(info.rewardDuration != duration, IdenticalRewardDuration);
    var _ :- Require(info.rewardDurationEnd < ctx.clock.timestamp, RewardCampaignInProgress);
    info.rewardDuration := duration;
    return Ok(());
  }

  /** Carries the ineligible reward forward or refuses to lose it, then sets the new rate. */
  method FundCampaign(info: RewardInfo, now: uint64, received: uint64, carryForward: bool) returns (r: Result<()>)
    modifies info
    ensures r == old(info.View()).Fund(now, received, carryForward).Status()
    ensures r.Ok? ==> info.View() == old(info.View()).Fund(now, received, carryForward).value
  {
    hide RewardView.UpdateRateAfterFunding, MulShr64Cast;
    var totalAmount := received;
    if carryForward {
      var ineligible :- MulShr64Cast(info.cumulativeSecondsWithEmptyLiquidityReward, info.rewardRate);
      info.cumulativeSecondsWithEmptyLiquidityReward := 0;
      totalAmount :- Checked64(received + ineligible);
    } else {
      var _ :- Require(info.cumulativeSecondsWithEmptyLiquidityReward == 0, MustWithdrawnIneligibleReward);
    }
    r := info.UpdateRateAfterFunding(now, totalAmount);
  }

  /** `received` is what reaches the reward vault. */
  method HandleFundReward(ghost l: Ledger, ctx: Context, rewardIndex: Index, rewardVault: TokenAccount, received: uint64,
                          carryForward: bool)
    returns (r: Result<()>)
    requires ctx.Loads(l) && l.rewardVaults.Get(rewardIndex) == rewardVault.amount
    requires rewardVault != ctx.tokenAVault && rewardVault != ctx.tokenBVault
    modifies ctx.pool.rewardInfos, rewardVault
    ensures r == l.FundReward(rewardIndex, received, carryForward).Status()
    ensures SafeStatus(l, r, l.FundReward(rewardIndex, received, carryForward))
    ensures r.Ok? ==>
              var m := l.FundReward(rewardIndex, received, carryForward).value;
              && ctx.Loads(m) && m.rewardVaults == l.rewardVaults.Set(rewardIndex, rewardVault.amount)
              && m == l.(pool := m.pool, rewardVaults := m.rewardVaults)
  {
    FundRewardStatus(l, rewardIndex, received, carryForward);
    hide Ledger.AccrueRewards, RewardView.Fund, SafeStatus;
    var info := ctx.pool.rewardInfos[rewardIndex];
    var _ :- Require(info.initialized, RewardUninitialized);
    var _ :- Require(received > 0, AmountIsZero);
    var _ :- AccrueRewards(l, ctx);
    var _ :- FundCampaign(info, ctx.clock.timestamp, received, carryForward);
    var _ :- rewardVault.Credit(received);
    return Ok(());
  }

  method HandleWithdrawIneligibleReward(ghost l: Ledger, ctx: Context, rewardIndex: Index, rewardVault: TokenAccount)
    returns (r: Result<()>)
    requires ctx.Loads(l) && l.rewardVaults.Get(rewardIndex) == rewardVault.amount
    requires rewardVault != ctx.tokenAVault && rewardVault != ctx.tokenBVault
    modifies ctx.pool.rewardInfos, rewardVault
    ensures r == l.WithdrawIneligibleReward(rewardIndex).Status()
    ensures SafeStatus(l, r, l.WithdrawIneligibleReward(rewardIndex))
    ensures r.Ok? ==>
              var m := l.WithdrawIneligibleReward(rewardIndex).value;
              && ctx.Loads(m) && m.rewardVaults == l.rewardVaults.Set(rewardIndex, rewardVault.amount)
              && m == l.(pool := m.pool, rewardVaults := m.rewardVaults)
  {
    WithdrawIneligibleRewardStatus(l, rewardIndex);
    hide Ledger.AccrueRewards, RewardView.IneligibleReward, Ledger.DebitReward, SafeStatus;
    var info := ctx.pool.rewardInfos[rewardIndex];
    var _ :- Require(info.initialized, RewardUninitialized);
    var _ :- Require(ctx.clock.timestamp > info.rewardDurationEnd, RewardNotEnded);
    var _ :- AccrueRewards(l, ctx);
    ghost var accrued := l.AccrueRewards().value;
    var ineligibleReward :- ctx.pool.ClaimIneligibleReward(rewardIndex);
    r := PayReward(accrued.WithReward(rewardIndex, info.View()), rewardIndex, rewardVault, ineligibleReward);
  }

  /** Pays a reward, if there is one. */
  method PayReward(ghost l: Ledger, rewardIndex: Index, rewardVault: TokenAccount, amount: uint64) returns (r: Result<()>)
    requires l.rewardVaults.Get(rewardIndex) == rewardVault.amount
    modifies rewardVault
    ensures r == l.DebitReward(rewardIndex, amount).Status()
    ensures r.Ok? ==>
              l.DebitReward(rewardIndex, amount).value
              == l.(rewardVaults := l.rewardVaults.Set(rewardIndex, rewardVault.amount))
  {
    if amount > 0 {
      var _ :- rewardVault.Debit(amount);
    }
    return Ok(());
  }

  /** A frozen reward vault pays nothing. */
  method HandleClaimReward(ghost l: Ledger, ctx: Context, id: Id, position: Position, rewardIndex: Index,
                           rewardVault: TokenAccount, frozen: bool, skipReward: bool)
    returns (r: Result<()>)
    requires ctx.Loads(l) && LoadsPosition(l, id, position) && l.rewardVaults.Get(rewardIndex) == rewardVault.amount
    requires rewardVault != ctx.tokenAVault && rewardVault != ctx.tokenBVault
    modifies ctx.pool.rewardInfos, position.rewardInfos, rewardVault
    ensures r == l.ClaimReward(id, rewardIndex, frozen, skipReward).Status()
    ensures SafeStatus(l, r, l.ClaimReward(id, rewardIndex, frozen, skipReward))
    ensures r.Ok? ==>
              var m := l.ClaimReward(id, rewardIndex, frozen, skipReward).value;
              && ctx.Loads(m) && LoadsPosition(m, id, position)
              && m.rewardVaults == l.rewardVaults.Set(rewardIndex, rewardVault.amount)
              && OnlyAt(l, m.(rewardVaults := l.rewardVaults), id)
  {
    ClaimRewardStatus(l, id, rewardIndex, frozen, skipReward);
    hide Ledger.UpdateRewards, PositionView.ClaimReward, Ledger.DebitReward, OnlyAt, SafeStatus;
    var _ :- Require(ctx.pool.rewardInfos[rewardIndex].initialized, RewardUninitialized);
    var _ :- UpdateRewards(l, ctx, id, position);
    ghost var rewarded := l.UpdateRewards(id).value;
    var totalReward := position.ClaimReward(rewardIndex);
    ghost var claimed := rewarded.With(id, position.View());
    WithTwice(rewarded, id, position.View(), position.View());
    OnlyAtComposes(l, rewarded, claimed, id);
    RewardVaultsKept(l, rewarded, id);
    if totalReward > 0 && frozen {
      var _ :- Require(skipReward, RewardVaultFrozenSkipRequired);
    } else {
      var _ :- PayReward(claimed, rewardIndex, rewardVault, totalReward);
    }
    return Ok(());
  }

  lemma RewardVaultsKept(l: Ledger, m: Ledger, id: Id)
    requires OnlyAt(l, m, id)
    ensures m.rewardVaults == l.rewardVaults
  {
  }

  method HandlePermanentLockPosition(ghost l: Ledger, ctx: Context, id: Id, position: Position, amount: uint128)
    returns (r: Result<()>)
    requires ctx.Loads(l) && LoadsPosition(l, id, position)
    modifies ctx.pool, position
    ensures r == l.PermanentLockPosition(id, amount).Status()
    ensures SafeStatus(l, r, l.PermanentLockPosition(id, amount))
    ensures r.Ok? ==>
              var m := l.PermanentLockPosition(id, amount).value;
              ctx.Loads(m) && LoadsPosition(m, id, position) && OnlyAt(l, m, id)
  {
    PermanentLockPositionStatus(l, id, amount);
    hide PositionView.PermanentLockLiquidity, PoolView.AccumulatePermanentLock, SafeStatus;
    var _ :- position.PermanentLockLiquidity(amount);
    var _ :- ctx.pool.AccumulatePermanentLockedLiquidity(amount);
    return Ok(());
  }

  // ---------------------------------------------------------------------------------------------
  // Refreshing vestings
  // ---------------------------------------------------------------------------------------------

  ghost predicate LoadsVesting(l: Ledger, vestingId: Id, vesting: Vesting)
    reads vesting
  {
    vestingId in l.vestings && l.vestings[vestingId] == vesting.View()
  }

  /** `release_vesting_liquidity_to_position`, then whether the vesting is done and its account is closed. */
  method ReleaseToPosition(ghost l: Ledger, currentPoint: uint64, id: Id, position: Position, vestingId: Id, vesting: Vesting)
    returns (r: Result<bool>)
    requires LoadsPosition(l, id, position) && LoadsVesting(l, vestingId, vesting)
    requires currentPoint == l.Point() && vesting.position == id
    modifies position, vesting
    ensures r.Status() == l.RefreshOne(id, vestingId).Status()
    ensures r.Ok? ==>
              && position.Valid()
              && l.RefreshOne(id, vestingId).value
                 == l.With(id, position.View()).(vestings := if r.value then l.vestings - {vestingId}
                                                             else l.vestings[vestingId := vesting.View()])
  {
    hide VestingView.NewReleaseLiquidity, PositionView.ReleaseVestedLiquidity, VestingView.Done, VestingView.AccumulateReleased;
    var released :- vesting.View().NewReleaseLiquidity(currentPoint);
    if released > 0 {
      var moved := position.ReleaseVestedLiquidity(released);
      if moved.Err? {
        return Err(moved.error);
      }
      var accumulated := vesting.AccumulateReleasedLiquidity(released);
      if accumulated.Err? {
        return Err(accumulated.error);
      }
    }
    r := vesting.View().Done();
  }

  /** The vesting accounts handed to a refresh: one object each, with the values they have in `l`. */
  ghost predicate LoadsVestings(l: Ledger, vestings: map<Id, Vesting>)
    reads set v | v in vestings :: vestings[v]
  {
    && (forall v :: v in vestings ==> LoadsVesting(l, v, vestings[v]))
    && (forall v, w :: v in vestings && w in vestings && v != w ==> vestings[v] != vestings[w])
  }

  /** From `l` to `m` only position `id` and the vestings in `accounts` changed; those that are left are in `open`. */
  ghost predicate Refreshes(l: Ledger, m: Ledger, id: Id, accounts: map<Id, Vesting>, open: map<Id, Vesting>) {
    && id in m.positions
    && m == l.(positions := l.positions[id := m.positions[id]], vestings := m.vestings)
    && m.vestings.Keys <= l.vestings.Keys
    && open.Keys == accounts.Keys * m.vestings.Keys
    && (forall v :: v in open ==> open[v] == accounts[v])
    && (forall v :: v in l.vestings && v !in accounts ==> v in m.vestings && m.vestings[v] == l.vestings[v])
  }

  lemma RefreshesCompose(l: Ledger, m: Ledger, n: Ledger, id: Id, accounts: map<Id, Vesting>, open: map<Id, Vesting>,
                         left: map<Id, Vesting>)
    requires Refreshes(l, m, id, accounts, open) && Refreshes(m, n, id, open, left)
    ensures Refreshes(l, n, id, accounts, left)
  {
    assert m.positions[id := n.positions[id]] == l.positions[id := n.positions[id]];
  }

  /** One turn of the loop: a closed account can no longer be loaded. */
  method RefreshNext(ghost l: Ledger, ctx: Context, id: Id, position: Position, vestingId: Id, accounts: map<Id, Vesting>)
    returns (r: Result<()>, open: map<Id, Vesting>)
    requires ctx.clock == l.clock && ctx.pool.config == l.pool.config
    requires LoadsPosition(l, id, position) && LoadsVestings(l, accounts)
    requires vestingId in accounts <==> vestingId in l.vestings
    modifies position, set v | v in accounts :: accounts[v]
    ensures r == l.RefreshOne(id, vestingId).Status()
    ensures r.Ok? ==>
              var m := l.RefreshOne(id, vestingId).value;
              LoadsPosition(m, id, position) && LoadsVestings(m, open) && Refreshes(l, m, id, accounts, open)
  {
    hide Ledger.RefreshOne;
    open := accounts;
    MissingVesting(l, id, vestingId);
    if vestingId !in accounts {
      return Err(AccountNotFound), open;
    }
    if accounts[vestingId].position != id {
      return Err(InvalidVestingAccount), open;
    }
    var done := ReleaseToPosition(l, ctx.Point(), id, position, vestingId, accounts[vestingId]);
    if done.Err? {
      return Err(done.error), open;
    }
    if done.value {
      open := accounts - {vestingId};
    }
    return Ok(()), open;
  }

  /** The loop goes through the remaining accounts and returns those that stay open. */
  method HandleRefreshVesting(ghost l: Ledger, ctx: Context, id: Id, position: Position, vestingIds: seq<Id>,
                              accounts: map<Id, Vesting>)
    returns (r: Result<()>, open: map<Id, Vesting>)
    requires ctx.Loads(l) && LoadsPosition(l, id, position) && LoadsVestings(l, accounts)
    requires forall v :: v in vestingIds ==> (v in accounts <==> v in l.vestings)
    modifies position, set v | v in accounts :: accounts[v]
    ensures r == l.RefreshVesting(id, vestingIds).Status()
    ensures SafeStatus(l, r, l.RefreshVesting(id, vestingIds))
    ensures r.Ok? ==>
              var m := l.RefreshVesting(id, vestingIds).value;
              LoadsPosition(m, id, position) && LoadsVestings(m, open) && Refreshes(l, m, id, accounts, open)
  {
    RefreshVestingStatus(l, id, vestingIds);
    hide Ledger.RefreshOne, SafeStatus;
    open := accounts;
    ghost var current := l;
    var i := 0;
    assert vestingIds[0..] == vestingIds && l.positions[id := l.positions[id]] == l.positions;
    while i < |vestingIds|
      invariant 0 <= i <= |vestingIds|
      invariant LoadsPosition(current, id, position) && LoadsVestings(current, open)
      invariant Refreshes(l, current, id, accounts, open)
      invariant current.RefreshAll(id, vestingIds[i..]) == l.RefreshAll(id, vestingIds)
    {
      assert vestingIds[i..][0] == vestingIds[i] && vestingIds[i..][1..] == vestingIds[i + 1..];
      assert vestingIds[i] in open <==> vestingIds[i] in current.vestings;
      ghost var before, held := current, open;
      r, open := RefreshNext(current, ctx, id, position, vestingIds[i], open);
      if r.Err? {
        return;
      }
      current := before.RefreshOne(id, vestingIds[i]).value;
      RefreshesCompose(l, before, current, id, accounts, held, open);
      i := i + 1;
    }
    return Ok(()), open;
  }

  lemma MissingVesting(l: Ledger, id: Id, vestingId: Id)
    requires id in l.positions
    ensures vestingId !in l.vestings ==> l.RefreshOne(id, vestingId) == Err(AccountNotFound)
    ensures vestingId in l.vestings && l.vestings[vestingId].position != id ==>
              l.RefreshOne(id, vestingId) == Err(InvalidVestingAccount)
  {
  }
}
