/** A pool whose dynamic fee never gets its first reference price: when that happens, and a pool in which it does. */
module Blocking {
  import opened Numbers
  import opened Curve
  import opened Fees
  import opened Trading
  import opened Deposits
  import opened Pools
  import opened PoolTrading
  import opened Ledgers
  import opened Solvency
  import opened SwapSafety
  import opened Runs

  /** A new pool is blocked exactly if it has a dynamic fee and the clock has not come to the end of the first filter
      period, counted from timestamp zero. */
  lemma NewPoolIsBlockedExactly(clock: Clock, id: Id, parameters: PoolParameters)
    requires InitializePool(clock, id, parameters).Ok?
    ensures InitializePool(clock, id, parameters).value.pool.dynamicFee.Blocked(clock.timestamp)
       <==> parameters.dynamicFee.Some? && clock.timestamp < parameters.dynamicFee.value.filterPeriod
  {
    hide InitializeAmounts, PoolParameters.Validate;
  }

  /** While it is blocked no swap goes through. */
  lemma BlockedPoolRefuses(l: Ledger, received: uint64, minimumOut: uint64, direction: TradeDirection, hasReferral: bool)
    requires Inv(l) && l.pool.dynamicFee.Blocked(l.Now())
    ensures l.Swap(received, minimumOut, direction, hasReferral).Err?
  {
    hide Inv, Ledger.Swap, PoolView.GetSwapResult, SwappedTo, DynamicFee.Blocked, RoomFor;
    SwapSucceedsExactly(l, received, minimumOut, direction, hasReferral);
  }

  /** The parameters of a small pool with a constant base fee of a quarter of a percent and a dynamic fee. */
  const BLOCKED_POOL: PoolParameters := PoolParameters(
    Customizable, MIN_SQRT_PRICE, MAX_SQRT_PRICE, 2 * Q64, 2 * Q64,
    BaseFee(2_500_000, 0, 0, 0, Linear),
    Some(DynamicFeeParameters(1, BIN_STEP_BPS_U128_DEFAULT, 10, 120, 5_000, 14_460_000, 956)),
    BothToken, Timestamp, None)

  lemma BlockedPoolIsValid()
    ensures BLOCKED_POOL.Validate().Pass?
  {
    assert BLOCKED_POOL.baseFee.NumeratorAfter(0) == Ok(2_500_000);
  }

  lemma BlockedPoolIsCreated()
    ensures var r := InitializePool(Clock(0, 0), 0, BLOCKED_POOL);
            && r.Ok? && r.value.clock == Clock(0, 0)
            && r.value.pool.Curve() == CurveState(2 * Q64, MIN_SQRT_PRICE, MAX_SQRT_PRICE, 2 * Q64)
            && r.value.pool.config.collectFeeMode == BothToken && r.value.pool.config.activationPoint == 0
            && r.value.pool.dynamicFee.Blocked(r.value.Now())
  {
    hide PoolParameters.Validate, InitializeAmounts;
    BlockedPoolIsValid();
    InitialAmountsFit(CurveState(2 * Q64, MIN_SQRT_PRICE, MAX_SQRT_PRICE, 2 * Q64));
    InitialBIsPositive(MIN_SQRT_PRICE, MAX_SQRT_PRICE, 2 * Q64, 2 * Q64);
  }

  lemma SmallTradeIsQuoted(l: Ledger)
    requires Inv(l) && l.pool.Curve() == CurveState(2 * Q64, MIN_SQRT_PRICE, MAX_SQRT_PRICE, 2 * Q64)
    requires l.pool.config.collectFeeMode == BothToken && l.pool.config.activationPoint == 0
    ensures l.Quote(1, AtoB, false).Ok?
  {
    hide Inv, PoolView.GetSwapResult, CurveState.Swap, PoolView.TotalTradingFee, Net;
    InvSoundPool(l);
    ZeroFeeRoundTripCanBreakEven();
    ResultIsNetSwap(l.pool, l.Now(), 1, GetFeeMode(BothToken, AtoB, false), AtoB, l.Point());
  }

  /** Above its lowest price a pool with liquidity takes some of token B. */
  lemma InitialBIsPositive(min: uint128, max: uint128, price: uint128, liquidity: uint128)
    requires min < price && liquidity > 0
    ensures var amounts := InitializeAmounts(min, max, price, liquidity); amounts.Ok? ==> amounts.value.1 > 0
  {
    DeltaAmountBBounds(min, price, liquidity, Up);
    assert liquidity * (price - min) > 0;
    hide DeltaAmountA, DeltaAmountBUnchecked;
  }

  /** A pool can quote a trade that it refuses to execute: this one, created before the end of the first filter period,
      quotes a swap of one unit of token A, and no limit makes the swap itself go through. */
  lemma QuotedButRefused(minimumOut: uint64)
    ensures var created := InitializePool(Clock(0, 0), 0, BLOCKED_POOL);
            && created.Ok? && Inv(created.value)
            && created.value.Quote(1, AtoB, false).Ok?
            && created.value.Swap(1, minimumOut, AtoB, false).Err?
  {
    hide Inv, InitializePool, Ledger.Swap, Ledger.Quote, DynamicFee.Blocked;
    BlockedPoolIsCreated();
    NewPoolKeepsInvariant(Clock(0, 0), 0, BLOCKED_POOL);
    var l := InitializePool(Clock(0, 0), 0, BLOCKED_POOL).value;
    SmallTradeIsQuoted(l);
    BlockedPoolRefuses(l, 1, minimumOut, AtoB, false);
  }
}
