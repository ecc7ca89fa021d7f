/** Which pools can be created, and what they look like. */
module PoolCreation {
  import opened Numbers
  import opened Arithmetic
  import opened Curve
  import opened FeeMath
  import opened Fees
  import opened Deposits
  import opened Rewards
  import opened Positions
  import opened Pools
  import opened Ledgers

  /** A dynamic fee with the default bins, a filter period before its decay period, and factors in range. */
  ghost predicate ValidDynamicFee(d: DynamicFeeParameters) {
    && d.binStep == BIN_STEP_BPS_DEFAULT && d.binStepU128 == BIN_STEP_BPS_U128_DEFAULT
    && d.filterPeriod < d.decayPeriod && d.reductionFactor <= BASIS_POINT_MAX
    && d.variableFeeControl <= U24_MAX && d.maxVolatilityAccumulator <= U24_MAX
  }

  /** A price in a proper range within the global one, some liquidity, and fees in bounds at all times. */
  ghost predicate ValidPool(p: PoolParameters) {
    && MIN_SQRT_PRICE <= p.sqrtMinPrice < p.sqrtMaxPrice <= MAX_SQRT_PRICE
    && p.sqrtMinPrice <= p.sqrtPrice <= p.sqrtMaxPrice && p.liquidity > 0
    && AlwaysInBounds(p.baseFee)
    && (p.dynamicFee.Some? ==> ValidDynamicFee(p.dynamicFee.value))
  }

  lemma ValidatePoolSucceedsExactly(p: PoolParameters)
    ensures p.Validate().Pass? <==> ValidPool(p)
  {
    hide BaseFee.Validate, AlwaysInBounds;
    ValidatedExactly(p.baseFee);
  }

  ghost function CurveOf(p: PoolParameters): CurveState {
    CurveState(p.liquidity, p.sqrtMinPrice, p.sqrtMaxPrice, p.sqrtPrice)
  }

  /** Liquidity in a proper range is worth something. */
  lemma LiquidityIsWorthSomething(c: CurveState)
    requires c.InRange() && c.liquidity > 0 && c.sqrtMinPrice < c.sqrtMaxPrice && c.Amounts(c.liquidity, Up).Ok?
    ensures c.Amounts(c.liquidity, Up).value.zero > 0 || c.Amounts(c.liquidity, Up).value.one > 0
  {
    AmountsAreRounded(c, c.liquidity, Up);
    ScalesArePositive(c);
    var token := if c.sqrtPrice < c.sqrtMaxPrice then TOKEN_A else TOKEN_B;
    assert Unit(c, token) > 0;
    hide CurveState.Amounts, CurveState.InRange, Unit, Scale;
    assert c.liquidity * Unit(c, token) > 0;
    DivRoundBounds(c.liquidity * Unit(c, token), Scale(c, token), Up);
    hide DivRound;
  }

  /** What the handlers fix when they create a pool. */
  ghost predicate ConfiguredAs(config: PoolConfig, clock: Clock, p: PoolParameters) {
    && config.sqrtMinPrice == p.sqrtMinPrice && config.sqrtMaxPrice == p.sqrtMaxPrice && config.baseFee == p.baseFee
    && config.collectFeeMode == p.collectFeeMode && config.activationType == p.activationType
    && config.activationPoint == (match p.activationPoint
                                  case Some(point) => point
                                  case None => if p.activationType.Slot? then clock.slot else clock.timestamp)
    && (match p.creation
        case Customizable => !config.hasPartner && config.percents == FeePercents(20, 0, 20)
        case StaticConfig(percents, named) => config.hasPartner == named && config.percents == percents
        case DynamicConfig => config.hasPartner && config.percents == FeePercents(20, 0, 20))
  }

  /** A dynamic fee as asked for, with no volatility, no reference price and no time recorded yet. */
  ghost predicate StartsCalm(d: DynamicFee, asked: Option<DynamicFeeParameters>) {
    && d.initialized == asked.Some?
    && d.volatilityAccumulator == d.volatilityReference == d.sqrtPriceReference == d.lastUpdateTimestamp == 0
    && (asked.Some? ==>
          && d.binStep == asked.value.binStep && d.binStepU128 == asked.value.binStepU128
          && d.filterPeriod == asked.value.filterPeriod && d.decayPeriod == asked.value.decayPeriod
          && d.reductionFactor == asked.value.reductionFactor
          && d.variableFeeControl == asked.value.variableFeeControl
          && d.maxVolatilityAccumulator == asked.value.maxVolatilityAccumulator)
  }

  /** A pool as asked for, with nothing booked and nothing locked, and one position that holds all its liquidity. */
  ghost predicate CreatedAs(l: Ledger, clock: Clock, id: Id, p: PoolParameters) {
    && l.clock == clock && l.pool.Curve() == CurveOf(p) && ConfiguredAs(l.pool.config, clock, p)
    && l.pool.fees.zero == l.pool.fees.one == FeeLedger(0, 0, 0, 0, 0, 0)
    && l.pool.permanentLockLiquidity == 0 && StartsCalm(l.pool.dynamicFee, p.dynamicFee)
    && l.pool.rewards.zero == l.pool.rewards.one == RewardView(false, 0, 0, 0, 0, 0, 0)
    && l.positions == map[id := NO_POSITION.(unlocked := p.liquidity)]
    && l.vestings == map[] && l.rewardVaults.zero == l.rewardVaults.one == 0
  }

  /** The vault is paid the amount due, and by the customizable handler at least one unit. */
  ghost predicate PaidIn(creation: Creation, due: nat, paid: nat) {
    paid == if due == 0 && creation.Customizable? then 1 else due
  }

  /** Exactly the valid pools whose amounts fit 64 bits can be created; the creator pays the rounded-up worth of the
      liquidity, which is never nothing. */
  lemma InitializePoolSucceedsExactly(clock: Clock, id: Id, parameters: PoolParameters)
    ensures var r, amounts := InitializePool(clock, id, parameters), CurveOf(parameters).Amounts(parameters.liquidity, Up);
            && (r.Ok? <==> ValidPool(parameters) && amounts.Ok?)
            && (r.Ok? ==>
                  && CreatedAs(r.value, clock, id, parameters)
                  && PaidIn(parameters.creation, amounts.value.zero, r.value.vaults.zero)
                  && PaidIn(parameters.creation, amounts.value.one, r.value.vaults.one))
  {
    hide PoolParameters.Validate, CurveState.Amounts, InitializeAmounts, AlwaysInBounds;
    ValidatePoolSucceedsExactly(parameters);
    SameInitialAmounts(parameters);
    if ValidPool(parameters) && CurveOf(parameters).Amounts(parameters.liquidity, Up).Ok? {
      LiquidityIsWorthSomething(CurveOf(parameters));
    }
  }

  /** What the handlers compute is what a deposit of the liquidity would pay. */
  lemma SameInitialAmounts(p: PoolParameters)
    ensures var due := InitializeAmounts(p.sqrtMinPrice, p.sqrtMaxPrice, p.sqrtPrice, p.liquidity);
            var amounts := CurveOf(p).Amounts(p.liquidity, Up);
            && (due.Ok? <==> amounts.Ok?)
            && (due.Ok? ==> due.value.0 == amounts.value.zero && due.value.1 == amounts.value.one)
  {
    hide DeltaAmountA, DeltaAmountB;
  }
}
