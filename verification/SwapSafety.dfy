/** Swaps: what a trade and its fees move between curve, fee ledgers and vaults, when a trade goes through, and why
    the vaults always cover what is left. */
module SwapSafety {
  import opened Numbers
  import opened Arithmetic
  import opened Curve
  import opened Fees
  import opened Rewards
  import opened Pools
  import opened Books
  import opened Ledgers
  import opened Solvency
  import opened Safety

  // ---------------------------------------------------------------------------------------------
  // The curve's principal under a price move
  // ---------------------------------------------------------------------------------------------

  /** What the curve receives (or gives, negative) of a token. */
  function Gain(direction: TradeDirection, token: Index, curveIn: nat, curveOut: nat): int {
    if token == InputToken(direction) then curveIn else 0 - curveOut
  }

  lemma PrincipalOfA(l: nat, p: nat, n: nat, max: nat, surplus: int, a: int)
    requires p > 0 && FundedA(l, p, n, a)
    requires Q128 * (l * (max - p)) <= surplus * (p * max)
    ensures Q128 * (l * (max - n)) <= (surplus + Q128 * a) * (n * max)
  {
    var held, moved := Q128 * (l * (max - p)), Q128 * (l * (p - n));
    MulMono(held, surplus * (p * max), n);
    MulMono(l * (p - n), a * (p * n), Q128 * max);
    assert held * n + (l * (p - n)) * (Q128 * max) == Q128 * (l * (max - n)) * p by {
      SplitMove(l, p, n, max);
    }
    assert surplus * (p * max) * n + a * (p * n) * (Q128 * max) == (surplus + Q128 * a) * (n * max) * p by {
      SplitWorth(p, n, max, surplus, a);
    }
    CancelFactor(Q128 * (l * (max - n)), (surplus + Q128 * a) * (n * max), p);
  }

  lemma SplitMove(l: nat, p: nat, n: nat, max: nat)
    ensures Q128 * (l * (max - p)) * n + (l * (p - n)) * (Q128 * max) == Q128 * (l * (max - n)) * p
  {
    assert (max - p) * n + (p - n) * max == (max - n) * p;
    assert l * (max - p) * n + l * (p - n) * max == l * (max - n) * p;
  }

  lemma SplitWorth(p: nat, n: nat, max: nat, surplus: int, a: int)
    ensures surplus * (p * max) * n + a * (p * n) * (Q128 * max) == (surplus + Q128 * a) * (n * max) * p
  {
    var t := n * max * p;
    assert p * max * n == t && p * n * max == t;
    assert surplus * (p * max) * n == surplus * t;
    assert a * (p * n) * (Q128 * max) == Q128 * a * t;
    assert (surplus + Q128 * a) * (n * max) * p == (surplus + Q128 * a) * t;
  }

  /** A funded move keeps each token's principal covered. */
  lemma CoveredAfterMove(c: CurveState, n: uint128, token: Index, surplus: int, gain: int)
    requires c.InRange() && c.MovedTo(n).InRange() && Covered(c, token, surplus)
    requires if token == TOKEN_A then FundedA(c.liquidity, c.sqrtPrice, n, gain) else FundedB(c.liquidity, c.sqrtPrice, n, gain)
    ensures Covered(c.MovedTo(n), token, surplus + Q128 * gain)
  {
    var l, p := c.liquidity, c.sqrtPrice;
    if token == TOKEN_A {
      PrincipalOfA(l, p, n, c.sqrtMaxPrice, surplus, gain);
    } else {
      assert l * (n - c.sqrtMinPrice) == l * (p - c.sqrtMinPrice) + l * (n - p);
    }
  }

  // ---------------------------------------------------------------------------------------------
  // What a swap result means
  // ---------------------------------------------------------------------------------------------

  ghost function TotalFee(result: SwapResult): nat {
    result.lpFee + result.protocolFee + result.partnerFee + result.referralFee
  }

  ghost function CurveIn(received: nat, result: SwapResult, mode: FeeMode): int {
    if mode.feesOnInput then received - TotalFee(result) else received
  }

  ghost function CurveOut(result: SwapResult, mode: FeeMode): nat {
    if mode.feesOnInput then result.outputAmount else result.outputAmount + TotalFee(result)
  }

  /** The trading fee never errors in a sound pool, and never exceeds one half. */
  lemma TradingFeeIsBounded(pool: PoolView, now: nat, point: uint64)
    requires PoolSound(pool, now)
    ensures pool.TotalTradingFee(point).Ok?
    ensures var base, variable := pool.config.baseFee.CurrentNumerator(point, pool.config.activationPoint), pool.dynamicFee.VariableFee();
            base.Ok? && variable.Ok? && pool.TotalTradingFee(point).value == base.value + variable.value
    ensures MIN_FEE_NUMERATOR <= Min(pool.TotalTradingFee(point).value, MAX_FEE_NUMERATOR) <= MAX_FEE_NUMERATOR
  {
    hide BaseFee.Validate, BaseFee.CurrentNumerator, DynamicFee.Sound, DynamicFee.VariableFee;
    ScheduleIsSafe(pool.config.baseFee, pool.config.activationPoint, point, point);
    VariableFeeIsBounded(pool.dynamicFee, now);
    VariableFeeFits(pool.dynamicFee, now);
  }

  lemma VariableFeeFits(d: DynamicFee, now: nat)
    requires d.Sound(now)
    ensures d.VariableFee().Ok? ==> d.VariableFee().value + MAX_FEE_NUMERATOR <= U128_MAX
  {
    hide DynamicFee.Sound;
    if d.initialized && d.VariableFee().Ok? {
      var square :| d.VariableFee() == FeeOfSquare(square, d.variableFeeControl);
    }
  }

  lemma FeeOnIs(pool: PoolView, now: nat, amount: uint64, hasReferral: bool, point: uint64)
    requires PoolSound(pool, now)
    ensures var r := pool.FeeOn(amount, hasReferral, point);
            && r.Ok?
            && r.value.amount == Net(amount, Min(pool.TotalTradingFee(point).value, MAX_FEE_NUMERATOR))
            && r.value.amount + r.value.Total() == amount
            && (!hasReferral ==> r.value.referralFee == 0)
            && SharedOut(r.value, r.value.Total(), pool.config.percents, hasReferral, pool.config.hasPartner)
  {
    TradingFeeIsBounded(pool, now, point);
    var numerator := Min(pool.TotalTradingFee(point).value, MAX_FEE_NUMERATOR);
    hide PoolView.TotalTradingFee, ChargeFee, Net, IsShare, DynamicFee.Sound, RewardView.Sound, BaseFee.Validate;
    FeeIsConserved(amount, numerator, pool.config.percents, hasReferral, pool.config.hasPartner);
  }

  /** What a successful quote guarantees: the price stays in range and moves with the trade, every unit is either
      traded or a fee, and neither token's principal is left short. */
  ghost predicate FairResult(pool: PoolView, received: nat, result: SwapResult, mode: FeeMode, direction: TradeDirection) {
    var c, curveIn, curveOut := pool.Curve(), CurveIn(received, result, mode), CurveOut(result, mode);
    && c.InRange() && c.liquidity > 0 && c.MovedTo(result.nextSqrtPrice).InRange()
    && (if direction.AtoB? then result.nextSqrtPrice <= c.sqrtPrice else result.nextSqrtPrice >= c.sqrtPrice)
    && curveIn >= 0
    && FundedA(c.liquidity, c.sqrtPrice, result.nextSqrtPrice, Gain(direction, TOKEN_A, curveIn, curveOut))
    && FundedB(c.liquidity, c.sqrtPrice, result.nextSqrtPrice, Gain(direction, TOKEN_B, curveIn, curveOut))
    && (!mode.hasReferral ==> result.referralFee == 0)
  }

  lemma SwapResultIsFair(pool: PoolView, now: nat, received: uint64, mode: FeeMode, direction: TradeDirection, point: uint64,
                         result: SwapResult)
    requires PoolSound(pool, now) && pool.GetSwapResult(received, mode, direction, point) == Ok(result)
    ensures FairResult(pool, received, result, mode, direction)
  {
    hide CurveState.Swap, PoolView.FeeOn, PoolSound, Net, FundedA, FundedB, Funded, SharedOut, PoolView.TotalTradingFee, Gain,
         CurveState.InRange;
    PoolInRange(pool, now);
    if mode.feesOnInput {
      FeeOnIs(pool, now, received, mode.hasReferral, point);
      var fee := pool.FeeOn(received, mode.hasReferral, point).value;
      var SwapAmount(out, n) := pool.Curve().Swap(direction, fee.amount).value;
      FundedParts(pool.Curve(), direction, fee.amount, n, out);
    } else {
      var SwapAmount(out, n) := pool.Curve().Swap(direction, received).value;
      FundedParts(pool.Curve(), direction, received, n, out);
      FeeOnIs(pool, now, out, mode.hasReferral, point);
    }
  }

  lemma PoolInRange(pool: PoolView, now: nat)
    requires PoolSound(pool, now)
    ensures pool.Curve().InRange()
  {
  }

  lemma FundedParts(c: CurveState, direction: TradeDirection, amountIn: uint64, n: uint128, out: uint64)
    requires c.InRange() && c.Swap(direction, amountIn) == Ok(SwapAmount(out, n))
    ensures c.liquidity > 0 && c.MovedTo(n).InRange()
    ensures if direction.AtoB? then n <= c.sqrtPrice else n >= c.sqrtPrice
    ensures FundedA(c.liquidity, c.sqrtPrice, n, Gain(direction, TOKEN_A, amountIn, out))
    ensures FundedB(c.liquidity, c.sqrtPrice, n, Gain(direction, TOKEN_B, amountIn, out))
  {
    SwapIsFunded(c, direction, amountIn, n, out);
    hide CurveState.Swap, FundedA, FundedB;
  }

  // ---------------------------------------------------------------------------------------------
  // Booking the result
  // ---------------------------------------------------------------------------------------------

  /** The fee ledger after booking a result: protocol and partner get their fees, the liquidity all of its own but for less
      than one unit of the accumulator, and the lifetime totals count them. */
  ghost predicate Booked(before: FeeLedger, after: FeeLedger, result: SwapResult, liquidity: nat) {
    var growth := after.feePerLiquidity - before.feePerLiquidity;
    && after.protocolFee == before.protocolFee + result.protocolFee
    && after.partnerFee == before.partnerFee + result.partnerFee
    && after.totalLpFee == before.totalLpFee + result.lpFee
    && after.totalProtocolFee == before.totalProtocolFee + result.protocolFee
    && after.totalPartnerFee == before.totalPartnerFee + result.partnerFee
    && growth >= 0
    && liquidity * growth <= Q128 * result.lpFee < liquidity * (growth + 1)
  }

  ghost predicate Applied(pool: PoolView, after: PoolView, result: SwapResult, mode: FeeMode) {
    && after == pool.(sqrtPrice := result.nextSqrtPrice, fees := after.fees, dynamicFee := after.dynamicFee)
    && after.fees == pool.fees.Set(mode.FeeToken(), after.fees.Get(mode.FeeToken()))
    && Booked(pool.fees.Get(mode.FeeToken()), after.fees.Get(mode.FeeToken()), result, pool.liquidity)
  }

  /** The books, the lifetime totals and the accumulator have room for the fees of a result. */
  ghost predicate FeesFit(before: FeeLedger, result: SwapResult, liquidity: nat) {
    && before.protocolFee + result.protocolFee <= U64_MAX
    && before.partnerFee + result.partnerFee <= U64_MAX
    && before.totalLpFee + result.lpFee <= U128_MAX
    && before.totalProtocolFee + result.protocolFee <= U64_MAX
    && before.totalPartnerFee + result.partnerFee <= U64_MAX
    && Q128 * result.lpFee < liquidity * (U256_MAX + 1 - before.feePerLiquidity)
  }

  ghost predicate RoomFor(pool: PoolView, result: SwapResult, mode: FeeMode) {
    FeesFit(pool.fees.Get(mode.FeeToken()), result, pool.liquidity)
  }

  lemma AccumulateBooks(before: FeeLedger, result: SwapResult, liquidity: uint128, growth: uint256)
    requires liquidity > 0 && liquidity * growth <= Q128 * result.lpFee < liquidity * (growth + 1)
    ensures var r := before.Accumulate(result.lpFee, result.protocolFee, result.partnerFee, growth);
            && (r.Ok? <==> FeesFit(before, result, liquidity))
            && (r.Ok? ==> Booked(before, r.value, result, liquidity))
            && (r.Err? ==> r.error == MathOverflow)
  {
    QuotientFits(growth, liquidity, Q128 * result.lpFee, U256_MAX - before.feePerLiquidity);
  }

  lemma ApplyIs(pool: PoolView, result: SwapResult, mode: FeeMode, now: uint64)
    requires PoolSound(pool, now) && pool.liquidity > 0 && pool.Curve().MovedTo(result.nextSqrtPrice).InRange()
    ensures var r := pool.ApplySwapResult(result, mode, now);
            && (r.Ok? ==>
                  && Applied(pool, r.value, result, mode) && PoolSound(r.value, now)
                  && Recorded(pool.dynamicFee, r.value.dynamicFee, pool.sqrtPrice, result.nextSqrtPrice, now))
            && (r.Ok? <==> RoomFor(pool, result, mode) && !(pool.dynamicFee.initialized && pool.dynamicFee.sqrtPriceReference == 0))
            && (r.Err? ==> r.error != VaultShortfall)
  {
    var growth := ShiftedQuotient(result.lpFee, pool.liquidity);
    AccumulateBooks(pool.fees.Get(mode.FeeToken()), result, pool.liquidity, growth);
    assert MIN_SQRT_PRICE <= pool.sqrtPrice <= MAX_SQRT_PRICE && MIN_SQRT_PRICE <= result.nextSqrtPrice <= MAX_SQRT_PRICE;
    hide RewardView.Sound, BaseFee.Validate, FeeLedger.Accumulate, Booked, FeesFit, ShlDiv128, Recorded;
    AfterSwapIsSound(pool.dynamicFee, pool.sqrtPrice, result.nextSqrtPrice, now);
    AfterSwapErrors(pool.dynamicFee, pool.sqrtPrice, result.nextSqrtPrice, now);
    hide DynamicFee.AfterSwap, DynamicFee.Sound;
  }

  lemma AfterSwapErrors(d: DynamicFee, oldPrice: uint128, newPrice: uint128, now: uint64)
    ensures var r := d.AfterSwap(oldPrice, newPrice, now); r.Err? ==> r.error == MathOverflow
  {
    hide ShlDiv64;
    ShlDiv64Errors(oldPrice, newPrice);
    ShlDiv64Errors(newPrice, oldPrice);
    ShlDiv64Errors(newPrice, d.sqrtPriceReference);
    ShlDiv64Errors(d.sqrtPriceReference, newPrice);
  }

  lemma ShlDiv64Errors(x: uint128, y: uint128)
    ensures ShlDiv64(x, y).Err? ==> ShlDiv64(x, y).error == MathOverflow
  {
  }

  // ---------------------------------------------------------------------------------------------
  // Vaults
  // ---------------------------------------------------------------------------------------------

  function OutputToken(direction: TradeDirection): Index {
    InputToken(direction.Opposite())
  }

  /** A fee is taken from the input or from the output of the trade, never from the other token. */
  ghost predicate FeeIsOnSide(mode: FeeMode, direction: TradeDirection) {
    mode.FeeToken() == if mode.feesOnInput then InputToken(direction) else OutputToken(direction)
  }

  lemma FeeModeIsOnSide(collect: CollectFeeMode, direction: TradeDirection, hasReferral: bool)
    ensures FeeIsOnSide(GetFeeMode(collect, direction, hasReferral), direction)
    ensures collect.OnlyB? ==> GetFeeMode(collect, direction, hasReferral).FeeToken() == TOKEN_B
    ensures collect.BothToken? ==> GetFeeMode(collect, direction, hasReferral).FeeToken() == OutputToken(direction)
    ensures GetFeeMode(collect, direction, hasReferral).hasReferral == hasReferral
  {
  }

  function VaultGain(token: Index, received: nat, result: SwapResult, mode: FeeMode, direction: TradeDirection): int {
    var traded: int := if token == InputToken(direction) then received else 0 - result.outputAmount as int;
    if token == mode.FeeToken() then traded - result.referralFee else traded
  }

  ghost predicate VaultsMoved(l: Ledger, m: Ledger, received: nat, result: SwapResult, mode: FeeMode, direction: TradeDirection) {
    && m.vaults.zero == l.vaults.zero + VaultGain(TOKEN_A, received, result, mode, direction)
    && m.vaults.one == l.vaults.one + VaultGain(TOKEN_B, received, result, mode, direction)
  }

  lemma MoveSwapIs(l: Ledger, received: uint64, result: SwapResult, direction: TradeDirection, mode: FeeMode)
    requires FeeIsOnSide(mode, direction) && (!mode.hasReferral ==> result.referralFee == 0)
    requires 0 <= CurveIn(received, result, mode)
    requires CurveOut(result, mode) <= l.vaults.Get(OutputToken(direction))
    ensures var r := l.MoveSwap(received, result, direction, mode);
            && (r.Ok? ==> r.value == l.(vaults := r.value.vaults) && VaultsMoved(l, r.value, received, result, mode, direction))
            && (r.Ok? <==> l.vaults.Get(InputToken(direction)) + received <= U64_MAX)
            && (r.Err? ==> r.error == VaultOverflow)
  {
  }

  /** The curve can pay its side of a fair trade out of the vault. */
  lemma CurvePaysFrom(c: CurveState, n: uint128, token: Index, surplus: int, curveOut: nat, balance: nat)
    requires c.InRange() && c.MovedTo(n).InRange() && Covered(c, token, surplus) && surplus <= Q128 * balance
    requires if token == TOKEN_A then FundedA(c.liquidity, c.sqrtPrice, n, 0 - curveOut as int)
             else FundedB(c.liquidity, c.sqrtPrice, n, 0 - curveOut as int)
    ensures curveOut <= balance
  {
    CoveredAfterMove(c, n, token, surplus, 0 - curveOut as int);
    hide Covered, CurveState.InRange, FundedA, FundedB;
    CoveredIsNonNegative(c.MovedTo(n), token, surplus + Q128 * (0 - curveOut as int));
    CancelFactor(curveOut, balance, Q128);
  }

  lemma OutputIsBacked(l: Ledger, received: nat, result: SwapResult, mode: FeeMode, direction: TradeDirection)
    requires Inv(l) && FairResult(l.pool, received, result, mode, direction)
    ensures CurveOut(result, mode) <= l.vaults.Get(OutputToken(direction))
  {
    hide Inv, Slack, Covered, CurveState.InRange, FundedA, FundedB, CurveIn, CurveOut;
    var token := OutputToken(direction);
    VaultCovers(l, token);
    CurvePaysFrom(l.pool.Curve(), result.nextSqrtPrice, token, Slack(l, Fee(token)), CurveOut(result, mode), l.vaults.Get(token));
  }

  // ---------------------------------------------------------------------------------------------
  // The invariant
  // ---------------------------------------------------------------------------------------------

  /** `m` is `l` after the result was booked and the tokens were moved. */
  ghost predicate SwappedTo(l: Ledger, m: Ledger, received: nat, result: SwapResult, mode: FeeMode, direction: TradeDirection) {
    && FeeIsOnSide(mode, direction)
    && FairResult(l.pool, received, result, mode, direction)
    && Applied(l.pool, m.pool, result, mode)
    && m == l.(pool := m.pool, vaults := m.vaults)
    && VaultsMoved(l, m, received, result, mode, direction)
  }

  /** Whatever a swap adds to a vault beyond the fees it books stays with the curve. */
  lemma BackingAfterSwap(l: Ledger, m: Ledger, received: nat, result: SwapResult, mode: FeeMode, direction: TradeDirection,
                         token: Index)
    requires SwappedTo(l, m, received, result, mode, direction)
    ensures var gain := Gain(direction, token, CurveIn(received, result, mode), CurveOut(result, mode));
            Backing(m, Fee(token))
            == Backing(l, Fee(token)) + Q128 * gain + if token == mode.FeeToken() then Q128 * result.lpFee else 0
  {
    hide FairResult;
  }

  /** The liquidity fee of a swap is owed to the positions, all of it but for less than one unit of the accumulator, and
      nothing is owed in the other token. */
  lemma LpFeeIsOwed(l: Ledger, m: Ledger, received: nat, result: SwapResult, mode: FeeMode, direction: TradeDirection,
                    token: Index)
    requires LiquidityConserved(l) && SwappedTo(l, m, received, result, mode, direction)
    ensures var owed := Owed(m.positions, Fee(token), Stored(m.pool, Fee(token))) - Owed(l.positions, Fee(token), Stored(l.pool, Fee(token)));
            if token == mode.FeeToken() then owed <= Q128 * result.lpFee < owed + l.pool.liquidity else owed == 0
  {
    hide Owed, TotalLiquidity, TotalPermanent, FairResult, FeeIsOnSide, VaultsMoved, FeeMode.FeeToken;
    OwedGrows(l.positions, Fee(token), Stored(l.pool, Fee(token)), Stored(m.pool, Fee(token)));
  }

  lemma SlackAfterSwap(l: Ledger, m: Ledger, received: nat, result: SwapResult, mode: FeeMode, direction: TradeDirection,
                       token: Index)
    requires LiquidityConserved(l) && SwappedTo(l, m, received, result, mode, direction)
    ensures var gain := Gain(direction, token, CurveIn(received, result, mode), CurveOut(result, mode));
            Slack(m, Fee(token)) >= Slack(l, Fee(token)) + Q128 * gain
    ensures Stored(l.pool, Fee(token)) <= Stored(m.pool, Fee(token))
  {
    BackingAfterSwap(l, m, received, result, mode, direction, token);
    LpFeeIsOwed(l, m, received, result, mode, direction, token);
    StoredGrows(l, m, received, result, mode, direction, token);
    hide Backing, Owed, Stored, SwappedTo, Gain, CurveIn, CurveOut, FeeMode.FeeToken;
  }

  lemma StoredGrows(l: Ledger, m: Ledger, received: nat, result: SwapResult, mode: FeeMode, direction: TradeDirection,
                    token: Index)
    requires SwappedTo(l, m, received, result, mode, direction)
    ensures Stored(l.pool, Fee(token)) <= Stored(m.pool, Fee(token))
  {
    hide FairResult, FeeIsOnSide, VaultsMoved, FeeMode.FeeToken;
  }

  lemma SwappedAccount(l: Ledger, m: Ledger, received: nat, result: SwapResult, mode: FeeMode, direction: TradeDirection,
                       a: Account)
    requires l.pool.Curve().InRange() && AccountSolvent(l, a) && LiquidityConserved(l)
    requires SwappedTo(l, m, received, result, mode, direction)
    ensures m.pool.Curve().InRange() && AccountSolvent(m, a)
  {
    hide Slack, Covered, LiquidityConserved, CurveState.InRange, FundedA, FundedB, CurveIn, CurveOut, FeeIsOnSide,
         VaultsMoved, Booked;
    assert m.pool.Curve() == l.pool.Curve().MovedTo(result.nextSqrtPrice);
    if a.Fee? {
      var gain := Gain(direction, a.token, CurveIn(received, result, mode), CurveOut(result, mode));
      SlackAfterSwap(l, m, received, result, mode, direction, a.token);
      CoveredAfterMove(l.pool.Curve(), result.nextSqrtPrice, a.token, Slack(l, a), gain);
      hide Gain;
      CoveredMono(m.pool.Curve(), a.token, Slack(l, a) + Q128 * gain, Slack(m, a));
    } else {
      SameAccount(l, m, a);
    }
  }

  lemma SwapKeeps(l: Ledger, m: Ledger, received: nat, result: SwapResult, mode: FeeMode, direction: TradeDirection)
    requires Inv(l) && SwappedTo(l, m, received, result, mode, direction) && PoolSound(m.pool, m.Now())
    ensures Inv(m)
  {
    InvConserves(l);
    forall a: Account ensures m.pool.Curve().InRange() && AccountSolvent(m, a) {
      assert AccountSolvent(l, a);
      SwappedAccount(l, m, received, result, mode, direction, a);
    }
    hide AccountSolvent, TotalLiquidity, TotalPermanent, OutstandingOf, VestingSound, PoolSound, FairResult, VaultsMoved,
         Booked, FeeIsOnSide;
  }

  // ---------------------------------------------------------------------------------------------
  // The handler
  // ---------------------------------------------------------------------------------------------

  lemma ReferencedKeeps(l: Ledger, d: DynamicFee)
    requires Inv(l) && d.Sound(l.Now())
    ensures Inv(l.(pool := l.pool.(dynamicFee := d)))
  {
    var m := l.(pool := l.pool.(dynamicFee := d));
    hide Slack, Covered, UpToDate, TotalLiquidity, TotalPermanent, OutstandingOf, VestingSound, DynamicFee.Sound,
         RewardView.Sound, BaseFee.Validate, Stored;
    forall a: Account ensures AccountSolvent(m, a) {
      assert AccountSolvent(l, a);
      SameAccount(l, m, a);
    }
  }

  /** A result depends on the dynamic fee only through the variable fee. */
  lemma SameVariableFeeSameResult(pool: PoolView, d: DynamicFee, received: uint64, mode: FeeMode, direction: TradeDirection,
                                  point: uint64)
    requires d.VariableFee() == pool.dynamicFee.VariableFee()
    ensures pool.(dynamicFee := d).GetSwapResult(received, mode, direction, point)
         == pool.GetSwapResult(received, mode, direction, point)
  {
    hide DynamicFee.VariableFee, CurveState.Swap, ChargeFee, BaseFee.CurrentNumerator;
  }

  lemma SwapErrors(c: CurveState, direction: TradeDirection, amountIn: uint64)
    ensures c.Swap(direction, amountIn).Err? ==> c.Swap(direction, amountIn).error != VaultShortfall
  {
    hide DivRound;
  }

  lemma QuoteErrors(pool: PoolView, now: nat, received: uint64, mode: FeeMode, direction: TradeDirection, point: uint64)
    requires PoolSound(pool, now)
    ensures var r := pool.GetSwapResult(received, mode, direction, point); r.Err? ==> r.error != VaultShortfall
  {
    hide CurveState.Swap, PoolView.FeeOn, PoolSound, Net;
    if mode.feesOnInput {
      FeeOnIs(pool, now, received, mode.hasReferral, point);
      SwapErrors(pool.Curve(), direction, pool.FeeOn(received, mode.hasReferral, point).value.amount);
    } else {
      SwapErrors(pool.Curve(), direction, received);
      var swap := pool.Curve().Swap(direction, received);
      if swap.Ok? {
        FeeOnIs(pool, now, swap.value.outputAmount, mode.hasReferral, point);
      }
    }
  }

  /** The update before a swap never fails and leaves what the swap will compute as it was. */
  lemma PreSwapIs(l: Ledger)
    requires Inv(l)
    ensures var r := l.pool.UpdatePreSwap(l.Now());
            && r.Ok? && r.value == l.pool.(dynamicFee := r.value.dynamicFee)
            && Referenced(l.pool.dynamicFee, r.value.dynamicFee, l.pool.sqrtPrice, l.Now())
            && r.value.dynamicFee.VariableFee() == l.pool.dynamicFee.VariableFee()
            && Inv(l.(pool := r.value))
            && (r.value.dynamicFee.initialized && r.value.dynamicFee.sqrtPriceReference == 0
                <==> l.pool.dynamicFee.Blocked(l.Now()))
  {
    assert PoolSound(l.pool, l.Now());
    hide DynamicFee.VariableFee, DynamicFee.BeforeSwap, DynamicFee.Blocked, Referenced;
    BeforeSwapIsSound(l.pool.dynamicFee, l.pool.sqrtPrice, l.Now());
    hide DynamicFee.Sound, PoolSound, LiquidityConserved, VestingsBalanced, Solvent;
    ReferencedKeeps(l, l.pool.dynamicFee.BeforeSwap(l.pool.sqrtPrice, l.Now()).value);
  }

  ghost predicate SwapConditions(l: Ledger, received: uint64, minimumOut: uint64, result: SwapResult, mode: FeeMode,
                                 direction: TradeDirection) {
    && received > 0
    && result.outputAmount >= minimumOut
    && RoomFor(l.pool, result, mode)
    && !l.pool.dynamicFee.Blocked(l.Now())
    && l.vaults.Get(InputToken(direction)) + received <= U64_MAX
  }

  /** The swap after its result is known. */
  lemma BookedSwap(l: Ledger, received: uint64, result: SwapResult, mode: FeeMode, direction: TradeDirection)
    requires Inv(l) && FeeIsOnSide(mode, direction) && FairResult(l.pool, received, result, mode, direction)
    ensures var applied := l.pool.ApplySwapResult(result, mode, l.Now());
            && (applied.Ok? <==>
                  && RoomFor(l.pool, result, mode)
                  && !(l.pool.dynamicFee.initialized && l.pool.dynamicFee.sqrtPriceReference == 0))
            && (applied.Err? ==> applied.error != VaultShortfall)
            && (applied.Ok? ==>
                  var moved := l.(pool := applied.value).MoveSwap(received, result, direction, mode);
                  && (moved.Ok? <==> l.vaults.Get(InputToken(direction)) + received <= U64_MAX)
                  && (moved.Err? ==> moved.error == VaultOverflow)
                  && (moved.Ok? ==>
                        && Inv(moved.value) && SwappedTo(l, moved.value, received, result, mode, direction)
                        && Recorded(l.pool.dynamicFee, moved.value.pool.dynamicFee, l.pool.sqrtPrice, result.nextSqrtPrice,
                                    l.Now())))
  {
    hide Inv, PoolSound, PoolView.ApplySwapResult, Ledger.MoveSwap, RoomFor, CurveOut, CurveIn, FeeIsOnSide, FundedA, FundedB,
         CurveState.InRange, Booked, VaultGain, Gain, Recorded;
    InvSoundPool(l);
    OutputIsBacked(l, received, result, mode, direction);
    ApplyIs(l.pool, result, mode, l.Now());
    var applied := l.pool.ApplySwapResult(result, mode, l.Now());
    if applied.Ok? {
      var b := l.(pool := applied.value);
      MoveSwapIs(b, received, result, direction, mode);
      var moved := b.MoveSwap(received, result, direction, mode);
      if moved.Ok? {
        hide FairResult;
        assert VaultsMoved(l, moved.value, received, result, mode, direction);
        assert SwappedTo(l, moved.value, received, result, mode, direction);
        SwapKeeps(l, moved.value, received, result, mode, direction);
      }
    }
  }

  /** When a swap goes through: the pool quotes it, the quote meets the limit, the totals and the input vault have
      room, and the dynamic fee is not blocked. Nothing else - least of all an empty vault - can stop it, and it
      moves exactly what the pool quoted before the swap updated anything. */
  lemma SwapSucceedsExactly(l: Ledger, received: uint64, minimumOut: uint64, direction: TradeDirection, hasReferral: bool)
    requires Inv(l)
    ensures var mode := GetFeeMode(l.pool.config.collectFeeMode, direction, hasReferral);
            var quote := l.pool.GetSwapResult(received, mode, direction, l.Point());
            var r := l.Swap(received, minimumOut, direction, hasReferral);
            && (r.Ok? <==> quote.Ok? && SwapConditions(l, received, minimumOut, quote.value, mode, direction))
            && (r.Ok? ==>
                  && Inv(r.value) && SwappedTo(l, r.value, received, quote.value, mode, direction)
                  && VolatilityMoves(l.pool.dynamicFee, r.value.pool.dynamicFee, l.pool.sqrtPrice,
                                     quote.value.nextSqrtPrice, l.Now()))
            && Safe(r)
  {
    hide Inv, SwappedTo, FairResult, FeeIsOnSide, DynamicFee.Blocked, DynamicFee.VariableFee, PoolView.GetSwapResult,
         PoolView.UpdatePreSwap, PoolView.ApplySwapResult, Ledger.MoveSwap, GetFeeMode, Referenced, Recorded, VolatilityMoves;
    var mode := GetFeeMode(l.pool.config.collectFeeMode, direction, hasReferral);
    FeeModeIsOnSide(l.pool.config.collectFeeMode, direction, hasReferral);
    PreSwapIs(l);
    var d := l.pool.UpdatePreSwap(l.Now()).value.dynamicFee;
    var b := l.(pool := l.pool.(dynamicFee := d));
    SameVariableFeeSameResult(l.pool, d, received, mode, direction, l.Point());
    InvSoundPool(l);
    QuoteErrors(l.pool, l.Now(), received, mode, direction, l.Point());
    var quote := l.pool.GetSwapResult(received, mode, direction, l.Point());
    if quote.Ok? {
      SwapResultIsFair(l.pool, l.Now(), received, mode, direction, l.Point(), quote.value);
      SameCurveSameFairness(l.pool, d, received, quote.value, mode, direction);
      hide RoomFor;
      BookedSwap(b, received, quote.value, mode, direction);
      SameRoom(l.pool, d, quote.value, mode);
      var r := l.Swap(received, minimumOut, direction, hasReferral);
      if r.Ok? {
        SameTarget(l, d, r.value, received, quote.value, mode, direction);
        MovesInTurn(l.pool.dynamicFee, d, r.value.pool.dynamicFee, l.pool.sqrtPrice, quote.value.nextSqrtPrice, l.Now());
      }
    }
  }

  lemma SameCurveSameFairness(pool: PoolView, d: DynamicFee, received: nat, result: SwapResult, mode: FeeMode,
                              direction: TradeDirection)
    requires FairResult(pool, received, result, mode, direction)
    ensures FairResult(pool.(dynamicFee := d), received, result, mode, direction)
  {
    hide FundedA, FundedB, CurveIn, CurveOut, Gain, CurveState.InRange;
  }

  lemma SameRoom(pool: PoolView, d: DynamicFee, result: SwapResult, mode: FeeMode)
    ensures RoomFor(pool.(dynamicFee := d), result, mode) == RoomFor(pool, result, mode)
  {
    hide FeesFit;
  }

  lemma SameTarget(l: Ledger, d: DynamicFee, m: Ledger, received: nat, result: SwapResult, mode: FeeMode,
                   direction: TradeDirection)
    requires SwappedTo(l.(pool := l.pool.(dynamicFee := d)), m, received, result, mode, direction)
    requires FairResult(l.pool, received, result, mode, direction)
    ensures SwappedTo(l, m, received, result, mode, direction)
  {
    hide FairResult, Booked, VaultGain, FeeIsOnSide;
  }
}
