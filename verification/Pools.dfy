/** The pool (`state/pool.rs`) as a value: price and liquidity, the fee ledger of each token, the dynamic fee and
    the two reward campaigns. */
module Pools {
  import opened Numbers
  import opened Curve
  import opened Fees
  import opened Rewards

  datatype ActivationType = Slot | Timestamp

  /** What is fixed when a pool is created. */
  datatype PoolConfig = PoolConfig(
    sqrtMinPrice: uint128,
    sqrtMaxPrice: uint128,
    baseFee: BaseFee,
    percents: FeePercents,
    hasPartner: bool,
    collectFeeMode: CollectFeeMode,
    activationType: ActivationType,
    activationPoint: uint64)

  /** The fees of one token: what protocol and partner may claim, what a unit of liquidity has earned, and the
      lifetime totals. */
  datatype FeeLedger = FeeLedger(
    protocolFee: uint64,
    partnerFee: uint64,
    feePerLiquidity: uint256,
    totalLpFee: uint128,
    totalProtocolFee: uint64,
    totalPartnerFee: uint64)
  {
    function Accumulate(lpFee: uint64, protocol: uint64, partner: uint64, perLiquidity: uint256): Result<FeeLedger> {
      var newPartner :- Checked64(partnerFee + partner);
      var newProtocol :- Checked64(protocolFee + protocol);
      var newPerLiquidity :- Checked256(feePerLiquidity + perLiquidity);
      var newTotalLp :- Checked128(totalLpFee + lpFee);
      var newTotalProtocol :- Checked64(totalProtocolFee + protocol);
      var newTotalPartner :- Checked64(totalPartnerFee + partner);
      Ok(FeeLedger(newProtocol, newPartner, newPerLiquidity, newTotalLp, newTotalProtocol, newTotalPartner))
    }
  }

  const NO_FEES := FeeLedger(0, 0, 0, 0, 0, 0)

  datatype SwapResult = SwapResult(
    outputAmount: uint64,
    nextSqrtPrice: uint128,
    lpFee: uint64,
    protocolFee: uint64,
    partnerFee: uint64,
    referralFee: uint64)

  datatype PoolView = PoolView(
    config: PoolConfig,
    liquidity: uint128,
    sqrtPrice: uint128,
    fees: Pair<FeeLedger>,
    permanentLockLiquidity: uint128,
    dynamicFee: DynamicFee,
    rewards: Pair<RewardView>)
  {
    function Curve(): CurveState {
      CurveState(liquidity, config.sqrtMinPrice, config.sqrtMaxPrice, sqrtPrice)
    }

    /** The fee accumulators of both tokens. */
    function FeePerLiquidity(): Pair<uint256> {
      Pair(fees.zero.feePerLiquidity, fees.one.feePerLiquidity)
    }

    function TotalTradingFee(currentPoint: uint64): Result<uint128> {
      var base :- config.baseFee.CurrentNumerator(currentPoint, config.activationPoint);
      var variable :- dynamicFee.VariableFee();
      Checked128(variable + base)
    }

    function FeeOn(amount: uint64, hasReferral: bool, currentPoint: uint64): Result<FeeOnAmount> {
      var numerator :- TotalTradingFee(currentPoint);
      ChargeFee(amount, Min(numerator, MAX_FEE_NUMERATOR), config.percents, hasReferral, config.hasPartner)
    }

    function GetSwapResult(amountIn: uint64, mode: FeeMode, direction: TradeDirection, currentPoint: uint64)
      : Result<SwapResult>
    {
      if mode.feesOnInput then
        var fee :- FeeOn(amountIn, mode.hasReferral, currentPoint);
        var swap :- Curve().Swap(direction, fee.amount);
        Ok(SwapResult(swap.outputAmount, swap.nextSqrtPrice, fee.lpFee, fee.protocolFee, fee.partnerFee, fee.referralFee))
      else
        var swap :- Curve().Swap(direction, amountIn);
        var fee :- FeeOn(swap.outputAmount, mode.hasReferral, currentPoint);
        Ok(SwapResult(fee.amount, swap.nextSqrtPrice, fee.lpFee, fee.protocolFee, fee.partnerFee, fee.referralFee))
    }

    function ApplySwapResult(result: SwapResult, mode: FeeMode, now: uint64): Result<PoolView> {
      var perLiquidity :- ShlDiv128(result.lpFee, liquidity);
      var token := mode.FeeToken();
      var ledger :- fees.Get(token).Accumulate(result.lpFee, result.protocolFee, result.partnerFee, perLiquidity);
      var dynamic :- dynamicFee.AfterSwap(sqrtPrice, result.nextSqrtPrice, now);
      Ok(this.(sqrtPrice := result.nextSqrtPrice, fees := fees.Set(token, ledger), dynamicFee := dynamic))
    }

    function UpdatePreSwap(now: uint64): Result<PoolView> {
      var dynamic :- dynamicFee.BeforeSwap(sqrtPrice, now);
      Ok(this.(dynamicFee := dynamic))
    }

    function AddLiquidity(delta: uint128): Result<PoolView> {
      var sum :- Checked128(liquidity + delta);
      Ok(this.(liquidity := sum))
    }

    function RemoveLiquidity(delta: uint128): Result<PoolView> {
      var rest :- Checked128(liquidity - delta);
      Ok(this.(liquidity := rest))
    }

    function AccumulatePermanentLock(amount: uint128): Result<PoolView> {
      var sum :- Checked128(permanentLockLiquidity + amount);
      Ok(this.(permanentLockLiquidity := sum))
    }

    /** What a claim of at most `max` takes from the protocol or partner fees. */
    function ClaimableProtocol(max: Pair<uint64>): Pair<uint64> {
      Pair(Min(fees.zero.protocolFee, max.zero), Min(fees.one.protocolFee, max.one))
    }

    function ClaimablePartner(max: Pair<uint64>): Pair<uint64> {
      Pair(Min(fees.zero.partnerFee, max.zero), Min(fees.one.partnerFee, max.one))
    }

    function ClaimProtocolFee(max: Pair<uint64>): PoolView {
      var paid := ClaimableProtocol(max);
      this.(fees := Pair(fees.zero.(protocolFee := fees.zero.protocolFee - paid.zero),
                         fees.one.(protocolFee := fees.one.protocolFee - paid.one)))
    }

    function ClaimPartnerFee(max: Pair<uint64>): PoolView {
      var paid := ClaimablePartner(max);
      this.(fees := Pair(fees.zero.(partnerFee := fees.zero.partnerFee - paid.zero),
                         fees.one.(partnerFee := fees.one.partnerFee - paid.one)))
    }

    function RewardInitialized(): bool {
      rewards.zero.initialized || rewards.one.initialized
    }

    function UpdateRewards(now: uint64): Result<PoolView> {
      var first :- rewards.zero.UpdateRewards(liquidity, now);
      var second :- rewards.one.UpdateRewards(liquidity, now);
      Ok(this.(rewards := Pair(first, second)))
    }
  }
}
