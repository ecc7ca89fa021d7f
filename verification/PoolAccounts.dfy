/** The pool account (`state/pool.rs`, `DynamicFeeStruct` of `state/fee.rs`) as the program keeps it: fields updated in
    place, each method tied to the function on `PoolView`, `RewardView` or `DynamicFee` that specifies it. */
module PoolAccounts {
  import opened Numbers
  import opened FeeMath
  import opened Fees
  import opened Rewards
  import opened Positions
  import opened Pools
  import opened PositionAccounts

  class RewardInfo {
    var initialized: bool
    var rewardDuration: uint64
    var rewardDurationEnd: uint64
    var rewardRate: uint128
    var rewardPerTokenStored: uint256
    var lastUpdateTime: uint64
    var cumulativeSecondsWithEmptyLiquidityReward: uint64

    function View(): RewardView
      reads this
    {
      RewardView(initialized, rewardDuration, rewardDurationEnd, rewardRate, rewardPerTokenStored, lastUpdateTime,
                 cumulativeSecondsWithEmptyLiquidityReward)
    }

    constructor ()
      ensures View() == NO_REWARD
    {
      initialized, rewardDuration, rewardDurationEnd, rewardRate := false, 0, 0, 0;
      rewardPerTokenStored, lastUpdateTime, cumulativeSecondsWithEmptyLiquidityReward := 0, 0, 0;
    }

    method InitReward(duration: uint64)
      modifies this
      ensures View() == old(View()).(initialized := true, rewardDuration := duration)
    {
      initialized := true;
      rewardDuration := duration;
    }

    method UpdateLastUpdateTime(currentTime: uint64)
      modifies this`lastUpdateTime
      ensures lastUpdateTime == Min(currentTime, rewardDurationEnd)
    {
      lastUpdateTime := Min(currentTime, rewardDurationEnd);
    }

    method UpdateRewards(liquiditySupply: uint128, currentTime: uint64) returns (r: Result<()>)
      modifies this
      ensures r == old(View()).UpdateRewards(liquiditySupply, currentTime).Status()
      ensures r.Ok? ==> View() == old(View()).UpdateRewards(liquiditySupply, currentTime).value
    {
      if initialized {
        if liquiditySupply > 0 {
          var delta :- View().RewardPerTokenSince(currentTime, liquiditySupply);
          rewardPerTokenStored :- Checked256(rewardPerTokenStored + delta);
        } else {
          var timePeriod :- View().SecondsElapsed(currentTime);
          cumulativeSecondsWithEmptyLiquidityReward :- Checked64(cumulativeSecondsWithEmptyLiquidityReward + timePeriod);
        }
        UpdateLastUpdateTime(currentTime);
      }
      return Ok(());
    }

    method UpdateRateAfterFunding(currentTime: uint64, fundingAmount: uint64) returns (r: Result<()>)
      modifies this
      ensures r == old(View()).UpdateRateAfterFunding(currentTime, fundingAmount).Status()
      ensures r.Ok? ==> View() == old(View()).UpdateRateAfterFunding(currentTime, fundingAmount).value
    {
      var totalAmount := fundingAmount;
      if currentTime < rewardDurationEnd {
        var leftover :- MulShr64Cast(rewardRate, rewardDurationEnd - currentTime);
        totalAmount :- Checked64(fundingAmount + leftover);
      }
      rewardRate :- ShlDiv64(totalAmount, rewardDuration);
      lastUpdateTime := currentTime;
      rewardDurationEnd :- Checked64(currentTime + rewardDuration);
      return Ok(());
    }
  }

  class DynamicFeeStruct {
    const initialized: bool
    const maxVolatilityAccumulator: uint32
    const variableFeeControl: uint32
    const binStep: uint16
    const filterPeriod: uint16
    const decayPeriod: uint16
    const reductionFactor: uint16
    const binStepU128: uint128
    var lastUpdateTimestamp: uint64
    var sqrtPriceReference: uint128
    var volatilityAccumulator: uint128
    var volatilityReference: uint128

    function View(): DynamicFee
      reads this
    {
      DynamicFee(initialized, maxVolatilityAccumulator, variableFeeControl, binStep, filterPeriod, decayPeriod,
                 reductionFactor, lastUpdateTimestamp, binStepU128, sqrtPriceReference, volatilityAccumulator,
                 volatilityReference)
    }

    constructor (d: DynamicFee)
      ensures View() == d
    {
      initialized, maxVolatilityAccumulator, variableFeeControl := d.initialized, d.maxVolatilityAccumulator, d.variableFeeControl;
      binStep, filterPeriod, decayPeriod := d.binStep, d.filterPeriod, d.decayPeriod;
      reductionFactor, binStepU128, lastUpdateTimestamp := d.reductionFactor, d.binStepU128, d.lastUpdateTimestamp;
      sqrtPriceReference, volatilityAccumulator := d.sqrtPriceReference, d.volatilityAccumulator;
      volatilityReference := d.volatilityReference;
    }

    method UpdateVolatilityAccumulator(sqrtPrice: uint128) returns (r: Result<()>)
      modifies this
      ensures r == old(View()).UpdateVolatilityAccumulator(sqrtPrice).Status()
      ensures r.Ok? ==> View() == old(View()).UpdateVolatilityAccumulator(sqrtPrice).value
    {
      var deltaPrice :- DeltaBinId(binStepU128, sqrtPrice, sqrtPriceReference);
      var scaled :- Checked128(deltaPrice * BASIS_POINT_MAX);
      var accumulator :- Checked128(volatilityReference + scaled);
      volatilityAccumulator := Min(accumulator, maxVolatilityAccumulator);
      return Ok(());
    }

    method UpdateReferences(sqrtPriceCurrent: uint128, currentTimestamp: uint64) returns (r: Result<()>)
      modifies this
      ensures r == old(View()).UpdateReferences(sqrtPriceCurrent, currentTimestamp).Status()
      ensures r.Ok? ==> View() == old(View()).UpdateReferences(sqrtPriceCurrent, currentTimestamp).value
    {
      var elapsed :- Checked64(currentTimestamp - lastUpdateTimestamp);
      if elapsed >= filterPeriod {
        sqrtPriceReference := sqrtPriceCurrent;
        if elapsed < decayPeriod {
          var decayed :- Checked128(volatilityAccumulator * reductionFactor);
          volatilityReference := decayed / BASIS_POINT_MAX;
        } else {
          volatilityReference := 0;
        }
      }
      return Ok(());
    }
  }

  class Pool {
    const config: PoolConfig
    var liquidity: uint128
    var sqrtPrice: uint128
    var protocolAFee: uint64
    var protocolBFee: uint64
    var partnerAFee: uint64
    var partnerBFee: uint64
    var feeAPerLiquidity: uint256
    var feeBPerLiquidity: uint256
    var permanentLockLiquidity: uint128
    var totalLpAFee: uint128
    var totalLpBFee: uint128
    var totalProtocolAFee: uint64
    var totalProtocolBFee: uint64
    var totalPartnerAFee: uint64
    var totalPartnerBFee: uint64
    const dynamicFee: DynamicFeeStruct
    const rewardInfos: seq<RewardInfo>

    ghost predicate Valid() {
      |rewardInfos| == 2 && rewardInfos[0] != rewardInfos[1]
    }

    function View(): PoolView
      reads this, dynamicFee, rewardInfos
      requires Valid()
    {
      PoolView(
        config, liquidity, sqrtPrice,
        Pair(FeeLedger(protocolAFee, partnerAFee, feeAPerLiquidity, totalLpAFee, totalProtocolAFee, totalPartnerAFee),
             FeeLedger(protocolBFee, partnerBFee, feeBPerLiquidity, totalLpBFee, totalProtocolBFee, totalPartnerBFee)),
        permanentLockLiquidity, dynamicFee.View(), Pair(rewardInfos[0].View(), rewardInfos[1].View()))
    }

    constructor (initial: PoolView)
      requires initial.fees == Pair(NO_FEES, NO_FEES) && initial.rewards == Pair(NO_REWARD, NO_REWARD)
      requires initial.permanentLockLiquidity == 0
      ensures Valid() && fresh(dynamicFee) && fresh(rewardInfos)
      ensures View() == initial
    {
      config, liquidity, sqrtPrice := initial.config, initial.liquidity, initial.sqrtPrice;
      protocolAFee, protocolBFee, partnerAFee, partnerBFee := 0, 0, 0, 0;
      feeAPerLiquidity, feeBPerLiquidity, permanentLockLiquidity := 0, 0, 0;
      totalLpAFee, totalLpBFee, totalProtocolAFee, totalProtocolBFee, totalPartnerAFee, totalPartnerBFee := 0, 0, 0, 0, 0, 0;
      var volatility := new DynamicFeeStruct(initial.dynamicFee);
      var first := new RewardInfo();
      var second := new RewardInfo();
      dynamicFee := volatility;
      rewardInfos := [first, second];
    }

    method UpdatePreSwap(currentTimestamp: uint64) returns (r: Result<()>)
      requires Valid()
      modifies dynamicFee
      ensures r == old(View()).UpdatePreSwap(currentTimestamp).Status()
      ensures r.Ok? ==> View() == old(View()).UpdatePreSwap(currentTimestamp).value
    {
      if dynamicFee.initialized {
        var _ :- dynamicFee.UpdateReferences(sqrtPrice, currentTimestamp);
      }
      return Ok(());
    }

    /** The timestamp moves only when a bin is crossed. */
    method UpdatePostSwap(oldSqrtPrice: uint128, currentTimestamp: uint64) returns (r: Result<()>)
      requires Valid()
      modifies dynamicFee
      ensures r == old(dynamicFee.View()).AfterSwap(oldSqrtPrice, sqrtPrice, currentTimestamp).Status()
      ensures r.Ok? ==> dynamicFee.View() == old(dynamicFee.View()).AfterSwap(oldSqrtPrice, sqrtPrice, currentTimestamp).value
    {
      if dynamicFee.initialized {
        var _ :- dynamicFee.UpdateVolatilityAccumulator(sqrtPrice);
        var deltaPrice :- DeltaBinId(dynamicFee.binStepU128, oldSqrtPrice, sqrtPrice);
        if deltaPrice > 0 {
          dynamicFee.lastUpdateTimestamp := currentTimestamp;
        }
      }
      return Ok(());
    }

    /** Books the fees of a swap that is charged in token A, with the lifetime totals. */
    method BookFeesA(result: SwapResult, feePerTokenStored: uint256) returns (r: Result<()>)
      requires Valid()
      modifies this
      ensures var before := old(View());
              var ledger := before.fees.zero.Accumulate(result.lpFee, result.protocolFee, result.partnerFee, feePerTokenStored);
              && r == ledger.Status()
              && (r.Ok? ==> View() == before.(fees := before.fees.Set(TOKEN_A, ledger.value)))
    {
      partnerAFee :- Checked64(partnerAFee + result.partnerFee);
      protocolAFee :- Checked64(protocolAFee + result.protocolFee);
      feeAPerLiquidity :- Checked256(feeAPerLiquidity + feePerTokenStored);
      totalLpAFee :- Checked128(totalLpAFee + result.lpFee);
      totalProtocolAFee :- Checked64(totalProtocolAFee + result.protocolFee);
      totalPartnerAFee :- Checked64(totalPartnerAFee + result.partnerFee);
      return Ok(());
    }

    /** Books the fees of a swap that is charged in token B, with the lifetime totals. */
    method BookFeesB(result: SwapResult, feePerTokenStored: uint256) returns (r: Result<()>)
      requires Valid()
      modifies this
      ensures var before := old(View());
              var ledger := before.fees.one.Accumulate(result.lpFee, result.protocolFee, result.partnerFee, feePerTokenStored);
              && r == ledger.Status()
              && (r.Ok? ==> View() == before.(fees := before.fees.Set(TOKEN_B, ledger.value)))
    {
      partnerBFee :- Checked64(partnerBFee + result.partnerFee);
      protocolBFee :- Checked64(protocolBFee + result.protocolFee);
      feeBPerLiquidity :- Checked256(feeBPerLiquidity + feePerTokenStored);
      totalLpBFee :- Checked128(totalLpBFee + result.lpFee);
      totalProtocolBFee :- Checked64(totalProtocolBFee + result.protocolFee);
      totalPartnerBFee :- Checked64(totalPartnerBFee + result.partnerFee);
      return Ok(());
    }

    method ApplySwapResult(result: SwapResult, mode: FeeMode, currentTimestamp: uint64) returns (r: Result<()>)
      requires Valid()
      modifies this, dynamicFee
      ensures r == old(View()).ApplySwapResult(result, mode, currentTimestamp).Status()
      ensures r.Ok? ==> View() == old(View()).ApplySwapResult(result, mode, currentTimestamp).value
    {
      hide DynamicFee.AfterSwap, ShlDiv128, FeeLedger.Accumulate;
      var oldSqrtPrice := sqrtPrice;
      sqrtPrice := result.nextSqrtPrice;
      var feePerTokenStored :- ShlDiv128(result.lpFee, liquidity);
      if mode.feesOnTokenA {
        var _ :- BookFeesA(result, feePerTokenStored);
      } else {
        var _ :- BookFeesB(result, feePerTokenStored);
      }
      var _ :- UpdatePostSwap(oldSqrtPrice, currentTimestamp);
      return Ok(());
    }

    method ApplyAddLiquidity(position: Position, delta: uint128) returns (r: Result<()>)
      requires Valid() && position.Valid()
      modifies this, position
      ensures Valid() && position.Valid()
      ensures var settled := old(position.View()).UpdateFee(old(View()).FeePerLiquidity());
              if settled.Err? then r == settled.Status()
              else if settled.value.AddLiquidity(delta).Err? then r == settled.value.AddLiquidity(delta).Status()
              else
                && r == old(View()).AddLiquidity(delta).Status()
                && (r.Ok? ==>
                      && View() == old(View()).AddLiquidity(delta).value
                      && position.View() == settled.value.AddLiquidity(delta).value)
    {
      var _ :- position.UpdateFee(feeAPerLiquidity, feeBPerLiquidity);
      var _ :- position.AddLiquidity(delta);
      liquidity :- Checked128(liquidity + delta);
      return Ok(());
    }

    method ApplyRemoveLiquidity(position: Position, delta: uint128) returns (r: Result<()>)
      requires Valid() && position.Valid()
      modifies this, position
      ensures Valid() && position.Valid()
      ensures var settled := old(position.View()).UpdateFee(old(View()).FeePerLiquidity());
              if settled.Err? then r == settled.Status()
              else if settled.value.RemoveUnlockedLiquidity(delta).Err? then
                r == settled.value.RemoveUnlockedLiquidity(delta).Status()
              else
                && r == old(View()).RemoveLiquidity(delta).Status()
                && (r.Ok? ==>
                      && View() == old(View()).RemoveLiquidity(delta).value
                      && position.View() == settled.value.RemoveUnlockedLiquidity(delta).value)
    {
      var _ :- position.UpdateFee(feeAPerLiquidity, feeBPerLiquidity);
      var _ :- position.RemoveUnlockedLiquidity(delta);
      liquidity :- Checked128(liquidity - delta);
      return Ok(());
    }

    method AccumulatePermanentLockedLiquidity(amount: uint128) returns (r: Result<()>)
      requires Valid()
      modifies this
      ensures r == old(View()).AccumulatePermanentLock(amount).Status()
      ensures r.Ok? ==> View() == old(View()).AccumulatePermanentLock(amount).value
    {
      permanentLockLiquidity :- Checked128(permanentLockLiquidity + amount);
      return Ok(());
    }

    method ClaimProtocolFee(maxAmountA: uint64, maxAmountB: uint64) returns (amountA: uint64, amountB: uint64)
      requires Valid()
      modifies this
      ensures Pair(amountA, amountB) == old(View()).ClaimableProtocol(Pair(maxAmountA, maxAmountB))
      ensures View() == old(View()).ClaimProtocolFee(Pair(maxAmountA, maxAmountB))
    {
      amountA := Min(protocolAFee, maxAmountA);
      amountB := Min(protocolBFee, maxAmountB);
      protocolAFee := protocolAFee - amountA;
      protocolBFee := protocolBFee - amountB;
    }

    method ClaimPartnerFee(maxAmountA: uint64, maxAmountB: uint64) returns (amountA: uint64, amountB: uint64)
      requires Valid()
      modifies this
      ensures Pair(amountA, amountB) == old(View()).ClaimablePartner(Pair(maxAmountA, maxAmountB))
      ensures View() == old(View()).ClaimPartnerFee(Pair(maxAmountA, maxAmountB))
    {
      amountA := Min(partnerAFee, maxAmountA);
      amountB := Min(partnerBFee, maxAmountB);
      partnerAFee := partnerAFee - amountA;
      partnerBFee := partnerBFee - amountB;
    }

    /** The loop updates one campaign after the other. */
    method UpdateRewards(currentTime: uint64) returns (r: Result<()>)
      requires Valid()
      modifies rewardInfos
      ensures r == old(View()).UpdateRewards(currentTime).Status()
      ensures r.Ok? ==> View() == old(View()).UpdateRewards(currentTime).value
    {
      hide RewardView.UpdateRewards;
      ghost var start := View();
      var i := 0;
      while i < 2
        invariant 0 <= i <= 2
        invariant i < 2 ==> rewardInfos[1].View() == start.rewards.one
        invariant i == 0 ==> rewardInfos[0].View() == start.rewards.zero
        invariant i >= 1 ==> start.rewards.zero.UpdateRewards(start.liquidity, currentTime) == Ok(rewardInfos[0].View())
        invariant i >= 2 ==> start.rewards.one.UpdateRewards(start.liquidity, currentTime) == Ok(rewardInfos[1].View())
      {
        var updated := rewardInfos[i].UpdateRewards(liquidity, currentTime);
        if updated.Err? {
          return updated;
        }
        i := i + 1;
      }
      return Ok(());
    }

    method ClaimIneligibleReward(rewardIndex: Index) returns (r: Result<uint64>)
      requires Valid()
      modifies rewardInfos[rewardIndex]
      ensures r == old(View()).rewards.Get(rewardIndex).IneligibleReward()
      ensures r.Ok? ==>
                rewardInfos[rewardIndex].View() == old(View()).rewards.Get(rewardIndex).(emptySeconds := 0)
    {
      var info := rewardInfos[rewardIndex];
      var ineligibleReward :- MulShr64Cast(info.cumulativeSecondsWithEmptyLiquidityReward, info.rewardRate);
      info.cumulativeSecondsWithEmptyLiquidityReward := 0;
      return Ok(ineligibleReward);
    }

    /** `self` is only read: two positions settle their fees and exchange liquidity and pending amounts. */
    method ApplySplitPosition(first: Position, second: Position, parameters: SplitParameters) returns (r: Result<()>)
      requires Valid() && Separate(first, second)
      modifies first, second, first.rewardInfos, second.rewardInfos
      ensures var split := old(TwoViews(first, second)).Apply(old(View()).FeePerLiquidity(), old(InitializedRewards()), parameters);
              && r == split.Status()
              && (r.Ok? ==> TwoViews(first, second) == split.value)
    {
      hide PositionView.UpdateFee, Split.MoveUnlocked, Split.MovePermanent, Split.MoveFees, Split.MoveReward;
      var initialized := InitializedRewards();
      var _ :- first.UpdateFee(feeAPerLiquidity, feeBPerLiquidity);
      var _ :- second.UpdateFee(feeAPerLiquidity, feeBPerLiquidity);
      var _ :- MoveUnlocked(first, second, parameters.unlocked);
      var _ :- MovePermanent(first, second, parameters.permanent);
      var _ :- MoveFees(first, second, parameters.fees);
      var _ :- MoveReward(first, second, 0, initialized.zero, parameters.rewards.zero);
      var _ :- MoveReward(first, second, 1, initialized.one, parameters.rewards.one);
      return Ok(());
    }

    function InitializedRewards(): Pair<bool>
      requires Valid()
      reads rewardInfos
    {
      Pair(rewardInfos[0].initialized, rewardInfos[1].initialized)
    }
  }

  /** Two positions that share no object. */
  ghost predicate Separate(first: Position, second: Position) {
    && first != second && first.Valid() && second.Valid()
    && (forall i, j :: 0 <= i < 2 && 0 <= j < 2 ==> first.rewardInfos[i] != second.rewardInfos[j])
  }

  ghost function TwoViews(first: Position, second: Position): Split
    requires first.Valid() && second.Valid()
    reads first, second, first.rewardInfos, second.rewardInfos
  {
    Split(first.View(), second.View())
  }

  method MoveUnlocked(first: Position, second: Position, numerator: uint32) returns (r: Result<()>)
    requires Separate(first, second)
    modifies first, second
    ensures r == old(TwoViews(first, second)).MoveUnlocked(numerator).Status()
    ensures r.Ok? ==> TwoViews(first, second) == old(TwoViews(first, second)).MoveUnlocked(numerator).value
  {
    hide LiquidityPart;
    if numerator > 0 {
      var delta :- LiquidityPart(first.unlockedLiquidity, numerator);
      var _ :- first.RemoveUnlockedLiquidity(delta);
      var _ :- second.AddLiquidity(delta);
    }
    return Ok(());
  }

  method MovePermanent(first: Position, second: Position, numerator: uint32) returns (r: Result<()>)
    requires Separate(first, second)
    modifies first, second
    ensures r == old(TwoViews(first, second)).MovePermanent(numerator).Status()
    ensures r.Ok? ==> TwoViews(first, second) == old(TwoViews(first, second)).MovePermanent(numerator).value
  {
    hide LiquidityPart;
    if numerator > 0 {
      var delta :- LiquidityPart(first.permanentLockedLiquidity, numerator);
      var _ :- first.RemovePermanentLockedLiquidity(delta);
      var _ :- second.AddPermanentLockedLiquidity(delta);
    }
    return Ok(());
  }

  method MoveFees(first: Position, second: Position, numerators: Pair<uint32>) returns (r: Result<()>)
    requires Separate(first, second)
    modifies first, second
    ensures r == old(TwoViews(first, second)).MoveFees(numerators).Status()
    ensures r.Ok? ==> TwoViews(first, second) == old(TwoViews(first, second)).MoveFees(numerators).value
  {
    hide PendingPart;
    if numerators.zero > 0 || numerators.one > 0 {
      var feeAAmount :- PendingPart(first.feeAPending, numerators.zero);
      var feeBAmount :- PendingPart(first.feeBPending, numerators.one);
      var _ :- first.RemoveFeePending(feeAAmount, feeBAmount);
      var _ :- second.AddFeePending(feeAAmount, feeBAmount);
    }
    return Ok(());
  }

  method MoveReward(first: Position, second: Position, rewardIndex: Index, initialized: bool, numerator: uint32)
    returns (r: Result<()>)
    requires Separate(first, second)
    modifies first.rewardInfos, second.rewardInfos
    ensures r == old(TwoViews(first, second)).MoveReward(rewardIndex, initialized, numerator).Status()
    ensures r.Ok? ==>
              TwoViews(first, second) == old(TwoViews(first, second)).MoveReward(rewardIndex, initialized, numerator).value
  {
    hide PendingPart;
    if numerator > 0 && initialized {
      var amount :- PendingPart(first.rewardInfos[rewardIndex].rewardPendings, numerator);
      var _ :- first.RemoveRewardPending(rewardIndex, amount);
      var _ :- second.AddRewardPending(rewardIndex, amount);
    }
    return Ok(());
  }
}
