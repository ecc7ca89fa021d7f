/** The position account (`state/position.rs`) as the program keeps it: fields updated in place. Every method is tied to
    the function on `PositionView` that specifies it; after an error the runtime discards the account's changes, so
    only the status is promised then. */
module PositionAccounts {
  import opened Numbers
  import opened Settlement
  import opened Rewards
  import opened Positions

  class UserRewardInfo {
    var rewardPerTokenCheckpoint: uint256
    var rewardPendings: uint64
    var totalClaimedRewards: uint64

    ghost function View(): Stream
      reads this
    {
      Stream(rewardPendings, rewardPerTokenCheckpoint, totalClaimedRewards)
    }

    constructor ()
      ensures View() == NO_STREAM
    {
      rewardPerTokenCheckpoint, rewardPendings, totalClaimedRewards := 0, 0, 0;
    }

    method UpdateRewards(positionLiquidity: uint128, rewardPerTokenStored: uint256) returns (r: Result<()>)
      modifies this
      ensures r == old(View()).Settle(positionLiquidity, rewardPerTokenStored, Q192).Status()
      ensures r.Ok? ==> View() == old(View()).Settle(positionLiquidity, rewardPerTokenStored, Q192).value
    {
      var growth :- Checked256(rewardPerTokenStored - rewardPerTokenCheckpoint);
      var newReward :- MulShrCast64(positionLiquidity, growth, Q192);
      rewardPendings :- Checked64(newReward + rewardPendings);
      rewardPerTokenCheckpoint := rewardPerTokenStored;
      return Ok(());
    }
  }

  /** `safe_mul_shr_256_cast` to 64 bits. */
  function MulShrCast64(x: uint128, y: uint256, scale: nat): Result<uint64>
    requires scale > 0
  {
    var wide :- Checked128(x * y / scale);
    Cast64(wide)
  }

  class Position {
    var feeAPerTokenCheckpoint: uint256
    var feeBPerTokenCheckpoint: uint256
    var feeAPending: uint64
    var feeBPending: uint64
    var unlockedLiquidity: uint128
    var vestedLiquidity: uint128
    var permanentLockedLiquidity: uint128
    var totalClaimedAFee: uint64
    var totalClaimedBFee: uint64
    const rewardInfos: seq<UserRewardInfo>

    ghost predicate Valid() {
      |rewardInfos| == 2 && rewardInfos[0] != rewardInfos[1]
    }

    ghost function View(): PositionView
      reads this, rewardInfos
      requires Valid()
    {
      PositionView(
        unlockedLiquidity, vestedLiquidity, permanentLockedLiquidity,
        Pair(Stream(feeAPending, feeAPerTokenCheckpoint, totalClaimedAFee),
             Stream(feeBPending, feeBPerTokenCheckpoint, totalClaimedBFee)),
        Pair(rewardInfos[0].View(), rewardInfos[1].View()))
    }

    constructor (liquidity: uint128)
      ensures Valid() && fresh(rewardInfos)
      ensures View() == NO_POSITION.(unlocked := liquidity)
    {
      feeAPerTokenCheckpoint, feeBPerTokenCheckpoint, feeAPending, feeBPending := 0, 0, 0, 0;
      unlockedLiquidity, vestedLiquidity, permanentLockedLiquidity := liquidity, 0, 0;
      totalClaimedAFee, totalClaimedBFee := 0, 0;
      var first := new UserRewardInfo();
      var second := new UserRewardInfo();
      rewardInfos := [first, second];
    }

    function TotalLiquidity(): (r: Result<uint128>)
      reads this, rewardInfos
      requires Valid()
      ensures r == View().TotalLiquidity()
    {
      var locked :- Checked128(unlockedLiquidity + vestedLiquidity);
      Checked128(locked + permanentLockedLiquidity)
    }

    method UpdateFee(feeAPerTokenStored: uint256, feeBPerTokenStored: uint256) returns (r: Result<()>)
      requires Valid()
      modifies this
      ensures r == old(View()).UpdateFee(Pair(feeAPerTokenStored, feeBPerTokenStored)).Status()
      ensures r.Ok? ==> View() == old(View()).UpdateFee(Pair(feeAPerTokenStored, feeBPerTokenStored)).value
    {
      var liquidity :- TotalLiquidity();
      if liquidity > 0 {
        var growthA :- Checked256(feeAPerTokenStored - feeAPerTokenCheckpoint);
        var newFeeA :- MulShrCast64(liquidity, growthA, Q128);
        feeAPending :- Checked64(newFeeA + feeAPending);
        var growthB :- Checked256(feeBPerTokenStored - feeBPerTokenCheckpoint);
        var newFeeB :- MulShrCast64(liquidity, growthB, Q128);
        feeBPending :- Checked64(newFeeB + feeBPending);
      }
      feeAPerTokenCheckpoint := feeAPerTokenStored;
      feeBPerTokenCheckpoint := feeBPerTokenStored;
      return Ok(());
    }

    method Lock(totalLockLiquidity: uint128) returns (r: Result<()>)
      requires Valid()
      modifies this
      ensures r == old(View()).Lock(totalLockLiquidity).Status()
      ensures r.Ok? ==> View() == old(View()).Lock(totalLockLiquidity).value
    {
      var _ :- Require(unlockedLiquidity >= totalLockLiquidity, InsufficientLiquidity);
      unlockedLiquidity := unlockedLiquidity - totalLockLiquidity;
      vestedLiquidity :- Checked128(vestedLiquidity + totalLockLiquidity);
      return Ok(());
    }

    method PermanentLockLiquidity(amount: uint128) returns (r: Result<()>)
      requires Valid()
      modifies this
      ensures r == old(View()).PermanentLockLiquidity(amount).Status()
      ensures r.Ok? ==> View() == old(View()).PermanentLockLiquidity(amount).value
    {
      var _ :- Require(unlockedLiquidity >= amount, InsufficientLiquidity);
      unlockedLiquidity := unlockedLiquidity - amount;
      permanentLockedLiquidity :- Checked128(permanentLockedLiquidity + amount);
      return Ok(());
    }

    method RemovePermanentLockedLiquidity(amount: uint128) returns (r: Result<()>)
      requires Valid()
      modifies this
      ensures r == old(View()).RemovePermanentLockedLiquidity(amount).Status()
      ensures r.Ok? ==> View() == old(View()).RemovePermanentLockedLiquidity(amount).value
    {
      var _ :- Require(amount <= permanentLockedLiquidity, InsufficientLiquidity);
      permanentLockedLiquidity := permanentLockedLiquidity - amount;
      return Ok(());
    }

    method AddPermanentLockedLiquidity(amount: uint128) returns (r: Result<()>)
      requires Valid()
      modifies this
      ensures r == old(View()).AddPermanentLockedLiquidity(amount).Status()
      ensures r.Ok? ==> View() == old(View()).AddPermanentLockedLiquidity(amount).value
    {
      permanentLockedLiquidity :- Checked128(permanentLockedLiquidity + amount);
      return Ok(());
    }

    method AddLiquidity(delta: uint128) returns (r: Result<()>)
      requires Valid()
      modifies this
      ensures r == old(View()).AddLiquidity(delta).Status()
      ensures r.Ok? ==> View() == old(View()).AddLiquidity(delta).value
    {
      unlockedLiquidity :- Checked128(unlockedLiquidity + delta);
      return Ok(());
    }

    method RemoveUnlockedLiquidity(delta: uint128) returns (r: Result<()>)
      requires Valid()
      modifies this
      ensures r == old(View()).RemoveUnlockedLiquidity(delta).Status()
      ensures r.Ok? ==> View() == old(View()).RemoveUnlockedLiquidity(delta).value
    {
      unlockedLiquidity :- Checked128(unlockedLiquidity - delta);
      return Ok(());
    }

    method ReleaseVestedLiquidity(released: uint128) returns (r: Result<()>)
      requires Valid()
      modifies this
      ensures r == old(View()).ReleaseVestedLiquidity(released).Status()
      ensures r.Ok? ==> View() == old(View()).ReleaseVestedLiquidity(released).value
    {
      vestedLiquidity :- Checked128(vestedLiquidity - released);
      var _ :- AddLiquidity(released);
      return Ok(());
    }

    method RemoveFeePending(feeADelta: uint64, feeBDelta: uint64) returns (r: Result<()>)
      requires Valid()
      modifies this
      ensures r == old(View()).RemoveFeePending(feeADelta, feeBDelta).Status()
      ensures r.Ok? ==> View() == old(View()).RemoveFeePending(feeADelta, feeBDelta).value
    {
      feeAPending :- Checked64(feeAPending - feeADelta);
      feeBPending :- Checked64(feeBPending - feeBDelta);
      return Ok(());
    }

    method AddFeePending(feeADelta: uint64, feeBDelta: uint64) returns (r: Result<()>)
      requires Valid()
      modifies this
      ensures r == old(View()).AddFeePending(feeADelta, feeBDelta).Status()
      ensures r.Ok? ==> View() == old(View()).AddFeePending(feeADelta, feeBDelta).value
    {
      feeAPending :- Checked64(feeAPending + feeADelta);
      feeBPending :- Checked64(feeBPending + feeBDelta);
      return Ok(());
    }

    method RemoveRewardPending(rewardIndex: Index, amount: uint64) returns (r: Result<()>)
      requires Valid()
      modifies rewardInfos[rewardIndex]
      ensures r == old(View()).RemoveRewardPending(rewardIndex, amount).Status()
      ensures r.Ok? ==> View() == old(View()).RemoveRewardPending(rewardIndex, amount).value
    {
      var rest :- Checked64(rewardInfos[rewardIndex].rewardPendings - amount);
      rewardInfos[rewardIndex].rewardPendings := rest;
      return Ok(());
    }

    method AddRewardPending(rewardIndex: Index, amount: uint64) returns (r: Result<()>)
      requires Valid()
      modifies rewardInfos[rewardIndex]
      ensures r == old(View()).AddRewardPending(rewardIndex, amount).Status()
      ensures r.Ok? ==> View() == old(View()).AddRewardPending(rewardIndex, amount).value
    {
      var sum :- Checked64(rewardInfos[rewardIndex].rewardPendings + amount);
      rewardInfos[rewardIndex].rewardPendings := sum;
      return Ok(());
    }

    /** The loop settles the reward of every initialized campaign. */
    method UpdatePositionReward(infos: seq<RewardView>) returns (r: Result<()>)
      requires Valid() && |infos| == 2
      modifies rewardInfos
      ensures r == old(View()).UpdatePositionReward(Pair(infos[0], infos[1])).Status()
      ensures r.Ok? ==> View() == old(View()).UpdatePositionReward(Pair(infos[0], infos[1])).value
    {
      var liquidity :- TotalLiquidity();
      ghost var start := View();
      ghost var done := Ok(start);
      var i := 0;
      while i < 2
        invariant 0 <= i <= 2
        invariant done == (if i == 0 then Ok(start)
                           else if i == 1 then start.UpdateReward(0, liquidity, infos[0])
                           else start.UpdatePositionReward(Pair(infos[0], infos[1])))
        invariant done == Ok(View())
      {
        if infos[i].initialized {
          var settled := rewardInfos[i].UpdateRewards(liquidity, infos[i].rewardPerTokenStored);
          done := done.value.UpdateReward(i, liquidity, infos[i]);
          if settled.Err? {
            return settled;
          }
        }
        i := i + 1;
      }
      return Ok(());
    }

    method AccumulateClaimedFee(tokenAAmount: uint64, tokenBAmount: uint64) returns (r: Result<()>)
      modifies this`totalClaimedAFee, this`totalClaimedBFee
      ensures r.Ok? <==> old(totalClaimedAFee) + tokenAAmount <= U64_MAX && old(totalClaimedBFee) + tokenBAmount <= U64_MAX
      ensures r.Ok? ==>
                totalClaimedAFee == old(totalClaimedAFee) + tokenAAmount && totalClaimedBFee == old(totalClaimedBFee) + tokenBAmount
      ensures r.Err? ==> r.error == MathOverflow
    {
      totalClaimedAFee :- Checked64(totalClaimedAFee + tokenAAmount);
      totalClaimedBFee :- Checked64(totalClaimedBFee + tokenBAmount);
      return Ok(());
    }

    method ResetPendingFee()
      modifies this`feeAPending, this`feeBPending
      ensures feeAPending == 0 && feeBPending == 0
    {
      feeAPending := 0;
      feeBPending := 0;
    }

    /** The lifetime total wraps around. */
    method ClaimReward(rewardIndex: Index) returns (totalReward: uint64)
      requires Valid()
      modifies rewardInfos[rewardIndex]
      ensures totalReward == old(View()).rewards.Get(rewardIndex).pending
      ensures View() == old(View()).ClaimReward(rewardIndex)
    {
      var info := rewardInfos[rewardIndex];
      totalReward := info.rewardPendings;
      info.totalClaimedRewards := (info.totalClaimedRewards + totalReward) % (U64_MAX + 1);
      info.rewardPendings := 0;
    }

    /** The loop stops at the first pending reward. */
    method IsEmpty() returns (r: Result<bool>)
      requires Valid()
      ensures r == View().IsEmpty()
    {
      var i := 0;
      while i < 2
        invariant 0 <= i <= 2
        invariant forall j :: 0 <= j < i ==> rewardInfos[j].rewardPendings == 0
      {
        if rewardInfos[i].rewardPendings != 0 {
          return Ok(false);
        }
        i := i + 1;
      }
      var liquidity :- TotalLiquidity();
      return Ok(liquidity == 0 && feeAPending == 0 && feeBPending == 0);
    }
  }
}
