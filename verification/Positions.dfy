/** Positions (`state/position.rs`) as values: liquidity in three buckets and four lazily settled streams. */
module Positions {
  import opened Numbers
  import opened Settlement
  import opened Rewards

  const SPLIT_POSITION_DENOMINATOR: nat := 1_000_000_000

  datatype PositionView = PositionView(
    unlocked: uint128,
    vested: uint128,
    permanent: uint128,
    fees: Pair<Stream>,           // by token
    rewards: Pair<Stream>)        // by reward index
  {
    ghost function Liquidity(): nat {
      unlocked + vested + permanent
    }

    function TotalLiquidity(): Result<uint128> {
      var locked :- Checked128(unlocked + vested);
      Checked128(locked + permanent)
    }

    function UpdateFee(stored: Pair<uint256>): Result<PositionView> {
      var liquidity :- TotalLiquidity();
      if liquidity > 0 then
        var a :- fees.zero.Settle(liquidity, stored.zero, Q128);
        var b :- fees.one.Settle(liquidity, stored.one, Q128);
        Ok(this.(fees := Pair(a, b)))
      else
        Ok(this.(fees := Pair(fees.zero.(checkpoint := stored.zero), fees.one.(checkpoint := stored.one))))
    }

    function UpdateReward(i: Index, liquidity: uint128, info: RewardView): Result<PositionView> {
      if info.initialized then
        var settled :- rewards.Get(i).Settle(liquidity, info.rewardPerTokenStored, Q192);
        Ok(this.(rewards := rewards.Set(i, settled)))
      else Ok(this)
    }

    function UpdatePositionReward(infos: Pair<RewardView>): Result<PositionView> {
      var liquidity :- TotalLiquidity();
      var first :- UpdateReward(0, liquidity, infos.zero);
      first.UpdateReward(1, liquidity, infos.one)
    }

    function AddLiquidity(delta: uint128): Result<PositionView> {
      var sum :- Checked128(unlocked + delta);
      Ok(this.(unlocked := sum))
    }

    function RemoveUnlockedLiquidity(delta: uint128): Result<PositionView> {
      var rest :- Checked128(unlocked - delta);
      Ok(this.(unlocked := rest))
    }

    function Lock(amount: uint128): Result<PositionView> {
      var _ :- Require(unlocked >= amount, InsufficientLiquidity);
      var p :- RemoveUnlockedLiquidity(amount);
      var sum :- Checked128(vested + amount);
      Ok(p.(vested := sum))
    }

    function PermanentLockLiquidity(amount: uint128): Result<PositionView> {
      var _ :- Require(unlocked >= amount, InsufficientLiquidity);
      var p :- RemoveUnlockedLiquidity(amount);
      p.AddPermanentLockedLiquidity(amount)
    }

    function AddPermanentLockedLiquidity(amount: uint128): Result<PositionView> {
      var sum :- Checked128(permanent + amount);
      Ok(this.(permanent := sum))
    }

    function RemovePermanentLockedLiquidity(amount: uint128): Result<PositionView> {
      var _ :- Require(amount <= permanent, InsufficientLiquidity);
      Ok(this.(permanent := permanent - amount))
    }

    function ReleaseVestedLiquidity(amount: uint128): Result<PositionView> {
      var rest :- Checked128(vested - amount);
      this.(vested := rest).AddLiquidity(amount)
    }

    function RemoveFeePending(a: uint64, b: uint64): Result<PositionView> {
      var restA :- Checked64(fees.zero.pending - a);
      var restB :- Checked64(fees.one.pending - b);
      Ok(this.(fees := Pair(fees.zero.(pending := restA), fees.one.(pending := restB))))
    }

    function AddFeePending(a: uint64, b: uint64): Result<PositionView> {
      var sumA :- Checked64(fees.zero.pending + a);
      var sumB :- Checked64(fees.one.pending + b);
      Ok(this.(fees := Pair(fees.zero.(pending := sumA), fees.one.(pending := sumB))))
    }

    function RemoveRewardPending(i: Index, amount: uint64): Result<PositionView> {
      var rest :- Checked64(rewards.Get(i).pending - amount);
      Ok(this.(rewards := rewards.Set(i, rewards.Get(i).(pending := rest))))
    }

    function AddRewardPending(i: Index, amount: uint64): Result<PositionView> {
      var sum :- Checked64(rewards.Get(i).pending + amount);
      Ok(this.(rewards := rewards.Set(i, rewards.Get(i).(pending := sum))))
    }

    /** `metrics.accumulate_claimed_fee` on what is pending, then `reset_pending_fee`. */
    function ClaimFees(): Result<PositionView> {
      var claimedA :- Checked64(fees.zero.claimed + fees.zero.pending);
      var claimedB :- Checked64(fees.one.claimed + fees.one.pending);
      Ok(this.(fees := Pair(fees.zero.(pending := 0, claimed := claimedA), fees.one.(pending := 0, claimed := claimedB))))
    }

    /** The total of claimed rewards wraps around. */
    function ClaimReward(i: Index): PositionView {
      var s := rewards.Get(i);
      this.(rewards := rewards.Set(i, s.(pending := 0, claimed := (s.claimed + s.pending) % (U64_MAX + 1))))
    }

    function IsEmpty(): Result<bool> {
      if rewards.zero.pending != 0 || rewards.one.pending != 0 then Ok(false) else
        var liquidity :- TotalLiquidity();
        Ok(liquidity == 0 && fees.zero.pending == 0 && fees.one.pending == 0)
    }
  }

  const NO_POSITION := PositionView(0, 0, 0, Pair(NO_STREAM, NO_STREAM), Pair(NO_STREAM, NO_STREAM))

  /** The part of an amount that a split moves: `numerator` billionths, rounded down. */
  function LiquidityPart(amount: uint128, numerator: uint32): Result<uint128> {
    Cast128(amount * numerator / SPLIT_POSITION_DENOMINATOR)
  }

  function PendingPart(amount: uint64, numerator: uint32): Result<uint64> {
    MulDiv64(amount, numerator, SPLIT_POSITION_DENOMINATOR, Down)
  }

  datatype SplitParameters = SplitParameters(
    unlocked: uint32, permanent: uint32, fees: Pair<uint32>, rewards: Pair<uint32>)
  {
    function Validate(): Check {
      Require(
        && unlocked <= SPLIT_POSITION_DENOMINATOR && permanent <= SPLIT_POSITION_DENOMINATOR
        && fees.zero <= SPLIT_POSITION_DENOMINATOR && fees.one <= SPLIT_POSITION_DENOMINATOR
        && rewards.zero <= SPLIT_POSITION_DENOMINATOR && rewards.one <= SPLIT_POSITION_DENOMINATOR
        && (unlocked > 0 || permanent > 0 || fees.zero > 0 || fees.one > 0 || rewards.zero > 0 || rewards.one > 0),
        InvalidSplitPositionParameters)
    }
  }

  /** Two positions that trade holdings: the first gives, the second receives. */
  datatype Split = Split(first: PositionView, second: PositionView) {
    function MoveUnlocked(numerator: uint32): Result<Split> {
      if numerator == 0 then Ok(this) else
        var delta :- LiquidityPart(first.unlocked, numerator);
        var giver :- first.RemoveUnlockedLiquidity(delta);
        var receiver :- second.AddLiquidity(delta);
        Ok(Split(giver, receiver))
    }

    function MovePermanent(numerator: uint32): Result<Split> {
      if numerator == 0 then Ok(this) else
        var delta :- LiquidityPart(first.permanent, numerator);
        var giver :- first.RemovePermanentLockedLiquidity(delta);
        var receiver :- second.AddPermanentLockedLiquidity(delta);
        Ok(Split(giver, receiver))
    }

    function MoveFees(numerators: Pair<uint32>): Result<Split> {
      if numerators.zero == 0 && numerators.one == 0 then Ok(this) else
        var a :- PendingPart(first.fees.zero.pending, numerators.zero);
        var b :- PendingPart(first.fees.one.pending, numerators.one);
        var giver :- first.RemoveFeePending(a, b);
        var receiver :- second.AddFeePending(a, b);
        Ok(Split(giver, receiver))
    }

    function MoveReward(i: Index, initialized: bool, numerator: uint32): Result<Split> {
      if numerator == 0 || !initialized then Ok(this) else
        var amount :- PendingPart(first.rewards.Get(i).pending, numerator);
        var giver :- first.RemoveRewardPending(i, amount);
        var receiver :- second.AddRewardPending(i, amount);
        Ok(Split(giver, receiver))
    }

    /** `Pool::apply_split_position`. */
    function Apply(stored: Pair<uint256>, initialized: Pair<bool>, parameters: SplitParameters): Result<Split> {
      var settled1 :- first.UpdateFee(stored);
      var settled2 :- second.UpdateFee(stored);
      var s1 :- Split(settled1, settled2).MoveUnlocked(parameters.unlocked);
      var s2 :- s1.MovePermanent(parameters.permanent);
      var s3 :- s2.MoveFees(parameters.fees);
      var s4 :- s3.MoveReward(0, initialized.zero, parameters.rewards.zero);
      s4.MoveReward(1, initialized.one, parameters.rewards.one)
    }
  }
}
