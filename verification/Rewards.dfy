/** Reward campaigns (`RewardInfo` of `state/pool.rs`): a funded amount is streamed at a Q64 rate per second
    over the liquidity; seconds without any liquidity are counted and later withdrawn or carried forward. */
module Rewards {
  import opened Numbers
  import opened Arithmetic

  const MIN_REWARD_DURATION: nat := 86_400
  const MAX_REWARD_DURATION: nat := 31_536_000

  datatype RewardView = RewardView(
    initialized: bool,
    rewardDuration: uint64,
    rewardDurationEnd: uint64,
    rewardRate: uint128,
    rewardPerTokenStored: uint256,
    lastUpdateTime: uint64,
    emptySeconds: uint64)          // `cumulative_seconds_with_empty_liquidity_reward`
  {
    function SecondsElapsed(now: uint64): Result<uint64> {
      Checked64(Min(now, rewardDurationEnd) - lastUpdateTime)
    }

    /** Growth of the reward per liquidity since the last update. */
    function RewardPerTokenSince(now: uint64, liquiditySupply: uint128): Result<uint256> {
      var seconds :- SecondsElapsed(now);
      var total :- Checked128(seconds * rewardRate);
      ShlDiv128(total, liquiditySupply)
    }

    function UpdateRewards(liquiditySupply: uint128, now: uint64): Result<RewardView> {
      if !initialized then Ok(this)
      else if liquiditySupply > 0 then
        var delta :- RewardPerTokenSince(now, liquiditySupply);
        var stored :- Checked256(rewardPerTokenStored + delta);
        Ok(this.(rewardPerTokenStored := stored, lastUpdateTime := Min(now, rewardDurationEnd)))
      else
        var seconds :- SecondsElapsed(now);
        var empty :- Checked64(emptySeconds + seconds);
        Ok(this.(emptySeconds := empty, lastUpdateTime := Min(now, rewardDurationEnd)))
    }

    /** What the seconds without liquidity were worth. */
    function IneligibleReward(): Result<uint64> {
      MulShr64Cast(emptySeconds, rewardRate)
    }

    function UpdateRateAfterFunding(now: uint64, amount: uint64): Result<RewardView> {
      var total :- if now >= rewardDurationEnd then Ok(amount) else
                     var leftover :- MulShr64Cast(rewardRate, rewardDurationEnd - now);
                     Checked64(amount + leftover);
      var rate :- ShlDiv64(total, rewardDuration);
      var end :- Checked64(now + rewardDuration);
      Ok(this.(rewardRate := rate, lastUpdateTime := now, rewardDurationEnd := end))
    }

    /** `fund_reward` once the pool is updated: carry the ineligible reward forward or refuse to lose it. */
    function Fund(now: uint64, amount: uint64, carryForward: bool): Result<RewardView> {
      if carryForward then
        var ineligible :- IneligibleReward();
        var total :- Checked64(amount + ineligible);
        this.(emptySeconds := 0).UpdateRateAfterFunding(now, total)
      else
        var _ :- Require(emptySeconds == 0, MustWithdrawnIneligibleReward);
        UpdateRateAfterFunding(now, amount)
    }

    /** Seconds of the campaign still to be streamed or already counted as empty. */
    ghost function OpenSeconds(): int {
      rewardDurationEnd - lastUpdateTime + emptySeconds
    }

    /** The part of the vault reserved for those seconds, times 2^64. */
    ghost function Reserved(): int {
      rewardRate * OpenSeconds()
    }

    /** The campaign was funded for `duration` seconds, with an amount that fits 64 bits. */
    ghost predicate WithinCampaign(now: nat, duration: nat) {
      && lastUpdateTime <= rewardDurationEnd && lastUpdateTime <= now
      && OpenSeconds() <= duration <= MAX_REWARD_DURATION
      && rewardRate * duration <= U64_MAX * Q64
    }

    ghost predicate Sound(now: nat) {
      && (exists duration: nat :: WithinCampaign(now, duration))
      && (initialized ==> MIN_REWARD_DURATION <= rewardDuration <= MAX_REWARD_DURATION)
      && (!initialized ==> rewardRate == 0 && rewardPerTokenStored == 0 && rewardDurationEnd == 0 && emptySeconds == 0)
    }
  }

  const NO_REWARD := RewardView(false, 0, 0, 0, 0, 0, 0)

  /** Every second counted in a sound campaign can be multiplied by the rate: the product stays below 2^128 and
      what it stands for below 2^64. */
  lemma SecondsTimesRate(r: RewardView, now: nat, duration: nat, seconds: nat)
    requires r.WithinCampaign(now, duration) && seconds <= r.OpenSeconds()
    ensures seconds * r.rewardRate <= r.Reserved() <= U64_MAX * Q64
    ensures seconds * r.rewardRate <= U128_MAX && seconds * r.rewardRate / Q64 <= U64_MAX
  {
    MulMono(seconds, r.OpenSeconds(), r.rewardRate);
    MulMono(r.OpenSeconds(), duration, r.rewardRate);
    FloorBelow(seconds * r.rewardRate, Q64, U64_MAX + 1);
  }

  /** The seconds of the campaign that an update at `now` accounts for. */
  ghost function Elapsed(r: RewardView, now: nat): int {
    Min(now, r.rewardDurationEnd) - r.lastUpdateTime
  }

  /** All elapsed seconds are accounted for: with liquidity they are streamed to it at the rate, less than one unit of
      the accumulator short; without they are counted as empty. */
  ghost predicate Streamed(r: RewardView, u: RewardView, supply: nat, now: nat) {
    && u.lastUpdateTime == Min(now, r.rewardDurationEnd)
    && (if supply == 0 then
          u.rewardPerTokenStored == r.rewardPerTokenStored && u.emptySeconds == r.emptySeconds + Elapsed(r, now)
        else
          var growth := u.rewardPerTokenStored - r.rewardPerTokenStored;
          && u.emptySeconds == r.emptySeconds
          && supply * growth <= Q128 * (r.rewardRate * Elapsed(r, now)) < supply * (growth + 1))
  }

  /** What an update takes out of the reserve. */
  ghost function Released(r: RewardView, supply: nat, now: nat): int {
    if supply == 0 then 0 else r.rewardRate * Elapsed(r, now)
  }

  /** An update releases exactly the elapsed seconds from the reserve and pays the liquidity all of them. */
  ghost predicate Streams(r: RewardView, u: RewardView, supply: nat, now: nat, duration: nat) {
    && u.WithinCampaign(now, duration)
    && u == r.(rewardPerTokenStored := u.rewardPerTokenStored, lastUpdateTime := u.lastUpdateTime,
               emptySeconds := u.emptySeconds)
    && r.rewardPerTokenStored <= u.rewardPerTokenStored
    && Streamed(r, u, supply, now)
    && u.Reserved() == r.Reserved() - Released(r, supply, now)
  }

  lemma StreamToNobody(r: RewardView, now: uint64, duration: nat)
    requires r.initialized && r.WithinCampaign(now, duration)
    ensures r.UpdateRewards(0, now).Ok? && Streams(r, r.UpdateRewards(0, now).value, 0, now, duration)
  {
  }

  /** The accumulator has room for what the elapsed seconds stream. */
  ghost predicate GrowthFits(r: RewardView, supply: nat, now: nat) {
    Q128 * (r.rewardRate * Elapsed(r, now)) < supply * (U256_MAX + 1 - r.rewardPerTokenStored)
  }

  lemma StreamedGrowth(r: RewardView, supply: uint128, now: uint64, duration: nat) returns (growth: uint256)
    requires r.WithinCampaign(now, duration) && supply > 0
    ensures r.RewardPerTokenSince(now, supply) == Ok(growth)
    ensures supply * growth <= Q128 * (r.rewardRate * Elapsed(r, now)) < supply * (growth + 1)
  {
    SecondsTimesRate(r, now, duration, Elapsed(r, now));
    assert Elapsed(r, now) * r.rewardRate == r.rewardRate * Elapsed(r, now);
    growth := ShiftedQuotient(r.rewardRate * Elapsed(r, now), supply);
    hide ShlDiv128;
  }

  lemma StreamToLiquidity(r: RewardView, supply: uint128, now: uint64, duration: nat)
    requires r.initialized && r.WithinCampaign(now, duration) && supply > 0
    ensures var u := r.UpdateRewards(supply, now);
            && (u.Ok? <==> GrowthFits(r, supply, now))
            && (u.Ok? ==> Streams(r, u.value, supply, now, duration))
  {
    var growth := StreamedGrowth(r, supply, now, duration);
    hide RewardView.RewardPerTokenSince;
    QuotientFits(growth, supply, Q128 * (r.rewardRate * Elapsed(r, now)), U256_MAX - r.rewardPerTokenStored);
    assert r.rewardRate * (r.OpenSeconds() - Elapsed(r, now)) == r.Reserved() - r.rewardRate * Elapsed(r, now);
  }

  /** An update fails only if the 256-bit accumulator overflows: elapsed and empty seconds never exceed the
      duration the campaign was funded for, so nothing else can leave its range. */
  lemma UpdateKeepsCampaign(r: RewardView, supply: uint128, now: uint64, duration: nat)
    requires r.initialized && r.WithinCampaign(now, duration)
    ensures var u := r.UpdateRewards(supply, now);
            && (u.Ok? <==> supply == 0 || GrowthFits(r, supply, now))
            && (u.Err? ==> u.error == MathOverflow)
            && (u.Ok? ==> Streams(r, u.value, supply, now, duration))
  {
    if supply == 0 {
      StreamToNobody(r, now, duration);
    } else {
      StreamToLiquidity(r, supply, now, duration);
      var growth := StreamedGrowth(r, supply, now, duration);
      hide RewardView.RewardPerTokenSince, Streams, GrowthFits;
    }
  }

  /** Whole units that the unstreamed seconds, and the carried empty seconds, are worth at the old rate. */
  ghost function Leftover(r: RewardView, now: nat): nat {
    if now < r.rewardDurationEnd then r.rewardRate * (r.rewardDurationEnd - now) / Q64 else 0
  }

  ghost function Carried(r: RewardView, carryForward: bool): nat {
    if carryForward then r.emptySeconds * r.rewardRate / Q64 else 0
  }

  /** A campaign of the current duration that starts now, streams all of `total` but for less than one unit of the rate,
      and has no empty seconds. */
  ghost predicate Restarted(r: RewardView, f: RewardView, now: nat, total: nat) {
    && f == r.(rewardRate := f.rewardRate, lastUpdateTime := f.lastUpdateTime, rewardDurationEnd := f.rewardDurationEnd,
               emptySeconds := 0)
    && f.lastUpdateTime == now && f.rewardDurationEnd == now + r.rewardDuration
    && f.rewardRate * r.rewardDuration <= Q64 * total < (f.rewardRate + 1) * r.rewardDuration
  }

  lemma LeftoverIsReserved(r: RewardView, now: uint64, duration: nat)
    requires r.WithinCampaign(now, duration) && r.lastUpdateTime == Min(now, r.rewardDurationEnd)
    ensures Q64 * Leftover(r, now) <= r.Reserved() - r.emptySeconds * r.rewardRate
  {
    if now < r.rewardDurationEnd {
      FloorBounds(r.rewardRate * (r.rewardDurationEnd - now), Q64);
    }
    assert r.Reserved() == r.rewardRate * (r.rewardDurationEnd - r.lastUpdateTime) + r.emptySeconds * r.rewardRate;
  }

  /** The rate set by funding streams the funded amount and what was left of the old campaign. */
  lemma RateAfterFunding(r: RewardView, now: uint64, amount: uint64, duration: nat)
    requires r.WithinCampaign(now, duration) && r.lastUpdateTime == Min(now, r.rewardDurationEnd)
    requires r.emptySeconds == 0 && 0 < r.rewardDuration <= MAX_REWARD_DURATION
    ensures var f := r.UpdateRateAfterFunding(now, amount);
            f.Ok? ==> amount + Leftover(r, now) <= U64_MAX && Restarted(r, f.value, now, amount + Leftover(r, now))
  {
    LeftoverFits(r, now, duration);
    hide Leftover, MulShr64Cast;
    var total := amount + Leftover(r, now);
    FloorBounds(total * Q64, r.rewardDuration);
  }

  lemma RestartedCampaign(r: RewardView, f: RewardView, now: nat, total: nat)
    requires Restarted(r, f, now, total) && total <= U64_MAX && r.rewardDuration <= MAX_REWARD_DURATION
    ensures f.WithinCampaign(now, r.rewardDuration) && f.Reserved() <= Q64 * total
  {
    assert f.OpenSeconds() == r.rewardDuration;
  }

  /** Funding, with or without carrying the empty seconds forward, starts a campaign of the current duration over
      exactly the funded amount, the leftover of the old campaign and what is carried, and reserves no more than is
      already reserved and newly funded. */
  lemma FundKeepsCampaign(r: RewardView, now: uint64, amount: uint64, carryForward: bool, duration: nat)
    requires r.WithinCampaign(now, duration) && r.lastUpdateTime == Min(now, r.rewardDurationEnd)
    requires 0 < r.rewardDuration <= MAX_REWARD_DURATION
    ensures var f := r.Fund(now, amount, carryForward);
            f.Ok? ==>
              && f.value.WithinCampaign(now, r.rewardDuration)
              && Restarted(r, f.value, now, amount + Leftover(r, now) + Carried(r, carryForward))
              && f.value.Reserved() <= r.Reserved() + Q64 * amount
  {
    hide RewardView.UpdateRateAfterFunding;
    var f := r.Fund(now, amount, carryForward);
    if f.Ok? {
      var carried := Carried(r, carryForward);
      SecondsTimesRate(r, now, duration, r.emptySeconds);
      FloorBounds(r.emptySeconds * r.rewardRate, Q64);
      var cleared := r.(emptySeconds := 0);
      WithdrawKeepsCampaign(r, now, duration);
      LeftoverIsReserved(r, now, duration);
      hide RewardView.WithinCampaign, RewardView.Reserved, Leftover;
      SameLeftover(r, now);
      RateAfterFunding(cleared, now, amount + carried, duration);
      RestartedCampaign(r, f.value, now, amount + Leftover(r, now) + carried);
    }
  }

  lemma SameLeftover(r: RewardView, now: nat)
    ensures Leftover(r.(emptySeconds := 0), now) == Leftover(r, now)
  {
  }

  /** The ineligible reward always fits, and withdrawing it pays what it releases, rounded down. */
  lemma WithdrawKeepsCampaign(r: RewardView, now: nat, duration: nat)
    requires r.WithinCampaign(now, duration)
    ensures var paid, w := r.IneligibleReward(), r.(emptySeconds := 0);
            && paid.Ok? && w.WithinCampaign(now, duration)
            && w.Reserved() == r.Reserved() - r.emptySeconds * r.rewardRate
            && Q64 * paid.value <= r.emptySeconds * r.rewardRate < Q64 * (paid.value + 1)
  {
    SecondsTimesRate(r, now, duration, r.emptySeconds);
    FloorBounds(r.emptySeconds * r.rewardRate, Q64);
    assert r.(emptySeconds := 0).Reserved() == r.Reserved() - r.emptySeconds * r.rewardRate;
  }

  lemma RateIsSetExactly(r: RewardView, now: uint64, amount: uint64, duration: nat)
    requires r.WithinCampaign(now, duration) && r.lastUpdateTime == Min(now, r.rewardDurationEnd)
    requires r.rewardDuration > 0
    ensures Leftover(r, now) <= U64_MAX
    ensures r.UpdateRateAfterFunding(now, amount).Ok? <==>
              amount + Leftover(r, now) <= U64_MAX && now + r.rewardDuration <= U64_MAX
  {
    LeftoverFits(r, now, duration);
    hide Leftover, MulShr64Cast, ShlDiv64;
    RateFits(amount + Leftover(r, now), r.rewardDuration);
  }

  lemma LeftoverFits(r: RewardView, now: uint64, duration: nat)
    requires r.WithinCampaign(now, duration)
    ensures Leftover(r, now) <= U64_MAX
    ensures now >= r.rewardDurationEnd ==> Leftover(r, now) == 0
    ensures now < r.rewardDurationEnd ==> MulShr64Cast(r.rewardRate, r.rewardDurationEnd - now) == Ok(Leftover(r, now))
  {
    if now < r.rewardDurationEnd {
      SecondsTimesRate(r, now, duration, r.rewardDurationEnd - now);
    }
  }

  lemma RateFits(total: nat, duration: uint64)
    requires duration > 0
    ensures total <= U64_MAX ==> ShlDiv64(total, duration).Ok?
  {
    var shifted := total * Q64;
    assert total <= U64_MAX ==> shifted <= U128_MAX;
    var rate := Quotient(shifted, duration);
    FloorIs(shifted, duration, rate);
    MulMono(1, duration, rate);
  }

  /** Funding is refused exactly when empty seconds would be lost or the total or the end time does not fit 64
      bits; leftover and carried rewards always fit by themselves. */
  lemma FundSucceedsExactly(r: RewardView, now: uint64, amount: uint64, carryForward: bool, duration: nat)
    requires r.WithinCampaign(now, duration) && r.lastUpdateTime == Min(now, r.rewardDurationEnd)
    requires r.rewardDuration > 0
    ensures Leftover(r, now) <= U64_MAX && Carried(r, carryForward) <= U64_MAX
    ensures r.Fund(now, amount, carryForward).Ok? <==>
              && (carryForward || r.emptySeconds == 0)
              && amount + Leftover(r, now) + Carried(r, carryForward) <= U64_MAX
              && now + r.rewardDuration <= U64_MAX
  {
    hide RewardView.UpdateRateAfterFunding;
    SecondsTimesRate(r, now, duration, r.emptySeconds);
    RateIsSetExactly(r, now, amount, duration);
    if carryForward && amount + Carried(r, true) <= U64_MAX {
      assert r.(emptySeconds := 0).WithinCampaign(now, duration) by {
        WithdrawKeepsCampaign(r, now, duration);
      }
      RateIsSetExactly(r.(emptySeconds := 0), now, amount + Carried(r, true), duration);
    }
  }
}
