/** Campaigns: whatever is funded, re-rated, withdrawn or claimed, each reward vault covers all rewards owed and the
    reserve of the running campaign. */
module RewardSafety {
  import opened Numbers
  import opened Curve
  import opened Fees
  import opened Rewards
  import opened Books
  import opened Ledgers
  import opened Solvency
  import opened Safety

  /** Only campaign `i` and the reward vaults change. */
  ghost predicate CampaignChanges(l: Ledger, m: Ledger, i: Index) {
    && m == l.(pool := l.pool.(rewards := l.pool.rewards.Set(i, m.pool.rewards.Get(i))),
               rewardVaults := l.rewardVaults.Set(i, m.rewardVaults.Get(i)))
    && m.pool.rewards.Get(i).rewardPerTokenStored == l.pool.rewards.Get(i).rewardPerTokenStored
  }

  /** The vault gains at least what the reserve gains. */
  ghost predicate ReserveIsFunded(l: Ledger, m: Ledger, i: Index) {
    Q128 * m.pool.rewards.Get(i).Reserved() - Q128 * l.pool.rewards.Get(i).Reserved()
    <= Q192 * (m.rewardVaults.Get(i) - l.rewardVaults.Get(i))
  }

  lemma ChangedAccount(l: Ledger, m: Ledger, i: Index, a: Account)
    requires l.pool.Curve().InRange() && AccountSolvent(l, a) && CampaignChanges(l, m, i) && ReserveIsFunded(l, m, i)
    ensures AccountSolvent(m, a)
  {
    hide Owed, Covered, CurveState.InRange, RewardView.Reserved;
    assert m.pool.Curve() == l.pool.Curve();
    if a == Reward(i) {
      assert Stored(m.pool, a) == Stored(l.pool, a);
    } else {
      SameAccount(l, m, a);
    }
  }

  lemma CampaignChangeKeeps(l: Ledger, m: Ledger, i: Index)
    requires Inv(l) && CampaignChanges(l, m, i) && ReserveIsFunded(l, m, i) && m.pool.rewards.Get(i).Sound(m.Now())
    ensures Inv(m)
  {
    hide AccountSolvent, TotalLiquidity, TotalPermanent, OutstandingOf, VestingSound, DynamicFee.Sound, RewardView.Sound,
         BaseFee.Validate, ReserveIsFunded;
    forall a: Account ensures AccountSolvent(m, a) {
      assert AccountSolvent(l, a);
      ChangedAccount(l, m, i, a);
    }
    assert LiquidityConserved(m) && VestingsBalanced(m.positions, m.vestings, m.Point());
  }

  // ---------------------------------------------------------------------------------------------
  // Administration
  // ---------------------------------------------------------------------------------------------

  lemma WithRewardChanges(l: Ledger, i: Index, r: RewardView)
    requires r.rewardPerTokenStored == l.pool.rewards.Get(i).rewardPerTokenStored
    requires r.Reserved() == l.pool.rewards.Get(i).Reserved()
    ensures CampaignChanges(l, l.WithReward(i, r), i) && ReserveIsFunded(l, l.WithReward(i, r), i)
  {
    hide RewardView.Reserved;
  }

  /** A new duration leaves a campaign sound. */
  lemma SoundWithDuration(r: RewardView, now: nat, duration: uint64, initialized: bool)
    requires r.Sound(now) && MIN_REWARD_DURATION <= duration <= MAX_REWARD_DURATION && initialized
    ensures r.(initialized := initialized, rewardDuration := duration).Sound(now)
    ensures r.(initialized := initialized, rewardDuration := duration).Reserved() == r.Reserved()
  {
    var d: nat :| r.WithinCampaign(now, d);
    assert r.(initialized := initialized, rewardDuration := duration).WithinCampaign(now, d);
  }

  /** A campaign can be opened exactly once, with a duration in range; it streams nothing yet. */
  lemma InitializeRewardSucceedsExactly(l: Ledger, i: Index, duration: uint64)
    requires Inv(l)
    ensures var was, r := l.pool.rewards.Get(i), l.InitializeReward(i, duration);
            && (r.Ok? <==> !was.initialized && MIN_REWARD_DURATION <= duration <= MAX_REWARD_DURATION)
            && (r.Ok? ==>
                  && Inv(r.value) && CampaignChanges(l, r.value, i) && r.value.rewardVaults == l.rewardVaults
                  && r.value.pool.rewards.Get(i) == was.(initialized := true, rewardDuration := duration)
                  && was.rewardRate == 0 && was.rewardDurationEnd == 0)
            && Safe(r)
  {
    hide Inv, RewardView.WithinCampaign, RewardView.Reserved;
    InvSoundReward(l, i);
    if l.InitializeReward(i, duration).Ok? {
      var r := l.pool.rewards.Get(i);
      SoundWithDuration(r, l.Now(), duration, true);
      WithRewardChanges(l, i, r.(initialized := true, rewardDuration := duration));
      CampaignChangeKeeps(l, l.InitializeReward(i, duration).value, i);
    }
  }

  /** The duration of an open campaign changes exactly to another one in range and only after the campaign is over;
      what still is reserved stays. */
  lemma UpdateRewardDurationSucceedsExactly(l: Ledger, i: Index, duration: uint64)
    requires Inv(l)
    ensures var was, r := l.pool.rewards.Get(i), l.UpdateRewardDuration(i, duration);
            && (r.Ok? <==>
                  && was.initialized && was.rewardDurationEnd < l.Now()
                  && MIN_REWARD_DURATION <= duration <= MAX_REWARD_DURATION && duration != was.rewardDuration)
            && (r.Ok? ==>
                  && Inv(r.value) && CampaignChanges(l, r.value, i) && r.value.rewardVaults == l.rewardVaults
                  && r.value.pool.rewards.Get(i) == was.(rewardDuration := duration)
                  && r.value.pool.rewards.Get(i).Reserved() == was.Reserved())
            && Safe(r)
  {
    hide Inv, RewardView.Sound, RewardView.Reserved;
    InvSoundReward(l, i);
    if l.UpdateRewardDuration(i, duration).Ok? {
      var r := l.pool.rewards.Get(i);
      SoundWithDuration(r, l.Now(), duration, true);
      WithRewardChanges(l, i, r.(rewardDuration := duration));
      CampaignChangeKeeps(l, l.UpdateRewardDuration(i, duration).value, i);
    }
  }

  // ---------------------------------------------------------------------------------------------
  // Funding
  // ---------------------------------------------------------------------------------------------

  /** A running campaign that has just been updated. */
  ghost predicate UpToNow(r: RewardView, now: nat) {
    && r.initialized && r.Sound(now) && r.lastUpdateTime == Min(now, r.rewardDurationEnd)
  }

  lemma AccruedReward(l: Ledger, i: Index)
    requires Inv(l) && l.pool.rewards.Get(i).initialized
    ensures var r := l.AccrueRewards();
            && (r.Ok? <==> RewardsFit(l))
            && (r.Err? ==> r.error == MathOverflow)
            && (r.Ok? ==> Inv(r.value) && AccruesTo(l, r.value) && UpToNow(r.value.pool.rewards.Get(i), l.Now()))
  {
    hide Ledger.AccrueRewards, RewardView.Reserved, RewardView.WithinCampaign;
    AccrueRewardsIs(l);
    if l.AccrueRewards().Ok? {
      AccrualKeeps(l, l.AccrueRewards().value);
      hide Inv;
    }
  }

  /** What has to fit for a campaign to be funded. */
  ghost predicate FundingFits(r: RewardView, now: nat, amount: nat, carryForward: bool) {
    && (carryForward || r.emptySeconds == 0)
    && amount + Leftover(r, now) + Carried(r, carryForward) <= U64_MAX
    && now + r.rewardDuration <= U64_MAX
  }

  lemma FundedCampaign(r: RewardView, now: uint64, amount: uint64, carryForward: bool)
    requires UpToNow(r, now)
    ensures var f := r.Fund(now, amount, carryForward);
            && (f.Ok? <==> FundingFits(r, now, amount, carryForward))
            && (f.Ok? ==>
                  && f.value.Sound(now)
                  && Restarted(r, f.value, now, amount + Leftover(r, now) + Carried(r, carryForward))
                  && f.value.Reserved() <= r.Reserved() + Q64 * amount)
  {
    var duration: nat :| r.WithinCampaign(now, duration);
    hide RewardView.Fund, RewardView.WithinCampaign, RewardView.Reserved, Leftover, Carried;
    FundKeepsCampaign(r, now, amount, carryForward, duration);
    FundSucceedsExactly(r, now, amount, carryForward, duration);
  }

  lemma FundErrors(r: RewardView, now: uint64, amount: uint64, carryForward: bool)
    ensures var f := r.Fund(now, amount, carryForward);
            f.Err? ==> f.error in {MustWithdrawnIneligibleReward, MathOverflow, TypeCastFailed}
  {
  }

  lemma FundingPays(l: Ledger, i: Index, f: RewardView, received: uint64)
    requires f.rewardPerTokenStored == l.pool.rewards.Get(i).rewardPerTokenStored
    requires f.Reserved() <= l.pool.rewards.Get(i).Reserved() + Q64 * received
    ensures var m := l.WithReward(i, f).CreditReward(i, received);
            && (m.Ok? <==> l.rewardVaults.Get(i) + received <= U64_MAX)
            && (m.Err? ==> m.error == VaultOverflow)
            && (m.Ok? ==> m.value.pool.rewards.Get(i) == f && CampaignChanges(l, m.value, i) && ReserveIsFunded(l, m.value, i))
  {
    hide RewardView.Reserved;
  }

  /** The vault gains what was received, and the campaign starts again over that, the leftover of the old one and what is
      carried. */
  ghost predicate Refunded(l: Ledger, m: Ledger, i: Index, received: uint64, carryForward: bool) {
    var r := l.pool.rewards.Get(i);
    && CampaignChanges(l, m, i)
    && m.rewardVaults.Get(i) == l.rewardVaults.Get(i) + received
    && Restarted(r, m.pool.rewards.Get(i), l.Now(), received + Leftover(r, l.Now()) + Carried(r, carryForward))
  }

  /** Funding once the campaigns have accrued. */
  lemma FundingOutcome(l: Ledger, i: Index, received: uint64, carryForward: bool)
    requires Inv(l) && UpToNow(l.pool.rewards.Get(i), l.Now())
    ensures var f := l.pool.rewards.Get(i).Fund(l.Now(), received, carryForward);
            && (f.Ok? <==> FundingFits(l.pool.rewards.Get(i), l.Now(), received, carryForward))
            && (f.Err? ==> f.error != VaultShortfall)
            && (f.Ok? ==>
                  var m := l.WithReward(i, f.value).CreditReward(i, received);
                  && (m.Ok? <==> l.rewardVaults.Get(i) + received <= U64_MAX)
                  && (m.Ok? ==> Inv(m.value) && Refunded(l, m.value, i, received, carryForward))
                  && (m.Err? ==> m.error == VaultOverflow))
  {
    hide Inv, RewardView.Fund, FundingFits, RewardView.Sound, RewardView.Reserved, ReserveIsFunded, Restarted, Leftover, Carried;
    var r := l.pool.rewards.Get(i);
    FundedCampaign(r, l.Now(), received, carryForward);
    FundErrors(r, l.Now(), received, carryForward);
    if r.Fund(l.Now(), received, carryForward).Ok? {
      var f := r.Fund(l.Now(), received, carryForward).value;
      RestartedKeepsStored(r, f, l.Now(), received + Leftover(r, l.Now()) + Carried(r, carryForward));
      FundingPays(l, i, f, received);
      var m := l.WithReward(i, f).CreditReward(i, received);
      if m.Ok? {
        SameNow(l, m.value, i);
        CampaignChangeKeeps(l, m.value, i);
      }
    }
  }

  lemma RestartedKeepsStored(r: RewardView, f: RewardView, now: nat, total: nat)
    requires Restarted(r, f, now, total)
    ensures f.rewardPerTokenStored == r.rewardPerTokenStored
  {
  }

  /** Funding goes through exactly when the campaigns accrue, empty seconds would not be lost and the sums fit; the vault
      gains what was received, the campaign starts again with all of it, and its rate never promises more than the vault
      then holds. */
  lemma FundRewardSucceedsExactly(l: Ledger, i: Index, received: uint64, carryForward: bool)
    requires Inv(l)
    ensures var accrued, r := l.AccrueRewards(), l.FundReward(i, received, carryForward);
            && (accrued.Ok? <==> RewardsFit(l)) && (accrued.Ok? ==> AccruesTo(l, accrued.value))
            && (r.Ok? <==>
                  && l.pool.rewards.Get(i).initialized && received > 0 && accrued.Ok?
                  && FundingFits(accrued.value.pool.rewards.Get(i), l.Now(), received, carryForward)
                  && l.rewardVaults.Get(i) + received <= U64_MAX)
            && (r.Ok? ==> Inv(r.value) && Refunded(accrued.value, r.value, i, received, carryForward))
            && Safe(r)
  {
    hide Inv, Ledger.AccrueRewards, RewardView.Fund, FundingFits, Refunded, Ledger.CreditReward, Accrues, RewardsFit, PoolSound,
         UpToNow, Pair.Set;
    InvSoundPool(l);
    AccrueRewardsIs(l);
    if l.pool.rewards.Get(i).initialized && received > 0 {
      AccruedReward(l, i);
      if l.AccrueRewards().Ok? {
        FundingOutcome(l.AccrueRewards().value, i, received, carryForward);
      }
    }
  }

  lemma SameNow(l: Ledger, m: Ledger, i: Index)
    requires CampaignChanges(l, m, i)
    ensures m.Now() == l.Now()
  {
  }

  // ---------------------------------------------------------------------------------------------
  // Ineligible rewards
  // ---------------------------------------------------------------------------------------------

  lemma ReserveIsBacked(l: Ledger, i: Index, amount: nat)
    requires Inv(l) && Q64 * amount <= l.pool.rewards.Get(i).Reserved()
    ensures amount <= l.rewardVaults.Get(i)
  {
    hide Inv, Owed, Stored, RewardView.Reserved;
    AccountIsBacked(l, Reward(i));
  }

  /** What the seconds without liquidity were worth at the rate, rounded down. */
  ghost predicate WorthOfEmpty(r: RewardView, paid: int) {
    Q64 * paid <= r.emptySeconds * r.rewardRate < Q64 * (paid + 1)
  }

  lemma WithdrawalReleases(r: RewardView, now: nat)
    requires r.Sound(now)
    ensures var paid, w := r.IneligibleReward(), r.(emptySeconds := 0);
            && paid.Ok? && w.Sound(now) && 0 <= w.Reserved()
            && w.Reserved() + Q64 * paid.value <= r.Reserved()
            && WorthOfEmpty(r, paid.value)
  {
    var duration: nat :| r.WithinCampaign(now, duration);
    hide RewardView.WithinCampaign, RewardView.IneligibleReward, RewardView.Reserved;
    WithdrawKeepsCampaign(r, now, duration);
    ReservedIsNonNegative(r.(emptySeconds := 0), now);
  }

  /** After the end of a campaign the ineligible reward can always be withdrawn once the rewards accrue; the vault pays
      what the empty seconds were worth, always has it, and keeps every claim covered. */
  lemma WithdrawIneligibleSucceedsExactly(l: Ledger, i: Index)
    requires Inv(l)
    ensures var accrued, r := l.AccrueRewards(), l.WithdrawIneligibleReward(i);
            && (accrued.Ok? <==> RewardsFit(l)) && (accrued.Ok? ==> AccruesTo(l, accrued.value))
            && (r.Ok? <==>
                  && l.pool.rewards.Get(i).initialized && l.Now() > l.pool.rewards.Get(i).rewardDurationEnd && accrued.Ok?)
            && (r.Ok? ==>
                  && Inv(r.value) && CampaignChanges(accrued.value, r.value, i)
                  && r.value.pool.rewards.Get(i) == accrued.value.pool.rewards.Get(i).(emptySeconds := 0)
                  && WorthOfEmpty(accrued.value.pool.rewards.Get(i), l.rewardVaults.Get(i) - r.value.rewardVaults.Get(i)))
            && Safe(r)
  {
    hide Inv, Ledger.AccrueRewards, RewardView.IneligibleReward, RewardView.Sound, RewardView.Reserved, Accrues, RewardsFit,
         PoolSound, WorthOfEmpty;
    InvSoundPool(l);
    AccrueRewardsIs(l);
    if l.pool.rewards.Get(i).initialized && l.Now() > l.pool.rewards.Get(i).rewardDurationEnd {
      AccruedReward(l, i);
      if l.AccrueRewards().Ok? {
        var b := l.AccrueRewards().value;
        var r := b.pool.rewards.Get(i);
        WithdrawalReleases(r, l.Now());
        ReserveIsBacked(b, i, r.IneligibleReward().value);
        var m := l.WithdrawIneligibleReward(i).value;
        CampaignChangeKeeps(b, m, i);
      }
    }
  }
}
