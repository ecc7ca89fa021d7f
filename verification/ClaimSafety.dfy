/** Payouts of fees and rewards: the vaults always hold what is claimed, and paying it out keeps the invariant. */
module ClaimSafety {
  import opened Numbers
  import opened Arithmetic
  import opened Curve
  import opened Fees
  import opened Settlement
  import opened Rewards
  import opened Positions
  import opened Pools
  import opened Books
  import opened Ledgers
  import opened Solvency
  import opened Safety

  // ---------------------------------------------------------------------------------------------
  // A position is paid what is pending
  // ---------------------------------------------------------------------------------------------

  /** `m` differs from `l` in one position and in the vaults. */
  ghost predicate PaidAt(l: Ledger, m: Ledger, id: Id) {
    && id in l.positions && id in m.positions
    && m == l.(positions := l.positions[id := m.positions[id]], vaults := m.vaults, rewardVaults := m.rewardVaults)
    && SameHoldings(l.positions[id], m.positions[id])
  }

  /** An account whose vault and position lose the same amount. */
  lemma PaidAccount(l: Ledger, m: Ledger, id: Id, a: Account, paid: nat)
    requires l.pool.Curve().InRange() && AccountSolvent(l, a) && PaidAt(l, m, id)
    requires Balance(m, a) >= Balance(l, a) - paid
    requires a.StreamOf(m.positions[id]).checkpoint == a.StreamOf(l.positions[id]).checkpoint
    requires a.StreamOf(m.positions[id]).pending == a.StreamOf(l.positions[id]).pending - paid
    ensures AccountSolvent(m, a)
  {
    assert Stored(m.pool, a) == Stored(l.pool, a);
    assert Backing(m, a) >= Backing(l, a) - a.Scale() * paid;
    assert a.ClaimOf(m.positions[id], Stored(l.pool, a)) == a.ClaimOf(l.positions[id], Stored(l.pool, a)) - a.Scale() * paid;
    hide Backing, Slack, Stored, Account.ClaimOf, Account.Scale, Balance, CurveState.InRange, Covered;
    SlackAfter(l, m, id, a);
    SolventWithMore(l, m, a);
  }

  ghost function PaidOf(l: Ledger, m: Ledger, id: Id, a: Account): int
    requires id in l.positions && id in m.positions
  {
    a.StreamOf(l.positions[id]).pending - a.StreamOf(m.positions[id]).pending
  }

  /** In every account the vault pays at most what the position gives up. */
  ghost predicate PaysOut(l: Ledger, m: Ledger, id: Id, a: Account)
    requires id in l.positions && id in m.positions
  {
    && a.StreamOf(m.positions[id]).checkpoint == a.StreamOf(l.positions[id]).checkpoint
    && PaidOf(l, m, id, a) >= 0
    && Balance(m, a) >= Balance(l, a) - PaidOf(l, m, id, a)
  }

  lemma PaymentKeeps(l: Ledger, m: Ledger, id: Id)
    requires Inv(l) && PaidAt(l, m, id) && forall a: Account :: PaysOut(l, m, id, a)
    ensures Inv(m)
  {
    hide AccountSolvent, TotalLiquidity, TotalPermanent, OutstandingOf, VestingSound, DynamicFee.Sound, RewardView.Sound,
         BaseFee.Validate;
    LiquidityKept(l.positions, id, m.positions[id]);
    VestingsKept(l.positions, m.positions, l.vestings, l.Point());
    forall a: Account ensures AccountSolvent(m, a) {
      assert AccountSolvent(l, a) && PaysOut(l, m, id, a);
      PaidAccount(l, m, id, a, PaidOf(l, m, id, a));
    }
  }

  /** What is pending in an account is in its vault. */
  lemma PendingIsBacked(l: Ledger, id: Id, a: Account)
    requires Inv(l) && id in l.positions
    ensures a.StreamOf(l.positions[id]).pending <= Balance(l, a)
  {
    hide Inv, Backing, Owed, Account.ClaimOf;
    ClaimIsBacked(l, id, a);
    hide Balance, Account.StreamOf, Stored;
    CancelFactor(a.StreamOf(l.positions[id]).pending, Balance(l, a), a.Scale());
  }

  /** A stream whose pending amount has been paid and counted. */
  ghost predicate TakenFrom(before: Stream, after: Stream) {
    after.pending == 0 && after.checkpoint == before.checkpoint && after.claimed == before.claimed + before.pending
  }

  /** Everything pending of both fees leaves the vaults and the position; nothing else changes. */
  ghost predicate FeesTaken(l: Ledger, m: Ledger, id: Id) {
    && id in l.positions && id in m.positions
    && m == l.(positions := l.positions[id := m.positions[id]], vaults := m.vaults)
    && m.positions[id] == l.positions[id].(fees := m.positions[id].fees)
    && TakenFrom(l.positions[id].fees.zero, m.positions[id].fees.zero)
    && TakenFrom(l.positions[id].fees.one, m.positions[id].fees.one)
    && m.vaults.zero == l.vaults.zero - l.positions[id].fees.zero.pending
    && m.vaults.one == l.vaults.one - l.positions[id].fees.one.pending
  }

  /** The lifetime totals of claims have room. */
  ghost predicate ClaimsFit(p: PositionView) {
    && p.fees.zero.claimed + p.fees.zero.pending <= U64_MAX
    && p.fees.one.claimed + p.fees.one.pending <= U64_MAX
  }

  lemma ClaimFeesIs(l: Ledger, id: Id)
    requires Inv(l) && id in l.positions
    ensures var p := l.positions[id].ClaimFees();
            && (p.Ok? <==> ClaimsFit(l.positions[id]))
            && (p.Err? ==> p.error == MathOverflow)
            && (p.Ok? ==>
                  var r := l.With(id, p.value).DebitBoth(l.PendingFees(id));
                  r.Ok? && Inv(r.value) && FeesTaken(l, r.value, id))
  {
    hide Inv;
    PendingIsBacked(l, id, Fee(TOKEN_A));
    PendingIsBacked(l, id, Fee(TOKEN_B));
    if l.positions[id].ClaimFees().Ok? {
      var m := l.With(id, l.positions[id].ClaimFees().value).DebitBoth(l.PendingFees(id)).value;
      forall a: Account ensures PaysOut(l, m, id, a) {
      }
      PaymentKeeps(l, m, id);
    }
  }

  /** A holder's fees can always be claimed, in full, unless the lifetime total of claims overflows. */
  lemma ClaimPositionFeeSucceedsExactly(l: Ledger, id: Id)
    requires Inv(l) && id in l.positions
    ensures var settled, r := l.SettleFee(id), l.ClaimPositionFee(id);
            && settled.Ok? && SettledAt(l, settled.value, id)
            && Settled(settled.value.positions[id], l.pool, Fee(TOKEN_A))
            && Settled(settled.value.positions[id], l.pool, Fee(TOKEN_B))
            && (r.Ok? <==> ClaimsFit(settled.value.positions[id]))
            && (r.Err? ==> r.error == MathOverflow)
            && (r.Ok? ==> Inv(r.value) && FeesTaken(settled.value, r.value, id))
  {
    hide Inv, Ledger.SettleFee, Ledger.DebitBoth, Settled, Settles, FeesTaken, ClaimsFit, PositionView.ClaimFees;
    SettleFeeIs(l, id);
    ClaimFeesIs(l.SettleFee(id).value, id);
  }

  // ---------------------------------------------------------------------------------------------
  // Protocol and partner
  // ---------------------------------------------------------------------------------------------

  lemma BookedFeesAreBacked(l: Ledger, token: Index)
    requires Inv(l)
    ensures l.pool.fees.Get(token).protocolFee + l.pool.fees.Get(token).partnerFee <= l.vaults.Get(token)
  {
    hide Inv, Owed, Stored;
    AccountIsBacked(l, Fee(token));
  }

  lemma FeesPaidKeep(l: Ledger, m: Ledger)
    requires Inv(l) && m == l.(pool := m.pool, vaults := m.vaults) && m.pool == l.pool.(fees := m.pool.fees)
    requires forall a: Account :: Backing(m, a) == Backing(l, a) && Stored(m.pool, a) == Stored(l.pool, a)
    ensures Inv(m)
  {
    hide Backing, Covered, Owed, Stored, TotalLiquidity, TotalPermanent, OutstandingOf, VestingSound, DynamicFee.Sound,
         RewardView.Sound, BaseFee.Validate, UpToDate;
    forall a: Account ensures AccountSolvent(m, a) {
      assert AccountSolvent(l, a) && Backing(m, a) == Backing(l, a);
    }
  }

  /** The vaults pay `paid`; nothing else changes but the books. */
  ghost predicate BookedFeesPaid(l: Ledger, m: Ledger, paid: Pair<int>) {
    && m == l.(pool := l.pool.(fees := m.pool.fees), vaults := m.vaults)
    && m.vaults.zero == l.vaults.zero - paid.zero && m.vaults.one == l.vaults.one - paid.one
  }

  ghost predicate ProtocolPaid(before: FeeLedger, after: FeeLedger, paid: int) {
    after == before.(protocolFee := after.protocolFee) && after.protocolFee == before.protocolFee - paid
  }

  ghost predicate PartnerPaid(before: FeeLedger, after: FeeLedger, paid: int) {
    after == before.(partnerFee := after.partnerFee) && after.partnerFee == before.partnerFee - paid
  }

  /** Protocol fees can always be claimed: of each token the lesser of what is booked for the protocol and what is asked
      for leaves the vault and the protocol's book, and the vault always has it. */
  lemma ClaimProtocolFeeIsPaid(l: Ledger, max: Pair<uint64>)
    requires Inv(l)
    ensures var r := l.ClaimProtocolFee(max);
            var paid := Pair(Min(l.pool.fees.zero.protocolFee, max.zero), Min(l.pool.fees.one.protocolFee, max.one));
            && r.Ok? && Inv(r.value) && BookedFeesPaid(l, r.value, paid)
            && ProtocolPaid(l.pool.fees.zero, r.value.pool.fees.zero, paid.zero)
            && ProtocolPaid(l.pool.fees.one, r.value.pool.fees.one, paid.one)
  {
    hide Inv;
    BookedFeesAreBacked(l, TOKEN_A);
    BookedFeesAreBacked(l, TOKEN_B);
    FeesPaidKeep(l, l.ClaimProtocolFee(max).value);
  }

  lemma ClaimPartnerFeeIsPaid(l: Ledger, max: Pair<uint64>)
    requires Inv(l)
    ensures var r := l.ClaimPartnerFee(max);
            var paid := Pair(Min(l.pool.fees.zero.partnerFee, max.zero), Min(l.pool.fees.one.partnerFee, max.one));
            && r.Ok? && Inv(r.value) && BookedFeesPaid(l, r.value, paid)
            && PartnerPaid(l.pool.fees.zero, r.value.pool.fees.zero, paid.zero)
            && PartnerPaid(l.pool.fees.one, r.value.pool.fees.one, paid.one)
  {
    hide Inv;
    BookedFeesAreBacked(l, TOKEN_A);
    BookedFeesAreBacked(l, TOKEN_B);
    FeesPaidKeep(l, l.ClaimPartnerFee(max).value);
  }

  // ---------------------------------------------------------------------------------------------
  // Rewards
  // ---------------------------------------------------------------------------------------------

  /** Everything pending of one reward leaves the position; the vault pays `paid`. The lifetime total wraps around. */
  ghost predicate RewardTaken(l: Ledger, m: Ledger, id: Id, i: Index, paid: int) {
    && id in l.positions && id in m.positions
    && var before, after := l.positions[id].rewards.Get(i), m.positions[id].rewards.Get(i);
    && m == l.(positions := l.positions[id := m.positions[id]], rewardVaults := m.rewardVaults)
    && m.positions[id] == l.positions[id].(rewards := l.positions[id].rewards.Set(i, after))
    && after.pending == 0 && after.checkpoint == before.checkpoint
    && after.claimed == (if before.claimed + before.pending <= U64_MAX then before.claimed + before.pending
                         else before.claimed + before.pending - (U64_MAX + 1))
    && m.rewardVaults.Get(i) == l.rewardVaults.Get(i) - paid
    && m.rewardVaults == l.rewardVaults.Set(i, m.rewardVaults.Get(i))
  }

  lemma ClaimRewardPays(l: Ledger, id: Id, i: Index)
    requires Inv(l) && id in l.positions
    ensures var p := l.positions[id];
            var claimed := l.With(id, p.ClaimReward(i));
            var r := claimed.DebitReward(i, p.rewards.Get(i).pending);
            && Inv(claimed) && RewardTaken(l, claimed, id, i, 0)
            && r.Ok? && Inv(r.value) && RewardTaken(l, r.value, id, i, p.rewards.Get(i).pending)
  {
    hide Inv;
    var p := l.positions[id];
    PendingIsBacked(l, id, Reward(i));
    var claimed := l.With(id, p.ClaimReward(i));
    var m := claimed.DebitReward(i, p.rewards.Get(i).pending).value;
    forall a: Account ensures PaysOut(l, claimed, id, a) && PaysOut(l, m, id, a) {
    }
    PaymentKeeps(l, claimed, id);
    PaymentKeeps(l, m, id);
  }

  /** Pending rewards are paid in full whenever they accrue without overflow and the vault is not frozen; a holder
      may give them up while it is. */
  lemma ClaimRewardSucceedsExactly(l: Ledger, id: Id, i: Index, frozen: bool, skip: bool)
    requires Inv(l) && id in l.positions
    ensures var rewarded, r := l.UpdateRewards(id), l.ClaimReward(id, i, frozen, skip);
            && (rewarded.Ok? <==> RewardsFit(l))
            && (rewarded.Ok? ==> RewardedAt(l, rewarded.value, id) && id in rewarded.value.positions)
            && (r.Ok? <==>
                  && l.pool.rewards.Get(i).initialized && rewarded.Ok?
                  && (frozen && rewarded.value.positions[id].rewards.Get(i).pending > 0 ==> skip))
            && (r.Ok? ==>
                  && Inv(r.value)
                  && RewardTaken(rewarded.value, r.value, id, i,
                                 if frozen then 0 else rewarded.value.positions[id].rewards.Get(i).pending))
            && Safe(r)
  {
    hide Inv, Ledger.UpdateRewards, Ledger.DebitReward, RewardedAt, RewardsFit, RewardTaken, PositionView.ClaimReward;
    UpdateRewardsIs(l, id);
    var rewarded := l.UpdateRewards(id);
    if rewarded.Ok? {
      RewardedHas(l, rewarded.value, id);
      ClaimRewardPays(rewarded.value, id, i);
      var claimed := rewarded.value.With(id, rewarded.value.positions[id].ClaimReward(i));
      DebitNothing(claimed, i);
    }
  }

  lemma DebitNothing(l: Ledger, i: Index)
    ensures l.DebitReward(i, 0) == Ok(l)
  {
  }
}
