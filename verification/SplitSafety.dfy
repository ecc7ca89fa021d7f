/** Splitting a position: liquidity, pending fees and pending rewards move to a second position, unit for unit. */
module SplitSafety {
  import opened Numbers
  import opened Arithmetic
  import opened Curve
  import opened Settlement
  import opened Positions
  import opened Pools
  import opened Books
  import opened Ledgers
  import opened Solvency
  import opened Safety

  /** In one stream, `t` and `u` hold together what `r` and `s` held, at the same checkpoints. */
  ghost predicate StreamsExchanged(r: Stream, s: Stream, t: Stream, u: Stream) {
    && t.checkpoint == r.checkpoint && u.checkpoint == s.checkpoint
    && t.pending + u.pending == r.pending + s.pending
    && t.claimed == r.claimed && u.claimed == s.claimed
  }

  /** The two positions exchange unlocked and permanently locked liquidity and pending amounts, and nothing else. */
  ghost predicate Exchanged(a: Split, b: Split) {
    && b.first.unlocked + b.second.unlocked == a.first.unlocked + a.second.unlocked
    && b.first.permanent + b.second.permanent == a.first.permanent + a.second.permanent
    && b.first.vested == a.first.vested && b.second.vested == a.second.vested
    && StreamsExchanged(a.first.fees.zero, a.second.fees.zero, b.first.fees.zero, b.second.fees.zero)
    && StreamsExchanged(a.first.fees.one, a.second.fees.one, b.first.fees.one, b.second.fees.one)
    && StreamsExchanged(a.first.rewards.zero, a.second.rewards.zero, b.first.rewards.zero, b.second.rewards.zero)
    && StreamsExchanged(a.first.rewards.one, a.second.rewards.one, b.first.rewards.one, b.second.rewards.one)
  }

  /** What two positions hold together fits the widths of one. */
  ghost predicate FitsOne(s: Split) {
    && s.first.unlocked + s.second.unlocked <= U128_MAX && s.first.permanent + s.second.permanent <= U128_MAX
    && s.first.fees.zero.pending + s.second.fees.zero.pending <= U64_MAX
    && s.first.fees.one.pending + s.second.fees.one.pending <= U64_MAX
    && s.first.rewards.zero.pending + s.second.rewards.zero.pending <= U64_MAX
    && s.first.rewards.one.pending + s.second.rewards.one.pending <= U64_MAX
  }

  // ---------------------------------------------------------------------------------------------
  // The moves
  // ---------------------------------------------------------------------------------------------

  /** `moved` is the part of `amount` that `numerator` billionths are, rounded down; all of it for a whole. */
  ghost predicate IsPart(moved: int, amount: nat, numerator: nat) {
    && moved * SPLIT_POSITION_DENOMINATOR <= amount * numerator < (moved + 1) * SPLIT_POSITION_DENOMINATOR
    && (numerator == SPLIT_POSITION_DENOMINATOR ==> moved == amount)
  }

  lemma PartsAre(amount: nat, numerator: uint32)
    requires numerator <= SPLIT_POSITION_DENOMINATOR
    ensures amount <= U128_MAX ==>
              var part := LiquidityPart(amount, numerator); part.Ok? && part.value <= amount && IsPart(part.value, amount, numerator)
    ensures amount <= U64_MAX ==>
              var part := PendingPart(amount, numerator); part.Ok? && part.value <= amount && IsPart(part.value, amount, numerator)
  {
    MulMono(numerator, SPLIT_POSITION_DENOMINATOR, amount);
    FloorBelow(amount * numerator, SPLIT_POSITION_DENOMINATOR, amount + 1);
    FloorBounds(amount * numerator, SPLIT_POSITION_DENOMINATOR);
    FloorIsDivision(amount * numerator, SPLIT_POSITION_DENOMINATOR);
  }

  /** One holding gives another the part of it that `numerator` billionths are. */
  ghost predicate Gives(giver: nat, receiver: nat, giverAfter: nat, receiverAfter: nat, numerator: nat) {
    giverAfter + receiverAfter == giver + receiver && IsPart(receiverAfter - receiver, giver, numerator)
  }

  lemma MovesUnlocked(s: Split, numerator: uint32)
    requires FitsOne(s) && numerator <= SPLIT_POSITION_DENOMINATOR
    ensures var r := s.MoveUnlocked(numerator);
            && r.Ok? && Exchanged(s, r.value)
            && r.value.first == s.first.(unlocked := r.value.first.unlocked)
            && r.value.second == s.second.(unlocked := r.value.second.unlocked)
            && Gives(s.first.unlocked, s.second.unlocked, r.value.first.unlocked, r.value.second.unlocked, numerator)
  {
    PartsAre(s.first.unlocked, numerator);
    hide LiquidityPart, PendingPart;
  }

  lemma MovesPermanent(s: Split, numerator: uint32)
    requires FitsOne(s) && numerator <= SPLIT_POSITION_DENOMINATOR
    ensures var r := s.MovePermanent(numerator);
            && r.Ok? && Exchanged(s, r.value)
            && r.value.first == s.first.(permanent := r.value.first.permanent)
            && r.value.second == s.second.(permanent := r.value.second.permanent)
            && Gives(s.first.permanent, s.second.permanent, r.value.first.permanent, r.value.second.permanent, numerator)
  {
    PartsAre(s.first.permanent, numerator);
    hide LiquidityPart, PendingPart;
  }

  ghost predicate GivesPending(a: Stream, b: Stream, aAfter: Stream, bAfter: Stream, numerator: nat) {
    Gives(a.pending, b.pending, aAfter.pending, bAfter.pending, numerator)
  }

  lemma MovesFees(s: Split, numerators: Pair<uint32>)
    requires FitsOne(s)
    requires numerators.zero <= SPLIT_POSITION_DENOMINATOR && numerators.one <= SPLIT_POSITION_DENOMINATOR
    ensures var r := s.MoveFees(numerators);
            && r.Ok? && Exchanged(s, r.value)
            && r.value.first == s.first.(fees := r.value.first.fees)
            && r.value.second == s.second.(fees := r.value.second.fees)
            && GivesPending(s.first.fees.zero, s.second.fees.zero, r.value.first.fees.zero, r.value.second.fees.zero, numerators.zero)
            && GivesPending(s.first.fees.one, s.second.fees.one, r.value.first.fees.one, r.value.second.fees.one, numerators.one)
  {
    PartsAre(s.first.fees.zero.pending, numerators.zero);
    PartsAre(s.first.fees.one.pending, numerators.one);
    hide LiquidityPart, PendingPart;
  }

  lemma MovesReward(s: Split, i: Index, initialized: bool, numerator: uint32)
    requires FitsOne(s) && numerator <= SPLIT_POSITION_DENOMINATOR
    ensures var r := s.MoveReward(i, initialized, numerator);
            && r.Ok? && Exchanged(s, r.value)
            && r.value.first == s.first.(rewards := s.first.rewards.Set(i, r.value.first.rewards.Get(i)))
            && r.value.second == s.second.(rewards := s.second.rewards.Set(i, r.value.second.rewards.Get(i)))
            && GivesPending(s.first.rewards.Get(i), s.second.rewards.Get(i), r.value.first.rewards.Get(i),
                            r.value.second.rewards.Get(i), if initialized then numerator else 0)
  {
    PartsAre(s.first.rewards.Get(i).pending, numerator);
    hide LiquidityPart, PendingPart;
  }

  /** All six holdings move in the parts asked for; rewards of campaigns that were never initialized stay. */
  ghost predicate PartsMoved(a: Split, b: Split, initialized: Pair<bool>, parameters: SplitParameters) {
    && Gives(a.first.unlocked, a.second.unlocked, b.first.unlocked, b.second.unlocked, parameters.unlocked)
    && Gives(a.first.permanent, a.second.permanent, b.first.permanent, b.second.permanent, parameters.permanent)
    && GivesPending(a.first.fees.zero, a.second.fees.zero, b.first.fees.zero, b.second.fees.zero, parameters.fees.zero)
    && GivesPending(a.first.fees.one, a.second.fees.one, b.first.fees.one, b.second.fees.one, parameters.fees.one)
    && GivesPending(a.first.rewards.zero, a.second.rewards.zero, b.first.rewards.zero, b.second.rewards.zero,
                    if initialized.zero then parameters.rewards.zero else 0)
    && GivesPending(a.first.rewards.one, a.second.rewards.one, b.first.rewards.one, b.second.rewards.one,
                    if initialized.one then parameters.rewards.one else 0)
  }

  lemma ExchangesCompose(a: Split, b: Split, c: Split)
    requires Exchanged(a, b) && Exchanged(b, c)
    ensures Exchanged(a, c)
  {
  }

  lemma ExchangedFits(a: Split, b: Split)
    requires Exchanged(a, b) && FitsOne(a)
    ensures FitsOne(b)
  {
  }

  /** After settling, a validated split never fails and only moves things from one position to the other. */
  lemma SplitExchanges(s: Split, stored: Pair<uint256>, initialized: Pair<bool>, parameters: SplitParameters)
    requires parameters.Validate().Pass?
    requires s.first.UpdateFee(stored).Ok? && s.second.UpdateFee(stored).Ok?
    requires FitsOne(Split(s.first.UpdateFee(stored).value, s.second.UpdateFee(stored).value))
    ensures var settled := Split(s.first.UpdateFee(stored).value, s.second.UpdateFee(stored).value);
            var r := s.Apply(stored, initialized, parameters);
            r.Ok? && Exchanged(settled, r.value) && PartsMoved(settled, r.value, initialized, parameters)
  {
    hide PositionView.UpdateFee, Split.MoveUnlocked, Split.MovePermanent, Split.MoveFees, Split.MoveReward, Exchanged, FitsOne,
         Gives, GivesPending;
    var s0 := Split(s.first.UpdateFee(stored).value, s.second.UpdateFee(stored).value);
    MovesUnlocked(s0, parameters.unlocked);
    var s1 := s0.MoveUnlocked(parameters.unlocked).value;
    ExchangedFits(s0, s1);
    MovesPermanent(s1, parameters.permanent);
    var s2 := s1.MovePermanent(parameters.permanent).value;
    ExchangedFits(s1, s2);
    ExchangesCompose(s0, s1, s2);
    MovesFees(s2, parameters.fees);
    var s3 := s2.MoveFees(parameters.fees).value;
    ExchangedFits(s2, s3);
    ExchangesCompose(s0, s2, s3);
    MovesReward(s3, 0, initialized.zero, parameters.rewards.zero);
    var s4 := s3.MoveReward(0, initialized.zero, parameters.rewards.zero).value;
    ExchangedFits(s3, s4);
    ExchangesCompose(s0, s3, s4);
    MovesReward(s4, 1, initialized.one, parameters.rewards.one);
    ExchangesCompose(s0, s4, s4.MoveReward(1, initialized.one, parameters.rewards.one).value);
  }

  // ---------------------------------------------------------------------------------------------
  // The ledger
  // ---------------------------------------------------------------------------------------------

  /** The pending amounts of two positions together are in the vault. */
  lemma PendingsAreBacked(l: Ledger, first: Id, second: Id, a: Account)
    requires Inv(l) && first in l.positions && second in l.positions && first != second
    ensures a.StreamOf(l.positions[first]).pending + a.StreamOf(l.positions[second]).pending <= Balance(l, a)
  {
    hide Inv, Backing, Owed, Account.ClaimOf, Stored, UpToDate, Slack;
    AccountIsBacked(l, a);
    InvSoundBacking(l, a);
    ClaimIsBacked(l, first, a);
    ClaimIsBacked(l, second, a);
    InvUpToDate(l, a);
    TwoClaimsCovered(l.positions, first, second, a, Stored(l.pool, a));
    hide Balance, Account.StreamOf, Account.Scale;
    var p, q, scale := a.StreamOf(l.positions[first]).pending, a.StreamOf(l.positions[second]).pending, a.Scale();
    assert (p + q) * scale == scale * p + scale * q;
    ScaleIsPositive(a);
    CancelFactor(p + q, Balance(l, a), scale);
  }

  lemma ScaleIsPositive(a: Account)
    ensures a.Scale() > 0
  {
  }

  lemma InvSoundBacking(l: Ledger, a: Account)
    requires Inv(l)
    ensures Backing(l, a) <= a.Scale() * Balance(l, a)
  {
    hide Backing, Solvent, LiquidityConserved, VestingsBalanced, Balance, Account.Scale, PoolSound;
    BackingBelowBalance(l, a);
  }

  lemma InvUpToDate(l: Ledger, a: Account)
    requires Inv(l)
    ensures UpToDate(l.positions, a, Stored(l.pool, a))
  {
    hide PoolSound, LiquidityConserved, VestingsBalanced, Slack, Covered, UpToDate, Stored;
    InvConserves(l);
    assert AccountSolvent(l, a);
  }

  lemma BothFit(l: Ledger, first: Id, second: Id)
    requires Inv(l) && first in l.positions && second in l.positions && first != second
    ensures FitsOne(Split(l.positions[first], l.positions[second]))
  {
    hide Inv, Balance;
    InvConserves(l);
    TwoLiquiditiesCovered(l.positions, first, second);
    PendingsAreBacked(l, first, second, Fee(TOKEN_A));
    PendingsAreBacked(l, first, second, Fee(TOKEN_B));
    PendingsAreBacked(l, first, second, Reward(0));
    PendingsAreBacked(l, first, second, Reward(1));
  }

  /** `m` differs from `l` by an exchange between two positions. */
  ghost predicate ExchangesAt(l: Ledger, m: Ledger, first: Id, second: Id) {
    && first in l.positions && second in l.positions && first != second && first in m.positions && second in m.positions
    && m == l.With(first, m.positions[first]).With(second, m.positions[second])
    && Exchanged(Split(l.positions[first], l.positions[second]), Split(m.positions[first], m.positions[second]))
  }

  lemma ExchangedStream(s: Split, t: Split, a: Account)
    requires Exchanged(s, t)
    ensures StreamsExchanged(a.StreamOf(s.first), a.StreamOf(s.second), a.StreamOf(t.first), a.StreamOf(t.second))
  {
    hide StreamsExchanged;
  }

  /** Settled positions that exchange what is pending are together owed what they were owed. */
  lemma ExchangedClaims(s: Split, t: Split, pool: PoolView, a: Account)
    requires Exchanged(s, t) && Settled(s.first, pool, a) && Settled(s.second, pool, a)
    ensures Settled(t.first, pool, a) && Settled(t.second, pool, a)
    ensures a.ClaimOf(t.first, Stored(pool, a)) + a.ClaimOf(t.second, Stored(pool, a))
         == a.ClaimOf(s.first, Stored(pool, a)) + a.ClaimOf(s.second, Stored(pool, a))
  {
    ExchangedStream(s, t, a);
    SettledClaimIs(s.first, pool, a);
    SettledClaimIs(s.second, pool, a);
    SettledClaimIs(t.first, pool, a);
    SettledClaimIs(t.second, pool, a);
    hide Exchanged, Stored, Account.ClaimOf, Account.StreamOf, Account.Scale;
  }

  lemma ExchangedAccount(l: Ledger, m: Ledger, first: Id, second: Id, a: Account)
    requires l.pool.Curve().InRange() && AccountSolvent(l, a) && ExchangesAt(l, m, first, second)
    requires Settled(l.positions[first], l.pool, a) && Settled(l.positions[second], l.pool, a)
    ensures AccountSolvent(m, a)
  {
    hide Backing, Stored, Owed, Account.ClaimOf, Covered, CurveState.InRange, Exchanged, Account.Scale, Account.StreamOf;
    var stored := Stored(l.pool, a);
    ExchangedClaims(Split(l.positions[first], l.positions[second]), Split(m.positions[first], m.positions[second]), l.pool, a);
    var between := l.With(first, m.positions[first]);
    OwedAfter(l.positions, first, m.positions[first], a, stored);
    OwedAfter(between.positions, second, m.positions[second], a, stored);
    SameBacking(l, m, a);
  }

  lemma ExchangeKeeps(l: Ledger, m: Ledger, first: Id, second: Id)
    requires Inv(l) && ExchangesAt(l, m, first, second)
    requires AllSettled(l.positions[first], l.pool) && AllSettled(l.positions[second], l.pool)
    ensures Inv(m)
  {
    hide AccountSolvent, TotalLiquidity, TotalPermanent, OutstandingOf, VestingSound, PoolSound, Settled, StreamsExchanged;
    InvConserves(l);
    var between := l.With(first, m.positions[first]);
    LiquidityAfter(l.positions, first, m.positions[first]);
    LiquidityAfter(between.positions, second, m.positions[second]);
    VestingsKept(l.positions, m.positions, l.vestings, l.Point());
    forall a: Account ensures AccountSolvent(m, a) {
      assert AccountSolvent(l, a) && Settled(l.positions[first], l.pool, a) && Settled(l.positions[second], l.pool, a);
      ExchangedAccount(l, m, first, second, a);
    }
  }

  /** Both positions with their rewards and fees settled. */
  lemma SettleBoth(l: Ledger, first: Id, second: Id)
    requires Inv(l) && first in l.positions && second in l.positions && first != second
    ensures var one := l.SettleReward(first);
            && one.Ok? && second in one.value.positions
            && var both := one.value.SettleReward(second);
            && both.Ok? && first in both.value.positions && second in both.value.positions && both.value.pool == l.pool
            && var p, q := both.value.positions[first].UpdateFee(l.pool.FeePerLiquidity()),
                           both.value.positions[second].UpdateFee(l.pool.FeePerLiquidity());
            && p.Ok? && q.Ok? && both.value.positions[first].vested == l.positions[first].vested
            && var m := both.value.With(first, p.value).With(second, q.value);
            && Inv(m) && AllSettled(p.value, m.pool) && AllSettled(q.value, m.pool)
  {
    hide Inv, Ledger.SettleReward, PositionView.UpdateFee, Settled;
    SettleRewardIs(l, first);
    var one := l.SettleReward(first).value;
    SettleRewardIs(one, second);
    var both := one.SettleReward(second).value;
    SettleFeeIs(both, first);
    var s := both.SettleFee(first).value;
    SettleFeeIs(s, second);
    var p, q := s.positions[first], s.SettleFee(second).value.positions[second];
    SettledWithSameRewards(both.positions[first], p, l.pool);
    SettledWithSameRewards(both.positions[second], q, l.pool);
    assert both.With(first, p).With(second, q) == s.SettleFee(second).value;
  }

  lemma SettledWithSameRewards(p: PositionView, q: PositionView, pool: PoolView)
    requires Settled(p, pool, Reward(0)) && Settled(p, pool, Reward(1)) && p.rewards == q.rewards
    requires Settled(q, pool, Fee(TOKEN_A)) && Settled(q, pool, Fee(TOKEN_B))
    ensures AllSettled(q, pool)
  {
    forall a: Account ensures Settled(q, pool, a) {
      assert a == Fee(TOKEN_A) || a == Fee(TOKEN_B) || a == Reward(0) || a == Reward(1);
    }
  }

  /** The ledger in which a split has settled both positions and moved nothing yet. */
  ghost function SettledPair(l: Ledger, first: Id, second: Id): Result<Ledger>
    requires first in l.positions && second in l.positions
  {
    var accrued :- l.AccrueRewards();
    var one :- accrued.SettleReward(first);
    var both :- one.SettleReward(second);
    var s :- both.SettleFee(first);
    s.SettleFee(second)
  }

  /** `m` differs from `l` in what two positions hold. */
  ghost predicate SplitAt(l: Ledger, m: Ledger, first: Id, second: Id, initialized: Pair<bool>, parameters: SplitParameters) {
    && ExchangesAt(l, m, first, second)
    && AllSettled(l.positions[first], l.pool) && AllSettled(l.positions[second], l.pool)
    && PartsMoved(Split(l.positions[first], l.positions[second]), Split(m.positions[first], m.positions[second]),
                  initialized, parameters)
  }

  ghost function InitializedRewards(pool: PoolView): Pair<bool> {
    Pair(pool.rewards.zero.initialized, pool.rewards.one.initialized)
  }

  /** A validated split settles both positions, moves the parts asked for, and keeps the invariant. */
  lemma SplitMoves(l: Ledger, first: Id, second: Id, parameters: SplitParameters)
    requires Inv(l) && first in l.positions && second in l.positions && first != second
    requires parameters.Validate().Pass? && l.positions[first].vested == 0 && l.AccrueRewards().Ok?
    ensures var s, r := SettledPair(l, first, second), l.SplitPosition(first, second, parameters);
            && s.Ok? && r.Ok? && Inv(s.value) && Inv(r.value)
            && SplitAt(s.value, r.value, first, second, InitializedRewards(l.pool), parameters)
  {
    hide Inv, Ledger.AccrueRewards, Ledger.SettleReward, PositionView.UpdateFee, Split.Apply, AllSettled, Exchanged, FitsOne, PartsMoved,
         SplitParameters.Validate, PoolSound, Accrues;
    InvSoundPool(l);
    AccrueRewardsIs(l);
    var accrued := l.AccrueRewards().value;
    AccrualKeeps(l, accrued);
    SettleBoth(accrued, first, second);
    var both := accrued.SettleReward(first).value.SettleReward(second).value;
    var stored := l.pool.FeePerLiquidity();
    var p, q := both.positions[first].UpdateFee(stored).value, both.positions[second].UpdateFee(stored).value;
    var m := both.With(first, p).With(second, q);
    BothFit(m, first, second);
    SplitExchanges(Split(both.positions[first], both.positions[second]), stored, InitializedRewards(l.pool), parameters);
    var r := l.SplitPosition(first, second, parameters);
    assert SettledPair(l, first, second) == Ok(m);
    assert ExchangesAt(m, r.value, first, second);
    ExchangeKeeps(m, r.value, first, second);
  }

  /** A split goes through exactly when its own checks pass and the rewards accrue; together the two positions then
      hold what they held when settled, in the parts asked for, and nobody else is touched. */
  lemma SplitSucceedsExactly(l: Ledger, first: Id, second: Id, parameters: SplitParameters)
    requires Inv(l)
    ensures var r := l.SplitPosition(first, second, parameters);
            && (r.Ok? <==>
                  && first in l.positions && second in l.positions && first != second
                  && ValidParts(parameters) && l.positions[first].vested == 0 && RewardsFit(l))
            && (r.Ok? ==>
                  && Inv(r.value) && SettledPair(l, first, second).Ok?
                  && SplitAt(SettledPair(l, first, second).value, r.value, first, second, InitializedRewards(l.pool),
                             parameters))
            && Safe(r)
  {
    hide Inv, Ledger.AccrueRewards, Ledger.SettleReward, Split.Apply, SplitAt, SettledPair, SplitParameters.Validate, RewardsFit,
         ValidParts;
    ValidatedParts(parameters);
    if first in l.positions && second in l.positions && first != second && parameters.Validate().Pass?
       && l.positions[first].vested == 0 {
      AccrualErrors(l);
      if l.AccrueRewards().Ok? {
        SplitMoves(l, first, second, parameters);
      }
    }
  }

  lemma AccrualErrors(l: Ledger)
    requires Inv(l)
    ensures l.AccrueRewards().Ok? <==> RewardsFit(l)
    ensures l.AccrueRewards().Err? ==> l.AccrueRewards().error == MathOverflow
  {
    hide Inv, PoolSound, Ledger.AccrueRewards, RewardsFit;
    InvSoundPool(l);
    AccrueRewardsIs(l);
  }

  /** The six parts asked for, in billionths. */
  ghost function Parts(p: SplitParameters): seq<nat> {
    [p.unlocked, p.permanent, p.fees.zero, p.fees.one, p.rewards.zero, p.rewards.one]
  }

  /** No part is more than the whole, and something is asked for. */
  ghost predicate ValidParts(p: SplitParameters) {
    && (forall i :: 0 <= i < |Parts(p)| ==> Parts(p)[i] <= SPLIT_POSITION_DENOMINATOR)
    && exists i :: 0 <= i < |Parts(p)| && Parts(p)[i] > 0
  }

  lemma ValidatedParts(p: SplitParameters)
    ensures p.Validate().Pass? <==> ValidParts(p)
    ensures p.Validate().Fail? ==> p.Validate().error == InvalidSplitPositionParameters
  {
    assert forall i :: 0 <= i < 6 ==> Parts(p)[i] in Parts(p);
    assert Parts(p)[0] == p.unlocked && Parts(p)[1] == p.permanent && Parts(p)[2] == p.fees.zero
        && Parts(p)[3] == p.fees.one && Parts(p)[4] == p.rewards.zero && Parts(p)[5] == p.rewards.one;
  }
}
