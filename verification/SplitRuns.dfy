/** What splitting a position can earn its holder over whole runs: nothing, as long as the position that receives is
    idle, and at most one unit otherwise. */
module SplitRuns {
  import opened Numbers
  import opened Arithmetic
  import opened Curve
  import opened Fees
  import opened Settlement
  import opened Rewards
  import opened Vestings
  import opened Positions
  import opened Pools
  import opened Books
  import opened Ledgers
  import opened Solvency
  import opened Safety
  import opened LockSafety
  import opened SplitSafety
  import opened Earnings

  // ---------------------------------------------------------------------------------------------
  // What a split hands out
  // ---------------------------------------------------------------------------------------------

  /** After settling both positions nobody is owed more than before. */
  lemma PairWithin(l: Ledger, first: Id, second: Id, a: Account, last: nat)
    requires Inv(l) && first in l.positions && second in l.positions && first != second
    requires SettledPair(l, first, second).Ok?
    ensures var s := SettledPair(l, first, second).value;
            && first in s.positions && second in s.positions
            && s.positions[first].Liquidity() == l.positions[first].Liquidity()
            && s.positions[second].Liquidity() == l.positions[second].Liquidity()
            && a.ClaimOf(s.positions[first], last) <= a.ClaimOf(l.positions[first], last)
            && a.ClaimOf(s.positions[second], last) <= a.ClaimOf(l.positions[second], last)
  {
    hide Inv, Account.ClaimOf, Ledger.AccrueRewards, Ledger.SettleReward, Ledger.SettleFee, PoolSound, Accrues, Settled;
    InvSoundPool(l);
    AccrueRewardsIs(l);
    var accrued := l.AccrueRewards().value;
    AccrualKeeps(l, accrued);
    RewardsSettledWithin(accrued, first, a, last);
    SettleRewardIs(accrued, first);
    var one := accrued.SettleReward(first).value;
    RewardsSettledWithin(one, second, a, last);
    SettleRewardIs(one, second);
    var both := one.SettleReward(second).value;
    FeesSettledWithin(both, first, a, last);
    SettleFeeIs(both, first);
    var s := both.SettleFee(first).value;
    FeesSettledWithin(s, second, a, last);
    SettleFeeIs(s, second);
  }

  lemma ExchangedLiquidity(s: Split, t: Split)
    requires Exchanged(s, t)
    ensures t.first.Liquidity() + t.second.Liquidity() == s.first.Liquidity() + s.second.Liquidity()
  {
    hide StreamsExchanged;
  }

  lemma SharedGrowth(growth: int, p: nat, q: nat, r: nat, s: nat)
    requires r + s == p + q
    ensures growth * r + growth * s == growth * p + growth * q
  {
    assert growth * (r + s) == growth * r + growth * s;
    assert growth * (p + q) == growth * p + growth * q;
  }

  /** A split shares out exactly what both positions are owed when settled, whatever the accumulators do later. */
  lemma ExchangeConserves(l: Ledger, m: Ledger, first: Id, second: Id, a: Account, last: nat)
    requires ExchangesAt(l, m, first, second)
    requires AllSettled(l.positions[first], l.pool) && AllSettled(l.positions[second], l.pool)
    ensures a.ClaimOf(m.positions[first], last) + a.ClaimOf(m.positions[second], last)
         == a.ClaimOf(l.positions[first], last) + a.ClaimOf(l.positions[second], last)
  {
    hide Account.ClaimOf, Stored, Settled, Exchanged, PositionView.Liquidity;
    var p, q, r, s := l.positions[first], l.positions[second], m.positions[first], m.positions[second];
    var stored := Stored(l.pool, a);
    assert Settled(p, l.pool, a) && Settled(q, l.pool, a);
    ExchangedClaims(Split(p, q), Split(r, s), l.pool, a);
    ExchangedLiquidity(Split(p, q), Split(r, s));
    ClaimGrows(p, a, stored, last);
    ClaimGrows(q, a, stored, last);
    ClaimGrows(r, a, stored, last);
    ClaimGrows(s, a, stored, last);
    SharedGrowth(last - stored, p.Liquidity(), q.Liquidity(), r.Liquidity(), s.Liquidity());
  }

  lemma IdleOwesNothing(p: PositionView, a: Account, last: nat)
    requires Idle(p)
    ensures a.ClaimOf(p, last) == 0
  {
    assert a.StreamOf(p).pending == 0;
  }

  lemma OwedNothingIsIdle(p: PositionView, a: Account, stored: nat)
    requires a.ClaimOf(p, stored) <= 0 && a.StreamOf(p).checkpoint == stored
    ensures a.StreamOf(p).pending == 0
  {
  }

  /** The claims after a split against those before it. */
  lemma SplitClaims(l: Ledger, first: Id, second: Id, parameters: SplitParameters, a: Account, last: nat)
    requires Inv(l) && l.SplitPosition(first, second, parameters).Ok?
    ensures first in l.positions && second in l.positions && SettledPair(l, first, second).Ok?
    ensures var s, m := SettledPair(l, first, second).value, l.SplitPosition(first, second, parameters).value;
            && Inv(s) && Inv(m) && ExchangesAt(s, m, first, second)
            && a.ClaimOf(m.positions[first], last) + a.ClaimOf(m.positions[second], last)
            == a.ClaimOf(s.positions[first], last) + a.ClaimOf(s.positions[second], last)
            && a.ClaimOf(s.positions[first], last) <= a.ClaimOf(l.positions[first], last)
            && a.ClaimOf(s.positions[second], last) <= a.ClaimOf(l.positions[second], last)
  {
    hide Inv, Ledger.SplitPosition, SettledPair, ExchangesAt, AllSettled, Account.ClaimOf, PartsMoved,
         SplitParameters.Validate, ValidParts, RewardsFit, Ledger.AccrueRewards;
    SplitSucceedsExactly(l, first, second, parameters);
    AccrualErrors(l);
    ValidatedParts(parameters);
    SplitMoves(l, first, second, parameters);
    PairWithin(l, first, second, a, last);
    ExchangeConserves(SettledPair(l, first, second).value, l.SplitPosition(first, second, parameters).value, first, second, a,
                      last);
  }

  /** In every account the two positions divide what the first one held when it was settled, provided the second was
      idle. */
  lemma SplitDivides(l: Ledger, first: Id, second: Id, parameters: SplitParameters, a: Account)
    requires Inv(l) && l.SplitPosition(first, second, parameters).Ok?
    requires second in l.positions && Idle(l.positions[second])
    ensures first in l.positions && SettledPair(l, first, second).Ok?
    ensures var s, m := SettledPair(l, first, second).value, l.SplitPosition(first, second, parameters).value;
            && first in s.positions && first in m.positions && second in m.positions
            && var whole, one, two := s.positions[first], m.positions[first], m.positions[second];
               Divides(a.StreamOf(one), one.Liquidity(), a.StreamOf(two), two.Liquidity(), a.StreamOf(whole), whole.Liquidity())
  {
    hide Inv, Ledger.SplitPosition, SettledPair, Idle;
    SplitSucceedsExactly(l, first, second, parameters);
    var s, m := SettledPair(l, first, second).value, l.SplitPosition(first, second, parameters).value;
    var p, q := s.positions[first], s.positions[second];
    assert Settled(p, s.pool, a) && Settled(q, s.pool, a);
    PairWithin(l, first, second, a, Stored(s.pool, a));
    IdleOwesNothing(l.positions[second], a, Stored(s.pool, a));
    IdleHasNoLiquidity(l.positions[second]);
    OwedNothingIsIdle(q, a, Stored(s.pool, a));
    ExchangedStream(Split(p, q), Split(m.positions[first], m.positions[second]), a);
  }

  lemma IdleHasNoLiquidity(p: PositionView)
    requires Idle(p)
    ensures p.Liquidity() == 0
  {
  }

  // ---------------------------------------------------------------------------------------------
  // Whole runs
  // ---------------------------------------------------------------------------------------------

  /** The liquidity of both positions is left alone. */
  predicate LeaveBothAlone(instructions: seq<Instruction>, first: Id, second: Id) {
    AllLeaveAlone(instructions, first) && AllLeaveAlone(instructions, second)
  }

  ghost function EarnedByBoth(l: Ledger, instructions: seq<Instruction>, first: Id, second: Id, a: Account): int {
    Earned(l, instructions, first, a) + Earned(l, instructions, second, a)
  }

  lemma UnitsOfClaims(parts: int, one: int, two: int, claimOne: int, claimTwo: int, k: nat, j: nat, scale: nat)
    requires scale > 0 && scale * parts <= claimOne + claimTwo
    requires claimOne <= scale * one + (k + 1) * (scale - 1) && claimTwo <= scale * two + (j + 1) * (scale - 1)
    ensures parts <= one + two + k + j + 1
  {
    assert scale * one + scale * two + (k + 1) * (scale - 1) + (j + 1) * (scale - 1)
        == (one + two + k + j + 2) * scale - (k + j + 2);
    CancelFactorStrict(parts, one + two + k + j + 2, scale);
  }

  lemma UnitsOfClaim(parts: int, one: int, claimOne: int, k: nat, scale: nat)
    requires scale > 0 && scale * parts <= claimOne && claimOne <= scale * one + (k + 1) * (scale - 1)
    ensures parts <= one + k
  {
    assert scale * one + (k + 1) * (scale - 1) == (one + k + 1) * scale - (k + 1);
    CancelFactorStrict(parts, one + k + 1, scale);
  }

  /** What both positions earn in a run is at most their claims at its end. */
  lemma BothEarnClaims(l: Ledger, instructions: seq<Instruction>, first: Id, second: Id, a: Account)
    requires Inv(l) && first in l.positions && second in l.positions && LeaveBothAlone(instructions, first, second)
    ensures var last := Stored(Run(l, instructions).pool, a);
            a.Scale() * EarnedByBoth(l, instructions, first, second, a)
            <= a.ClaimOf(l.positions[first], last) + a.ClaimOf(l.positions[second], last)
  {
    hide Inv, Run, Earned, Account.ClaimOf, Stored, AllLeaveAlone, NothingGivenUp, SettlementsOver;
    EarnedIsClaim(l, instructions, first, a);
    EarnedIsClaim(l, instructions, second, a);
    var one, two := Earned(l, instructions, first, a), Earned(l, instructions, second, a);
    assert a.Scale() * (one + two) == a.Scale() * one + a.Scale() * two;
  }

  /** Splitting never pays: compare any run after the split with any run without it that brings the accumulator to the
      same value. Whoever claims when, the two parts are paid and have pending together at most what the whole position
      is paid and has pending - plus one unit for each time the whole is settled before the end, since every settlement
      rounds down. The second position has to be idle before the split. */
  lemma SplittingNeverPays(l: Ledger, first: Id, second: Id, parameters: SplitParameters, split: seq<Instruction>,
                           whole: seq<Instruction>, a: Account)
    requires Inv(l) && l.SplitPosition(first, second, parameters).Ok?
    requires first in l.positions && second in l.positions && Idle(l.positions[second])
    requires LeaveBothAlone(split, first, second) && AllLeaveAlone(whole, first) && NothingGivenUp(whole, first)
    requires Stored(Run(l.SplitPosition(first, second, parameters).value, split).pool, a) == Stored(Run(l, whole).pool, a)
    ensures EarnedByBoth(l.SplitPosition(first, second, parameters).value, split, first, second, a)
         <= Earned(l, whole, first, a) + SettlementsOver(whole, first, a)
  {
    hide Inv, Run, EarnedByBoth, Earned, Account.ClaimOf, Stored, LeaveBothAlone, AllLeaveAlone, NothingGivenUp, SettlementsOver,
         Ledger.SplitPosition, Idle, SettledPair, ExchangesAt;
    var m := l.SplitPosition(first, second, parameters).value;
    var last := Stored(Run(l, whole).pool, a);
    SplitClaims(l, first, second, parameters, a, last);
    assert first in m.positions && second in m.positions by {
      ExchangesHave(SettledPair(l, first, second).value, m, first, second);
    }
    BothEarnClaims(m, split, first, second, a);
    IdleOwesNothing(l.positions[second], a, last);
    EarnedIsClaim(l, whole, first, a);
    UnitsOfClaim(EarnedByBoth(m, split, first, second, a), Earned(l, whole, first, a),
                 a.ClaimOf(l.positions[first], last), SettlementsOver(whole, first, a), a.Scale());
  }

  lemma ExchangesHave(l: Ledger, m: Ledger, first: Id, second: Id)
    requires ExchangesAt(l, m, first, second)
    ensures first in m.positions && second in m.positions && first in l.positions && second in l.positions
  {
  }

  /** If the second position is not idle, what it held may round together with what it receives: then one unit more at
      most, against both positions without the split. */
  lemma MergingGainsOneUnit(l: Ledger, first: Id, second: Id, parameters: SplitParameters, split: seq<Instruction>,
                            apart: seq<Instruction>, a: Account)
    requires Inv(l) && l.SplitPosition(first, second, parameters).Ok?
    requires LeaveBothAlone(split, first, second) && LeaveBothAlone(apart, first, second)
    requires NothingGivenUp(apart, first) && NothingGivenUp(apart, second)
    requires Stored(Run(l.SplitPosition(first, second, parameters).value, split).pool, a) == Stored(Run(l, apart).pool, a)
    ensures EarnedByBoth(l.SplitPosition(first, second, parameters).value, split, first, second, a)
         <= EarnedByBoth(l, apart, first, second, a)
          + SettlementsOver(apart, first, a) + SettlementsOver(apart, second, a) + 1
  {
    hide Inv, Run, Earned, Account.ClaimOf, Stored, AllLeaveAlone, NothingGivenUp, SettlementsOver,
         Ledger.SplitPosition, SettledPair, ExchangesAt;
    var m := l.SplitPosition(first, second, parameters).value;
    var last := Stored(Run(l, apart).pool, a);
    SplitClaims(l, first, second, parameters, a, last);
    assert first in m.positions && second in m.positions by {
      ExchangesHave(SettledPair(l, first, second).value, m, first, second);
    }
    BothEarnClaims(m, split, first, second, a);
    EarnedIsClaim(l, apart, first, a);
    EarnedIsClaim(l, apart, second, a);
    UnitsOfClaims(EarnedByBoth(m, split, first, second, a), Earned(l, apart, first, a), Earned(l, apart, second, a),
                  a.ClaimOf(l.positions[first], last), a.ClaimOf(l.positions[second], last),
                  SettlementsOver(apart, first, a), SettlementsOver(apart, second, a), a.Scale());
  }

  // ---------------------------------------------------------------------------------------------
  // What others do does not depend on how two positions share their holdings
  // ---------------------------------------------------------------------------------------------

  /** The two ledgers differ at most in what `first` and `second` hold. */
  ghost predicate SameElsewhere(l: Ledger, m: Ledger, first: Id, second: Id) {
    && m.clock == l.clock && m.pool == l.pool && m.vestings == l.vestings
    && m.vaults == l.vaults && m.rewardVaults == l.rewardVaults
    && m.positions.Keys == l.positions.Keys
    && forall k :: k in l.positions && k != first && k != second ==> k in m.positions && m.positions[k] == l.positions[k]
  }

  /** The same outcome, or ledgers that again differ at most there. */
  ghost predicate SameOutcome(r: Result<Ledger>, t: Result<Ledger>, first: Id, second: Id) {
    if r.Ok? then t.Ok? && SameElsewhere(r.value, t.value, first, second) else t == r
  }

  lemma SameRewards(l: Ledger, m: Ledger, k: Id, first: Id, second: Id)
    requires SameElsewhere(l, m, first, second) && k in l.positions && k != first && k != second
    ensures k in m.positions && SameOutcome(l.UpdateRewards(k), m.UpdateRewards(k), first, second)
    ensures l.UpdateRewards(k).Ok? ==> k in l.UpdateRewards(k).value.positions
  {
    hide PoolView.UpdateRewards, PositionView.UpdatePositionReward;
  }

  lemma SameDeposit(l: Ledger, m: Ledger, k: Id, added: uint128, max: Pair<uint64>, first: Id, second: Id)
    requires SameElsewhere(l, m, first, second) && k != first && k != second
    ensures SameOutcome(l.AddLiquidity(k, added, max), m.AddLiquidity(k, added, max), first, second)
  {
    hide Ledger.UpdateRewards, CurveState.Amounts, PositionView.UpdateFee;
    if k in l.positions {
      SameRewards(l, m, k, first, second);
    }
  }

  lemma SameWithdrawal(l: Ledger, m: Ledger, k: Id, removed: Option<uint128>, min: Pair<uint64>, first: Id, second: Id)
    requires SameElsewhere(l, m, first, second) && k != first && k != second
    ensures SameOutcome(l.RemoveLiquidity(k, removed, min), m.RemoveLiquidity(k, removed, min), first, second)
  {
    hide Ledger.UpdateRewards, CurveState.Amounts, PositionView.UpdateFee;
    if k in l.positions {
      SameRewards(l, m, k, first, second);
    }
  }

  lemma SameFeeClaim(l: Ledger, m: Ledger, k: Id, first: Id, second: Id)
    requires SameElsewhere(l, m, first, second) && k != first && k != second
    ensures SameOutcome(l.ClaimPositionFee(k), m.ClaimPositionFee(k), first, second)
  {
    hide PositionView.UpdateFee;
  }

  lemma SameRewardClaim(l: Ledger, m: Ledger, k: Id, i: Index, frozen: bool, skip: bool, first: Id, second: Id)
    requires SameElsewhere(l, m, first, second) && k != first && k != second
    ensures SameOutcome(l.ClaimReward(k, i, frozen, skip), m.ClaimReward(k, i, frozen, skip), first, second)
  {
    hide Ledger.UpdateRewards, PositionView.ClaimReward;
    if k in l.positions {
      SameRewards(l, m, k, first, second);
    }
  }

  lemma SameSplit(l: Ledger, m: Ledger, one: Id, two: Id, parameters: SplitParameters, first: Id, second: Id)
    requires SameElsewhere(l, m, first, second) && {one, two} !! {first, second}
    ensures SameOutcome(l.SplitPosition(one, two, parameters), m.SplitPosition(one, two, parameters), first, second)
  {
    hide PoolView.UpdateRewards, PositionView.UpdatePositionReward, Split.Apply, SplitParameters.Validate;
  }

  lemma {:induction false} SameRefresh(l: Ledger, m: Ledger, k: Id, vestingIds: seq<Id>, first: Id, second: Id)
    requires SameElsewhere(l, m, first, second) && k in l.positions && k in m.positions && k != first && k != second
    ensures SameOutcome(l.RefreshAll(k, vestingIds), m.RefreshAll(k, vestingIds), first, second)
    decreases |vestingIds|
  {
    hide VestingView.Release, VestingView.Done, VestingView.NewReleaseLiquidity, PositionView.ReleaseVestedLiquidity;
    if vestingIds != [] && l.RefreshOne(k, vestingIds[0]).Ok? {
      SameRefresh(l.RefreshOne(k, vestingIds[0]).value, m.RefreshOne(k, vestingIds[0]).value, k, vestingIds[1..], first, second);
    }
  }

  lemma SamePayment(l: Ledger, m: Ledger, received: uint64, result: SwapResult, direction: TradeDirection, mode: FeeMode,
                    first: Id, second: Id)
    requires SameElsewhere(l, m, first, second)
    ensures SameOutcome(l.MoveSwap(received, result, direction, mode), m.MoveSwap(received, result, direction, mode),
                        first, second)
  {
    hide Pair.Get, Pair.Set, InputToken, FeeMode.FeeToken;
  }

  lemma SameSwap(l: Ledger, m: Ledger, received: uint64, minimumOut: uint64, direction: TradeDirection, hasReferral: bool,
                 first: Id, second: Id)
    requires SameElsewhere(l, m, first, second)
    ensures SameOutcome(l.Swap(received, minimumOut, direction, hasReferral),
                        m.Swap(received, minimumOut, direction, hasReferral), first, second)
  {
    hide PoolView.UpdatePreSwap, PoolView.GetSwapResult, PoolView.ApplySwapResult, GetFeeMode, Ledger.MoveSwap;
    var mode := GetFeeMode(l.pool.config.collectFeeMode, direction, hasReferral);
    var referenced := l.pool.UpdatePreSwap(l.Now());
    if referenced.Ok? {
      var result := referenced.value.GetSwapResult(received, mode, direction, l.Point());
      if result.Ok? {
        var swapped := referenced.value.ApplySwapResult(result.value, mode, l.Now());
        if swapped.Ok? {
          SamePayment(l.(pool := swapped.value), m.(pool := swapped.value), received, result.value, direction, mode, first, second);
        }
      }
    }
  }

  lemma SameLocks(l: Ledger, m: Ledger, instruction: Instruction, first: Id, second: Id)
    requires SameElsewhere(l, m, first, second) && !Names(instruction, first) && !Names(instruction, second)
    requires instruction.LockPosition? || instruction.PermanentLockPosition? || instruction.RefreshVesting?
    ensures SameOutcome(Execute(l, instruction), Execute(m, instruction), first, second)
  {
    hide Ledger.RefreshAll, VestingParameters.Validate, PositionView.Lock, PositionView.PermanentLockLiquidity;
    if instruction.RefreshVesting? && instruction.id in l.positions {
      SameRefresh(l, m, instruction.id, instruction.vestingIds, first, second);
    }
  }

  lemma SameBookedClaims(l: Ledger, m: Ledger, max: Pair<uint64>, first: Id, second: Id)
    requires SameElsewhere(l, m, first, second)
    ensures SameOutcome(l.ClaimProtocolFee(max), m.ClaimProtocolFee(max), first, second)
    ensures SameOutcome(l.ClaimPartnerFee(max), m.ClaimPartnerFee(max), first, second)
  {
    hide PoolView.ClaimProtocolFee, PoolView.ClaimPartnerFee, PoolView.ClaimableProtocol, PoolView.ClaimablePartner;
  }

  lemma SameCampaigns(l: Ledger, m: Ledger, i: Index, duration: uint64, first: Id, second: Id)
    requires SameElsewhere(l, m, first, second)
    ensures SameOutcome(l.InitializeReward(i, duration), m.InitializeReward(i, duration), first, second)
    ensures SameOutcome(l.UpdateRewardDuration(i, duration), m.UpdateRewardDuration(i, duration), first, second)
  {
    hide Pair.Get, Pair.Set;
  }

  lemma SameFunding(l: Ledger, m: Ledger, i: Index, received: uint64, carryForward: bool, first: Id, second: Id)
    requires SameElsewhere(l, m, first, second)
    ensures SameOutcome(l.FundReward(i, received, carryForward), m.FundReward(i, received, carryForward), first, second)
  {
    hide RewardView.Fund, PoolView.UpdateRewards;
  }

  lemma SameIneligible(l: Ledger, m: Ledger, i: Index, first: Id, second: Id)
    requires SameElsewhere(l, m, first, second)
    ensures SameOutcome(l.WithdrawIneligibleReward(i), m.WithdrawIneligibleReward(i), first, second)
  {
    hide RewardView.IneligibleReward, PoolView.UpdateRewards;
  }

  lemma SameAccounts(l: Ledger, m: Ledger, instruction: Instruction, first: Id, second: Id)
    requires SameElsewhere(l, m, first, second) && !Names(instruction, first) && !Names(instruction, second)
    requires instruction.CreatePosition? || instruction.ClosePosition? || instruction.Elapse?
    ensures SameOutcome(Execute(l, instruction), Execute(m, instruction), first, second)
  {
    hide PositionView.IsEmpty, Clock.Elapse;
  }

  /** Instructions that name neither position come out the same. */
  lemma SameElse(l: Ledger, m: Ledger, instruction: Instruction, first: Id, second: Id)
    requires SameElsewhere(l, m, first, second) && !Names(instruction, first) && !Names(instruction, second)
    ensures SameOutcome(Execute(l, instruction), Execute(m, instruction), first, second)
  {
    hide Ledger.AddLiquidity, Ledger.RemoveLiquidity, Ledger.Swap, Ledger.ClaimPositionFee, Ledger.ClaimReward,
         Ledger.SplitPosition, Ledger.ClaimProtocolFee, Ledger.ClaimPartnerFee, Ledger.InitializeReward,
         Ledger.UpdateRewardDuration, Ledger.FundReward, Ledger.WithdrawIneligibleReward, SameOutcome;
    match instruction
    case AddLiquidity(k, added, max) => SameDeposit(l, m, k, added, max, first, second);
    case RemoveLiquidity(k, removed, min) => SameWithdrawal(l, m, k, removed, min, first, second);
    case Swap(received, minimumOut, direction, hasReferral) =>
      SameSwap(l, m, received, minimumOut, direction, hasReferral, first, second);
    case ClaimPositionFee(k) => SameFeeClaim(l, m, k, first, second);
    case ClaimReward(k, i, frozen, skip) => SameRewardClaim(l, m, k, i, frozen, skip, first, second);
    case SplitPosition(one, two, parameters) => SameSplit(l, m, one, two, parameters, first, second);
    case ClaimProtocolFee(max) => SameBookedClaims(l, m, max, first, second);
    case ClaimPartnerFee(max) => SameBookedClaims(l, m, max, first, second);
    case InitializeReward(i, duration) => SameCampaigns(l, m, i, duration, first, second);
    case UpdateRewardDuration(i, duration) => SameCampaigns(l, m, i, duration, first, second);
    case FundReward(i, received, carryForward) => SameFunding(l, m, i, received, carryForward, first, second);
    case WithdrawIneligibleReward(i) => SameIneligible(l, m, i, first, second);
    case _ =>
      hide Execute;
      if instruction.CreatePosition? || instruction.ClosePosition? || instruction.Elapse? {
        SameAccounts(l, m, instruction, first, second);
      } else {
        SameLocks(l, m, instruction, first, second);
      }
  }

  /** Instructions that name neither position have the same effect in both ledgers. */
  lemma {:induction false} RunElsewhere(l: Ledger, m: Ledger, instructions: seq<Instruction>, first: Id, second: Id)
    requires SameElsewhere(l, m, first, second) && NoneNames(instructions, first) && NoneNames(instructions, second)
    ensures SameElsewhere(Run(l, instructions), Run(m, instructions), first, second)
    decreases |instructions|
  {
    hide SameElsewhere, Execute, Names;
    if instructions != [] {
      assert !Names(instructions[0], first) && !Names(instructions[0], second);
      SameElse(l, m, instructions[0], first, second);
      RunElsewhere(Transact(l, instructions[0]), Transact(m, instructions[0]), instructions[1..], first, second);
    }
  }

  lemma ExchangeIsElsewhere(l: Ledger, m: Ledger, first: Id, second: Id)
    requires ExchangesAt(l, m, first, second)
    ensures SameElsewhere(l, m, first, second)
  {
    hide Exchanged;
  }

  lemma OthersLeaveAlone(instructions: seq<Instruction>, id: Id)
    requires NoneNames(instructions, id)
    ensures AllLeaveAlone(instructions, id) && NothingGivenUp(instructions, id)
    ensures forall a: Account :: SettlementsOver(instructions, id, a) == 0
  {
    forall a: Account ensures SettlementsOver(instructions, id, a) == 0 {
      NoSettlements(instructions, id, a);
    }
  }

  lemma {:induction false} NoSettlements(instructions: seq<Instruction>, id: Id, a: Account)
    requires NoneNames(instructions, id)
    ensures SettlementsOver(instructions, id, a) == 0
  {
    hide Names;
    if instructions != [] {
      assert !Names(instructions[0], id);
      NoSettlements(instructions[1..], id, a);
    }
  }

  /** The same run with and without the split: whatever everybody else does, a holder who splits a settled position with
      an idle one and waits earns in each account, with both positions together, at most what the whole position earns by
      waiting. Everybody else ends up with the same in both runs. */
  lemma WaitingPaysTheWhole(l: Ledger, first: Id, second: Id, parameters: SplitParameters, instructions: seq<Instruction>,
                            a: Account)
    requires Inv(l) && l.SplitPosition(first, second, parameters).Ok?
    requires second in l.positions && Idle(l.positions[second])
    requires NoneNames(instructions, first) && NoneNames(instructions, second)
    ensures first in l.positions && SettledPair(l, first, second).Ok?
    ensures var s, m := SettledPair(l, first, second).value, l.SplitPosition(first, second, parameters).value;
            && SameElsewhere(Run(s, instructions), Run(m, instructions), first, second)
            && EarnedByBoth(m, instructions, first, second, a) <= Earned(s, instructions, first, a)
  {
    hide Inv, Run, EarnedByBoth, Earned, Account.ClaimOf, AllLeaveAlone, NothingGivenUp, SettlementsOver,
         Ledger.SplitPosition, Idle, SettledPair, ExchangesAt, NoneNames;
    var last0 := 0;
    SplitClaims(l, first, second, parameters, a, last0);
    var s, m := SettledPair(l, first, second).value, l.SplitPosition(first, second, parameters).value;
    ExchangeIsElsewhere(s, m, first, second);
    RunElsewhere(s, m, instructions, first, second);
    var last := Stored(Run(s, instructions).pool, a);
    assert last == Stored(Run(m, instructions).pool, a);
    hide Stored, SameElsewhere;
    SplitClaims(l, first, second, parameters, a, last);
    ExchangesHave(s, m, first, second);
    OthersLeaveAlone(instructions, first);
    OthersLeaveAlone(instructions, second);
    BothEarnClaims(m, instructions, first, second, a);
    IdleOwesNothing(l.positions[second], a, last);
    EarnedIsClaim(s, instructions, first, a);
    assert SettlementsOver(instructions, first, a) == 0;
    UnitsOfClaim(EarnedByBoth(m, instructions, first, second, a), Earned(s, instructions, first, a),
                 a.ClaimOf(s.positions[first], last), 0, a.Scale());
  }

  // ---------------------------------------------------------------------------------------------
  // Why the conditions are there
  // ---------------------------------------------------------------------------------------------

  /** The growth of a fee accumulator that gives each unit of liquidity half a unit of the token. */
  const HALF: uint256 := 0x8000_0000_0000_0000_0000_0000_0000_0000

  /** A position without pending fees takes up what its streams settle to. */
  lemma FirstFees(p: PositionView, liquidity: uint128, stored: Pair<uint256>, t: Stream, u: Stream)
    requires p == NO_POSITION.(unlocked := liquidity) && liquidity > 0
    requires NO_STREAM.Settle(liquidity, stored.zero, Q128) == Ok(t) && NO_STREAM.Settle(liquidity, stored.one, Q128) == Ok(u)
    ensures p.UpdateFee(stored) == Ok(p.(fees := Pair(t, u)))
  {
    hide Stream.Settle;
  }

  lemma UnitsEarn()
    ensures NO_STREAM.Settle(1, 0, Q128) == NO_STREAM.Settle(2, 0, Q128) == Ok(NO_STREAM)
    ensures NO_STREAM.Settle(1, HALF, Q128) == Ok(Stream(0, HALF, 0))
    ensures NO_STREAM.Settle(2, HALF, Q128) == Ok(Stream(1, HALF, 0))
  {
    FloorIs(0, Q128, 0);
    FloorIs(HALF, Q128, 0);
    FloorIs(2 * HALF, Q128, 1);
  }

  lemma UnitsSettle()
    ensures var one, two := NO_POSITION.(unlocked := 1), NO_POSITION.(unlocked := 2);
            && one.UpdateFee(Pair(0, 0)) == Ok(one)
            && one.UpdateFee(Pair(HALF, 0)) == Ok(one.(fees := Pair(Stream(0, HALF, 0), NO_STREAM)))
            && two.UpdateFee(Pair(HALF, 0)) == Ok(two.(fees := Pair(Stream(1, HALF, 0), NO_STREAM)))
  {
    hide Stream.Settle, PositionView.UpdateFee;
    UnitsEarn();
    var one, two := NO_POSITION.(unlocked := 1), NO_POSITION.(unlocked := 2);
    FirstFees(one, 1, Pair(0, 0), NO_STREAM, NO_STREAM);
    FirstFees(one, 1, Pair(HALF, 0), Stream(0, HALF, 0), NO_STREAM);
    FirstFees(two, 2, Pair(HALF, 0), Stream(1, HALF, 0), NO_STREAM);
  }

  lemma UnitMoves()
    ensures var one, two := NO_POSITION.(unlocked := 1), NO_POSITION.(unlocked := 2);
            Split(one, one).MoveUnlocked(SPLIT_POSITION_DENOMINATOR) == Ok(Split(NO_POSITION, two))
  {
    assert LiquidityPart(1, SPLIT_POSITION_DENOMINATOR) == Ok(1);
    hide LiquidityPart;
  }

  lemma NothingMoves(s: Split)
    ensures s.MovePermanent(0) == s.MoveFees(Pair(0, 0)) == s.MoveReward(0, false, 0) == s.MoveReward(1, false, 0) == Ok(s)
  {
    hide LiquidityPart, PendingPart;
  }

  /** Two positions of one unit of liquidity each earn nothing apart; moved into one they earn a unit. So the position
      that receives has to be idle for a split never to pay. */
  lemma MergingCanGain()
    ensures var one, two := NO_POSITION.(unlocked := 1), NO_POSITION.(unlocked := 2);
            var all := SplitParameters(SPLIT_POSITION_DENOMINATOR, 0, Pair(0, 0), Pair(0, 0));
            && Split(one, one).Apply(Pair(0, 0), Pair(false, false), all) == Ok(Split(NO_POSITION, two))
            && one.UpdateFee(Pair(HALF, 0)) == Ok(one.(fees := Pair(Stream(0, HALF, 0), NO_STREAM)))
            && two.UpdateFee(Pair(HALF, 0)) == Ok(two.(fees := Pair(Stream(1, HALF, 0), NO_STREAM)))
  {
    hide PositionView.UpdateFee, Split.MoveUnlocked, Split.MovePermanent, Split.MoveFees, Split.MoveReward;
    UnitsSettle();
    UnitMoves();
    NothingMoves(Split(NO_POSITION, NO_POSITION.(unlocked := 2)));
  }

  /** A whole of two units of liquidity that is settled at each of three equal steps of the accumulator earns nothing;
      its halves, settled once at the end, earn a unit each. So each settlement of the whole has to be counted. */
  lemma EagerWholeCanFallBehind()
    ensures var step: uint256 := 0x6000_0000_0000_0000_0000_0000_0000_0000;
            && Divides(NO_STREAM, 1, NO_STREAM, 1, NO_STREAM, 2)
            && NO_STREAM.Settle(1, 3 * step, Q128) == Ok(Stream(1, 3 * step, 0))
            && SettleAll(NO_STREAM, 2, [step, 2 * step, 3 * step], Q128) == Ok(Stream(0, 3 * step, 0))
  {
    var step: uint256 := 0x6000_0000_0000_0000_0000_0000_0000_0000;
    var storeds: seq<uint256> := [step, 2 * step, 3 * step];
    assert storeds[1..] == [2 * step, 3 * step] && storeds[2..] == [3 * step] && storeds[3..] == [];
    assert storeds[1..][1..] == storeds[2..] && storeds[2..][1..] == storeds[3..];
    assert NO_STREAM.Settle(1, 3 * step, Q128) == Ok(Stream(1, 3 * step, 0));
    assert NO_STREAM.Settle(2, step, Q128) == Ok(Stream(0, step, 0));
    assert Stream(0, step, 0).Settle(2, 2 * step, Q128) == Ok(Stream(0, 2 * step, 0));
    assert Stream(0, 2 * step, 0).Settle(2, 3 * step, Q128) == Ok(Stream(0, 3 * step, 0));
    hide Stream.Settle;
    assert SettleAll(Stream(0, 3 * step, 0), 2, storeds[3..], Q128) == Ok(Stream(0, 3 * step, 0));
    assert SettleAll(Stream(0, 2 * step, 0), 2, storeds[2..], Q128) == Ok(Stream(0, 3 * step, 0));
    assert SettleAll(Stream(0, step, 0), 2, storeds[1..], Q128) == Ok(Stream(0, 3 * step, 0));
  }
}
