/** What a run earns the holder of a position: every payout and what is pending when the position is settled at the
    end. As long as its liquidity is left alone, that is liquidity times growth, less than one unit short for each
    settlement. */
module Earnings {
  import opened Numbers
  import opened Curve
  import opened Fees
  import opened Settlement
  import opened Rewards
  import opened Vestings
  import opened Positions
  import opened Pools
  import opened Books
  import opened Ledgers
  import opened Solvency
  import opened Safety
  import opened ClaimSafety
  import opened LockSafety
  import opened Runs

  // ---------------------------------------------------------------------------------------------
  // Instructions and a position
  // ---------------------------------------------------------------------------------------------

  /** The instruction works on the position. */
  predicate Names(instruction: Instruction, id: Id) {
    match instruction
    case CreatePosition(k) => k == id
    case ClosePosition(k) => k == id
    case AddLiquidity(k, _, _) => k == id
    case RemoveLiquidity(k, _, _) => k == id
    case ClaimPositionFee(k) => k == id
    case LockPosition(k, _, _) => k == id
    case RefreshVesting(k, _) => k == id
    case PermanentLockPosition(k, _) => k == id
    case SplitPosition(first, second, _) => first == id || second == id
    case ClaimReward(k, _, _, _) => k == id
    case _ => false
  }

  /** The instruction adds no liquidity to the position and takes none out; claims and locks do neither. */
  predicate LeavesAlone(instruction: Instruction, id: Id) {
    !Names(instruction, id) || instruction.CreatePosition? || instruction.ClaimPositionFee? || instruction.LockPosition?
    || instruction.RefreshVesting? || instruction.PermanentLockPosition? || instruction.ClaimReward?
  }

  predicate AllLeaveAlone(instructions: seq<Instruction>, id: Id) {
    forall i :: 0 <= i < |instructions| ==> LeavesAlone(instructions[i], id)
  }

  predicate NoneNames(instructions: seq<Instruction>, id: Id) {
    forall i :: 0 <= i < |instructions| ==> !Names(instructions[i], id)
  }

  /** The holder gives up what is pending in a frozen vault. */
  predicate GivesUp(instruction: Instruction, id: Id) {
    instruction.ClaimReward? && Names(instruction, id) && instruction.frozen && instruction.skip
  }

  predicate NothingGivenUp(instructions: seq<Instruction>, id: Id) {
    forall i :: 0 <= i < |instructions| ==> !GivesUp(instructions[i], id)
  }

  /** How often the account of the position is settled. */
  function Settlements(instruction: Instruction, id: Id, a: Account): nat {
    if Names(instruction, id) && (if a.Fee? then instruction.ClaimPositionFee? else instruction.ClaimReward?) then 1 else 0
  }

  function SettlementsOver(instructions: seq<Instruction>, id: Id, a: Account): nat {
    if instructions == [] then 0
    else Settlements(instructions[0], id, a) + SettlementsOver(instructions[1..], id, a)
  }

  /** What leaves the vault of the account when the holder claims. */
  ghost function Paid(l: Ledger, instruction: Instruction, id: Id, a: Account): int {
    var m := Transact(l, instruction);
    match instruction
    case ClaimPositionFee(k) => if k == id && a.Fee? then Balance(l, a) - Balance(m, a) else 0
    case ClaimReward(k, i, _, _) => if k == id && a == Reward(i) then Balance(l, a) - Balance(m, a) else 0
    case _ => 0
  }

  ghost function PaidOver(l: Ledger, instructions: seq<Instruction>, id: Id, a: Account): int
    decreases |instructions|
  {
    if instructions == [] then 0
    else Paid(l, instructions[0], id, a) + PaidOver(Transact(l, instructions[0]), instructions[1..], id, a)
  }

  ghost function SettledFor(l: Ledger, id: Id, a: Account): Result<Ledger>
    requires id in l.positions
  {
    if a.Fee? then l.SettleFee(id) else l.SettleReward(id)
  }

  /** What is pending once the position is settled. */
  ghost function Due(l: Ledger, id: Id, a: Account): int
    requires id in l.positions
  {
    var settled := SettledFor(l, id, a);
    if settled.Ok? && id in settled.value.positions then a.StreamOf(settled.value.positions[id]).pending else 0
  }

  /** All that a run pays the holder, and what is due at its end. */
  ghost function Earned(l: Ledger, instructions: seq<Instruction>, id: Id, a: Account): int {
    var m := Run(l, instructions);
    PaidOver(l, instructions, id, a) + if id in m.positions then Due(m, id, a) else 0
  }

  // ---------------------------------------------------------------------------------------------
  // Settlement and claims
  // ---------------------------------------------------------------------------------------------

  /** The same liquidity, and a claim that is no greater and less than one unit smaller, wherever the accumulator ends. */
  ghost predicate WithinOneUnit(p: PositionView, q: PositionView, a: Account, last: nat) {
    && p.Liquidity() == q.Liquidity()
    && a.ClaimOf(q, last) <= a.ClaimOf(p, last) < a.ClaimOf(q, last) + a.Scale()
  }

  lemma KeptIsWithin(p: PositionView, q: PositionView, pool: PoolView, a: Account, last: nat)
    requires SameHoldings(p, q) && AccountKept(p, q, pool, a)
    ensures WithinOneUnit(p, q, a, last)
  {
    hide Account.ClaimOf, Account.Scale, Account.StreamOf, Stored;
    ClaimGrows(p, a, Stored(pool, a), last);
    ClaimGrows(q, a, Stored(pool, a), last);
  }

  lemma SameClaimIsWithin(p: PositionView, q: PositionView, a: Account, last: nat)
    requires p.Liquidity() == q.Liquidity() && a.StreamOf(p) == a.StreamOf(q)
    ensures a.ClaimOf(p, last) == a.ClaimOf(q, last) && WithinOneUnit(p, q, a, last)
  {
    SameClaim(p, q, a, last);
  }

  lemma FeesSettledWithin(l: Ledger, id: Id, a: Account, last: nat)
    requires Inv(l) && id in l.positions
    ensures var r := l.SettleFee(id);
            r.Ok? && id in r.value.positions && WithinOneUnit(l.positions[id], r.value.positions[id], a, last)
  {
    hide Inv, AccountKept, WithinOneUnit, PositionView.UpdateFee, Settled;
    FeesSettle(l, id);
    var q := l.SettleFee(id).value.positions[id];
    assert AccountKept(l.positions[id], q, l.pool, a);
    KeptIsWithin(l.positions[id], q, l.pool, a, last);
  }

  lemma RewardsSettledWithin(l: Ledger, id: Id, a: Account, last: nat)
    requires Inv(l) && id in l.positions
    ensures var r := l.SettleReward(id);
            r.Ok? && id in r.value.positions && WithinOneUnit(l.positions[id], r.value.positions[id], a, last)
  {
    hide Inv, AccountKept, PositionView.UpdateReward, Settled, Account.ClaimOf;
    var p := l.positions[id];
    LiquidityFits(l, id);
    RewardSettles(l, id, 0);
    var first := p.UpdateReward(0, p.Liquidity(), l.pool.rewards.zero).value;
    ReplaceKeeps(l, id, first);
    RewardSettles(l.With(id, first), id, 1);
    var second := first.UpdateReward(1, p.Liquidity(), l.pool.rewards.one).value;
    assert AccountKept(p, first, l.pool, a) && AccountKept(first, second, l.pool, a);
    KeptIsWithin(p, first, l.pool, a, last);
    KeptIsWithin(first, second, l.pool, a, last);
    if a == Reward(1) {
      SameClaimIsWithin(p, first, a, last);
    } else {
      SameClaimIsWithin(first, second, a, last);
    }
  }

  lemma UpdateRewardsWithin(l: Ledger, id: Id, a: Account, last: nat)
    requires Inv(l) && id in l.positions
    ensures var r := l.UpdateRewards(id);
            r.Ok? ==>
              && Inv(r.value) && id in r.value.positions
              && WithinOneUnit(l.positions[id], r.value.positions[id], a, last)
              && (a.Fee? ==> a.ClaimOf(r.value.positions[id], last) == a.ClaimOf(l.positions[id], last))
              && r.value.vaults == l.vaults && r.value.rewardVaults == l.rewardVaults
  {
    hide Inv, Ledger.AccrueRewards, Ledger.SettleReward, Settled, RewardView.Sound, RewardView.Reserved, WithinOneUnit, PoolSound;
    UpdateRewardsIs(l, id);
    if l.UpdateRewards(id).Ok? {
      var r := l.UpdateRewards(id).value;
      if a.Fee? {
        SameClaimIsWithin(l.positions[id], r.positions[id], a, last);
      } else if l.pool.RewardInitialized() {
        InvSoundPool(l);
        AccrueRewardsIs(l);
        AccrualKeeps(l, l.AccrueRewards().value);
        RewardsSettledWithin(l.AccrueRewards().value, id, a, last);
      } else {
        SameClaimIsWithin(l.positions[id], r.positions[id], a, last);
      }
    }
  }

  /** What is due is the claim, rounded down. */
  lemma DueIsClaim(l: Ledger, id: Id, a: Account)
    requires Inv(l) && id in l.positions
    ensures var claim := a.ClaimOf(l.positions[id], Stored(l.pool, a));
            a.Scale() * Due(l, id, a) <= claim < a.Scale() * Due(l, id, a) + a.Scale()
  {
    hide Inv, Account.ClaimOf, Stored, Ledger.SettleFee, Ledger.SettleReward;
    var last := Stored(l.pool, a);
    if a.Fee? {
      FeesSettledWithin(l, id, a, last);
      SettleFeeIs(l, id);
    } else {
      RewardsSettledWithin(l, id, a, last);
      SettleRewardIs(l, id);
    }
    SettledClaimIs(SettledFor(l, id, a).value.positions[id], l.pool, a);
  }

  // ---------------------------------------------------------------------------------------------
  // One instruction
  // ---------------------------------------------------------------------------------------------

  /** From `p` to `q` the holder is paid `paid` units: never more than the claim drops, and less by less than one unit
      for each of `settled` settlements unless something is given up. */
  ghost predicate Earns(p: PositionView, q: PositionView, a: Account, last: nat, paid: int, settled: nat, givenUp: bool) {
    && paid >= 0 && p.Liquidity() == q.Liquidity()
    && a.Scale() * paid + a.ClaimOf(q, last) <= a.ClaimOf(p, last)
    && (!givenUp ==> a.ClaimOf(p, last) <= a.Scale() * paid + a.ClaimOf(q, last) + settled * (a.Scale() - 1))
  }

  lemma NothingEarned(p: PositionView, q: PositionView, a: Account, last: nat, settled: nat, givenUp: bool)
    requires p.Liquidity() == q.Liquidity() && a.StreamOf(p) == a.StreamOf(q)
    ensures Earns(p, q, a, last, 0, settled, givenUp)
  {
    SameClaim(p, q, a, last);
    hide Account.ClaimOf;
    assert settled * (a.Scale() - 1) >= 0;
  }

  lemma {:induction false} RefreshKeepsStreams(l: Ledger, id: Id, vestingIds: seq<Id>)
    requires Inv(l) && id in l.positions && l.RefreshAll(id, vestingIds).Ok?
    ensures var m := l.RefreshAll(id, vestingIds).value;
            && id in m.positions && m.positions[id].Liquidity() == l.positions[id].Liquidity()
            && m.positions[id].fees == l.positions[id].fees && m.positions[id].rewards == l.positions[id].rewards
    decreases |vestingIds|
  {
    hide Inv, Ledger.RefreshOne, VestingView.EndPoint, PositionView.Liquidity;
    if vestingIds != [] {
      RefreshOneIs(l, id, vestingIds[0]);
      RefreshKeepsStreams(l.RefreshOne(id, vestingIds[0]).value, id, vestingIds[1..]);
    }
  }

  /** Locks and refreshes of the position move liquidity between its buckets only. */
  lemma LockKeepsStreams(l: Ledger, instruction: Instruction, id: Id)
    requires Inv(l) && id in l.positions && Names(instruction, id) && LeavesAlone(instruction, id)
    requires !instruction.ClaimPositionFee? && !instruction.ClaimReward?
    ensures var m := Transact(l, instruction);
            && id in m.positions && m.positions[id].Liquidity() == l.positions[id].Liquidity()
            && m.positions[id].fees == l.positions[id].fees && m.positions[id].rewards == l.positions[id].rewards
  {
    hide Inv, Ledger.RefreshAll, VestingParameters.Validate, VestingParameters.ToVesting;
    if instruction.RefreshVesting? && l.RefreshAll(id, instruction.vestingIds).Ok? {
      RefreshKeepsStreams(l, id, instruction.vestingIds);
    }
  }

  lemma FeeClaimEarns(l: Ledger, id: Id, a: Account, last: nat)
    requires Inv(l) && id in l.positions && l.ClaimPositionFee(id).Ok?
    ensures var claim, m := Instruction.ClaimPositionFee(id), l.ClaimPositionFee(id).value;
            && id in m.positions
            && Earns(l.positions[id], m.positions[id], a, last, Paid(l, claim, id, a), Settlements(claim, id, a), false)
  {
    hide Inv, Ledger.SettleFee, WithinOneUnit;
    ClaimPositionFeeSucceedsExactly(l, id);
    FeesSettledWithin(l, id, a, last);
    SettleFeeIs(l, id);
    var p, q, m := l.positions[id], l.SettleFee(id).value.positions[id], l.ClaimPositionFee(id).value;
    if a.Fee? {
      PaidFromPending(p, q, m.positions[id], a, last, a.StreamOf(q).pending);
    } else {
      NothingEarned(p, m.positions[id], a, last, 0, false);
    }
  }

  /** Paying out of what is pending after one settlement. */
  lemma PaidFromPending(p: PositionView, q: PositionView, r: PositionView, a: Account, last: nat, paid: nat)
    requires WithinOneUnit(p, q, a, last) && q.Liquidity() == r.Liquidity()
    requires a.StreamOf(r).checkpoint == a.StreamOf(q).checkpoint
    requires a.StreamOf(r).pending == a.StreamOf(q).pending - paid
    ensures Earns(p, r, a, last, paid, 1, false)
  {
    assert a.ClaimOf(r, last) == a.ClaimOf(q, last) - a.Scale() * paid;
    hide Account.ClaimOf, Account.StreamOf;
  }

  /** Giving up `lost` units of what is pending pays nothing. */
  lemma NothingPaid(p: PositionView, q: PositionView, r: PositionView, a: Account, last: nat, lost: nat)
    requires WithinOneUnit(p, q, a, last) && q.Liquidity() == r.Liquidity()
    requires a.StreamOf(r).checkpoint == a.StreamOf(q).checkpoint
    requires a.StreamOf(r).pending == a.StreamOf(q).pending - lost
    ensures Earns(p, r, a, last, 0, 1, true)
  {
    assert a.ClaimOf(r, last) == a.ClaimOf(q, last) - a.Scale() * lost;
    hide Account.ClaimOf, Account.StreamOf;
  }

  lemma UnsettledEarns(p: PositionView, q: PositionView, r: PositionView, a: Account, last: nat, givenUp: bool)
    requires WithinOneUnit(p, q, a, last) && a.ClaimOf(p, last) == a.ClaimOf(q, last)
    requires q.Liquidity() == r.Liquidity() && a.StreamOf(r) == a.StreamOf(q)
    ensures Earns(p, r, a, last, 0, 0, givenUp)
  {
    SameClaim(q, r, a, last);
    hide Account.ClaimOf;
  }

  /** What a reward claim leaves behind. */
  lemma RewardClaimLeaves(l: Ledger, id: Id, i: Index, frozen: bool, skip: bool)
    requires Inv(l) && id in l.positions && l.ClaimReward(id, i, frozen, skip).Ok?
    ensures l.UpdateRewards(id).Ok? && id in l.UpdateRewards(id).value.positions
    ensures var q, m := l.UpdateRewards(id).value.positions[id], l.ClaimReward(id, i, frozen, skip).value;
            && id in m.positions && m.positions[id] == q.ClaimReward(i)
            && (frozen && q.rewards.Get(i).pending > 0 ==> skip)
            && m.rewardVaults.Get(i) == l.rewardVaults.Get(i) - if frozen then 0 else q.rewards.Get(i).pending
  {
    hide Inv, Ledger.UpdateRewards, PositionView.ClaimReward;
    UpdateRewardsIs(l, id);
    ClaimRewardSucceedsExactly(l, id, i, frozen, skip);
  }

  lemma RewardClaimPays(l: Ledger, id: Id, i: Index, frozen: bool, skip: bool, a: Account)
    requires Inv(l) && id in l.positions && l.ClaimReward(id, i, frozen, skip).Ok?
    ensures l.UpdateRewards(id).Ok? && id in l.UpdateRewards(id).value.positions
    ensures Paid(l, Instruction.ClaimReward(id, i, frozen, skip), id, a)
         == if a == Reward(i) && !frozen then l.UpdateRewards(id).value.positions[id].rewards.Get(i).pending else 0
  {
    hide Inv, Ledger.UpdateRewards, Ledger.ClaimReward;
    RewardClaimLeaves(l, id, i, frozen, skip);
  }

  lemma RewardClaimEarns(l: Ledger, id: Id, i: Index, frozen: bool, skip: bool, a: Account, last: nat)
    requires Inv(l) && id in l.positions && l.ClaimReward(id, i, frozen, skip).Ok?
    ensures var claim, m := Instruction.ClaimReward(id, i, frozen, skip), l.ClaimReward(id, i, frozen, skip).value;
            && id in m.positions
            && Earns(l.positions[id], m.positions[id], a, last, Paid(l, claim, id, a), Settlements(claim, id, a),
                     GivesUp(claim, id))
  {
    hide Inv, Ledger.UpdateRewards, WithinOneUnit, Earns, Paid;
    RewardClaimLeaves(l, id, i, frozen, skip);
    RewardClaimPays(l, id, i, frozen, skip, a);
    UpdateRewardsWithin(l, id, a, last);
    var p, q, m := l.positions[id], l.UpdateRewards(id).value.positions[id], l.ClaimReward(id, i, frozen, skip).value;
    var pending := q.rewards.Get(i).pending;
    hide Ledger.ClaimReward;
    if a.Fee? {
      UnsettledEarns(p, q, m.positions[id], a, last, GivesUp(Instruction.ClaimReward(id, i, frozen, skip), id));
    } else if a != Reward(i) {
      PaidFromPending(p, q, m.positions[id], a, last, 0);
      EarnsAnyway(p, m.positions[id], a, last, 0, 1);
    } else if frozen && pending > 0 {
      NothingPaid(p, q, m.positions[id], a, last, pending);
    } else {
      PaidFromPending(p, q, m.positions[id], a, last, pending);
      EarnsAnyway(p, m.positions[id], a, last, pending, 1);
    }
  }

  lemma EarnsAnyway(p: PositionView, q: PositionView, a: Account, last: nat, paid: int, settled: nat)
    requires Earns(p, q, a, last, paid, settled, false)
    ensures Earns(p, q, a, last, paid, settled, true)
  {
  }

  lemma {:induction false} RefreshTouchesOne(l: Ledger, k: Id, vestingIds: seq<Id>, id: Id)
    requires k in l.positions && id in l.positions && k != id && l.RefreshAll(k, vestingIds).Ok?
    ensures var m := l.RefreshAll(k, vestingIds).value; id in m.positions && m.positions[id] == l.positions[id]
    decreases |vestingIds|
  {
    hide VestingView.Release, VestingView.Done, VestingView.NewReleaseLiquidity, PositionView.ReleaseVestedLiquidity;
    if vestingIds != [] {
      RefreshTouchesOne(l.RefreshOne(k, vestingIds[0]).value, k, vestingIds[1..], id);
    }
  }

  lemma UpdateTouchesOne(l: Ledger, k: Id, id: Id)
    requires k in l.positions && id in l.positions && k != id && l.UpdateRewards(k).Ok?
    ensures var m := l.UpdateRewards(k).value; id in m.positions && m.positions[id] == l.positions[id]
  {
    hide PoolView.UpdateRewards, PositionView.UpdatePositionReward;
  }

  lemma SwapTouchesNone(l: Ledger, received: uint64, minimumOut: uint64, direction: TradeDirection, hasReferral: bool)
    requires l.Swap(received, minimumOut, direction, hasReferral).Ok?
    ensures l.Swap(received, minimumOut, direction, hasReferral).value.positions == l.positions
  {
    hide PoolView.UpdatePreSwap, PoolView.GetSwapResult, PoolView.ApplySwapResult, GetFeeMode;
  }

  lemma LiquidityTouchesOne(l: Ledger, k: Id, added: uint128, removed: Option<uint128>, limit: Pair<uint64>, id: Id)
    requires id in l.positions && k != id
    ensures var m := l.AddLiquidity(k, added, limit);
            m.Ok? ==> id in m.value.positions && m.value.positions[id] == l.positions[id]
    ensures var m := l.RemoveLiquidity(k, removed, limit);
            m.Ok? ==> id in m.value.positions && m.value.positions[id] == l.positions[id]
  {
    hide Ledger.UpdateRewards, CurveState.Amounts, PositionView.UpdateFee;
    if k in l.positions && l.UpdateRewards(k).Ok? {
      UpdateTouchesOne(l, k, id);
    }
  }

  /** An instruction changes no position it does not name. */
  lemma Untouched(l: Ledger, instruction: Instruction, id: Id)
    requires id in l.positions && !Names(instruction, id)
    ensures var m := Transact(l, instruction); id in m.positions && m.positions[id] == l.positions[id]
  {
    hide Ledger.UpdateRewards, PoolView.UpdateRewards, Ledger.AddLiquidity, Ledger.RemoveLiquidity, PositionView.UpdateFee,
         Ledger.Swap, PositionView.UpdatePositionReward, PositionView.ClaimFees, VestingParameters.Validate,
         PositionView.Lock, Ledger.RefreshAll, Split.Apply, SplitParameters.Validate, RewardView.Fund,
         RewardView.IneligibleReward, PositionView.IsEmpty, Clock.Elapse, PositionView.PermanentLockLiquidity,
         PositionView.ClaimReward;
    if Execute(l, instruction).Ok? {
      match instruction
      case AddLiquidity(k, added, max) => LiquidityTouchesOne(l, k, added, None, max, id);
      case RemoveLiquidity(k, removed, min) => LiquidityTouchesOne(l, k, 0, removed, min, id);
      case ClaimReward(k, _, _, _) => UpdateTouchesOne(l, k, id);
      case Swap(received, minimumOut, direction, hasReferral) =>
        SwapTouchesNone(l, received, minimumOut, direction, hasReferral);
      case RefreshVesting(k, vestingIds) => RefreshTouchesOne(l, k, vestingIds, id);
      case _ =>
    }
  }

  /** One instruction that leaves the liquidity of a position alone. */
  lemma StepEarns(l: Ledger, instruction: Instruction, id: Id, a: Account, last: nat)
    requires Inv(l) && id in l.positions && LeavesAlone(instruction, id)
    ensures var m := Transact(l, instruction);
            && id in m.positions
            && Earns(l.positions[id], m.positions[id], a, last, Paid(l, instruction, id, a),
                     Settlements(instruction, id, a), GivesUp(instruction, id))
  {
    hide Inv, Earns, Execute, Paid, Balance;
    var p, settled, givenUp := l.positions[id], Settlements(instruction, id, a), GivesUp(instruction, id);
    if Execute(l, instruction).Err? {
      NothingIsPaid(l, instruction, id, a);
      NothingEarned(p, p, a, last, settled, givenUp);
    } else if !Names(instruction, id) {
      NothingIsPaid(l, instruction, id, a);
      Untouched(l, instruction, id);
      NothingEarned(p, p, a, last, settled, givenUp);
    } else if instruction.ClaimPositionFee? {
      ExecutesClaim(l, instruction);
      FeeClaimEarns(l, id, a, last);
    } else if instruction.ClaimReward? {
      ExecutesClaim(l, instruction);
      RewardClaimEarns(l, id, instruction.i, instruction.frozen, instruction.skip, a, last);
    } else {
      NothingIsPaid(l, instruction, id, a);
      LockKeepsStreams(l, instruction, id);
      NothingEarned(p, Transact(l, instruction).positions[id], a, last, settled, givenUp);
    }
  }

  lemma ExecutesClaim(l: Ledger, instruction: Instruction)
    ensures instruction.ClaimPositionFee? ==> Execute(l, instruction) == l.ClaimPositionFee(instruction.id)
    ensures instruction.ClaimReward? ==>
              Execute(l, instruction) == l.ClaimReward(instruction.id, instruction.i, instruction.frozen, instruction.skip)
  {
    hide Ledger.ClaimPositionFee, Ledger.ClaimReward;
  }

  /** Only a claim of the position that goes through pays its holder. */
  lemma NothingIsPaid(l: Ledger, instruction: Instruction, id: Id, a: Account)
    requires Execute(l, instruction).Err? || !Names(instruction, id)
          || (!instruction.ClaimPositionFee? && !instruction.ClaimReward?)
    ensures Paid(l, instruction, id, a) == 0
  {
    hide Execute, Balance;
  }

  // ---------------------------------------------------------------------------------------------
  // Runs
  // ---------------------------------------------------------------------------------------------

  lemma {:induction false} RunEarns(l: Ledger, instructions: seq<Instruction>, id: Id, a: Account, last: nat, givenUp: bool)
    requires Inv(l) && id in l.positions && AllLeaveAlone(instructions, id)
    requires !givenUp ==> NothingGivenUp(instructions, id)
    ensures var m := Run(l, instructions);
            && id in m.positions
            && Earns(l.positions[id], m.positions[id], a, last, PaidOver(l, instructions, id, a),
                     SettlementsOver(instructions, id, a), givenUp)
    decreases |instructions|
  {
    hide Inv, Earns, Transact, Paid, GivesUp, LeavesAlone, Settlements;
    if instructions == [] {
      NothingEarned(l.positions[id], l.positions[id], a, last, 0, givenUp);
    } else {
      var first, rest := instructions[0], instructions[1..];
      assert LeavesAlone(first, id) && (!givenUp ==> !GivesUp(first, id));
      var m := Transact(l, first);
      TransactKeeps(l, first);
      StepEarns(l, first, id, a, last);
      RunEarns(m, rest, id, a, last, givenUp);
      EarnsInTurn(l.positions[id], m.positions[id], Run(m, rest).positions[id], a, last, Paid(l, first, id, a),
                  PaidOver(m, rest, id, a), Settlements(first, id, a), SettlementsOver(rest, id, a),
                  GivesUp(first, id), givenUp);
    }
  }

  lemma TransactKeeps(l: Ledger, instruction: Instruction)
    requires Inv(l)
    ensures Inv(Transact(l, instruction))
  {
    hide Inv, Execute;
    ExecuteIsSafe(l, instruction);
  }

  lemma EarnsInTurn(p: PositionView, q: PositionView, r: PositionView, a: Account, last: nat, paid: int, more: int,
                    settled: nat, again: nat, givenUp: bool, ever: bool)
    requires Earns(p, q, a, last, paid, settled, givenUp) && Earns(q, r, a, last, more, again, ever)
    requires givenUp ==> ever
    ensures Earns(p, r, a, last, paid + more, settled + again, ever)
  {
    hide Account.ClaimOf;
    assert a.Scale() * (paid + more) == a.Scale() * paid + a.Scale() * more;
    assert (settled + again) * (a.Scale() - 1) == settled * (a.Scale() - 1) + again * (a.Scale() - 1);
  }

  /** Whatever the run, a position whose liquidity is left alone earns what its claim at the final accumulator says: at
      most that much, and less than one unit short for each settlement as long as nothing is given up. */
  lemma EarnedIsClaim(l: Ledger, instructions: seq<Instruction>, id: Id, a: Account)
    requires Inv(l) && id in l.positions && AllLeaveAlone(instructions, id)
    ensures var claim := a.ClaimOf(l.positions[id], Stored(Run(l, instructions).pool, a));
            var earned, scale := Earned(l, instructions, id, a), a.Scale();
            && 0 <= earned && scale * earned <= claim
            && (NothingGivenUp(instructions, id) ==>
                  claim <= scale * earned + (SettlementsOver(instructions, id, a) + 1) * (scale - 1))
  {
    hide Inv, Run, Account.ClaimOf, Stored, Due, PaidOver, SettlementsOver, NothingGivenUp, AllLeaveAlone;
    var m := Run(l, instructions);
    var last := Stored(m.pool, a);
    RunKeepsInvariant(l, instructions);
    RunEarns(l, instructions, id, a, last, !NothingGivenUp(instructions, id));
    DueIsClaim(m, id, a);
    DueIsNonNegative(m, id, a);
    var paid, due := PaidOver(l, instructions, id, a), Due(m, id, a);
    assert a.Scale() * (paid + due) == a.Scale() * paid + a.Scale() * due;
    OneMore(SettlementsOver(instructions, id, a), a.Scale() - 1);
  }

  lemma DueIsNonNegative(l: Ledger, id: Id, a: Account)
    requires id in l.positions
    ensures Due(l, id, a) >= 0
  {
  }
}
