/** Locks over whole runs: whatever anybody does, locked liquidity stays vested until its schedule unlocks it. */
module LockRuns {
  import opened Numbers
  import opened Arithmetic
  import opened Curve
  import opened Fees
  import opened Rewards
  import opened Vestings
  import opened Positions
  import opened Pools
  import opened Books
  import opened Ledgers
  import opened Solvency
  import opened LockSafety
  import opened Runs
  import opened Earnings

  /** The same vesting, with more or less of it released. */
  ghost predicate SameTerms(v: VestingView, w: VestingView) {
    w == v.(totalReleasedLiquidity := w.totalReleasedLiquidity)
  }

  // ---------------------------------------------------------------------------------------------
  // Before the cliff
  // ---------------------------------------------------------------------------------------------

  lemma NothingToRelease(l: Ledger, id: Id, v: Id)
    requires id in l.positions && v in l.vestings && l.vestings[v].position == id
    requires l.vestings[v].MaxUnlockedLiquidity(l.Point()) == Ok(0) && l.vestings[v].totalReleasedLiquidity == 0
    requires l.vestings[v].Done() == Ok(false)
    ensures l.RefreshOne(id, v) == Ok(l)
  {
    hide VestingView.MaxUnlockedLiquidity, VestingView.Done;
    assert l.vestings[v := l.vestings[v]] == l.vestings && l.positions[id := l.positions[id]] == l.positions;
  }

  /** A refresh before the cliff changes nothing. */
  lemma EarlyRefreshDoesNothing(l: Ledger, id: Id, v: Id, parameters: VestingParameters, cliff: nat)
    requires Inv(l) && id in l.positions && v in l.vestings && l.vestings[v].position == id
    requires FollowsSchedule(l.vestings[v], parameters, cliff) && l.Point() < cliff
    ensures l.RefreshVesting(id, [v]) == Ok(l)
  {
    hide Inv, Ledger.RefreshOne, InPeriod;
    assert UnlocksAt(l.vestings[v], parameters, cliff, l.Point(), 0);
    VestingIsHeld(l, v);
    UnlockedAmount(l.vestings[v], l.Point());
    hide FollowsSchedule, UnlocksAt, VestingView.MaxUnlockedLiquidity;
    NothingToRelease(l, id, v);
    assert l.RefreshAll(id, [v]) == l.RefreshAll(id, [v][1..]) == Ok(l);
  }

  // ---------------------------------------------------------------------------------------------
  // One instruction
  // ---------------------------------------------------------------------------------------------

  lemma {:induction false} RefreshKeepsOpen(l: Ledger, id: Id, vestingIds: seq<Id>, v: Id)
    requires Inv(l) && id in l.positions && l.RefreshAll(id, vestingIds).Ok?
    requires v in l.vestings && l.Point() < l.vestings[v].EndPoint()
    ensures var m := l.RefreshAll(id, vestingIds).value;
            v in m.vestings && SameTerms(l.vestings[v], m.vestings[v]) && m.clock == l.clock && m.pool == l.pool
    decreases |vestingIds|
  {
    hide Inv, Ledger.RefreshOne, VestingView.MaxUnlockedLiquidity;
    if vestingIds != [] {
      RefreshOneIs(l, id, vestingIds[0]);
      var next := l.RefreshOne(id, vestingIds[0]).value;
      SameEnd(l.vestings[v], next.vestings[v]);
      RefreshKeepsOpen(next, id, vestingIds[1..], v);
    }
  }

  lemma SameEnd(v: VestingView, w: VestingView)
    ensures SameTerms(v, w) ==> w.EndPoint() == v.EndPoint()
  {
  }

  lemma UpdateKeepsVestings(l: Ledger, id: Id)
    requires id in l.positions && l.UpdateRewards(id).Ok?
    ensures var m := l.UpdateRewards(id).value;
            m.vestings == l.vestings && m.clock == l.clock && m.pool.config == l.pool.config
  {
    hide RewardView.UpdateRewards, PositionView.UpdatePositionReward;
  }

  lemma SwapKeepsVestings(l: Ledger, received: uint64, minimumOut: uint64, direction: TradeDirection, hasReferral: bool)
    requires l.Swap(received, minimumOut, direction, hasReferral).Ok?
    ensures var m := l.Swap(received, minimumOut, direction, hasReferral).value;
            m.vestings == l.vestings && m.clock == l.clock && m.pool.config == l.pool.config
  {
    hide PoolView.GetSwapResult, DynamicFee.BeforeSwap, DynamicFee.AfterSwap, FeeLedger.Accumulate, ShlDiv128;
  }

  lemma LiquidityKeepsVestings(l: Ledger, id: Id, added: uint128, removed: Option<uint128>, limit: Pair<uint64>)
    ensures var m := l.AddLiquidity(id, added, limit);
            m.Ok? ==> m.value.vestings == l.vestings && m.value.clock == l.clock && m.value.pool.config == l.pool.config
    ensures var m := l.RemoveLiquidity(id, removed, limit);
            m.Ok? ==> m.value.vestings == l.vestings && m.value.clock == l.clock && m.value.pool.config == l.pool.config
  {
    hide Ledger.UpdateRewards, CurveState.Amounts, PositionView.UpdateFee;
    if id in l.positions && l.UpdateRewards(id).Ok? {
      UpdateKeepsVestings(l, id);
    }
  }

  /** Vestings only change with locks and refreshes, and the clock only with time. */
  lemma OnlyLocksAndRefreshes(l: Ledger, instruction: Instruction)
    requires !instruction.RefreshVesting? && !instruction.LockPosition? && !instruction.Elapse?
    ensures var m := Transact(l, instruction);
            m.vestings == l.vestings && m.clock == l.clock && m.pool.config == l.pool.config
  {
    hide Ledger.UpdateRewards, Ledger.AddLiquidity, Ledger.RemoveLiquidity, Ledger.Swap, RewardView.UpdateRewards,
         PositionView.UpdateFee, PositionView.UpdatePositionReward, PositionView.ClaimFees, Split.Apply,
         SplitParameters.Validate, RewardView.Fund, RewardView.IneligibleReward, PositionView.IsEmpty,
         PositionView.PermanentLockLiquidity, PositionView.ClaimReward;
    if Execute(l, instruction).Ok? {
      match instruction
      case AddLiquidity(id, added, max) => LiquidityKeepsVestings(l, id, added, None, max);
      case RemoveLiquidity(id, removed, min) => LiquidityKeepsVestings(l, id, 0, removed, min);
      case Swap(received, minimumOut, direction, hasReferral) =>
        SwapKeepsVestings(l, received, minimumOut, direction, hasReferral);
      case ClaimReward(id, i, frozen, skip) => UpdateKeepsVestings(l, id);
      case _ =>
    }
  }

  lemma {:induction false} RefreshKeepsClock(l: Ledger, id: Id, vestingIds: seq<Id>)
    requires Inv(l) && id in l.positions && l.RefreshAll(id, vestingIds).Ok?
    ensures var m := l.RefreshAll(id, vestingIds).value; m.clock == l.clock && m.pool == l.pool
    decreases |vestingIds|
  {
    hide Inv, Ledger.RefreshOne, VestingView.EndPoint, VestingView.MaxUnlockedLiquidity;
    if vestingIds != [] {
      RefreshOneIs(l, id, vestingIds[0]);
      RefreshKeepsClock(l.RefreshOne(id, vestingIds[0]).value, id, vestingIds[1..]);
    }
  }

  /** Time never goes back. */
  lemma StepNeverGoesBack(l: Ledger, instruction: Instruction)
    requires Inv(l)
    ensures l.Point() <= Transact(l, instruction).Point()
  {
    hide Inv, Ledger.RefreshAll, VestingParameters.Validate, PositionView.Lock;
    match instruction
    case RefreshVesting(id, vestingIds) =>
      if id in l.positions && l.RefreshAll(id, vestingIds).Ok? {
        RefreshKeepsClock(l, id, vestingIds);
      }
    case LockPosition(_, _, _) =>
    case Elapse(_, _) =>
    case _ => OnlyLocksAndRefreshes(l, instruction);
  }

  /** No instruction closes a vesting, or changes its terms, before its end point. */
  lemma StepKeepsVesting(l: Ledger, instruction: Instruction, v: Id)
    requires Inv(l) && v in l.vestings && Transact(l, instruction).Point() < l.vestings[v].EndPoint()
    ensures var m := Transact(l, instruction); v in m.vestings && SameTerms(l.vestings[v], m.vestings[v])
  {
    hide Inv, VestingView.EndPoint, Ledger.RefreshAll, VestingParameters.Validate, PositionView.Lock;
    match instruction
    case RefreshVesting(id, vestingIds) =>
      if id in l.positions && l.RefreshAll(id, vestingIds).Ok? {
        RefreshKeepsClock(l, id, vestingIds);
        RefreshKeepsOpen(l, id, vestingIds, v);
      }
    case LockPosition(_, _, _) =>
    case Elapse(_, _) =>
    case _ => OnlyLocksAndRefreshes(l, instruction);
  }

  // ---------------------------------------------------------------------------------------------
  // Runs
  // ---------------------------------------------------------------------------------------------

  lemma {:induction false} RunNeverGoesBack(l: Ledger, instructions: seq<Instruction>)
    requires Inv(l)
    ensures l.Point() <= Run(l, instructions).Point()
    decreases |instructions|
  {
    hide Inv, Transact;
    if instructions != [] {
      TransactKeeps(l, instructions[0]);
      StepNeverGoesBack(l, instructions[0]);
      RunNeverGoesBack(Transact(l, instructions[0]), instructions[1..]);
    }
  }

  lemma {:induction false} RunKeepsVesting(l: Ledger, instructions: seq<Instruction>, v: Id)
    requires Inv(l) && v in l.vestings && Run(l, instructions).Point() < l.vestings[v].EndPoint()
    ensures var m := Run(l, instructions); v in m.vestings && SameTerms(l.vestings[v], m.vestings[v])
    decreases |instructions|
  {
    hide Inv, Transact, VestingView.EndPoint;
    if instructions != [] {
      var next := Transact(l, instructions[0]);
      TransactKeeps(l, instructions[0]);
      RunNeverGoesBack(next, instructions[1..]);
      StepKeepsVesting(l, instructions[0], v);
      SameEnd(l.vestings[v], next.vestings[v]);
      RunKeepsVesting(next, instructions[1..], v);
    }
  }

  lemma SameTermsFollow(v: VestingView, w: VestingView, p: VestingParameters, cliff: nat)
    requires SameTerms(v, w) && FollowsSchedule(v, p, cliff)
    ensures FollowsSchedule(w, p, cliff)
  {
    hide VestingView.MaxUnlockedLiquidity, InPeriod, Locked;
    forall point: uint64, k: uint16 ensures UnlocksAt(w, p, cliff, point, k) {
      assert UnlocksAt(v, p, cliff, point, k);
      SameSchedule(v, w, point);
    }
  }

  /** What a vesting that follows a schedule still holds is at least what the schedule has not unlocked by now. */
  lemma StillHeld(l: Ledger, v: Id, p: VestingParameters, cliff: nat, k: uint16)
    requires Inv(l) && v in l.vestings && FollowsSchedule(l.vestings[v], p, cliff)
    ensures var id := l.vestings[v].position;
            && id in l.positions
            && (l.Point() < cliff ==> l.positions[id].vested >= Locked(p))
            && (l.Point() >= cliff && InPeriod(l.Point() - cliff, p.periodFrequency, p.numberOfPeriod, k) ==>
                  l.positions[id].vested >= Locked(p) - p.cliffUnlockLiquidity - k * p.liquidityPerPeriod)
  {
    VestingIsHeld(l, v);
    assert UnlocksAt(l.vestings[v], p, cliff, l.Point(), k);
    hide Inv, VestingView.MaxUnlockedLiquidity, InPeriod, Locked;
  }

  /** A lock holds: after any run, as long as the schedule asked for is not over, the vesting is still open on its terms and
      the position still holds as vested at least what the schedule has not unlocked - everything before the cliff, and
      everything but the cliff amount and `k` parts in the `k`-th period after it. */
  lemma LockHolds(l: Ledger, id: Id, vestingId: Id, parameters: VestingParameters, instructions: seq<Instruction>, k: uint16)
    requires Inv(l) && l.LockPosition(id, vestingId, parameters).Ok?
    ensures var m := Run(l.LockPosition(id, vestingId, parameters).value, instructions);
            var cliff := CliffOf(parameters, l.Point());
            m.Point() < cliff + parameters.periodFrequency * parameters.numberOfPeriod ==>
              && vestingId in m.vestings && m.vestings[vestingId].position == id && id in m.positions
              && FollowsSchedule(m.vestings[vestingId], parameters, cliff)
              && (m.Point() < cliff ==> m.positions[id].vested >= Locked(parameters))
              && (m.Point() >= cliff && InPeriod(m.Point() - cliff, parameters.periodFrequency, parameters.numberOfPeriod, k) ==>
                    m.positions[id].vested
                    >= Locked(parameters) - parameters.cliffUnlockLiquidity - k * parameters.liquidityPerPeriod)
  {
    hide Inv, Ledger.LockPosition, ValidSchedule, Run, Locked, InPeriod, CliffOf, UnlocksAt;
    LockPositionSucceedsExactly(l, id, vestingId, parameters);
    var locked := l.LockPosition(id, vestingId, parameters).value;
    var m, cliff := Run(locked, instructions), CliffOf(parameters, l.Point());
    RunKeepsInvariant(locked, instructions);
    if m.Point() < cliff + parameters.periodFrequency * parameters.numberOfPeriod {
      RunKeepsVesting(locked, instructions, vestingId);
      SameTermsFollow(locked.vestings[vestingId], m.vestings[vestingId], parameters, cliff);
      hide FollowsSchedule;
      StillHeld(m, vestingId, parameters, cliff, k);
    }
  }
}
