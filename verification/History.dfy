/** What whole runs can and cannot do: permanent locks only grow, trading alone never drains both vaults, and a quote is
    what the next swap executes. */
module History {
  import opened Numbers
  import opened Arithmetic
  import opened Curve
  import opened Fees
  import opened Rewards
  import opened Vestings
  import opened Positions
  import opened Pools
  import opened Ledgers
  import opened Solvency
  import opened SwapSafety
  import opened Runs

  // ---------------------------------------------------------------------------------------------
  // Permanent locks
  // ---------------------------------------------------------------------------------------------

  lemma RewardsKeepLocks(l: Ledger, id: Id)
    requires id in l.positions && l.UpdateRewards(id).Ok?
    ensures l.UpdateRewards(id).value.pool.permanentLockLiquidity == l.pool.permanentLockLiquidity
  {
    hide RewardView.UpdateRewards, PositionView.UpdatePositionReward;
  }

  lemma {:induction false} RefreshKeepsLocks(l: Ledger, id: Id, vestingIds: seq<Id>)
    requires id in l.positions && l.RefreshAll(id, vestingIds).Ok?
    ensures l.RefreshAll(id, vestingIds).value.pool == l.pool
    decreases |vestingIds|
  {
    hide VestingView.Release, VestingView.Done, VestingView.NewReleaseLiquidity, PositionView.ReleaseVestedLiquidity;
    if vestingIds != [] {
      RefreshKeepsLocks(l.RefreshOne(id, vestingIds[0]).value, id, vestingIds[1..]);
    }
  }

  lemma SwapKeepsLocks(l: Ledger, received: uint64, minimumOut: uint64, direction: TradeDirection, hasReferral: bool)
    requires l.Swap(received, minimumOut, direction, hasReferral).Ok?
    ensures l.Swap(received, minimumOut, direction, hasReferral).value.pool.permanentLockLiquidity == l.pool.permanentLockLiquidity
  {
    hide PoolView.GetSwapResult, DynamicFee.BeforeSwap, DynamicFee.AfterSwap, FeeLedger.Accumulate, ShlDiv128;
  }

  /** The permanently locked total changes only with a permanent lock, and then only upward. */
  lemma LocksNeverFall(l: Ledger, instruction: Instruction)
    ensures Transact(l, instruction).pool.permanentLockLiquidity
         == l.pool.permanentLockLiquidity
          + if instruction.PermanentLockPosition? && Execute(l, instruction).Ok? then instruction.amount else 0
  {
    hide Ledger.UpdateRewards, Ledger.Swap, RewardView.UpdateRewards, CurveState.Amounts, PositionView.UpdateFee,
         PositionView.UpdatePositionReward, PositionView.ClaimFees, VestingParameters.Validate, PositionView.Lock,
         Ledger.RefreshAll, Split.Apply, SplitParameters.Validate, RewardView.Fund, RewardView.IneligibleReward,
         PositionView.IsEmpty, Clock.Elapse, PositionView.PermanentLockLiquidity, PositionView.ClaimReward;
    if Execute(l, instruction).Ok? {
      match instruction
      case AddLiquidity(id, added, max) => RewardsKeepLocks(l, id);
      case RemoveLiquidity(id, removed, min) => RewardsKeepLocks(l, id);
      case Swap(received, minimumOut, direction, hasReferral) =>
        SwapKeepsLocks(l, received, minimumOut, direction, hasReferral);
      case RefreshVesting(id, vestingIds) => RefreshKeepsLocks(l, id, vestingIds);
      case ClaimReward(id, i, frozen, skip) => RewardsKeepLocks(l, id);
      case _ =>
    }
  }

  /** No run ever lowers the permanently locked total. */
  lemma {:induction false} RunKeepsLocks(l: Ledger, instructions: seq<Instruction>)
    ensures Run(l, instructions).pool.permanentLockLiquidity >= l.pool.permanentLockLiquidity
    decreases |instructions|
  {
    hide Execute;
    if instructions != [] {
      LocksNeverFall(l, instructions[0]);
      RunKeepsLocks(Transact(l, instructions[0]), instructions[1..]);
    }
  }

  // ---------------------------------------------------------------------------------------------
  // No free lunch
  // ---------------------------------------------------------------------------------------------

  /** Only trades, and time passing between them. */
  ghost predicate TradesOnly(instructions: seq<Instruction>) {
    forall i :: 0 <= i < |instructions| ==> instructions[i].Swap? || instructions[i].Elapse?
  }

  /** The vaults changed at least as a fair move of the price demands. */
  ghost predicate FairMove(l: Ledger, m: Ledger) {
    && m.pool.liquidity == l.pool.liquidity
    && Funded(l.pool.liquidity, l.pool.sqrtPrice, m.pool.sqrtPrice,
              m.vaults.zero - l.vaults.zero, m.vaults.one - l.vaults.one)
  }

  lemma FundedWithMore(l: nat, p: nat, q: nat, a: int, b: int, moreA: int, moreB: int)
    requires FundedA(l, p, q, a) && FundedB(l, p, q, b) && a <= moreA && b <= moreB
    ensures Funded(l, p, q, moreA, moreB)
  {
    MulMono(a, moreA, p * q);
  }

  lemma SwapIsFairMove(l: Ledger, m: Ledger, received: nat, result: SwapResult, mode: FeeMode, direction: TradeDirection)
    requires SwappedTo(l, m, received, result, mode, direction)
    ensures FairMove(l, m)
  {
    var curveIn, curveOut := CurveIn(received, result, mode), CurveOut(result, mode);
    assert Gain(direction, TOKEN_A, curveIn, curveOut) <= VaultGain(TOKEN_A, received, result, mode, direction);
    assert Gain(direction, TOKEN_B, curveIn, curveOut) <= VaultGain(TOKEN_B, received, result, mode, direction);
    hide CurveIn, CurveOut, Gain, VaultGain, FundedA, FundedB, Funded, CurveState.InRange, Booked, FeeIsOnSide;
    FundedWithMore(l.pool.liquidity, l.pool.sqrtPrice, m.pool.sqrtPrice,
                   Gain(direction, TOKEN_A, curveIn, curveOut), Gain(direction, TOKEN_B, curveIn, curveOut),
                   m.vaults.zero - l.vaults.zero, m.vaults.one - l.vaults.one);
  }

  lemma NoMoveIsFair(l: Ledger, m: Ledger)
    requires m.pool == l.pool && m.vaults == l.vaults
    ensures FairMove(l, m)
  {
  }

  lemma FairMovesCompose(l: Ledger, m: Ledger, n: Ledger)
    requires FairMove(l, m) && FairMove(m, n) && m.pool.sqrtPrice > 0
    ensures FairMove(l, n)
  {
    hide Funded;
    FundedCompose(l.pool.liquidity, l.pool.sqrtPrice, m.pool.sqrtPrice, n.pool.sqrtPrice,
                  m.vaults.zero - l.vaults.zero, m.vaults.one - l.vaults.one,
                  n.vaults.zero - m.vaults.zero, n.vaults.one - m.vaults.one);
  }

  lemma TradeIsFairMove(l: Ledger, instruction: Instruction)
    requires Inv(l) && (instruction.Swap? || instruction.Elapse?)
    ensures FairMove(l, Transact(l, instruction))
  {
    hide Inv, FairMove, SwappedTo, Ledger.Swap;
    match instruction
    case Elapse(slots, seconds) => NoMoveIsFair(l, Transact(l, instruction));
    case Swap(received, minimumOut, direction, hasReferral) =>
      SwapSucceedsExactly(l, received, minimumOut, direction, hasReferral);
      if Execute(l, instruction).Ok? {
        var mode := GetFeeMode(l.pool.config.collectFeeMode, direction, hasReferral);
        SwapIsFairMove(l, Transact(l, instruction), received,
                       l.pool.GetSwapResult(received, mode, direction, l.Point()).value, mode, direction);
      } else {
        NoMoveIsFair(l, Transact(l, instruction));
      }
  }

  lemma {:induction false} TradesAreFairMoves(l: Ledger, instructions: seq<Instruction>)
    requires Inv(l) && TradesOnly(instructions)
    ensures FairMove(l, Run(l, instructions))
    decreases |instructions|
  {
    hide Inv, FairMove, Execute;
    if instructions == [] {
      NoMoveIsFair(l, l);
    } else {
      var m := Transact(l, instructions[0]);
      ExecuteIsSafe(l, instructions[0]);
      TradeIsFairMove(l, instructions[0]);
      TradesAreFairMoves(m, instructions[1..]);
      InvConserves(m);
      FairMovesCompose(l, m, Run(m, instructions[1..]));
    }
  }

  lemma FairMoveKeepsOne(l: nat, p: nat, q: nat, a: int, b: int)
    requires Funded(l, p, q, a, b) && p > 0 && q > 0
    ensures q <= p ==> a >= 0
    ensures q >= p ==> b >= 0
  {
    assert p * q > 0;
    if q <= p {
      assert l * (p - q) >= 0;
      CancelFactor(0, a, p * q);
    }
    if q >= p {
      assert l * (q - p) >= 0;
    }
  }

  /** No free lunch: however many traders trade in whatever order, in any fee mode, with or without referrals, at
      least one vault does not drop, and neither drops once the price is back where it was. */
  lemma NoFreeLunch(l: Ledger, instructions: seq<Instruction>)
    requires Inv(l) && TradesOnly(instructions)
    ensures var m := Run(l, instructions);
            && m.pool.liquidity == l.pool.liquidity
            && (m.pool.sqrtPrice <= l.pool.sqrtPrice ==> m.vaults.zero >= l.vaults.zero)
            && (m.pool.sqrtPrice >= l.pool.sqrtPrice ==> m.vaults.one >= l.vaults.one)
  {
    hide Inv, Funded;
    TradesAreFairMoves(l, instructions);
    RunKeepsInvariant(l, instructions);
    var m := Run(l, instructions);
    InvConserves(l);
    InvConserves(m);
    FairMoveKeepsOne(l.pool.liquidity, l.pool.sqrtPrice, m.pool.sqrtPrice,
                     m.vaults.zero - l.vaults.zero, m.vaults.one - l.vaults.one);
  }

  // ---------------------------------------------------------------------------------------------
  // Quotes
  // ---------------------------------------------------------------------------------------------

  /** A quote is what the swap executes: whenever both succeed on the same ledger for the same input, the swap moves the
      quoted price, output and fees, although it updates the dynamic fee first. */
  lemma QuoteAgrees(l: Ledger, received: uint64, minimumOut: uint64, direction: TradeDirection, hasReferral: bool)
    requires Inv(l) && l.Quote(received, direction, hasReferral).Ok?
    requires l.Swap(received, minimumOut, direction, hasReferral).Ok?
    ensures var quote := l.Quote(received, direction, hasReferral).value;
            var mode := GetFeeMode(l.pool.config.collectFeeMode, direction, hasReferral);
            SwappedTo(l, l.Swap(received, minimumOut, direction, hasReferral).value, received, quote, mode, direction)
    ensures l.Quote(received, direction, hasReferral).value.outputAmount >= minimumOut
  {
    hide Inv, SwappedTo, Ledger.Swap, PoolView.GetSwapResult;
    SwapSucceedsExactly(l, received, minimumOut, direction, hasReferral);
  }

  /** Whatever an active pool swaps it also quotes, before the swap, to the same output. */
  lemma SwapIsQuoted(l: Ledger, received: uint64, minimumOut: uint64, direction: TradeDirection, hasReferral: bool)
    requires Inv(l) && l.pool.config.activationPoint <= l.Point()
    requires l.Swap(received, minimumOut, direction, hasReferral).Ok?
    ensures l.Quote(received, direction, hasReferral).Ok?
    ensures l.Swap(received, l.Quote(received, direction, hasReferral).value.outputAmount, direction, hasReferral).Ok?
  {
    hide Inv, SwappedTo, Ledger.Swap, PoolView.GetSwapResult, RoomFor, VolatilityMoves;
    SwapSucceedsExactly(l, received, minimumOut, direction, hasReferral);
    SwapSucceedsExactly(l, received, l.Quote(received, direction, hasReferral).value.outputAmount, direction, hasReferral);
  }
}
