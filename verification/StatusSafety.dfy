/** What the status of a handler says of a solvent ledger: no vault was short, and after a success the ledger is solvent
    again. */
module StatusSafety {
  import opened Numbers
  import opened Curve
  import opened Vestings
  import opened Positions
  import opened Ledgers
  import opened Solvency
  import opened Runs

  ghost predicate SafeStatus(l: Ledger, r: Result<()>, outcome: Result<Ledger>) {
    Inv(l) ==> r != Err(VaultShortfall) && (r.Ok? ==> outcome.Ok? && Inv(outcome.value))
  }

  lemma ExecuteStatus(l: Ledger, instruction: Instruction)
    ensures SafeStatus(l, Execute(l, instruction).Status(), Execute(l, instruction))
  {
    hide Inv, Execute;
    if Inv(l) {
      ExecuteIsSafe(l, instruction);
    }
  }

  lemma AddLiquidityStatus(l: Ledger, id: Id, delta: uint128, max: Pair<uint64>)
    ensures SafeStatus(l, l.AddLiquidity(id, delta, max).Status(), l.AddLiquidity(id, delta, max))
  {
    hide SafeStatus, Ledger.AddLiquidity;
    ExecuteStatus(l, Instruction.AddLiquidity(id, delta, max));
  }

  lemma RemoveLiquidityStatus(l: Ledger, id: Id, delta: Option<uint128>, min: Pair<uint64>)
    ensures SafeStatus(l, l.RemoveLiquidity(id, delta, min).Status(), l.RemoveLiquidity(id, delta, min))
  {
    hide SafeStatus, Ledger.RemoveLiquidity;
    ExecuteStatus(l, Instruction.RemoveLiquidity(id, delta, min));
  }

  lemma SwapStatus(l: Ledger, received: uint64, minimumOut: uint64, direction: TradeDirection, hasReferral: bool)
    ensures SafeStatus(l, l.Swap(received, minimumOut, direction, hasReferral).Status(),
                       l.Swap(received, minimumOut, direction, hasReferral))
  {
    hide SafeStatus, Ledger.Swap;
    ExecuteStatus(l, Instruction.Swap(received, minimumOut, direction, hasReferral));
  }

  lemma ClaimPositionFeeStatus(l: Ledger, id: Id)
    ensures SafeStatus(l, l.ClaimPositionFee(id).Status(), l.ClaimPositionFee(id))
  {
    hide SafeStatus, Ledger.ClaimPositionFee;
    ExecuteStatus(l, Instruction.ClaimPositionFee(id));
  }

  lemma ClaimProtocolFeeStatus(l: Ledger, max: Pair<uint64>)
    ensures SafeStatus(l, l.ClaimProtocolFee(max).Status(), l.ClaimProtocolFee(max))
  {
    hide SafeStatus, Ledger.ClaimProtocolFee;
    ExecuteStatus(l, Instruction.ClaimProtocolFee(max));
  }

  lemma ClaimPartnerFeeStatus(l: Ledger, max: Pair<uint64>)
    ensures SafeStatus(l, l.ClaimPartnerFee(max).Status(), l.ClaimPartnerFee(max))
  {
    hide SafeStatus, Ledger.ClaimPartnerFee;
    ExecuteStatus(l, Instruction.ClaimPartnerFee(max));
  }

  lemma LockPositionStatus(l: Ledger, id: Id, vestingId: Id, parameters: VestingParameters)
    ensures SafeStatus(l, l.LockPosition(id, vestingId, parameters).Status(), l.LockPosition(id, vestingId, parameters))
  {
    hide SafeStatus, Ledger.LockPosition;
    ExecuteStatus(l, Instruction.LockPosition(id, vestingId, parameters));
  }

  lemma RefreshVestingStatus(l: Ledger, id: Id, vestingIds: seq<Id>)
    ensures SafeStatus(l, l.RefreshVesting(id, vestingIds).Status(), l.RefreshVesting(id, vestingIds))
  {
    hide SafeStatus, Ledger.RefreshVesting;
    ExecuteStatus(l, Instruction.RefreshVesting(id, vestingIds));
  }

  lemma PermanentLockPositionStatus(l: Ledger, id: Id, amount: uint128)
    ensures SafeStatus(l, l.PermanentLockPosition(id, amount).Status(), l.PermanentLockPosition(id, amount))
  {
    hide SafeStatus, Ledger.PermanentLockPosition;
    ExecuteStatus(l, Instruction.PermanentLockPosition(id, amount));
  }

  lemma SplitPositionStatus(l: Ledger, first: Id, second: Id, parameters: SplitParameters)
    ensures SafeStatus(l, l.SplitPosition(first, second, parameters).Status(),
                       l.SplitPosition(first, second, parameters))
  {
    hide SafeStatus, Ledger.SplitPosition;
    ExecuteStatus(l, Instruction.SplitPosition(first, second, parameters));
  }

  lemma InitializeRewardStatus(l: Ledger, i: Index, duration: uint64)
    ensures SafeStatus(l, l.InitializeReward(i, duration).Status(), l.InitializeReward(i, duration))
  {
    hide SafeStatus, Ledger.InitializeReward;
    ExecuteStatus(l, Instruction.InitializeReward(i, duration));
  }

  lemma UpdateRewardDurationStatus(l: Ledger, i: Index, duration: uint64)
    ensures SafeStatus(l, l.UpdateRewardDuration(i, duration).Status(), l.UpdateRewardDuration(i, duration))
  {
    hide SafeStatus, Ledger.UpdateRewardDuration;
    ExecuteStatus(l, Instruction.UpdateRewardDuration(i, duration));
  }

  lemma FundRewardStatus(l: Ledger, i: Index, received: uint64, carryForward: bool)
    ensures SafeStatus(l, l.FundReward(i, received, carryForward).Status(), l.FundReward(i, received, carryForward))
  {
    hide SafeStatus, Ledger.FundReward;
    ExecuteStatus(l, Instruction.FundReward(i, received, carryForward));
  }

  lemma WithdrawIneligibleRewardStatus(l: Ledger, i: Index)
    ensures SafeStatus(l, l.WithdrawIneligibleReward(i).Status(), l.WithdrawIneligibleReward(i))
  {
    hide SafeStatus, Ledger.WithdrawIneligibleReward;
    ExecuteStatus(l, Instruction.WithdrawIneligibleReward(i));
  }

  lemma ClaimRewardStatus(l: Ledger, id: Id, i: Index, frozen: bool, skip: bool)
    ensures SafeStatus(l, l.ClaimReward(id, i, frozen, skip).Status(), l.ClaimReward(id, i, frozen, skip))
  {
    hide SafeStatus, Ledger.ClaimReward;
    ExecuteStatus(l, Instruction.ClaimReward(id, i, frozen, skip));
  }
}
