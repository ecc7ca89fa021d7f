/** The whole market as one value - clock, pool, vault balances, positions and vestings - and every instruction
    handler as a function on it. A transaction that errors changes nothing. */
module Ledgers {
  import opened Numbers
  import opened Curve
  import opened Fees
  import opened Rewards
  import opened Vestings
  import opened Positions
  import opened Pools

  const MAX_VESTING_SLOT_DURATION: uint64 := 9_000 * 24 * 365 * 10
  const MAX_VESTING_TIME_DURATION: uint64 := 3_600 * 24 * 365 * 10

  datatype Clock = Clock(slot: uint64, timestamp: uint64) {
    function Point(activationType: ActivationType): uint64 {
      if activationType.Slot? then slot else timestamp
    }

    function Elapse(slots: uint64, seconds: uint64): Result<Clock> {
      var s :- Checked64(slot + slots);
      var t :- Checked64(timestamp + seconds);
      Ok(Clock(s, t))
    }
  }

  datatype Ledger = Ledger(
    clock: Clock,
    pool: PoolView,
    vaults: Pair<uint64>,
    rewardVaults: Pair<uint64>,
    positions: map<Id, PositionView>,
    vestings: map<Id, VestingView>)
  {
    function Now(): uint64 {
      clock.timestamp
    }

    function Point(): uint64 {
      clock.Point(pool.config.activationType)
    }

    // -------------------------------------------------------------------------------------------
    // Transfers
    // -------------------------------------------------------------------------------------------

    function Credit(token: Index, amount: uint64): Result<Ledger> {
      var balance := vaults.Get(token) + amount;
      var _ :- Require(balance <= U64_MAX, VaultOverflow);
      Ok(this.(vaults := vaults.Set(token, balance)))
    }

    function Debit(token: Index, amount: uint64): Result<Ledger> {
      var _ :- Require(amount <= vaults.Get(token), VaultShortfall);
      Ok(this.(vaults := vaults.Set(token, vaults.Get(token) - amount)))
    }

    function CreditBoth(amounts: Pair<uint64>): Result<Ledger> {
      var first :- Credit(TOKEN_A, amounts.zero);
      first.Credit(TOKEN_B, amounts.one)
    }

    function DebitBoth(amounts: Pair<uint64>): Result<Ledger> {
      var first :- Debit(TOKEN_A, amounts.zero);
      first.Debit(TOKEN_B, amounts.one)
    }

    function CreditReward(i: Index, amount: uint64): Result<Ledger> {
      var balance := rewardVaults.Get(i) + amount;
      var _ :- Require(balance <= U64_MAX, VaultOverflow);
      Ok(this.(rewardVaults := rewardVaults.Set(i, balance)))
    }

    function DebitReward(i: Index, amount: uint64): Result<Ledger> {
      var _ :- Require(amount <= rewardVaults.Get(i), VaultShortfall);
      Ok(this.(rewardVaults := rewardVaults.Set(i, rewardVaults.Get(i) - amount)))
    }

    // -------------------------------------------------------------------------------------------
    // Settlement
    // -------------------------------------------------------------------------------------------

    function Find(id: Id): Check {
      Require(id in positions, AccountNotFound)
    }

    function With(id: Id, p: PositionView): Ledger {
      this.(positions := positions[id := p])
    }

    /** `Pool::update_rewards`. */
    function AccrueRewards(): Result<Ledger> {
      var accrued :- pool.UpdateRewards(Now());
      Ok(this.(pool := accrued))
    }

    /** `Position::update_position_reward`. */
    function SettleReward(id: Id): Result<Ledger>
      requires id in positions
    {
      var settled :- positions[id].UpdatePositionReward(pool.rewards);
      Ok(With(id, settled))
    }

    /** `Position::update_rewards`. */
    function UpdateRewards(id: Id): Result<Ledger>
      requires id in positions
    {
      if pool.RewardInitialized() then
        var accrued :- AccrueRewards();
        accrued.SettleReward(id)
      else Ok(this)
    }

    /** `Position::update_fee` at the pool's accumulators. */
    function SettleFee(id: Id): Result<Ledger>
      requires id in positions
    {
      var settled :- positions[id].UpdateFee(pool.FeePerLiquidity());
      Ok(With(id, settled))
    }

    // -------------------------------------------------------------------------------------------
    // Positions and liquidity
    // -------------------------------------------------------------------------------------------

    function Elapse(slots: uint64, seconds: uint64): Result<Ledger> {
      var later :- clock.Elapse(slots, seconds);
      Ok(this.(clock := later))
    }

    function CreatePosition(id: Id): Result<Ledger> {
      var _ :- Require(id !in positions, AccountInUse);
      Ok(With(id, NO_POSITION))
    }

    function ClosePosition(id: Id): Result<Ledger> {
      var _ :- Find(id);
      var empty :- positions[id].IsEmpty();
      var _ :- Require(empty, PositionIsNotEmpty);
      Ok(this.(positions := positions - {id}))
    }

    /** `Pool::apply_add_liquidity` after the position's fees are settled. */
    function DepositLiquidity(id: Id, delta: uint128): Result<Ledger>
      requires id in positions
    {
      var p :- positions[id].AddLiquidity(delta);
      var grown :- pool.AddLiquidity(delta);
      Ok(this.(pool := grown).With(id, p))
    }

    /** `Pool::apply_remove_liquidity` after the position's fees are settled. */
    function WithdrawLiquidity(id: Id, delta: uint128): Result<Ledger>
      requires id in positions
    {
      var p :- positions[id].RemoveUnlockedLiquidity(delta);
      var shrunk :- pool.RemoveLiquidity(delta);
      Ok(this.(pool := shrunk).With(id, p))
    }

    function AddLiquidity(id: Id, delta: uint128, max: Pair<uint64>): Result<Ledger> {
      var _ :- Find(id);
      var _ :- Require(delta > 0, InvalidParameters);
      var rewarded :- UpdateRewards(id);
      var amounts :- rewarded.pool.Curve().Amounts(delta, Up);
      var _ :- Require(amounts.zero > 0 || amounts.one > 0, AmountIsZero);
      var settled :- rewarded.SettleFee(id);
      var grown :- settled.DepositLiquidity(id, delta);
      var _ :- Require(amounts.zero <= max.zero, ExceededSlippage);
      var _ :- Require(amounts.one <= max.one, ExceededSlippage);
      grown.CreditBoth(amounts)
    }

    function Removed(id: Id, delta: Option<uint128>): uint128
      requires id in positions
    {
      if delta.Some? then delta.value else positions[id].unlocked
    }

    function RemoveLiquidity(id: Id, delta: Option<uint128>, min: Pair<uint64>): Result<Ledger> {
      var _ :- Find(id);
      var removed := Removed(id, delta);
      var _ :- Require(0 < removed <= positions[id].unlocked, InsufficientLiquidity);
      var rewarded :- UpdateRewards(id);
      var amounts :- rewarded.pool.Curve().Amounts(removed, Down);
      var _ :- Require(amounts.zero > 0 || amounts.one > 0, AmountIsZero);
      var _ :- Require(amounts.zero >= min.zero, ExceededSlippage);
      var _ :- Require(amounts.one >= min.one, ExceededSlippage);
      var settled :- rewarded.SettleFee(id);
      var shrunk :- settled.WithdrawLiquidity(id, removed);
      shrunk.DebitBoth(amounts)
    }

    // -------------------------------------------------------------------------------------------
    // Swaps
    // -------------------------------------------------------------------------------------------

    /** The off-chain quote: the pool as it is, without the update a swap makes first. */
    function Quote(received: uint64, direction: TradeDirection, hasReferral: bool): Result<SwapResult> {
      var _ :- Require(received > 0, AmountIsZero);
      var _ :- Require(pool.config.activationPoint <= Point(), PoolDisabled);
      var mode := GetFeeMode(pool.config.collectFeeMode, direction, hasReferral);
      pool.GetSwapResult(received, mode, direction, Point())
    }

    /** Input into its vault, output and referral fee out of theirs. */
    function MoveSwap(received: uint64, result: SwapResult, direction: TradeDirection, mode: FeeMode): Result<Ledger> {
      var paidIn :- Credit(InputToken(direction), received);
      var paidOut :- paidIn.Debit(InputToken(direction.Opposite()), result.outputAmount);
      if mode.hasReferral then paidOut.Debit(mode.FeeToken(), result.referralFee) else Ok(paidOut)
    }

    /** `received` is what reaches the vault. */
    function Swap(received: uint64, minimumOut: uint64, direction: TradeDirection, hasReferral: bool): Result<Ledger> {
      var _ :- Require(received > 0, AmountIsZero);
      var referenced :- pool.UpdatePreSwap(Now());
      var mode := GetFeeMode(pool.config.collectFeeMode, direction, hasReferral);
      var result :- referenced.GetSwapResult(received, mode, direction, Point());
      var _ :- Require(result.outputAmount >= minimumOut, ExceededSlippage);
      var swapped :- referenced.ApplySwapResult(result, mode, Now());
      this.(pool := swapped).MoveSwap(received, result, direction, mode)
    }

    // -------------------------------------------------------------------------------------------
    // Fee claims
    // -------------------------------------------------------------------------------------------

    function PendingFees(id: Id): Pair<uint64>
      requires id in positions
    {
      Pair(positions[id].fees.zero.pending, positions[id].fees.one.pending)
    }

    function ClaimPositionFee(id: Id): Result<Ledger> {
      var _ :- Find(id);
      var settled :- SettleFee(id);
      var p :- settled.positions[id].ClaimFees();
      settled.With(id, p).DebitBoth(settled.PendingFees(id))
    }

    function ClaimProtocolFee(max: Pair<uint64>): Result<Ledger> {
      this.(pool := pool.ClaimProtocolFee(max)).DebitBoth(pool.ClaimableProtocol(max))
    }

    function ClaimPartnerFee(max: Pair<uint64>): Result<Ledger> {
      this.(pool := pool.ClaimPartnerFee(max)).DebitBoth(pool.ClaimablePartner(max))
    }

    // -------------------------------------------------------------------------------------------
    // Locks and vesting
    // -------------------------------------------------------------------------------------------

    function LockPosition(id: Id, vestingId: Id, parameters: VestingParameters): Result<Ledger> {
      var _ :- Find(id);
      var _ :- Require(vestingId !in vestings, AccountInUse);
      var total :- parameters.Validate(Point(), MaxVestingDuration(pool.config.activationType));
      var p :- positions[id].Lock(total);
      Ok(With(id, p).(vestings := vestings[vestingId := parameters.ToVesting(id, Point())]))
    }

    /** One turn of the refresh loop: release, and close the vesting when it is done. */
    function RefreshOne(id: Id, vestingId: Id): Result<Ledger>
      requires id in positions
    {
      var _ :- Require(vestingId in vestings, AccountNotFound);
      var vesting := vestings[vestingId];
      var _ :- Require(vesting.position == id, InvalidVestingAccount);
      var released :- vesting.NewReleaseLiquidity(Point());
      var p :- if released > 0 then positions[id].ReleaseVestedLiquidity(released) else Ok(positions[id]);
      var v :- vesting.Release(Point());
      var done :- v.Done();
      Ok(With(id, p).(vestings := if done then vestings - {vestingId} else vestings[vestingId := v]))
    }

    function RefreshAll(id: Id, vestingIds: seq<Id>): Result<Ledger>
      requires id in positions
      decreases |vestingIds|
    {
      if vestingIds == [] then Ok(this) else
        var next :- RefreshOne(id, vestingIds[0]);
        next.RefreshAll(id, vestingIds[1..])
    }

    function RefreshVesting(id: Id, vestingIds: seq<Id>): Result<Ledger> {
      var _ :- Find(id);
      RefreshAll(id, vestingIds)
    }

    function PermanentLockPosition(id: Id, amount: uint128): Result<Ledger> {
      var _ :- Find(id);
      var p :- positions[id].PermanentLockLiquidity(amount);
      var locked :- pool.AccumulatePermanentLock(amount);
      Ok(this.(pool := locked).With(id, p))
    }

    function SplitPosition(first: Id, second: Id, parameters: SplitParameters): Result<Ledger> {
      var _ :- Find(first);
      var _ :- Find(second);
      var _ :- Require(first != second, SamePosition);
      var _ :- parameters.Validate();
      var _ :- Require(positions[first].vested == 0, UnsupportPositionHasVestingLock);
      var accrued :- AccrueRewards();
      var one :- accrued.SettleReward(first);
      var both :- one.SettleReward(second);
      var initialized := Pair(pool.rewards.zero.initialized, pool.rewards.one.initialized);
      var split :- Split(both.positions[first], both.positions[second])
                   .Apply(pool.FeePerLiquidity(), initialized, parameters);
      Ok(both.With(first, split.first).With(second, split.second))
    }

    // -------------------------------------------------------------------------------------------
    // Rewards
    // -------------------------------------------------------------------------------------------

    function WithReward(i: Index, r: RewardView): Ledger {
      this.(pool := pool.(rewards := pool.rewards.Set(i, r)))
    }

    function ValidDuration(duration: uint64): Check {
      Require(MIN_REWARD_DURATION <= duration <= MAX_REWARD_DURATION, InvalidRewardDuration)
    }

    function InitializeReward(i: Index, duration: uint64): Result<Ledger> {
      var _ :- ValidDuration(duration);
      var _ :- Require(!pool.rewards.Get(i).initialized, RewardInitialized);
      Ok(WithReward(i, pool.rewards.Get(i).(initialized := true, rewardDuration := duration)))
    }

    function UpdateRewardDuration(i: Index, duration: uint64): Result<Ledger> {
      var r := pool.rewards.Get(i);
      var _ :- ValidDuration(duration);
      var _ :- Require(r.initialized, RewardInitialized);
      var _ :- Require(r.rewardDuration != duration, IdenticalRewardDuration);
      var _ :- Require(r.rewardDurationEnd < Now(), RewardCampaignInProgress);
      Ok(WithReward(i, r.(rewardDuration := duration)))
    }

    /** `received` is what reaches the reward vault. */
    function FundReward(i: Index, received: uint64, carryForward: bool): Result<Ledger> {
      var _ :- Require(pool.rewards.Get(i).initialized, RewardUninitialized);
      var _ :- Require(received > 0, AmountIsZero);
      var accrued :- AccrueRewards();
      var funded :- accrued.pool.rewards.Get(i).Fund(Now(), received, carryForward);
      accrued.WithReward(i, funded).CreditReward(i, received)
    }

    function WithdrawIneligibleReward(i: Index): Result<Ledger> {
      var r := pool.rewards.Get(i);
      var _ :- Require(r.initialized, RewardUninitialized);
      var _ :- Require(Now() > r.rewardDurationEnd, RewardNotEnded);
      var accrued :- AccrueRewards();
      var updated := accrued.pool.rewards.Get(i);
      var amount :- updated.IneligibleReward();
      accrued.WithReward(i, updated.(emptySeconds := 0)).DebitReward(i, amount)
    }

    /** A frozen reward vault pays nothing; the holder may then give the reward up. */
    function ClaimReward(id: Id, i: Index, frozen: bool, skip: bool): Result<Ledger> {
      var _ :- Find(id);
      var _ :- Require(pool.rewards.Get(i).initialized, RewardUninitialized);
      var rewarded :- UpdateRewards(id);
      var p := rewarded.positions[id];
      var amount := p.rewards.Get(i).pending;
      var claimed := rewarded.With(id, p.ClaimReward(i));
      if amount > 0 && frozen then
        var _ :- Require(skip, RewardVaultFrozenSkipRequired);
        Ok(claimed)
      else
        claimed.DebitReward(i, amount)
    }
  }

  function MaxVestingDuration(activationType: ActivationType): uint64 {
    if activationType.Slot? then MAX_VESTING_SLOT_DURATION else MAX_VESTING_TIME_DURATION
  }

  function InputToken(direction: TradeDirection): Index {
    if direction.AtoB? then TOKEN_A else TOKEN_B
  }

  // ---------------------------------------------------------------------------------------------
  // Creation
  // ---------------------------------------------------------------------------------------------

  const PROTOCOL_FEE_PERCENT: uint8 := 20
  const PARTNER_FEE_PERCENT: uint8 := 0
  const HOST_FEE_PERCENT: uint8 := 20

  /** The three handlers that create a pool. A config names the authority that may use it, and that authority becomes
      the partner; only a static config may name none, and it brings its own percentages. */
  datatype Creation = Customizable | StaticConfig(configPercents: FeePercents, named: bool) | DynamicConfig {
    function Percents(): FeePercents {
      if StaticConfig? then configPercents else FeePercents(PROTOCOL_FEE_PERCENT, PARTNER_FEE_PERCENT, HOST_FEE_PERCENT)
    }

    function HasPartner(): bool {
      match this
      case Customizable => false
      case StaticConfig(_, named) => named
      case DynamicConfig => true
    }

    /** What is paid in where `amount` is due: the customizable handler takes at least one unit. */
    function PaidIn(amount: uint64): uint64 {
      if Customizable? && amount == 0 then 1 else amount
    }
  }

  datatype PoolParameters = PoolParameters(
    creation: Creation,
    sqrtMinPrice: uint128,
    sqrtMaxPrice: uint128,
    sqrtPrice: uint128,
    liquidity: uint128,
    baseFee: BaseFee,
    dynamicFee: Option<DynamicFeeParameters>,
    collectFeeMode: CollectFeeMode,
    activationType: ActivationType,
    activationPoint: Option<uint64>)
  {
    function Validate(): Check {
      if !(MIN_SQRT_PRICE <= sqrtMinPrice && sqrtMaxPrice <= MAX_SQRT_PRICE) then Fail(InvalidPriceRange)
      else if !(sqrtMinPrice <= sqrtPrice <= sqrtMaxPrice) then Fail(InvalidPriceRange)
      else if !(sqrtMinPrice < sqrtMaxPrice) then Fail(InvalidPriceRange)
      else if liquidity == 0 then Fail(InvalidMinimumLiquidity)
      else if baseFee.Validate().Fail? then baseFee.Validate()
      else if dynamicFee.Some? then NewDynamicFee(dynamicFee).Validate()
      else Pass
    }

    function ToPool(clock: Clock): PoolView {
      var config := PoolConfig(
        sqrtMinPrice, sqrtMaxPrice, baseFee, creation.Percents(), creation.HasPartner(), collectFeeMode, activationType,
        if activationPoint.Some? then activationPoint.value else clock.Point(activationType));
      PoolView(config, liquidity, sqrtPrice, Pair(NO_FEES, NO_FEES), 0, NewDynamicFee(dynamicFee), Pair(NO_REWARD, NO_REWARD))
    }
  }

  /** Creates a pool: one position holds all the liquidity. The checks that a static config went through when it was
      created are made here. */
  function InitializePool(clock: Clock, id: Id, parameters: PoolParameters): Result<Ledger> {
    var _ :- parameters.Validate();
    var (amountA, amountB) :- InitializeAmounts(
      parameters.sqrtMinPrice, parameters.sqrtMaxPrice, parameters.sqrtPrice, parameters.liquidity);
    var _ :- Require(amountA > 0 || amountB > 0, AmountIsZero);
    var position := NO_POSITION.(unlocked := parameters.liquidity);
    var paid := Pair(parameters.creation.PaidIn(amountA), parameters.creation.PaidIn(amountB));
    Ok(Ledger(clock, parameters.ToPool(clock), paid, Pair(0, 0), map[id := position], map[]))
  }

  // ---------------------------------------------------------------------------------------------
  // Runs
  // ---------------------------------------------------------------------------------------------

  datatype Instruction =
    | Elapse(slots: uint64, seconds: uint64)
    | CreatePosition(id: Id)
    | ClosePosition(id: Id)
    | AddLiquidity(id: Id, added: uint128, max: Pair<uint64>)
    | RemoveLiquidity(id: Id, removed: Option<uint128>, min: Pair<uint64>)
    | Swap(received: uint64, minimumOut: uint64, direction: TradeDirection, hasReferral: bool)
    | ClaimPositionFee(id: Id)
    | ClaimProtocolFee(max: Pair<uint64>)
    | ClaimPartnerFee(max: Pair<uint64>)
    | LockPosition(id: Id, vestingId: Id, vesting: VestingParameters)
    | RefreshVesting(id: Id, vestingIds: seq<Id>)
    | PermanentLockPosition(id: Id, amount: uint128)
    | SplitPosition(first: Id, second: Id, split: SplitParameters)
    | InitializeReward(i: Index, duration: uint64)
    | UpdateRewardDuration(i: Index, duration: uint64)
    | FundReward(i: Index, received: uint64, carryForward: bool)
    | WithdrawIneligibleReward(i: Index)
    | ClaimReward(id: Id, i: Index, frozen: bool, skip: bool)

  function Execute(l: Ledger, instruction: Instruction): Result<Ledger> {
    match instruction
    case Elapse(slots, seconds) => l.Elapse(slots, seconds)
    case CreatePosition(id) => l.CreatePosition(id)
    case ClosePosition(id) => l.ClosePosition(id)
    case AddLiquidity(id, added, max) => l.AddLiquidity(id, added, max)
    case RemoveLiquidity(id, removed, min) => l.RemoveLiquidity(id, removed, min)
    case Swap(received, minimumOut, direction, hasReferral) => l.Swap(received, minimumOut, direction, hasReferral)
    case ClaimPositionFee(id) => l.ClaimPositionFee(id)
    case ClaimProtocolFee(max) => l.ClaimProtocolFee(max)
    case ClaimPartnerFee(max) => l.ClaimPartnerFee(max)
    case LockPosition(id, vestingId, vesting) => l.LockPosition(id, vestingId, vesting)
    case RefreshVesting(id, vestingIds) => l.RefreshVesting(id, vestingIds)
    case PermanentLockPosition(id, amount) => l.PermanentLockPosition(id, amount)
    case SplitPosition(first, second, split) => l.SplitPosition(first, second, split)
    case InitializeReward(i, duration) => l.InitializeReward(i, duration)
    case UpdateRewardDuration(i, duration) => l.UpdateRewardDuration(i, duration)
    case FundReward(i, received, carryForward) => l.FundReward(i, received, carryForward)
    case WithdrawIneligibleReward(i) => l.WithdrawIneligibleReward(i)
    case ClaimReward(id, i, frozen, skip) => l.ClaimReward(id, i, frozen, skip)
  }

  /** A transaction that errors leaves every account as it was. */
  function Transact(l: Ledger, instruction: Instruction): Ledger {
    var outcome := Execute(l, instruction);
    if outcome.Ok? then outcome.value else l
  }

  function Run(l: Ledger, instructions: seq<Instruction>): Ledger
    decreases |instructions|
  {
    if instructions == [] then l else Run(Transact(l, instructions[0]), instructions[1..])
  }
}
