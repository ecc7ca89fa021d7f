/** Trading fees (`state/fee.rs`, `params/fee_parameters.rs`): the base-fee schedule, the volatility fee, the
    split of a fee between its receivers, and which token and side a fee is taken from. */
module Fees {
  import opened Numbers
  import opened Arithmetic
  import opened FeeMath
  import opened Curve

  const FEE_DENOMINATOR: nat := 1_000_000_000
  const MAX_FEE_NUMERATOR: nat := 500_000_000
  const MIN_FEE_NUMERATOR: nat := 100_000
  const MIN_SQRT_PRICE: nat := 4295048016
  const MAX_SQRT_PRICE: nat := 79226673521066979257578248091
  const BIN_STEP_BPS_DEFAULT: nat := 1
  const BIN_STEP_BPS_U128_DEFAULT: nat := 1844674407370955
  const U24_MAX: nat := 0xFFFFFF

  // ---------------------------------------------------------------------------------------------
  // Base fee
  // ---------------------------------------------------------------------------------------------

  datatype FeeSchedulerMode = Linear | Exponential

  datatype BaseFee = BaseFee(
    cliffFeeNumerator: uint64,
    numberOfPeriod: uint16,
    periodFrequency: uint64,
    reductionFactor: uint64,
    mode: FeeSchedulerMode)
  {
    function NumeratorAfter(period: uint16): Result<uint64> {
      match mode
      case Linear =>
        var reduction :- Checked64(period * reductionFactor);
        Checked64(cliffFeeNumerator - reduction)
      case Exponential => FeeInPeriod(cliffFeeNumerator, reductionFactor, period)
    }

    /** Before activation only the alpha vault trades, at the last period's fee. */
    function PeriodAt(currentPoint: uint64, activationPoint: uint64): uint16
      requires periodFrequency > 0
    {
      if currentPoint < activationPoint then numberOfPeriod
      else Min((currentPoint - activationPoint) / periodFrequency, numberOfPeriod)
    }

    function CurrentNumerator(currentPoint: uint64, activationPoint: uint64): Result<uint64> {
      if periodFrequency == 0 then Ok(cliffFeeNumerator)
      else NumeratorAfter(PeriodAt(currentPoint, activationPoint))
    }

    /** Only the two ends of the schedule are checked when a pool is created. */
    function Validate(): Check {
      var last := NumeratorAfter(numberOfPeriod);
      if last.Err? then Fail(last.error)
      else if last.value >= FEE_DENOMINATOR || cliffFeeNumerator >= FEE_DENOMINATOR then Fail(InvalidFee)
      else Require(last.value >= MIN_FEE_NUMERATOR && cliffFeeNumerator <= MAX_FEE_NUMERATOR, ExceedMaxFeeBps)
    }
  }

  lemma NumeratorAfterIsMonotone(f: BaseFee, n: uint16, m: uint16)
    requires f.Validate().Pass? && n <= m <= f.numberOfPeriod
    ensures var early, late := f.NumeratorAfter(n), f.NumeratorAfter(m);
            early.Ok? && late.Ok? && late.value <= early.value <= f.cliffFeeNumerator
  {
    hide FeeInPeriod;
    match f.mode
    case Linear =>
      MulMono(n, m, f.reductionFactor);
      MulMono(m, f.numberOfPeriod, f.reductionFactor);
    case Exponential =>
      NoFeeWithoutCliff(f.reductionFactor, f.numberOfPeriod);
      FeeInPeriodIsMonotone(f.cliffFeeNumerator, f.reductionFactor, n, m, f.numberOfPeriod);
  }

  /** The fee after `n` periods exists and lies between the least and the greatest fee a pool may charge. */
  ghost predicate FeeInBounds(f: BaseFee, n: uint16) {
    f.NumeratorAfter(n).Ok? && MIN_FEE_NUMERATOR <= f.NumeratorAfter(n).value <= MAX_FEE_NUMERATOR
  }

  ghost predicate AlwaysInBounds(f: BaseFee) {
    forall n: uint16 :: n <= f.numberOfPeriod ==> FeeInBounds(f, n)
  }

  lemma InBoundsIsAccepted(f: BaseFee)
    requires AlwaysInBounds(f)
    ensures f.Validate().Pass?
  {
    hide FeeInPeriod;
    FeeInPeriodIsDefined(f.cliffFeeNumerator, f.reductionFactor, 0);
    assert FeeInBounds(f, 0) && FeeInBounds(f, f.numberOfPeriod);
  }

  /** Though only its two ends are looked at, exactly those schedules are accepted whose fee is in bounds in every
      period. */
  lemma ValidatedExactly(f: BaseFee)
    ensures f.Validate().Pass? <==> AlwaysInBounds(f)
  {
    hide FeeInPeriod;
    if AlwaysInBounds(f) {
      InBoundsIsAccepted(f);
    }
    if f.Validate().Pass? {
      forall n: uint16 | n <= f.numberOfPeriod ensures FeeInBounds(f, n) {
        NumeratorAfterIsMonotone(f, n, f.numberOfPeriod);
      }
    }
  }

  /** A schedule accepted at its two ends is safe at every point in time: the fee never errors, stays between
      the validated minimum and the cliff fee, and never rises after activation. */
  lemma ScheduleIsSafe(f: BaseFee, activationPoint: uint64, now: uint64, later: uint64)
    requires f.Validate().Pass? && now <= later
    ensures var fee, laterFee := f.CurrentNumerator(now, activationPoint), f.CurrentNumerator(later, activationPoint);
            && fee.Ok? && laterFee.Ok?
            && f.NumeratorAfter(f.numberOfPeriod).value <= fee.value <= f.cliffFeeNumerator
            && MIN_FEE_NUMERATOR <= fee.value <= MAX_FEE_NUMERATOR
            && (activationPoint <= now ==> laterFee.value <= fee.value)
  {
    if f.periodFrequency == 0 {
      NumeratorAfterIsMonotone(f, f.numberOfPeriod, f.numberOfPeriod);
    } else {
      NumeratorAfterIsMonotone(f, f.PeriodAt(now, activationPoint), f.numberOfPeriod);
      NumeratorAfterIsMonotone(f, f.PeriodAt(later, activationPoint), f.numberOfPeriod);
      if activationPoint <= now {
        PeriodsPass(f, activationPoint, now, later);
        NumeratorAfterIsMonotone(f, f.PeriodAt(now, activationPoint), f.PeriodAt(later, activationPoint));
      }
    }
  }

  lemma PeriodsPass(f: BaseFee, activationPoint: uint64, now: uint64, later: uint64)
    requires f.periodFrequency > 0 && activationPoint <= now <= later
    ensures f.PeriodAt(now, activationPoint) <= f.PeriodAt(later, activationPoint)
  {
    FloorMono(now - activationPoint, later - activationPoint, f.periodFrequency);
  }

  /** The fee in the `k`-th period after activation, and the last one before activation; without periods it never
      changes. */
  lemma FeeOfPeriod(f: BaseFee, activationPoint: uint64, now: uint64, k: uint16)
    ensures f.periodFrequency == 0 ==> f.CurrentNumerator(now, activationPoint) == Ok(f.cliffFeeNumerator)
    ensures f.periodFrequency > 0 && now < activationPoint ==> f.CurrentNumerator(now, activationPoint) == f.NumeratorAfter(f.numberOfPeriod)
    ensures f.periodFrequency > 0 && now >= activationPoint
            && InPeriod(now - activationPoint, f.periodFrequency, f.numberOfPeriod, k) ==>
              f.CurrentNumerator(now, activationPoint) == f.NumeratorAfter(k)
  {
    hide InPeriod, BaseFee.NumeratorAfter;
    if f.periodFrequency > 0 && now >= activationPoint && InPeriod(now - activationPoint, f.periodFrequency, f.numberOfPeriod, k) {
      WholePeriods(now - activationPoint, f.periodFrequency, f.numberOfPeriod, k);
    }
  }

  /** A linear fee loses the same each period. */
  lemma LinearFeeOfPeriod(f: BaseFee, k: uint16)
    requires f.Validate().Pass? && f.mode.Linear? && k <= f.numberOfPeriod
    ensures f.NumeratorAfter(k) == Ok(f.cliffFeeNumerator - k * f.reductionFactor)
  {
    NumeratorAfterIsMonotone(f, k, f.numberOfPeriod);
    hide BaseFee.Validate;
  }

  // ---------------------------------------------------------------------------------------------
  // Dynamic fee
  // ---------------------------------------------------------------------------------------------

  /** The number of bins between two prices, for small bins: `2 * (upper / lower - 1) / binStep`. */
  function DeltaBinId(binStepU128: uint128, priceA: uint128, priceB: uint128): Result<uint128> {
    var upper, lower := if priceA > priceB then priceA else priceB, if priceA > priceB then priceB else priceA;
    var ratio :- ShlDiv64(upper, lower);
    var excess :- Checked128(ratio - Q64);
    var _ :- Require(binStepU128 > 0, MathOverflow);
    Checked128(excess / binStepU128 * 2)
  }

  /** The squared volatility in units of 1e-20, scaled to billionths and rounded up. */
  function SquaredFee(volatility: uint128, control: uint32): Result<uint128> {
    var square := volatility * volatility;
    var _ :- Require(square <= U128_MAX, Panic);
    FeeOfSquare(square, control)
  }

  function FeeOfSquare(square: uint128, control: uint32): Result<uint128> {
    var fee :- Checked128(square * control);
    var rounded :- Checked128(fee + 99_999_999_999);
    Ok(rounded / 100_000_000_000)
  }

  datatype DynamicFee = DynamicFee(
    initialized: bool,
    maxVolatilityAccumulator: uint32,
    variableFeeControl: uint32,
    binStep: uint16,
    filterPeriod: uint16,
    decayPeriod: uint16,
    reductionFactor: uint16,
    lastUpdateTimestamp: uint64,
    binStepU128: uint128,
    sqrtPriceReference: uint128,
    volatilityAccumulator: uint128,
    volatilityReference: uint128)
  {
    /** `DynamicFeeParameters::validate`. */
    function Validate(): Check {
      Require(
        && binStep == BIN_STEP_BPS_DEFAULT
        && binStepU128 == BIN_STEP_BPS_U128_DEFAULT
        && filterPeriod < decayPeriod
        && reductionFactor <= BASIS_POINT_MAX
        && variableFeeControl <= U24_MAX
        && maxVolatilityAccumulator <= U24_MAX,
        InvalidInput)
    }

    function UpdateVolatilityAccumulator(sqrtPrice: uint128): Result<DynamicFee> {
      var delta :- DeltaBinId(binStepU128, sqrtPrice, sqrtPriceReference);
      var scaled :- Checked128(delta * BASIS_POINT_MAX);
      var accumulator :- Checked128(volatilityReference + scaled);
      Ok(this.(volatilityAccumulator := Min(accumulator, maxVolatilityAccumulator)))
    }

    function UpdateReferences(sqrtPrice: uint128, now: uint64): Result<DynamicFee> {
      var elapsed :- Checked64(now - lastUpdateTimestamp);
      if elapsed < filterPeriod then Ok(this)
      else if elapsed < decayPeriod then
        var decayed :- Checked128(volatilityAccumulator * reductionFactor);
        Ok(this.(sqrtPriceReference := sqrtPrice, volatilityReference := decayed / BASIS_POINT_MAX))
      else
        Ok(this.(sqrtPriceReference := sqrtPrice, volatilityReference := 0))
    }

    function VariableFee(): Result<uint128> {
      if !initialized then Ok(0) else
        var scaled :- Checked128(volatilityAccumulator * binStep);
        SquaredFee(scaled, variableFeeControl)
    }

    /** `Pool::update_pre_swap`. */
    function BeforeSwap(sqrtPrice: uint128, now: uint64): Result<DynamicFee> {
      if initialized then UpdateReferences(sqrtPrice, now) else Ok(this)
    }

    /** `Pool::update_post_swap`: the timestamp moves only when a bin is crossed. */
    function AfterSwap(oldPrice: uint128, newPrice: uint128, now: uint64): Result<DynamicFee> {
      if !initialized then Ok(this) else
        var updated :- UpdateVolatilityAccumulator(newPrice);
        var crossed :- DeltaBinId(binStepU128, oldPrice, newPrice);
        Ok(if crossed > 0 then updated.(lastUpdateTimestamp := now) else updated)
    }

    /** What every pool keeps: validated parameters, both volatilities within their bound, and a reference
        price that is either a price the pool has had or, before the first recorded swap, still zero. */
    ghost predicate Sound(now: nat) {
      initialized ==>
        && Validate().Pass?
        && volatilityAccumulator <= maxVolatilityAccumulator
        && volatilityReference <= maxVolatilityAccumulator
        && lastUpdateTimestamp <= now
        && (sqrtPriceReference == 0 ==> lastUpdateTimestamp == 0)
        && (sqrtPriceReference != 0 ==> MIN_SQRT_PRICE <= sqrtPriceReference <= MAX_SQRT_PRICE)
    }

    /** No reference price has been set and none will be by this swap. */
    ghost predicate Blocked(now: nat) {
      initialized && sqrtPriceReference == 0 && now < filterPeriod
    }
  }

  datatype DynamicFeeParameters = DynamicFeeParameters(
    binStep: uint16,
    binStepU128: uint128,
    filterPeriod: uint16,
    decayPeriod: uint16,
    reductionFactor: uint16,
    maxVolatilityAccumulator: uint32,
    variableFeeControl: uint32)
  {
    /** `to_dynamic_fee_struct`: no volatility, no reference price and no timestamp yet. */
    function ToDynamicFee(): DynamicFee {
      DynamicFee(true, maxVolatilityAccumulator, variableFeeControl, binStep, filterPeriod, decayPeriod,
                 reductionFactor, 0, binStepU128, 0, 0, 0)
    }
  }

  const NO_DYNAMIC_FEE := DynamicFee(false, 0, 0, 0, 0, 0, 0, 0, 0, 0, 0, 0)

  function NewDynamicFee(parameters: Option<DynamicFeeParameters>): DynamicFee {
    if parameters.Some? then parameters.value.ToDynamicFee() else NO_DYNAMIC_FEE
  }

  /** Between any two prices of the global range the bin distance is defined and small. */
  lemma DeltaBinIdInRange(a: uint128, b: uint128)
    requires MIN_SQRT_PRICE <= a <= MAX_SQRT_PRICE && MIN_SQRT_PRICE <= b <= MAX_SQRT_PRICE
    ensures var r := DeltaBinId(BIN_STEP_BPS_U128_DEFAULT, a, b);
            r.Ok? && r.value <= 0x1_0000_0000_0000_0000_0000
  {
    var upper, lower := if a > b then a else b, if a > b then b else a;
    assert MAX_SQRT_PRICE * Q64 < (U128_MAX + 1) * MIN_SQRT_PRICE;
    FloorBelow(upper * Q64, lower, U128_MAX + 1);
    FloorIsGreatest(upper * Q64, lower, Q64) by {
      MulMono(lower, upper, Q64);
    }
  }

  /** `d` whole bins fit between the prices, at a linear bin width of `BIN_STEP_BPS_U128_DEFAULT`. */
  ghost predicate BinsBetween(lower: nat, upper: nat, d: nat) {
    (Q64 + d * BIN_STEP_BPS_U128_DEFAULT) * lower <= upper * Q64 < (Q64 + (d + 1) * BIN_STEP_BPS_U128_DEFAULT) * lower
  }

  /** The bin distance is twice the number of whole bins between the prices, whichever is higher. */
  lemma DeltaBinIdCounts(lower: uint128, upper: uint128)
    requires MIN_SQRT_PRICE <= lower <= upper <= MAX_SQRT_PRICE
    ensures var r := DeltaBinId(BIN_STEP_BPS_U128_DEFAULT, upper, lower);
            && r.Ok? && r == DeltaBinId(BIN_STEP_BPS_U128_DEFAULT, lower, upper)
            && exists d: nat :: r.value == 2 * d && BinsBetween(lower, upper, d)
  {
    DeltaBinIdInRange(upper, lower);
    DeltaBinIdInRange(lower, upper);
    var ratio := Quotient(upper * Q64, lower);
    FloorIs(upper * Q64, lower, ratio);
    assert ratio >= Q64 by {
      MulMono(lower, upper, Q64);
      if ratio < Q64 {
        MulMono(ratio + 1, Q64, lower);
      }
    }
    var d := Quotient(ratio - Q64, BIN_STEP_BPS_U128_DEFAULT);
    FloorIs(ratio - Q64, BIN_STEP_BPS_U128_DEFAULT, d);
    MulMono(Q64 + d * BIN_STEP_BPS_U128_DEFAULT, ratio, lower);
    MulMono(ratio + 1, Q64 + (d + 1) * BIN_STEP_BPS_U128_DEFAULT, lower);
    assert BinsBetween(lower, upper, d);
  }

  /** The two prices, in either order, are `d` whole bins apart. */
  ghost predicate BinsApart(a: nat, b: nat, d: nat) {
    if a <= b then BinsBetween(a, b, d) else BinsBetween(b, a, d)
  }

  lemma DeltaBinIs(a: uint128, b: uint128) returns (d: nat)
    requires MIN_SQRT_PRICE <= a <= MAX_SQRT_PRICE && MIN_SQRT_PRICE <= b <= MAX_SQRT_PRICE
    ensures DeltaBinId(BIN_STEP_BPS_U128_DEFAULT, a, b) == Ok(2 * d) && BinsApart(a, b, d)
    ensures 2 * d <= 0x1_0000_0000_0000_0000_0000
  {
    hide DeltaBinId;
    DeltaBinIdInRange(a, b);
    if a <= b {
      DeltaBinIdCounts(a, b);
      hide BinsBetween;
      d :| DeltaBinId(BIN_STEP_BPS_U128_DEFAULT, a, b) == Ok(2 * d) && BinsBetween(a, b, d);
    } else {
      DeltaBinIdCounts(b, a);
      hide BinsBetween;
      d :| DeltaBinId(BIN_STEP_BPS_U128_DEFAULT, a, b) == Ok(2 * d) && BinsBetween(b, a, d);
    }
  }

  /** The variable fee is the least number of billionths that covers the squared volatility times the control. */
  lemma VariableFeeIsLeast(d: DynamicFee, now: nat)
    requires d.Sound(now) && d.initialized
    ensures d.VariableFee().Ok?
    ensures var fee, exact := d.VariableFee().value, d.volatilityAccumulator * d.volatilityAccumulator * d.variableFeeControl;
            (fee - 1) * 100_000_000_000 < exact <= fee * 100_000_000_000
  {
    VariableFeeIsBounded(d, now);
    assert d.volatilityAccumulator * d.binStep == d.volatilityAccumulator;
  }

  lemma VariableFeeIsBounded(d: DynamicFee, now: nat)
    requires d.Sound(now)
    ensures d.VariableFee().Ok?
  {
    if d.initialized {
      assert d.volatilityAccumulator * d.binStep == d.volatilityAccumulator;
      SquaredFeeIsBounded(d.volatilityAccumulator, d.variableFeeControl);
    }
  }

  lemma SquaredFeeIsBounded(v: nat, c: nat)
    requires v <= U24_MAX && c <= U24_MAX
    ensures SquaredFee(v, c).Ok?
  {
    var square := v * v;
    assert 0 <= square <= 0x1_0000_0000_0000 by {
      MulMono(v, U24_MAX, v);
    }
    FeeOfSquareIsBounded(square, c);
  }

  lemma FeeOfSquareIsBounded(square: nat, c: nat)
    requires square <= 0x1_0000_0000_0000 && c <= U24_MAX
    ensures FeeOfSquare(square, c).Ok?
  {
    MulMono(c, U24_MAX, square);
  }

  /** The references before a swap, by the time since the last one that crossed a bin: within the filter period they
      stay; later the current price becomes the reference, with the decayed volatility until the decay period ends and
      with none from then on. */
  ghost predicate Referenced(before: DynamicFee, after: DynamicFee, price: nat, now: nat) {
    var elapsed := now - before.lastUpdateTimestamp;
    && after == before.(sqrtPriceReference := after.sqrtPriceReference, volatilityReference := after.volatilityReference)
    && (if !before.initialized || elapsed < before.filterPeriod then after == before
        else
          && after.sqrtPriceReference == price
          && (if elapsed < before.decayPeriod then
                after.volatilityReference * BASIS_POINT_MAX <= before.volatilityAccumulator * before.reductionFactor
                < (after.volatilityReference + 1) * BASIS_POINT_MAX
              else after.volatilityReference == 0))
  }

  /** The accumulator after a swap: the reference volatility and 20,000 for each whole bin between reference and new
      price, up to the maximum. */
  ghost predicate Accumulated(before: DynamicFee, after: DynamicFee, price: nat, d: nat) {
    && BinsApart(price, before.sqrtPriceReference, d)
    && after.volatilityAccumulator == Min(before.volatilityReference + 2 * d * BASIS_POINT_MAX, before.maxVolatilityAccumulator)
  }

  /** The time of the last swap moves exactly if the swap crossed a bin. */
  ghost predicate Stamped(before: DynamicFee, after: DynamicFee, oldPrice: nat, newPrice: nat, now: nat, d: nat) {
    && BinsApart(oldPrice, newPrice, d)
    && after.lastUpdateTimestamp == if d > 0 then now else before.lastUpdateTimestamp
  }

  /** What a swap records in the dynamic fee. */
  ghost predicate Recorded(before: DynamicFee, after: DynamicFee, oldPrice: nat, newPrice: nat, now: nat) {
    if !before.initialized then after == before
    else
      && after == before.(volatilityAccumulator := after.volatilityAccumulator, lastUpdateTimestamp := after.lastUpdateTimestamp)
      && (exists d: nat :: Accumulated(before, after, newPrice, d))
      && (exists d: nat :: Stamped(before, after, oldPrice, newPrice, now, d))
  }

  /** The references move before the swap, and the swap is recorded against them. */
  ghost predicate VolatilityMoves(before: DynamicFee, after: DynamicFee, oldPrice: nat, newPrice: nat, now: nat) {
    var referenced := before.(sqrtPriceReference := after.sqrtPriceReference, volatilityReference := after.volatilityReference);
    Referenced(before, referenced, oldPrice, now) && Recorded(referenced, after, oldPrice, newPrice, now)
  }

  lemma MovesInTurn(before: DynamicFee, referenced: DynamicFee, after: DynamicFee, oldPrice: nat, newPrice: nat, now: nat)
    requires Referenced(before, referenced, oldPrice, now) && Recorded(referenced, after, oldPrice, newPrice, now)
    ensures VolatilityMoves(before, after, oldPrice, newPrice, now)
  {
    hide Accumulated, Stamped;
  }

  /** The step before a swap never fails, keeps the bounds, moves the references as the three time bands say, does not
      touch the accumulator that prices the swap, and leaves a usable reference price unless the pool is blocked. */
  lemma BeforeSwapIsSound(d: DynamicFee, price: uint128, now: uint64)
    requires d.Sound(now) && MIN_SQRT_PRICE <= price <= MAX_SQRT_PRICE
    ensures var r := d.BeforeSwap(price, now);
            && r.Ok? && r.value.Sound(now) && Referenced(d, r.value, price, now)
            && r.value.VariableFee() == d.VariableFee()
            && (r.value.initialized && r.value.sqrtPriceReference == 0 <==> d.Blocked(now))
  {
    if d.initialized {
      var v := d.volatilityAccumulator;
      MulMono(d.reductionFactor, BASIS_POINT_MAX, v);
      FloorMono(v * d.reductionFactor, v * BASIS_POINT_MAX, BASIS_POINT_MAX);
      FloorBounds(v * d.reductionFactor, BASIS_POINT_MAX);
      MulMono(v, U24_MAX, BASIS_POINT_MAX);
    }
  }

  /** The step after a swap fails exactly when there is no reference price; otherwise it records the swap and keeps the
      bounds. */
  lemma AfterSwapIsSound(d: DynamicFee, oldPrice: uint128, newPrice: uint128, now: uint64)
    requires d.Sound(now)
    requires MIN_SQRT_PRICE <= oldPrice <= MAX_SQRT_PRICE && MIN_SQRT_PRICE <= newPrice <= MAX_SQRT_PRICE
    ensures var r := d.AfterSwap(oldPrice, newPrice, now);
            && (r.Ok? <==> !(d.initialized && d.sqrtPriceReference == 0))
            && (r.Ok? ==> r.value.Sound(now) && Recorded(d, r.value, oldPrice, newPrice, now))
  {
    if d.initialized && d.sqrtPriceReference != 0 {
      var moved := DeltaBinIs(newPrice, d.sqrtPriceReference);
      var crossed := DeltaBinIs(oldPrice, newPrice);
      hide DeltaBinId, BinsApart;
      var r := d.AfterSwap(oldPrice, newPrice, now).value;
      assert Accumulated(d, r, newPrice, moved);
      assert Stamped(d, r, oldPrice, newPrice, now, crossed);
    }
  }

  // ---------------------------------------------------------------------------------------------
  // Fee on an amount
  // ---------------------------------------------------------------------------------------------

  datatype FeePercents = FeePercents(protocol: uint8, partner: uint8, referral: uint8) {
    predicate Valid() {
      protocol <= 100 && partner <= 100 && referral <= 100
    }
  }

  /** `amount` is what is left for the trade. */
  datatype FeeOnAmount = FeeOnAmount(
    amount: uint64, lpFee: uint64, protocolFee: uint64, partnerFee: uint64, referralFee: uint64)
  {
    function Total(): int {
      lpFee + protocolFee + partnerFee + referralFee
    }
  }

  function Share(whole: uint64, percent: uint8): Result<uint64> {
    MulDiv64(whole, percent, 100, Down)
  }

  function SplitFee(rest: uint64, fee: uint64, percents: FeePercents, hasReferral: bool, hasPartner: bool)
    : Result<FeeOnAmount>
  {
    var protocol :- Share(fee, percents.protocol);
    var lpFee :- Checked64(fee - protocol);
    var referral :- if hasReferral then Share(protocol, percents.referral) else Ok(0);
    var protocolAfterReferral :- Checked64(protocol - referral);
    var partner :- if hasPartner && percents.partner > 0 then Share(protocolAfterReferral, percents.partner) else Ok(0);
    var protocolFee :- Checked64(protocolAfterReferral - partner);
    Ok(FeeOnAmount(rest, lpFee, protocolFee, partner, referral))
  }

  /** `PoolFeesStruct::get_fee_on_amount` once the capped numerator is known. */
  function ChargeFee(amount: uint64, numerator: uint64, percents: FeePercents, hasReferral: bool, hasPartner: bool)
    : Result<FeeOnAmount>
  {
    var fee :- MulDiv64(amount, numerator, FEE_DENOMINATOR, Up);
    var rest :- Checked64(amount - fee);
    SplitFee(rest, fee, percents, hasReferral, hasPartner)
  }

  /** What a trade is left with after a fee of `numerator` billionths, rounded down. */
  function Net(amount: nat, numerator: nat): nat
    requires numerator <= FEE_DENOMINATOR
  {
    amount * (FEE_DENOMINATOR - numerator) / FEE_DENOMINATOR
  }

  /** A share of `percent` hundredths, rounded down. */
  ghost predicate IsShare(share: nat, percent: nat, whole: nat) {
    100 * share <= percent * whole < 100 * share + 100
  }

  lemma NetBounds(amount: nat, numerator: nat)
    requires numerator <= FEE_DENOMINATOR
    ensures Net(amount, numerator) == amount - DivRound(amount * numerator, FEE_DENOMINATOR, Up)
    ensures Net(amount, numerator) <= amount
    ensures amount > 0 && numerator > 0 ==> Net(amount, numerator) < amount
    ensures numerator == 0 ==> Net(amount, numerator) == amount
  {
    var n, keep := amount * numerator, amount * (FEE_DENOMINATOR - numerator);
    assert n + keep == amount * FEE_DENOMINATOR;
    FloorIsDivision(n + FEE_DENOMINATOR - 1, FEE_DENOMINATOR);
    assert amount > 0 && numerator > 0 ==> n > 0;
  }

  lemma ShareOf(whole: uint64, percent: uint8)
    ensures var r := Share(whole, percent);
            && (r.Ok? ==> IsShare(r.value, percent, whole))
            && (percent <= 100 ==> r.Ok? && r.value <= whole)
            && (percent == 0 ==> r == Ok(0))
  {
    hide Floor;
    var product := whole * percent;
    assert percent * whole == product;
    var share := SharePart(product);
    if percent <= 100 {
      MulMono(percent, 100, whole);
      CancelFactor(share, whole, 100);
    }
  }

  lemma SharePart(product: nat) returns (share: nat)
    ensures DivRound(product, 100, Down) == share && share * 100 <= product < share * 100 + 100
  {
    share := DivRound(product, 100, Down);
    DivRoundBounds(product, 100, Down);
  }

  /** Protocol takes its share of the fee, a referrer its share of that, a partner its share of the rest. */
  ghost predicate SharedOut(s: FeeOnAmount, fee: nat, percents: FeePercents, hasReferral: bool, hasPartner: bool) {
    var protocolSide := s.protocolFee + s.partnerFee + s.referralFee;
    && s.lpFee + protocolSide == fee
    && IsShare(protocolSide, percents.protocol, fee)
    && (if hasReferral then IsShare(s.referralFee, percents.referral, protocolSide) else s.referralFee == 0)
    && (if hasPartner then IsShare(s.partnerFee, percents.partner, s.protocolFee + s.partnerFee) else s.partnerFee == 0)
  }

  lemma SplitIsShared(rest: uint64, fee: uint64, percents: FeePercents, hasReferral: bool, hasPartner: bool)
    ensures var r := SplitFee(rest, fee, percents, hasReferral, hasPartner);
            && (percents.Valid() ==> r.Ok?)
            && (r.Ok? ==> r.value.amount == rest && SharedOut(r.value, fee, percents, hasReferral, hasPartner))
  {
    hide Share, IsShare;
    ShareOf(fee, percents.protocol);
    var protocol := Share(fee, percents.protocol);
    if protocol.Ok? {
      ShareOf(protocol.value, percents.referral);
      var referral := if hasReferral then Share(protocol.value, percents.referral) else Ok(0);
      if referral.Ok? && referral.value <= protocol.value {
        ShareOf(protocol.value - referral.value, percents.partner);
      }
    }
  }

  /** A fee of at most one half conserves the amount, leaves the trade exactly `Net`, and is shared out as the
      percentages say; with percentages of at most 100 it is always defined. */
  lemma FeeIsConserved(amount: uint64, numerator: uint64, percents: FeePercents, hasReferral: bool, hasPartner: bool)
    requires numerator <= MAX_FEE_NUMERATOR
    ensures var r := ChargeFee(amount, numerator, percents, hasReferral, hasPartner);
            && (percents.Valid() ==> r.Ok?)
            && (r.Ok? ==>
                  && r.value.amount == Net(amount, numerator)
                  && SharedOut(r.value, amount - r.value.amount, percents, hasReferral, hasPartner))
  {
    NetBounds(amount, numerator);
    SplitIsShared(Net(amount, numerator), amount - Net(amount, numerator), percents, hasReferral, hasPartner);
  }

  // ---------------------------------------------------------------------------------------------
  // Which token and side the fee is taken from
  // ---------------------------------------------------------------------------------------------

  datatype CollectFeeMode = BothToken | OnlyB

  datatype FeeMode = FeeMode(feesOnInput: bool, feesOnTokenA: bool, hasReferral: bool) {
    function FeeToken(): Index {
      if feesOnTokenA then TOKEN_A else TOKEN_B
    }
  }

  function GetFeeMode(mode: CollectFeeMode, direction: TradeDirection, hasReferral: bool): FeeMode {
    match (mode, direction)
    case (BothToken, AtoB) => FeeMode(false, false, hasReferral)
    case (BothToken, BtoA) => FeeMode(false, true, hasReferral)
    case (OnlyB, AtoB) => FeeMode(false, false, hasReferral)
    case (OnlyB, BtoA) => FeeMode(true, false, hasReferral)
  }
}
