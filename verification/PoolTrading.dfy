/** The trading laws on the pool itself: what a swap computes is a fee of the current numerator on one side of a raw
    swap, so slicing and round trips are bounded by the laws of the curve. */
module PoolTrading {
  import opened Numbers
  import opened Curve
  import opened Fees
  import opened Trading
  import opened Pools
  import opened Ledgers
  import opened Solvency
  import opened SwapSafety

  /** The fee a swap pays now: the total numerator, capped at one half, on the side the mode says. */
  function ChargeOf(pool: PoolView, mode: FeeMode, point: uint64): Charge {
    var numerator := pool.TotalTradingFee(point);
    Charge(Min(if numerator.Ok? then numerator.value else 0, MAX_FEE_NUMERATOR), mode.feesOnInput)
  }

  /** A swap result is the net swap at the current charge, and exists exactly when the net swap does. */
  lemma ResultIsNetSwap(pool: PoolView, now: nat, received: uint64, mode: FeeMode, direction: TradeDirection, point: uint64)
    requires PoolSound(pool, now)
    ensures var charge, r := ChargeOf(pool, mode, point), pool.GetSwapResult(received, mode, direction, point);
            && charge.Valid() && MIN_FEE_NUMERATOR <= charge.numerator
            && (r.Ok? <==> NetSwap(pool.Curve(), direction, charge, received).Ok?)
            && (r.Ok? ==>
                  NetSwap(pool.Curve(), direction, charge, received)
                  == Ok(SwapAmount(r.value.outputAmount, r.value.nextSqrtPrice)))
  {
    TradingFeeIsBounded(pool, now, point);
    hide CurveState.Swap, PoolView.FeeOn, PoolSound, Net, PoolView.TotalTradingFee;
    if mode.feesOnInput {
      FeeOnIs(pool, now, received, mode.hasReferral, point);
    } else {
      var swap := pool.Curve().Swap(direction, received);
      if swap.Ok? {
        FeeOnIs(pool, now, swap.value.outputAmount, mode.hasReferral, point);
      }
    }
  }

  /** The fees of a result are all that the charge takes off its side, and the curve trades exactly the rest: nothing of
      the input or of the curve's output goes missing. */
  ghost predicate ChargedExactly(pool: PoolView, received: uint64, r: SwapResult, mode: FeeMode, direction: TradeDirection,
                                 numerator: nat)
    requires numerator <= FEE_DENOMINATOR
  {
    var charged := if mode.feesOnInput then received else CurveOut(r, mode);
    && TotalFee(r) == charged - Net(charged, numerator)
    && 0 <= CurveIn(received, r, mode) <= U64_MAX && CurveOut(r, mode) <= U64_MAX
    && pool.Curve().Swap(direction, CurveIn(received, r, mode)) == Ok(SwapAmount(CurveOut(r, mode), r.nextSqrtPrice))
  }

  /** All of the charge is booked as fees, and all the rest is traded. */
  lemma ResultIsCharged(pool: PoolView, now: nat, received: uint64, mode: FeeMode, direction: TradeDirection, point: uint64)
    requires PoolSound(pool, now) && pool.GetSwapResult(received, mode, direction, point).Ok?
    ensures ChargeOf(pool, mode, point).numerator <= FEE_DENOMINATOR
    ensures ChargedExactly(pool, received, pool.GetSwapResult(received, mode, direction, point).value, mode, direction,
                           ChargeOf(pool, mode, point).numerator)
  {
    hide CurveState.Swap, PoolView.FeeOn, PoolSound, Net, SharedOut, PoolView.TotalTradingFee;
    TradingFeeIsBounded(pool, now, point);
    if mode.feesOnInput {
      FeeOnIs(pool, now, received, mode.hasReferral, point);
    } else {
      var swap := pool.Curve().Swap(direction, received);
      FeeOnIs(pool, now, swap.value.outputAmount, mode.hasReferral, point);
    }
  }

  /** The fees of a result are what the charge takes, shared out between liquidity, protocol, partner and referrer as
      the percentages say. */
  lemma ResultFeesAreShared(pool: PoolView, now: nat, received: uint64, mode: FeeMode, direction: TradeDirection, point: uint64)
    requires PoolSound(pool, now) && pool.GetSwapResult(received, mode, direction, point).Ok?
    ensures var r := pool.GetSwapResult(received, mode, direction, point).value;
            SharedOut(FeeOnAmount(r.outputAmount, r.lpFee, r.protocolFee, r.partnerFee, r.referralFee), TotalFee(r),
                      pool.config.percents, mode.hasReferral, pool.config.hasPartner)
  {
    hide CurveState.Swap, PoolView.FeeOn, PoolSound, Net, IsShare, PoolView.TotalTradingFee, Min;
    if mode.feesOnInput {
      FeeOnIs(pool, now, received, mode.hasReferral, point);
    } else {
      var swap := pool.Curve().Swap(direction, received);
      FeeOnIs(pool, now, swap.value.outputAmount, mode.hasReferral, point);
    }
  }

  /** A quote exists exactly for a positive input to an active pool whose net swap exists, and is that net swap. */
  lemma QuoteIsNetSwap(l: Ledger, received: uint64, direction: TradeDirection, hasReferral: bool)
    requires Inv(l)
    ensures var charge := ChargeOf(l.pool, GetFeeMode(l.pool.config.collectFeeMode, direction, hasReferral), l.Point());
            var quote := l.Quote(received, direction, hasReferral);
            && charge.Valid()
            && (quote.Ok? <==>
                  && received > 0 && l.pool.config.activationPoint <= l.Point()
                  && NetSwap(l.pool.Curve(), direction, charge, received).Ok?)
            && (quote.Ok? ==>
                  NetSwap(l.pool.Curve(), direction, charge, received)
                  == Ok(SwapAmount(quote.value.outputAmount, quote.value.nextSqrtPrice)))
  {
    hide Inv, PoolView.GetSwapResult, NetSwap, ChargeOf, GetFeeMode;
    InvSoundPool(l);
    ResultIsNetSwap(l.pool, l.Now(), received, GetFeeMode(l.pool.config.collectFeeMode, direction, hasReferral), direction, l.Point());
  }

  /** Whoever swaps and, with only time passing in between, swaps all proceeds back gets strictly less than was paid in:
      a validated pool always charges a fee, in every fee mode, with or without referral. */
  lemma RoundTripLoses(l: Ledger, m: Ledger, received: uint64, direction: TradeDirection, there: FeeMode, back: FeeMode)
    requires Inv(l) && Inv(m) && received > 0
    requires l.pool.GetSwapResult(received, there, direction, l.Point()).Ok?
    requires var proceeds := l.pool.GetSwapResult(received, there, direction, l.Point()).value;
             && m.pool.Curve() == l.pool.Curve().MovedTo(proceeds.nextSqrtPrice)
             && m.pool.GetSwapResult(proceeds.outputAmount, back, direction.Opposite(), m.Point()).Ok?
    ensures var proceeds := l.pool.GetSwapResult(received, there, direction, l.Point()).value;
            m.pool.GetSwapResult(proceeds.outputAmount, back, direction.Opposite(), m.Point()).value.outputAmount < received
  {
    hide Inv, PoolView.GetSwapResult, NetSwap, ChargeOf, CurveState.InRange;
    InvSoundPool(l);
    InvSoundPool(m);
    InvConserves(l);
    ResultIsNetSwap(l.pool, l.Now(), received, there, direction, l.Point());
    var proceeds := l.pool.GetSwapResult(received, there, direction, l.Point()).value;
    ResultIsNetSwap(m.pool, m.Now(), proceeds.outputAmount, back, direction.Opposite(), m.Point());
    RoundTripNeverPays(l.pool.Curve(), direction, ChargeOf(l.pool, there, l.Point()), ChargeOf(m.pool, back, m.Point()), received);
  }

  /** Consecutive swaps of `amounts` at one charge all go through and pay out at most `quoted` in total. */
  ghost predicate SlicesPayAtMost(c: CurveState, direction: TradeDirection, charge: Charge, amounts: seq<uint64>, quoted: nat) {
    && charge.Valid()
    && SlicedOutput(c, direction, charge, amounts).Ok?
    && SlicedOutput(c, direction, charge, amounts).value <= quoted
  }

  /** Cutting an order into consecutive swaps at the same charge pays at most what the pool quotes for the whole. */
  lemma SlicingAnOrderNeverHelps(pool: PoolView, now: nat, whole: uint64, amounts: seq<uint64>, mode: FeeMode,
                                 direction: TradeDirection, point: uint64)
    requires PoolSound(pool, now) && Sum(amounts) <= whole
    requires pool.GetSwapResult(whole, mode, direction, point).Ok?
    ensures SlicesPayAtMost(pool.Curve(), direction, ChargeOf(pool, mode, point), amounts,
                            pool.GetSwapResult(whole, mode, direction, point).value.outputAmount)
  {
    hide PoolSound, PoolView.GetSwapResult, NetSwap, ChargeOf, CurveState.InRange, SlicedOutput;
    PoolInRange(pool, now);
    ResultIsNetSwap(pool, now, whole, mode, direction, point);
    SlicingNeverHelps(pool.Curve(), direction, ChargeOf(pool, mode, point), whole, amounts);
  }
}
