/** What a trader can get out of the pool with liquidity and fee numerators given: slicing an order never
    helps, trading back and forth never pays, and a deposit is returned up to rounding.

    The proptests of the repository sample these claims (`swap_tests.rs`, `modify_liquidity_tests.rs`). */
module Trading {
  import opened Numbers
  import opened Arithmetic
  import opened Curve
  import opened Fees

  /** The total fee of a trade: its numerator and the side it is taken from. */
  datatype Charge = Charge(numerator: uint64, onInput: bool) {
    predicate Valid() {
      numerator <= MAX_FEE_NUMERATOR
    }

    function OnInput(amount: uint64): uint64
      requires Valid()
    {
      if onInput then NetBounds(amount, numerator); Net(amount, numerator) else amount
    }

    function OnOutput(amount: uint64): uint64
      requires Valid()
    {
      if onInput then amount else NetBounds(amount, numerator); Net(amount, numerator)
    }
  }

  /** A swap as the trader sees it: what is paid out and where the price ends. */
  function NetSwap(c: CurveState, direction: TradeDirection, charge: Charge, amountIn: uint64): Result<SwapAmount>
    requires charge.Valid()
  {
    var raw :- c.Swap(direction, charge.OnInput(amountIn));
    Ok(SwapAmount(charge.OnOutput(raw.outputAmount), raw.nextSqrtPrice))
  }

  // ---------------------------------------------------------------------------------------------
  // Order slicing
  // ---------------------------------------------------------------------------------------------

  /** Two steps down end no lower and pay no more than one step of at least their size. */
  lemma TwoStepsDown(l: nat, p: nat, x: nat, n1: nat, out1: nat, y: nat, n2: nat, out2: nat, z: nat, n: nat, out: nat)
    requires 0 < n1 <= p && 0 < n2 <= n1 && x + y <= z
    requires StepAtoB(l, p, x, n1, out1) && StepAtoB(l, n1, y, n2, out2) && StepAtoB(l, p, z, n, out)
    ensures n <= n2 && out1 + out2 <= out
  {
    RoundedStepsDown(l, p, x, y, z, n1, n2);
    LeastIs(l * p, l + z * p, n, n2);
    assert l * (p - n1) + l * (n1 - n2) == l * (p - n2);
    MulMono(p - n2, p - n, l);
    CancelFactorStrict(out1 + out2, out + 1, Q128);
  }

  lemma RoundedStepsDown(l: nat, p: nat, x: nat, y: nat, z: nat, n1: nat, n2: nat)
    requires n1 > 0 && x + y <= z
    requires l * p <= n1 * (l + x * p) && l * n1 <= n2 * (l + y * n1)
    ensures l * p <= n2 * (l + z * p)
  {
    var q, d := l + y * n1, l + z * p;
    StepDenominators(l, p, x, y, z, n1);
    MulMono(l * n1, n2 * q, p);
    MulMono(q * p, d * n1, n2);
    Regroup(l * n1 * p, l * p * n1, n2, q, p, d, n1) by {
      assert l * n1 * p == l * p * n1;
    }
    CancelFactor(l * p, n2 * d, n1);
  }

  lemma Regroup(a: nat, b: nat, n: nat, q: nat, p: nat, d: nat, e: nat)
    requires a == b && a <= n * q * p && n * (q * p) <= n * (d * e)
    ensures b <= n * d * e
  {
    assert n * q * p == n * (q * p);
    assert n * d * e == n * (d * e);
  }

  lemma StepDenominators(l: nat, p: nat, x: nat, y: nat, z: nat, n: nat)
    requires l * p <= n * (l + x * p) && x + y <= z
    ensures (l + y * n) * p <= (l + z * p) * n
  {
    assert (l + y * n) * p == l * p + y * p * n;
    assert n * (l + x * p) + y * p * n == (l + x * p + y * p) * n;
    assert x * p + y * p == (x + y) * p;
    MulMono(x + y, z, p);
    MulMono(l + x * p + y * p, l + z * p, n);
  }

  /** Two steps up end no higher and pay no more than one step of at least their size. */
  lemma TwoStepsUp(l: nat, p: nat, x: nat, n1: nat, out1: nat, y: nat, n2: nat, out2: nat, z: nat, n: nat, out: nat)
    requires l > 0 && 0 < p <= n1 <= n2 && p <= n && x + y <= z
    requires StepBtoA(l, p, x, n1, out1) && StepBtoA(l, n1, y, n2, out2) && StepBtoA(l, p, z, n, out)
    ensures n2 <= n && out1 + out2 <= out
  {
    StepsUpStayBelow(l, p, x, n1, y, n2, z, n);
    Drained(l, p, n1, out1);
    Drained(l, n1, n2, out2);
    Drained(l, n2, n, 0) by {
      MulMono(n2, n, l);
    }
    FundedACompose(l, p, n1, n2, -(out1 as int), -(out2 as int));
    FundedACompose(l, p, n2, n, -(out1 as int) - out2, 0);
    Drained(l, p, n, out1 + out2);
    CancelFactorStrict(out1 + out2, out + 1, p * n);
  }

  lemma StepsUpStayBelow(l: nat, p: nat, x: nat, n1: nat, y: nat, n2: nat, z: nat, n: nat)
    requires l > 0 && x + y <= z && p <= n1 <= n2
    requires (n1 - p) * l <= x * Q128 && (n2 - n1) * l <= y * Q128 && z * Q128 < (n - p + 1) * l
    ensures n2 <= n
  {
    assert (n1 - p) * l + (n2 - n1) * l == (n2 - p) * l;
    CancelFactorStrict(n2 - p, n - p + 1, l);
  }

  /** Paying `a` of A out on the way up from `p` to `q`. */
  lemma Drained(l: nat, p: nat, q: nat, a: int)
    ensures FundedA(l, p, q, -a) <==> a * (p * q) <= l * (q - p)
  {
    assert l * (p - q) == -(l * (q - p));
    assert -a * (p * q) == -(a * (p * q));
  }

  /** Two steps in place of one of at least their size stay in range and pay no more. */
  lemma SliceSteps(c: CurveState, direction: TradeDirection, z: nat, n: nat, out: nat, x: nat, y: nat)
    returns (n1: nat, out1: nat, n2: nat, out2: nat)
    requires c.InRange() && c.liquidity > 0 && x + y <= z && Step(direction, c.liquidity, c.sqrtPrice, z, n, out)
    requires if direction.AtoB? then c.sqrtMinPrice <= n <= c.sqrtPrice else c.sqrtPrice <= n <= c.sqrtMaxPrice
    ensures Step(direction, c.liquidity, c.sqrtPrice, x, n1, out1) && Step(direction, c.liquidity, n1, y, n2, out2)
    ensures c.sqrtMinPrice <= n1 <= c.sqrtMaxPrice && c.sqrtMinPrice <= n2 <= c.sqrtMaxPrice && n1 > 0
    ensures if direction.AtoB? then n2 <= n1 <= c.sqrtPrice else c.sqrtPrice <= n1 <= n2
    ensures out1 + out2 <= out
  {
    hide StepAtoB, StepBtoA;
    var l, p := c.liquidity, c.sqrtPrice;
    n1, out1 := TakeStep(direction, l, p, x);
    n2, out2 := TakeStep(direction, l, n1, y);
    if direction.AtoB? {
      TwoStepsDown(l, p, x, n1, out1, y, n2, out2, z, n, out);
    } else {
      TwoStepsUp(l, p, x, n1, out1, y, n2, out2, z, n, out);
    }
  }

  lemma NetIsSuperadditive(x: nat, y: nat, z: nat, numerator: nat)
    requires numerator <= FEE_DENOMINATOR && x + y <= z
    ensures Net(x, numerator) + Net(y, numerator) <= Net(z, numerator)
  {
    var keep := FEE_DENOMINATOR - numerator;
    FloorOfSum(x * keep, y * keep, FEE_DENOMINATOR);
    MulMono(x + y, z, keep);
    assert (x + y) * keep == x * keep + y * keep;
    FloorMono(x * keep + y * keep, z * keep, FEE_DENOMINATOR);
  }

  /** What a step says is what the program computes. */
  lemma DownIsComputed(l: uint128, p: uint128, x: uint64, n: uint128, out: uint64)
    requires l > 0 && 0 < n <= p && StepAtoB(l, p, x, n, out)
    ensures Computes(AtoB, l, p, x, n, out)
  {
    NextPriceFromAIs(p, l, x, n);
    DeltaBIs(n, p, l, out);
    hide NextSqrtPriceFromA, DeltaAmountB;
  }

  lemma UpIsComputed(l: uint128, p: uint128, y: uint64, n: uint128, out: uint64)
    requires l > 0 && 0 < p <= n && StepBtoA(l, p, y, n, out)
    ensures Computes(BtoA, l, p, y, n, out)
  {
    NextPriceFromBIs(p, l, y, n);
    DeltaAIs(p, n, l, out);
    hide NextSqrtPriceFromB, DeltaAmountA;
  }

  /** Whatever satisfies the inequalities of a step in the direction of the trade and in the range is what the swap
      computes; with `SwapIsStep` the inequalities define it. */
  lemma StepIsSwap(c: CurveState, direction: TradeDirection, amountIn: uint64, n: uint128, out: uint64)
    requires c.InRange() && c.liquidity > 0 && c.MovedTo(n).InRange()
    requires if direction.AtoB? then n <= c.sqrtPrice else n >= c.sqrtPrice
    requires Step(direction, c.liquidity, c.sqrtPrice, amountIn, n, out)
    ensures c.Swap(direction, amountIn) == Ok(SwapAmount(out, n))
  {
    hide CurveState.Swap, StepAtoB, StepBtoA, Computes;
    if direction.AtoB? {
      DownIsComputed(c.liquidity, c.sqrtPrice, amountIn, n, out);
    } else {
      UpIsComputed(c.liquidity, c.sqrtPrice, amountIn, n, out);
    }
    ComputesSwap(c, direction, amountIn, n, out);
  }

  /** Cutting a net swap in two goes through and pays at most as much. */
  lemma SliceNet(c: CurveState, direction: TradeDirection, charge: Charge, z: uint64, x: uint64)
    requires charge.Valid() && c.InRange() && NetSwap(c, direction, charge, z).Ok? && x <= z
    ensures var first := NetSwap(c, direction, charge, x);
            && first.Ok? && c.MovedTo(first.value.nextSqrtPrice).InRange()
            && var second := NetSwap(c.MovedTo(first.value.nextSqrtPrice), direction, charge, z - x);
            && second.Ok?
            && first.value.outputAmount + second.value.outputAmount
            <= NetSwap(c, direction, charge, z).value.outputAmount
  {
    hide CurveState.Swap, Net, StepAtoB, StepBtoA, Computes;
    NetIsSuperadditive(x, z - x, z, charge.numerator);
    var whole, in1, in2 := charge.OnInput(z), charge.OnInput(x), charge.OnInput(z - x);
    var SwapAmount(out, n) := c.Swap(direction, whole).value;
    SwapIsStep(c, direction, whole, n, out);
    var n1, out1, n2, out2 := SliceSteps(c, direction, whole, n, out, in1, in2);
    StepIsSwap(c, direction, in1, n1, out1);
    StepIsSwap(c.MovedTo(n1), direction, in2, n2, out2);
    NetIsSuperadditive(out1, out2, out, charge.numerator);
  }

  function Sum(amounts: seq<nat>): nat {
    if amounts == [] then 0 else amounts[0] + Sum(amounts[1..])
  }

  /** The total paid out by consecutive swaps in one direction. */
  function SlicedOutput(c: CurveState, direction: TradeDirection, charge: Charge, amounts: seq<uint64>): Result<nat>
    requires charge.Valid()
    decreases |amounts|
  {
    hide NetSwap;
    if amounts == [] then Ok(0) else
      var first :- NetSwap(c, direction, charge, amounts[0]);
      var rest :- SlicedOutput(c.MovedTo(first.nextSqrtPrice), direction, charge, amounts[1..]);
      Ok(first.outputAmount + rest)
  }

  /** Order slicing never helps: whenever one swap of `whole` goes through, so do any consecutive swaps of no
      more in total, and together they pay out at most as much. */
  lemma {:induction false} SlicingNeverHelps(
    c: CurveState, direction: TradeDirection, charge: Charge, whole: uint64, amounts: seq<uint64>)
    requires charge.Valid() && c.InRange() && NetSwap(c, direction, charge, whole).Ok? && Sum(amounts) <= whole
    ensures var sliced := SlicedOutput(c, direction, charge, amounts);
            sliced.Ok? && sliced.value <= NetSwap(c, direction, charge, whole).value.outputAmount
    decreases |amounts|
  {
    hide NetSwap;
    if amounts != [] {
      SliceNet(c, direction, charge, whole, amounts[0]);
      var first := NetSwap(c, direction, charge, amounts[0]).value;
      SlicingNeverHelps(c.MovedTo(first.nextSqrtPrice), direction, charge, whole - amounts[0], amounts[1..]);
    }
  }

  // ---------------------------------------------------------------------------------------------
  // Trading there and back
  // ---------------------------------------------------------------------------------------------

  /** A step out and, with at most its proceeds, a step back. */
  ghost predicate ThereAndBack(direction: TradeDirection, l: nat, p: nat, amountIn: nat, n: nat, out: nat, back: nat,
                               m: nat, z: nat) {
    && l > 0 && p > 0 && n > 0 && m > 0 && back <= out
    && Step(direction, l, p, amountIn, n, out) && Step(direction.Opposite(), l, n, back, m, z)
    && (if direction.AtoB? then n <= p && n <= m else p <= n && m <= n)
  }

  /** Swapping in at most the raw proceeds the other way returns at most the raw input, and strictly less if
      any of the proceeds is held back. */
  lemma RawRoundTrip(direction: TradeDirection, l: nat, p: nat, amountIn: int, n: nat, out: int, back: int, m: nat, z: int)
    requires amountIn >= 0 && out >= 0 && back >= 0 && z >= 0
    requires ThereAndBack(direction, l, p, amountIn, n, out, back, m, z)
    ensures z <= amountIn && (back < out ==> z < amountIn)
  {
    StepIsFunded(direction, l, p, amountIn, n, out);
    StepIsFunded(direction.Opposite(), l, n, back, m, z);
    if direction.AtoB? {
      FundedACompose(l, p, n, m, amountIn, -z);
      ReturnFromBelow(l, p, n, m, amountIn, out, back, z);
    } else {
      FundedACompose(l, p, n, m, -out, back);
      ReturnFromAbove(l, p, n, m, amountIn, out, back, z);
    }
  }

  /** Down from `p` to `n` for `x` of A paying `out` of B, then up to `m` for `back` of B paying `z` of A. */
  lemma ReturnFromBelow(l: nat, p: nat, n: nat, m: nat, x: int, out: int, back: int, z: int)
    requires l > 0 && p > 0 && m > 0 && back <= out
    requires FundedB(l, p, n, -out) && FundedA(l, p, m, x - z) && (m - n) * l <= back * Q128
    ensures z <= x && (back < out ==> z < x)
  {
    assert l * (n - p) == n * l - p * l;
    assert (m - n) * l == m * l - n * l;
    assert m * l <= p * l - (out - back) * Q128;
    CancelFactor(m, p, l);
    assert l * (p - m) == p * l - m * l;
    assert p * m > 0;
    if z > x {
      MulMono(x - z, -1, p * m);
    } else if z == x {
      MulMono(x - z, 0, p * m);
    }
  }

  /** Up from `p` to `n` for `y` of B paying `out` of A, then down to `m` for `back` of A paying `z` of B. */
  lemma ReturnFromAbove(l: nat, p: nat, n: nat, m: nat, y: int, out: int, back: int, z: int)
    requires l > 0 && p > 0 && m > 0 && back <= out
    requires (n - p) * l <= y * Q128 && FundedA(l, p, m, back - out) && FundedB(l, n, m, -z)
    ensures z <= y && (back < out ==> z < y)
  {
    assert p * m > 0;
    MulMono(back - out, if back < out then -1 else 0, p * m);
    assert l * (p - m) == p * l - m * l;
    assert l * (m - n) == m * l - n * l;
    assert (n - p) * l == n * l - p * l;
  }

  lemma NothingForNothing(direction: TradeDirection, l: nat, p: nat, n: nat, out: nat)
    requires l > 0 && p > 0 && Step(direction, l, p, 0, n, out)
    requires if direction.AtoB? then n <= p else n >= p
    ensures n == p && out == 0
  {
    if direction.AtoB? {
      assert (n - 1) * l < l * p <= n * l;
      CancelFactor(p, n, l);
      CancelFactorStrict(out, 1, Q128);
    } else {
      assert (n - p) * l <= 0;
      CancelFactor(n - p, 0, l);
      assert p * n > 0;
      CancelFactorStrict(out, 1, p * n);
    }
  }

  /** No free lunch there and back: swapping all proceeds the other way never returns more than was put in, and
      returns strictly less as soon as either swap carries a fee. */
  lemma RoundTripNeverPays(c: CurveState, direction: TradeDirection, first: Charge, second: Charge, amountIn: uint64)
    requires first.Valid() && second.Valid() && c.InRange() && NetSwap(c, direction, first, amountIn).Ok?
    requires var there := NetSwap(c, direction, first, amountIn).value;
             NetSwap(c.MovedTo(there.nextSqrtPrice), direction.Opposite(), second, there.outputAmount).Ok?
    ensures var there := NetSwap(c, direction, first, amountIn).value;
            var again := NetSwap(c.MovedTo(there.nextSqrtPrice), direction.Opposite(), second, there.outputAmount).value;
            && again.outputAmount <= amountIn
            && (amountIn > 0 && (first.numerator > 0 || second.numerator > 0) ==> again.outputAmount < amountIn)
  {
    hide CurveState.Swap, Net, Step;
    var there := NetSwap(c, direction, first, amountIn).value;
    var mid := c.MovedTo(there.nextSqrtPrice);
    var in1, in2 := first.OnInput(amountIn), second.OnInput(there.outputAmount);
    var raw1 := c.Swap(direction, in1).value.outputAmount;
    var raw2 := mid.Swap(direction.Opposite(), in2).value.outputAmount;
    NetBounds(amountIn, first.numerator);
    NetBounds(raw1, first.numerator);
    NetBounds(there.outputAmount, second.numerator);
    NetBounds(raw2, second.numerator);
    var l, n, m := c.liquidity, there.nextSqrtPrice, mid.Swap(direction.Opposite(), in2).value.nextSqrtPrice;
    SwapIsStep(c, direction, in1, n, raw1);
    SwapIsStep(mid, direction.Opposite(), in2, m, raw2);
    RawRoundTrip(direction, l, c.sqrtPrice, in1, n, raw1, in2, m, raw2);
    if in2 == 0 {
      NothingForNothing(direction.Opposite(), l, n, m, raw2);
    }
  }

  // ---------------------------------------------------------------------------------------------
  // Without fees
  // ---------------------------------------------------------------------------------------------

  /** Both divisions of a step down leave no remainder: the price `t / d`, then the output. */
  predicate ExactDownStep(t: nat, d: nat, l: nat, p: nat) {
    d > 0 && t % d == 0 && l * (p - t / d) % Q128 == 0
  }

  /** Both divisions of a step up leave no remainder: the move `t / l`, then the output. */
  predicate ExactUpStep(t: nat, l: nat, p: nat) {
    l > 0 && p > 0 && t % l == 0 && (assert p * (p + t / l) > 0; l * (t / l) % (p * (p + t / l)) == 0)
  }

  /** Whether a raw swap rounds nothing away. */
  predicate ExactSwap(c: CurveState, direction: TradeDirection, amountIn: uint64) {
    match direction
    case AtoB => ExactDownStep(c.liquidity * c.sqrtPrice, c.liquidity + amountIn * c.sqrtPrice, c.liquidity, c.sqrtPrice)
    case BtoA => ExactUpStep(amountIn * Q128, c.liquidity, c.sqrtPrice)
  }

  /** Raw swaps in a row, each putting in all that the one before paid out. */
  function Chain(c: CurveState, directions: seq<TradeDirection>, amountIn: uint64): Result<SwapAmount>
    decreases |directions|
  {
    if directions == [] then Ok(SwapAmount(amountIn, c.sqrtPrice)) else
      var swap :- c.Swap(directions[0], amountIn);
      Chain(c.MovedTo(swap.nextSqrtPrice), directions[1..], swap.outputAmount)
  }

  function RoundTrip(c: CurveState, direction: TradeDirection, amountIn: uint64): Result<SwapAmount> {
    Chain(c, [direction, direction.Opposite()], amountIn)
  }

  /** Without fees a round trip breaks even exactly when the first swap rounds nothing away. */
  lemma BreakEvenExactly(c: CurveState, direction: TradeDirection, amountIn: uint64)
    requires c.InRange() && RoundTrip(c, direction, amountIn).Ok?
    ensures c.liquidity > 0
    ensures RoundTrip(c, direction, amountIn).value.outputAmount == amountIn <==> ExactSwap(c, direction, amountIn)
  {
    hide CurveState.Swap, ExactSwap;
    var there := c.Swap(direction, amountIn).value;
    var mid := c.MovedTo(there.nextSqrtPrice);
    assert [direction, direction.Opposite()][1..] == [direction.Opposite()] && [direction.Opposite()][1..] == [];
    assert RoundTrip(c, direction, amountIn) == Chain(mid, [direction.Opposite()], there.outputAmount);
    var again := mid.Swap(direction.Opposite(), there.outputAmount).value;
    assert RoundTrip(c, direction, amountIn) == Chain(mid.MovedTo(again.nextSqrtPrice), [], again.outputAmount) == Ok(again);
    hide RoundTrip, Chain;
    SwapIsStep(c, direction, amountIn, there.nextSqrtPrice, there.outputAmount);
    SwapIsStep(mid, direction.Opposite(), there.outputAmount, again.nextSqrtPrice, again.outputAmount);
    var l, p, n, m := c.liquidity, c.sqrtPrice, there.nextSqrtPrice, again.nextSqrtPrice;
    RawRoundTrip(direction, l, p, amountIn, n, there.outputAmount, there.outputAmount, m, again.outputAmount);
    if direction.AtoB? {
      ExactAtoB(c, amountIn, n, there.outputAmount);
      BreakEvenDown(l, p, amountIn, n, there.outputAmount, m, again.outputAmount);
    } else {
      ExactBtoA(c, amountIn, n, there.outputAmount);
      BreakEvenUp(l, p, amountIn, n, there.outputAmount, m, again.outputAmount);
    }
  }

  lemma ExactAtoB(c: CurveState, x: uint64, n: nat, out: nat)
    requires c.InRange() && c.liquidity > 0 && n <= c.sqrtPrice && StepAtoB(c.liquidity, c.sqrtPrice, x, n, out)
    ensures var l, p := c.liquidity, c.sqrtPrice;
            ExactSwap(c, AtoB, x) <==> l * p == n * (l + x * p) && l * (p - n) == out * Q128
  {
    hide ExactDownStep, ExactUpStep;
    ExactDown(c.liquidity * c.sqrtPrice, c.liquidity + x * c.sqrtPrice, n, c.liquidity, c.sqrtPrice, out);
  }

  lemma ExactDown(t: nat, d: nat, n: nat, l: nat, p: nat, out: nat)
    requires n <= p && (n - 1) * d < t <= n * d && out * Q128 <= l * (p - n) < (out + 1) * Q128
    ensures ExactDownStep(t, d, l, p) <==> t == n * d && l * (p - n) == out * Q128
  {
    CeilIsExact(t, d, n);
    if t == n * d {
      FloorIs(t, d, n) by {
        assert (n + 1) * d == n * d + d;
      }
      FloorIsExact(l * (p - n), Q128, out);
    }
  }

  lemma ExactBtoA(c: CurveState, y: uint64, n: nat, out: nat)
    requires c.InRange() && c.liquidity > 0 && n >= c.sqrtPrice && StepBtoA(c.liquidity, c.sqrtPrice, y, n, out)
    ensures var l, p := c.liquidity, c.sqrtPrice;
            ExactSwap(c, BtoA, y) <==> y * Q128 == (n - p) * l && l * (n - p) == out * (p * n)
  {
    hide ExactUpStep;
    ExactUp(y * Q128, c.liquidity, c.sqrtPrice, n, out);
  }

  lemma ExactUp(t: nat, l: nat, p: nat, n: nat, out: nat)
    requires 0 < p <= n && (n - p) * l <= t < (n - p + 1) * l
    requires out * (p * n) <= l * (n - p) < (out + 1) * (p * n)
    ensures ExactUpStep(t, l, p) <==> t == (n - p) * l && l * (n - p) == out * (p * n)
  {
    FloorIs(t, l, n - p);
    FloorIsExact(t, l, n - p);
    FloorIsExact(l * (n - p), p * n, out);
  }

  lemma ReturnsToPrice(l: nat, p: nat, n: nat, m: nat, t: nat)
    requires l > 0 && n <= p && n <= m && t == l * (p - n) && (m - n) * l <= t < (m - n + 1) * l
    ensures m == p
  {
    assert l * (p - n) == (p - n) * l;
    ExactFloor(t, l, p - n, m - n);
  }

  lemma ReturnsAmount(l: nat, p: nat, x: nat, n: nat, z: nat)
    requires 0 < n <= p && l * p == n * (l + x * p) && z * (n * p) <= l * (p - n) < (z + 1) * (n * p)
    ensures z == x
  {
    assert n * (l + x * p) == l * n + x * (n * p);
    assert l * (p - n) == l * p - l * n;
    ExactFloor(l * (p - n), n * p, x, z) by {
      assert n * p > 0;
    }
  }

  lemma ExactDownReturns(l: nat, p: nat, x: nat, n: nat, out: nat, m: nat, z: nat)
    requires l > 0 && 0 < n <= p && n <= m && z <= x && StepBtoA(l, n, out, m, z)
    requires l * p == n * (l + x * p) && l * (p - n) == out * Q128
    ensures z == x
  {
    ReturnsToPrice(l, p, n, m, out * Q128);
    ReturnsAmount(l, p, x, n, z);
  }

  lemma ExactFloor(t: nat, d: nat, exact: nat, q: nat)
    requires d > 0 && t == exact * d && q * d <= t < (q + 1) * d
    ensures q == exact
  {
    CancelFactor(q, exact, d);
    CancelFactorStrict(exact, q + 1, d);
  }

  lemma ExactCeiling(t: nat, d: nat, exact: nat, q: nat)
    requires d > 0 && t == exact * d && (q - 1) * d < t <= q * d
    ensures q == exact
  {
    CancelFactorStrict(q - 1, exact, d);
    CancelFactor(exact, q, d);
  }

  lemma BreakEvenDown(l: nat, p: nat, x: int, n: nat, out: int, m: nat, z: int)
    requires l > 0 && 0 < n <= p && n <= m && 0 <= z <= x && out >= 0
    requires StepAtoB(l, p, x, n, out) && StepBtoA(l, n, out, m, z)
    ensures z == x <==> l * p == n * (l + x * p) && l * (p - n) == out * Q128
  {
    if l * p == n * (l + x * p) && l * (p - n) == out * Q128 {
      ExactDownReturns(l, p, x, n, out, m, z);
    } else if z == x {
      FullReturnIsExactDown(l, p, x, n, out, m);
    }
  }

  lemma FullReturnIsExactDown(l: nat, p: nat, x: int, n: nat, out: int, m: nat)
    requires l > 0 && 0 < n <= p && n <= m && x >= 0 && out >= 0
    requires StepAtoB(l, p, x, n, out) && StepBtoA(l, n, out, m, x)
    ensures l * p == n * (l + x * p) && l * (p - n) == out * Q128
  {
    StepIsFunded(AtoB, l, p, x, n, out);
    StepIsFunded(BtoA, l, n, out, m, x);
    FundedACompose(l, p, n, m, x, -x);
    assert l * (p - m) <= 0;
    CancelFactor(p - m, 0, l);
    assert l * (p - n) == (p - n) * l == l * p - l * n;
    CancelFactor(m - n, p - n, l);
    assert m == p;
    assert n * (l + x * p) == l * n + x * (n * p);
  }

  lemma ExactUpReturns(l: nat, p: nat, y: nat, n: nat, out: nat, m: nat, z: nat)
    requires l > 0 && 0 < p <= n && 0 < m <= n && z <= y && StepAtoB(l, n, out, m, z)
    requires y * Q128 == (n - p) * l && l * (n - p) == out * (p * n)
    ensures z == y
  {
    ExactCeiling(l * n, l + out * n, p, m) by {
      assert p * (l + out * n) == l * p + out * (p * n);
      assert l * (n - p) == l * n - l * p;
    }
    ExactFloor(y * Q128, Q128, y, z) by {
      assert m == p;
      assert l * (n - p) == (n - p) * l;
    }
  }

  lemma FullReturnIsExactUp(l: nat, p: nat, y: int, n: nat, out: int, m: nat)
    requires l > 0 && 0 < p <= n && 0 < m <= n && y >= 0 && out >= 0
    requires StepBtoA(l, p, y, n, out) && StepAtoB(l, n, out, m, y)
    ensures y * Q128 == (n - p) * l && l * (n - p) == out * (p * n)
  {
    StepIsFunded(BtoA, l, p, y, n, out);
    StepIsFunded(AtoB, l, n, out, m, y);
    FundedACompose(l, p, n, m, -out, out);
    assert l * (p - m) <= 0;
    CancelFactor(p - m, 0, l);
    assert l * (n - p) == (n - p) * l == l * n - l * p;
    assert l * (n - m) == l * n - l * m;
    CancelFactor(m, p, l);
    assert m == p;
    assert p * (l + out * n) == l * p + out * (p * n);
  }

  lemma BreakEvenUp(l: nat, p: nat, y: int, n: nat, out: int, m: nat, z: int)
    requires l > 0 && 0 < p <= n && 0 < m <= n && 0 <= z <= y && out >= 0
    requires StepBtoA(l, p, y, n, out) && StepAtoB(l, n, out, m, z)
    ensures z == y <==> y * Q128 == (n - p) * l && l * (n - p) == out * (p * n)
  {
    if y * Q128 == (n - p) * l && l * (n - p) == out * (p * n) {
      ExactUpReturns(l, p, y, n, out, m, z);
    } else if z == y {
      FullReturnIsExactUp(l, p, y, n, out, m);
    }
  }

  /** The strict inequality that the repository's tests sample without fees does not hold of every input: here
      one unit of A buys two of B, and those buy the one unit of A back. */
  lemma ZeroFeeRoundTripCanBreakEven()
    ensures var c := CurveState(2 * Q64, MIN_SQRT_PRICE, MAX_SQRT_PRICE, 2 * Q64);
            && c.Swap(AtoB, 1) == Ok(SwapAmount(2, Q64))
            && RoundTrip(c, AtoB, 1) == Ok(SwapAmount(1, 2 * Q64))
  {
    hide CurveState.Swap;
    var c := CurveState(2 * Q64, MIN_SQRT_PRICE, MAX_SQRT_PRICE, 2 * Q64);
    StepIsSwap(c, AtoB, 1, Q64, 2);
    StepIsSwap(c.MovedTo(Q64), BtoA, 2, 2 * Q64, 1);
    assert [AtoB, AtoB.Opposite()][1..] == [BtoA] && [BtoA][1..] == [];
  }
}
