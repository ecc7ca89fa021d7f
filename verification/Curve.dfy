/** The constant-liquidity curve between two square-root prices (`curve.rs`), and the two raw swap
    directions over it (`get_swap_result_from_a_to_b`, `get_swap_result_from_b_to_a`).

    Prices are Q64 square roots; `L` is the liquidity. The exact amount of token A between prices `p` and
    `u` is `L * (u - p) / (u * p)`, of token B between `d` and `p` it is `L * (p - d) / 2^128`. */
module Curve {
  import opened Numbers
  import opened Arithmetic

  datatype TradeDirection = AtoB | BtoA {
    function Opposite(): TradeDirection {
      if AtoB? then BtoA else AtoB
    }
  }

  function DeltaAmountAUnchecked(lower: uint128, upper: uint128, liquidity: uint128, rounding: Rounding)
    : Result<uint256>
  {
    var _ :- Require(lower <= upper, Panic);
    var denominator :- Checked256(lower * upper);
    var _ :- Require(denominator > 0, Panic);
    MulDiv256(liquidity, upper - lower, denominator, rounding)
  }

  function DeltaAmountA(lower: uint128, upper: uint128, liquidity: uint128, rounding: Rounding): Result<uint64> {
    var amount :- DeltaAmountAUnchecked(lower, upper, liquidity, rounding);
    Checked64(amount)
  }

  function DeltaAmountBUnchecked(lower: uint128, upper: uint128, liquidity: uint128, rounding: Rounding)
    : Result<uint256>
  {
    var _ :- Require(lower <= upper, Panic);
    var product :- Checked256(liquidity * (upper - lower));
    Checked256(DivRound(product, Q128, rounding))
  }

  function DeltaAmountB(lower: uint128, upper: uint128, liquidity: uint128, rounding: Rounding): Result<uint64> {
    var amount :- DeltaAmountBUnchecked(lower, upper, liquidity, rounding);
    Checked64(amount)
  }

  /** `(amount A, amount B)` owed for `liquidity` at a price, rounded against the depositor. */
  function InitializeAmounts(sqrtMinPrice: uint128, sqrtMaxPrice: uint128, sqrtPrice: uint128, liquidity: uint128)
    : Result<(uint64, uint64)>
  {
    var amountA :- DeltaAmountA(sqrtPrice, sqrtMaxPrice, liquidity, Up);
    var amountB :- DeltaAmountB(sqrtMinPrice, sqrtPrice, liquidity, Up);
    Ok((amountA, amountB))
  }

  function NextSqrtPriceFromA(sqrtPrice: uint128, liquidity: uint128, amount: uint64): Result<uint128> {
    if amount == 0 then Ok(sqrtPrice) else
      var product :- Checked256(amount * sqrtPrice);
      var denominator :- Checked256(liquidity + product);
      var next :- MulDiv256(liquidity, sqrtPrice, denominator, Up);
      Cast128(next)
  }

  function NextSqrtPriceFromB(sqrtPrice: uint128, liquidity: uint128, amount: uint64): Result<uint128> {
    var shifted :- Checked256(amount * Q128);
    var _ :- Require(liquidity > 0, MathOverflow);
    var next :- Checked256(sqrtPrice + Floor(shifted, liquidity));
    Cast128(next)
  }

  function NextSqrtPriceFromInput(sqrtPrice: uint128, liquidity: uint128, amount: uint64, direction: TradeDirection)
    : Result<uint128>
  {
    var _ :- Require(sqrtPrice > 0, Panic);
    var _ :- Require(liquidity > 0, Panic);
    match direction
    case AtoB => NextSqrtPriceFromA(sqrtPrice, liquidity, amount)
    case BtoA => NextSqrtPriceFromB(sqrtPrice, liquidity, amount)
  }

  datatype SwapAmount = SwapAmount(outputAmount: uint64, nextSqrtPrice: uint128)

  /** A position on the curve: what a raw swap reads from the pool. */
  datatype CurveState = CurveState(liquidity: uint128, sqrtMinPrice: uint128, sqrtMaxPrice: uint128, sqrtPrice: uint128) {
    /** The price is positive and inside the pool's range. */
    predicate InRange() {
      0 < sqrtMinPrice <= sqrtPrice <= sqrtMaxPrice
    }

    function SwapAtoB(amountIn: uint64): Result<SwapAmount> {
      var next :- NextSqrtPriceFromInput(sqrtPrice, liquidity, amountIn, AtoB);
      var _ :- Require(next >= sqrtMinPrice, PriceRangeViolation);
      var output :- DeltaAmountB(next, sqrtPrice, liquidity, Down);
      Ok(SwapAmount(output, next))
    }

    function SwapBtoA(amountIn: uint64): Result<SwapAmount> {
      var next :- NextSqrtPriceFromInput(sqrtPrice, liquidity, amountIn, BtoA);
      var _ :- Require(next <= sqrtMaxPrice, PriceRangeViolation);
      var output :- DeltaAmountA(sqrtPrice, next, liquidity, Down);
      Ok(SwapAmount(output, next))
    }

    function Swap(direction: TradeDirection, amountIn: uint64): Result<SwapAmount> {
      match direction
      case AtoB => SwapAtoB(amountIn)
      case BtoA => SwapBtoA(amountIn)
    }

    /** `get_amounts_for_modify_liquidity`: what `delta` liquidity is worth in A and in B. */
    function Amounts(delta: uint128, rounding: Rounding): Result<Pair<uint64>> {
      var amountA :- DeltaAmountA(sqrtPrice, sqrtMaxPrice, delta, rounding);
      var amountB :- DeltaAmountB(sqrtMinPrice, sqrtPrice, delta, rounding);
      Ok(Pair(amountA, amountB))
    }

    function MovedTo(price: uint128): CurveState {
      this.(sqrtPrice := price)
    }
  }

  // ---------------------------------------------------------------------------------------------
  // What a raw swap takes and gives, without rounding
  // ---------------------------------------------------------------------------------------------

  /** Moving liquidity `l` from price `p` to `q` for `a` units of A (negative: taken out) leaves the curve no
      poorer in A: `a >= l / q - l / p`. */
  ghost predicate FundedA(l: nat, p: nat, q: nat, a: int) {
    l * (p - q) <= a * (p * q)
  }

  /** The same for `b` units of B: `b >= l * (q - p) / 2^128`. */
  ghost predicate FundedB(l: nat, p: nat, q: nat, b: int) {
    l * (q - p) <= b * Q128
  }

  ghost predicate Funded(l: nat, p: nat, q: nat, a: int, b: int) {
    FundedA(l, p, q, a) && FundedB(l, p, q, b)
  }

  /** Two funded moves compose. */
  lemma FundedACompose(l: nat, p: nat, q: nat, r: nat, a1: int, a2: int)
    requires q > 0 && FundedA(l, p, q, a1) && FundedA(l, q, r, a2)
    ensures FundedA(l, p, r, a1 + a2)
  {
    MulMono(l * (p - q), a1 * (p * q), r);
    MulMono(l * (q - r), a2 * (q * r), p);
    assert l * (p - q) * r + l * (q - r) * p == l * (p - r) * q;
    assert a1 * (p * q) * r + a2 * (q * r) * p == (a1 + a2) * (p * r) * q;
    CancelFactor(l * (p - r), (a1 + a2) * (p * r), q);
  }

  lemma FundedCompose(l: nat, p: nat, q: nat, r: nat, a1: int, b1: int, a2: int, b2: int)
    requires q > 0
    requires Funded(l, p, q, a1, b1) && Funded(l, q, r, a2, b2)
    ensures Funded(l, p, r, a1 + a2, b1 + b2)
  {
    FundedACompose(l, p, q, r, a1, a2);
    assert l * (q - p) + l * (r - q) == l * (r - p);
  }

  /** A-in rounds the price up: it is the least price `n` with `l * p <= n * (l + x * p)`. */
  lemma NextPriceFromA(p: uint128, l: uint128, x: uint64)
    requires p > 0 && l > 0
    ensures var r := NextSqrtPriceFromA(p, l, x);
            && r.Ok? && 0 < r.value <= p
            && l * p <= r.value * (l + x * p)
            && (r.value - 1) * (l + x * p) < l * p
  {
    var d := l + x * p;
    MulMono(x, U64_MAX, p);
    MulMono(p, U128_MAX, U64_MAX);
    assert x * p >= 0;
    DivRoundBounds(l * p, d, Up);
    MulMono(l, d, p);
    CeilIsLeast(l * p, d, p);
    assert DivRound(l * p, d, Up) > 0 by {
      assert l * p > 0;
    }
    if x == 0 {
      assert d == l;
      assert (p - 1) * l == l * p - l;
    } else {
      var n := DivRound(l * p, d, Up);
      assert (n - 1) * d == n * d - d;
    }
  }

  /** B-in rounds the price down: `n` is the greatest price with `(n - p) * l <= y * 2^128`. */
  lemma NextPriceFromB(p: uint128, l: uint128, y: uint64)
    requires l > 0
    ensures var q := y * Q128 / l;
            && NextSqrtPriceFromB(p, l, y) == (if p + q <= U128_MAX then Ok(p + q) else Err(TypeCastFailed))
            && q * l <= y * Q128 < (q + 1) * l
  {
    FloorIsDivision(y * Q128, l);
    FloorBounds(y * Q128, l);
  }

  lemma SquareFits(x: nat, y: nat)
    requires x <= U128_MAX && y <= U128_MAX
    ensures 0 <= x * y <= U256_MAX
  {
    MulMono(x, U128_MAX, y);
    MulMono(y, U128_MAX, U128_MAX);
  }

  /** A rounded quotient of at most `bound` denominators is at most `bound`. */
  lemma QuotientBelow(n: nat, d: nat, bound: nat, rounding: Rounding)
    requires d > 0 && n <= bound * d
    ensures DivRound(n, d, rounding) <= bound
  {
    CeilIsLeast(n, d, bound);
    FloorIsDivision(n, d);
    FloorBelow(n, d, bound + 1) by {
      assert (bound + 1) * d == bound * d + d;
    }
  }

  lemma DeltaAmountABounds(lower: uint128, upper: uint128, l: uint128, rounding: Rounding)
    requires 0 < lower <= upper
    ensures var n, d := l * (upper - lower), lower * upper;
            d > 0 && DeltaAmountAUnchecked(lower, upper, l, rounding) == Ok(DivRound(n, d, rounding))
  {
    var delta, d := upper - lower, lower * upper;
    SquareFits(lower, upper);
    assert d > 0 && delta <= d by {
      MulMono(1, lower, upper);
    }
    MulMono(delta, d, l);
    QuotientBelow(l * delta, d, l, rounding);
    hide DivRound;
  }

  lemma DeltaAmountBBounds(lower: uint128, upper: uint128, l: uint128, rounding: Rounding)
    requires lower <= upper
    ensures DeltaAmountBUnchecked(lower, upper, l, rounding) == Ok(DivRound(l * (upper - lower), Q128, rounding))
  {
    var n := l * (upper - lower);
    SquareFits(l, upper - lower);
    QuotientBelow(n, Q128, n, rounding) by {
      MulMono(1, Q128, n);
    }
    hide DivRound;
  }

  // ---------------------------------------------------------------------------------------------
  // Raw swaps by their defining inequalities
  // ---------------------------------------------------------------------------------------------

  /** `x` of A moves the price down to the least `n` with `n >= l * p / (l + x * p)` and pays the greatest `out`
      with `out <= l * (p - n) / 2^128`. */
  ghost predicate StepAtoB(l: nat, p: nat, x: nat, n: nat, out: nat) {
    && (n - 1) * (l + x * p) < l * p <= n * (l + x * p)
    && out * Q128 <= l * (p - n) < (out + 1) * Q128
  }

  /** `y` of B moves the price up to the greatest `n` with `(n - p) * l <= y * 2^128` and pays the greatest `out`
      with `out <= l / p - l / n`. */
  ghost predicate StepBtoA(l: nat, p: nat, y: nat, n: nat, out: nat) {
    && (n - p) * l <= y * Q128 < (n - p + 1) * l
    && out * (p * n) <= l * (n - p) < (out + 1) * (p * n)
  }

  ghost predicate Step(direction: TradeDirection, l: nat, p: nat, amountIn: nat, n: nat, out: nat) {
    match direction
    case AtoB => StepAtoB(l, p, amountIn, n, out)
    case BtoA => StepBtoA(l, p, amountIn, n, out)
  }

  lemma DeltaBIsFloor(n: uint128, p: uint128, l: uint128, out: uint64)
    requires n <= p && DeltaAmountB(n, p, l, Down) == Ok(out)
    ensures out * Q128 <= l * (p - n) < (out + 1) * Q128
  {
    DeltaAmountBBounds(n, p, l, Down);
    hide DeltaAmountBUnchecked;
    DivRoundBounds(l * (p - n), Q128, Down);
  }

  lemma DeltaAIsFloor(p: uint128, n: uint128, l: uint128, out: uint64)
    requires 0 < p <= n && DeltaAmountA(p, n, l, Down) == Ok(out)
    ensures out * (p * n) <= l * (n - p) < (out + 1) * (p * n)
  {
    DeltaAmountABounds(p, n, l, Down);
    hide DeltaAmountAUnchecked;
    DivRoundBounds(l * (n - p), p * n, Down);
    hide DivRound;
    assert (out + 1) * (p * n) == out * (p * n) + p * n;
  }

  lemma PriceFallsByStep(p: uint128, l: uint128, x: uint64, n: uint128)
    requires p > 0 && l > 0 && NextSqrtPriceFromA(p, l, x) == Ok(n)
    ensures 0 < n <= p && (n - 1) * (l + x * p) < l * p <= n * (l + x * p)
  {
    NextPriceFromA(p, l, x);
    hide NextSqrtPriceFromA;
  }

  lemma PriceRisesByStep(p: uint128, l: uint128, y: uint64, n: uint128)
    requires l > 0 && NextSqrtPriceFromB(p, l, y) == Ok(n)
    ensures n >= p && (n - p) * l <= y * Q128 < (n - p + 1) * l
  {
    NextPriceFromB(p, l, y);
    hide NextSqrtPriceFromB;
  }

  lemma StepDownOf(l: nat, p: nat, x: nat, n: nat, out: nat)
    requires (n - 1) * (l + x * p) < l * p <= n * (l + x * p) && out * Q128 <= l * (p - n) < (out + 1) * Q128
    ensures StepAtoB(l, p, x, n, out)
  {
  }

  lemma StepUpOf(l: nat, p: nat, y: nat, n: nat, out: nat)
    requires (n - p) * l <= y * Q128 < (n - p + 1) * l && out * (p * n) <= l * (n - p) < (out + 1) * (p * n)
    ensures StepBtoA(l, p, y, n, out)
  {
  }

  /** The price stays in the range and moves in the direction of the trade: A in never raises it, B in never lowers it. */
  ghost predicate Moves(c: CurveState, direction: TradeDirection, n: uint128) {
    && c.liquidity > 0 && c.MovedTo(n).InRange()
    && (if direction.AtoB? then n <= c.sqrtPrice else n >= c.sqrtPrice)
  }

  /** A successful swap is a step, within the price range and in the direction of the trade. */
  lemma SwapIsStep(c: CurveState, direction: TradeDirection, amountIn: uint64, n: uint128, out: uint64)
    requires c.InRange() && c.Swap(direction, amountIn) == Ok(SwapAmount(out, n))
    ensures Moves(c, direction, n) && Step(direction, c.liquidity, c.sqrtPrice, amountIn, n, out)
  {
    hide NextSqrtPriceFromA, NextSqrtPriceFromB, DeltaAmountA, DeltaAmountB, StepAtoB, StepBtoA;
    if direction.AtoB? {
      PriceFallsByStep(c.sqrtPrice, c.liquidity, amountIn, n);
      DeltaBIsFloor(n, c.sqrtPrice, c.liquidity, out);
      StepDownOf(c.liquidity, c.sqrtPrice, amountIn, n, out);
    } else {
      PriceRisesByStep(c.sqrtPrice, c.liquidity, amountIn, n);
      DeltaAIsFloor(c.sqrtPrice, n, c.liquidity, out);
      StepUpOf(c.liquidity, c.sqrtPrice, amountIn, n, out);
    }
  }

  lemma NextPriceFromAIs(p: uint128, l: uint128, x: uint64, n: nat)
    requires p > 0 && l > 0 && (n - 1) * (l + x * p) < l * p <= n * (l + x * p)
    ensures NextSqrtPriceFromA(p, l, x) == Ok(n)
  {
    NextPriceFromA(p, l, x);
    hide NextSqrtPriceFromA;
    var next := NextSqrtPriceFromA(p, l, x).value;
    LeastIs(l * p, l + x * p, n, next);
    LeastIs(l * p, l + x * p, next, n);
  }

  lemma NextPriceFromBIs(p: uint128, l: uint128, y: uint64, n: nat)
    requires l > 0 && p <= n <= U128_MAX && (n - p) * l <= y * Q128 < (n - p + 1) * l
    ensures NextSqrtPriceFromB(p, l, y) == Ok(n)
  {
    NextPriceFromB(p, l, y);
    hide NextSqrtPriceFromB;
    FloorIs(y * Q128, l, n - p);
  }

  lemma DeltaBIs(n: uint128, p: uint128, l: uint128, out: nat)
    requires n <= p && out <= U64_MAX && out * Q128 <= l * (p - n) < (out + 1) * Q128
    ensures DeltaAmountB(n, p, l, Down) == Ok(out)
  {
    DeltaAmountBBounds(n, p, l, Down);
    hide DeltaAmountBUnchecked;
    FloorIs(l * (p - n), Q128, out);
    FloorIsDivision(l * (p - n), Q128);
  }

  lemma DeltaAIs(p: uint128, n: uint128, l: uint128, out: nat)
    requires 0 < p <= n && out <= U64_MAX && out * (p * n) <= l * (n - p) < (out + 1) * (p * n)
    ensures DeltaAmountA(p, n, l, Down) == Ok(out)
  {
    DeltaAmountABounds(p, n, l, Down);
    hide DeltaAmountAUnchecked;
    FloorIs(l * (n - p), p * n, out);
    FloorIsDivision(l * (n - p), p * n);
  }

  /** Price and output of a step, as the program computes them. */
  predicate Computes(direction: TradeDirection, l: uint128, p: uint128, amountIn: uint64, n: uint128, out: uint64) {
    match direction
    case AtoB => NextSqrtPriceFromA(p, l, amountIn) == Ok(n) && DeltaAmountB(n, p, l, Down) == Ok(out)
    case BtoA => NextSqrtPriceFromB(p, l, amountIn) == Ok(n) && DeltaAmountA(p, n, l, Down) == Ok(out)
  }

  /** A swap pays what is computed as long as the price stays in the range. */
  lemma ComputesSwap(c: CurveState, direction: TradeDirection, amountIn: uint64, n: uint128, out: uint64)
    requires c.InRange() && c.liquidity > 0 && c.sqrtMinPrice <= n <= c.sqrtMaxPrice
    requires Computes(direction, c.liquidity, c.sqrtPrice, amountIn, n, out)
    ensures c.Swap(direction, amountIn) == Ok(SwapAmount(out, n))
  {
    hide NextSqrtPriceFromA, NextSqrtPriceFromB, DeltaAmountA, DeltaAmountB;
  }

  lemma TakeStepAtoB(l: nat, p: nat, x: nat) returns (n: nat, out: nat)
    requires l > 0 && p > 0
    ensures 0 < n <= p && StepAtoB(l, p, x, n, out)
  {
    n := LeastQuotient(l * p, l + x * p, p) by {
      assert l * p > 0;
      MulMono(l, l + x * p, p);
    }
    out := Quotient(l * (p - n), Q128);
  }

  lemma TakeStepBtoA(l: nat, p: nat, y: nat) returns (n: nat, out: nat)
    requires l > 0 && p > 0
    ensures n >= p && StepBtoA(l, p, y, n, out)
  {
    var moved := Quotient(y * Q128, l);
    n := p + moved;
    assert p * n > 0;
    out := Quotient(l * (n - p), p * n);
  }

  /** Every input amount has its step. */
  lemma TakeStep(direction: TradeDirection, l: nat, p: nat, amountIn: nat) returns (n: nat, out: nat)
    requires l > 0 && p > 0
    ensures n > 0 && Step(direction, l, p, amountIn, n, out)
    ensures if direction.AtoB? then n <= p else n >= p
  {
    hide StepAtoB, StepBtoA;
    if direction.AtoB? {
      n, out := TakeStepAtoB(l, p, amountIn);
    } else {
      n, out := TakeStepBtoA(l, p, amountIn);
    }
  }

  /** A step leaves the curve no poorer than its exact principal. */
  lemma StepIsFunded(direction: TradeDirection, l: nat, p: nat, amountIn: int, n: nat, out: int)
    requires amountIn >= 0 && out >= 0 && Step(direction, l, p, amountIn, n, out)
    ensures direction.AtoB? ==> Funded(l, p, n, amountIn, -out)
    ensures direction.BtoA? ==> Funded(l, p, n, -out, amountIn)
  {
    assert l * (p - n) == l * p - l * n == -(l * (n - p));
    if direction.AtoB? {
      assert n * (l + amountIn * p) == l * n + amountIn * (p * n);
    } else {
      assert -out * (p * n) == -(out * (p * n));
    }
  }

  /** Price containment and fairness of a successful swap: the price stays in the range, A in never raises it
      and B in never lowers it, and the curve is never left poorer than its exact principal. */
  lemma SwapIsFunded(c: CurveState, direction: TradeDirection, amountIn: uint64, n: uint128, out: uint64)
    requires c.InRange() && c.Swap(direction, amountIn) == Ok(SwapAmount(out, n))
    ensures Moves(c, direction, n)
    ensures if direction.AtoB? then Funded(c.liquidity, c.sqrtPrice, n, amountIn, 0 - out as int)
            else Funded(c.liquidity, c.sqrtPrice, n, 0 - out as int, amountIn)
  {
    hide CurveState.Swap;
    SwapIsStep(c, direction, amountIn, n, out);
    StepIsFunded(direction, c.liquidity, c.sqrtPrice, amountIn, n, out);
  }
}
