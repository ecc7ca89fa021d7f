/** What liquidity costs and returns: withdrawing a deposit in pieces, the amounts of the largest deposits, and
    the largest swap that stays in range. */
module Deposits {
  import opened Numbers
  import opened Arithmetic
  import opened Curve
  import opened Fees
  import opened Trading

  // ---------------------------------------------------------------------------------------------
  // Deposit, then withdraw in pieces
  // ---------------------------------------------------------------------------------------------

  /** The exact worth of one unit of liquidity is `unit / scale`, per token. */
  ghost function Unit(c: CurveState, token: Index): nat
    requires c.InRange()
  {
    if token == TOKEN_A then c.sqrtMaxPrice - c.sqrtPrice else c.sqrtPrice - c.sqrtMinPrice
  }

  ghost function Scale(c: CurveState, token: Index): nat {
    if token == TOKEN_A then c.sqrtPrice * c.sqrtMaxPrice else Q128
  }

  lemma AmountsAreRounded(c: CurveState, delta: uint128, rounding: Rounding)
    requires c.InRange()
    ensures Scale(c, TOKEN_A) > 0
    ensures var a := DivRound(delta * Unit(c, TOKEN_A), Scale(c, TOKEN_A), rounding);
            var b := DivRound(delta * Unit(c, TOKEN_B), Scale(c, TOKEN_B), rounding);
            c.Amounts(delta, rounding) == if a <= U64_MAX && b <= U64_MAX then Ok(Pair(a, b)) else Err(MathOverflow)
  {
    DeltaAmountABounds(c.sqrtPrice, c.sqrtMaxPrice, delta, rounding);
    DeltaAmountBBounds(c.sqrtMinPrice, c.sqrtPrice, delta, rounding);
    hide DeltaAmountAUnchecked, DeltaAmountBUnchecked;
  }

  /** Consecutive withdrawals at one price. */
  function WithdrawPieces(c: CurveState, pieces: seq<uint128>): Result<Pair<nat>>
    decreases |pieces|
  {
    if pieces == [] then Ok(Pair(0, 0)) else
      var first :- c.Amounts(pieces[0], Down);
      var rest :- WithdrawPieces(c, pieces[1..]);
      Ok(Pair(first.zero + rest.zero, first.one + rest.one))
  }

  ghost function Floors(pieces: seq<nat>, unit: nat, scale: nat): nat
    requires scale > 0
  {
    if pieces == [] then 0 else pieces[0] * unit / scale + Floors(pieces[1..], unit, scale)
  }

  lemma {:induction false} FloorsOfPieces(pieces: seq<nat>, unit: nat, scale: nat)
    requires scale > 0
    ensures Floors(pieces, unit, scale) * scale <= Sum(pieces) * unit
         <= (Floors(pieces, unit, scale) + |pieces|) * scale
  {
    if pieces != [] {
      var q := Quotient(pieces[0] * unit, scale);
      FloorIs(pieces[0] * unit, scale, q);
      FloorsOfPieces(pieces[1..], unit, scale);
      AddPiece(pieces[0], Sum(pieces[1..]), unit, q, Floors(pieces[1..], unit, scale), |pieces[1..]|, scale);
    }
  }

  lemma AddPiece(piece: nat, others: nat, unit: nat, q: nat, rest: nat, k: nat, scale: nat)
    requires q * scale <= piece * unit <= (q + 1) * scale
    requires rest * scale <= others * unit <= (rest + k) * scale
    ensures (q + rest) * scale <= (piece + others) * unit <= (q + rest + k + 1) * scale
  {
    assert (piece + others) * unit == piece * unit + others * unit;
    assert (q + rest) * scale == q * scale + rest * scale;
    assert (q + 1) * scale + (rest + k) * scale == (q + rest + k + 1) * scale;
  }

  /** Floors of the pieces against the ceiling of the whole. */
  lemma PiecesOfDeposit(pieces: seq<nat>, unit: nat, scale: nat)
    requires scale > 0
    ensures var deposit := DivRound(Sum(pieces) * unit, scale, Up);
            Floors(pieces, unit, scale) <= deposit <= Floors(pieces, unit, scale) + |pieces|
  {
    FloorsOfPieces(pieces, unit, scale);
    DivRoundBounds(Sum(pieces) * unit, scale, Up);
    CeilIsLeast(Sum(pieces) * unit, scale, Floors(pieces, unit, scale) + |pieces|);
    CancelFactor(Floors(pieces, unit, scale), DivRound(Sum(pieces) * unit, scale, Up), scale);
  }

  lemma {:induction false} WithdrawalsAreFloors(c: CurveState, pieces: seq<uint128>)
    requires c.InRange() && Scale(c, TOKEN_A) > 0
    requires Floors(pieces, Unit(c, TOKEN_A), Scale(c, TOKEN_A)) <= U64_MAX
    requires Floors(pieces, Unit(c, TOKEN_B), Scale(c, TOKEN_B)) <= U64_MAX
    ensures WithdrawPieces(c, pieces)
         == Ok(Pair(Floors(pieces, Unit(c, TOKEN_A), Scale(c, TOKEN_A)), Floors(pieces, Unit(c, TOKEN_B), Scale(c, TOKEN_B))))
    decreases |pieces|
  {
    hide CurveState.Amounts, Unit, Scale;
    if pieces != [] {
      AmountsAreRounded(c, pieces[0], Down);
      FloorIsDivision(pieces[0] * Unit(c, TOKEN_A), Scale(c, TOKEN_A));
      FloorIsDivision(pieces[0] * Unit(c, TOKEN_B), Scale(c, TOKEN_B));
      WithdrawalsAreFloors(c, pieces[1..]);
    }
  }

  /** A deposit withdrawn at an unchanged price in any pieces goes through, and returns of each token at most what
      was deposited and at most one unit less per piece. */
  lemma WithdrawReturnsDeposit(c: CurveState, pieces: seq<uint128>)
    requires c.InRange() && Sum(pieces) <= U128_MAX && c.Amounts(Sum(pieces), Up).Ok?
    ensures var deposit, withdrawn := c.Amounts(Sum(pieces), Up).value, WithdrawPieces(c, pieces);
            && withdrawn.Ok?
            && withdrawn.value.zero <= deposit.zero <= withdrawn.value.zero + |pieces|
            && withdrawn.value.one <= deposit.one <= withdrawn.value.one + |pieces|
  {
    hide CurveState.Amounts, Unit, Scale;
    AmountsAreRounded(c, Sum(pieces), Up);
    assert Scale(c, TOKEN_B) > 0 by {
      ScalesArePositive(c);
    }
    PiecesOfDeposit(pieces, Unit(c, TOKEN_A), Scale(c, TOKEN_A));
    PiecesOfDeposit(pieces, Unit(c, TOKEN_B), Scale(c, TOKEN_B));
    WithdrawalsAreFloors(c, pieces);
  }

  lemma ScalesArePositive(c: CurveState)
    requires c.InRange()
    ensures Scale(c, TOKEN_A) > 0 && Scale(c, TOKEN_B) > 0
  {
    assert c.sqrtPrice * c.sqrtMaxPrice > 0;
  }

  // ---------------------------------------------------------------------------------------------
  // Bounds that hold for every price of the global range
  // ---------------------------------------------------------------------------------------------

  /** The greatest liquidity the repository's tests use: 2^128 / 10^10. */
  const LIQUIDITY_MAX: nat := 34028236692093846346337460743

  ghost predicate InGlobalRange(c: CurveState) {
    c.InRange() && MIN_SQRT_PRICE <= c.sqrtMinPrice && c.sqrtMaxPrice <= MAX_SQRT_PRICE
  }

  lemma AmountBIsBounded(l: nat, delta: nat)
    requires l <= LIQUIDITY_MAX && delta <= MAX_SQRT_PRICE
    ensures l * delta <= (U64_MAX - 1) * Q128
  {
    MulMono(l, LIQUIDITY_MAX, delta);
    MulMono(delta, MAX_SQRT_PRICE, LIQUIDITY_MAX);
  }

  lemma AmountAIsBounded(l: nat, p: nat, max: nat)
    requires l <= LIQUIDITY_MAX && MIN_SQRT_PRICE <= p <= max
    ensures l * (max - p) <= U64_MAX * (p * max)
  {
    assert l <= U64_MAX * MIN_SQRT_PRICE <= U64_MAX * p;
    MulMono(max - p, max, l);
    MulMono(l, U64_MAX * p, max);
    assert U64_MAX * p * max == U64_MAX * (p * max);
  }

  /** Initial amounts fit 64 bits for every liquidity up to the maximum, at every price. */
  lemma InitialAmountsFit(c: CurveState)
    requires InGlobalRange(c) && c.liquidity <= LIQUIDITY_MAX
    ensures InitializeAmounts(c.sqrtMinPrice, c.sqrtMaxPrice, c.sqrtPrice, c.liquidity).Ok?
  {
    var l, p := c.liquidity, c.sqrtPrice;
    DeltaAmountABounds(p, c.sqrtMaxPrice, l, Up);
    AmountAIsBounded(l, p, c.sqrtMaxPrice);
    CeilIsLeast(l * (c.sqrtMaxPrice - p), p * c.sqrtMaxPrice, U64_MAX);
    DeltaAmountBBounds(c.sqrtMinPrice, p, l, Up);
    AmountBIsBounded(l, p - c.sqrtMinPrice);
    CeilIsLeast(l * (p - c.sqrtMinPrice), Q128, U64_MAX);
    hide DeltaAmountAUnchecked, DeltaAmountBUnchecked;
  }

  /** `get_max_amount_in` for the A-to-B direction. */
  function MaxAmountIn(c: CurveState): Result<uint64> {
    var amount :- DeltaAmountAUnchecked(c.sqrtMinPrice, c.sqrtPrice, c.liquidity, Down);
    Ok(Min(amount, U64_MAX))
  }

  /** `x` of A is worth no more than the curve's A between its lowest and its current price. */
  ghost predicate WithinMax(c: CurveState, x: nat) {
    x * (c.sqrtMinPrice * c.sqrtPrice) <= c.liquidity * (c.sqrtPrice - c.sqrtMinPrice)
  }

  lemma MaxIsFloor(c: CurveState)
    requires c.InRange()
    ensures c.sqrtMinPrice * c.sqrtPrice > 0
    ensures MaxAmountIn(c)
         == Ok(Min(DivRound(c.liquidity * (c.sqrtPrice - c.sqrtMinPrice), c.sqrtMinPrice * c.sqrtPrice, Down), U64_MAX))
  {
    DeltaAmountABounds(c.sqrtMinPrice, c.sqrtPrice, c.liquidity, Down);
    hide DeltaAmountAUnchecked, DivRound;
  }

  /** `get_max_amount_in` is defined, and its amounts are exactly those within the maximum. */
  lemma MaxAmountInIsExact(c: CurveState, x: uint64)
    requires c.InRange()
    ensures MaxAmountIn(c).Ok?
    ensures x <= MaxAmountIn(c).value <==> WithinMax(c, x)
  {
    hide MaxAmountIn, DivRound;
    MaxIsFloor(c);
    FloorTimes(c.liquidity * (c.sqrtPrice - c.sqrtMinPrice), c.sqrtMinPrice * c.sqrtPrice, x);
  }

  lemma FloorTimes(n: nat, d: nat, x: nat)
    requires d > 0
    ensures x <= DivRound(n, d, Down) <==> x * d <= n
  {
    var q := Quotient(n, d);
    FloorIs(n, d, q);
    FloorIsDivision(n, d);
    if x <= q {
      MulMono(x, q, d);
    } else {
      MulMono(q + 1, x, d);
    }
  }

  /** A price reached with at most the maximum amount in is in range. */
  lemma StaysAboveMinimum(l: nat, p: nat, d: nat, x: nat, n: nat)
    requires l > 0 && x * (d * p) <= l * (p - d) && l * p <= n * (l + x * p)
    ensures d <= n
  {
    assert d * (l + x * p) == l * d + x * (d * p);
    assert l * (p - d) == l * p - l * d;
    assert l + x * p > 0;
    CancelFactor(d, n, l + x * p);
  }

  lemma DownStepGives(l: nat, p: nat, x: nat, n: nat, out: nat)
    requires StepAtoB(l, p, x, n, out)
    ensures (n - 1) * (l + x * p) < l * p <= n * (l + x * p) && out * Q128 <= l * (p - n) < (out + 1) * Q128
  {
  }

  /** Any A-to-B swap within the maximum stays in range and succeeds. */
  lemma WithinMaxIsSafe(c: CurveState, x: uint64)
    requires InGlobalRange(c) && 0 < c.liquidity <= LIQUIDITY_MAX && WithinMax(c, x)
    ensures c.Swap(AtoB, x).Ok?
  {
    hide CurveState.Swap, StepAtoB;
    var l, p := c.liquidity, c.sqrtPrice;
    var n, out := TakeStep(AtoB, l, p, x);
    DownStepGives(l, p, x, n, out);
    StaysAboveMinimum(l, p, c.sqrtMinPrice, x, n);
    AmountBIsBounded(l, p - n);
    hide WithinMax;
    CancelFactor(out, U64_MAX, Q128);
    NextPriceFromAIs(p, l, x, n);
    DeltaBIs(n, p, l, out);
    hide NextSqrtPriceFromA, DeltaAmountB;
    ComputesSwap(c, AtoB, x, n, out);
  }
}
