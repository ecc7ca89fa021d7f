/** Q64 exponentiation by a fixed number of truncating squarings
    (`fee_math.rs`). A `None` of the program is `Err(MathOverflow)` here, which is what its caller makes
    of it. Only non-negative exponents are modelled. */
module Exponentiation {
  import opened Numbers
  import opened Arithmetic

  const MAX_EXPONENTIAL: nat := 0x80000
  const EXPONENT_BITS: nat := 19

  /** `checked_mul` followed by `>> 64`. */
  function MulShift(x: uint128, y: uint128): Result<uint128> {
    var product :- Checked128(x * y);
    Ok(product / Q64)
  }

  type Multiplication = (uint128, uint128) -> Result<uint128>

  /** The multiply-and-square rounds for the low `bits` bits of `exp`, for any partial multiplication. */
  function Rounds(mul: Multiplication, exp: nat, bits: nat, squaredBase: uint128, result: uint128): Result<uint128>
    requires bits > 0
    decreases bits
  {
    var next :- if exp % 2 == 1 then mul(result, squaredBase) else Ok(result);
    if bits == 1 then Ok(next) else
      var square :- mul(squaredBase, squaredBase);
      Rounds(mul, exp / 2, bits - 1, square, next)
  }

  /** `u128::MAX.checked_div(x)?` for a positive `x`. */
  function Inverse(x: uint128): uint128
    requires x > 0
  {
    FloorBounds(U128_MAX, x);
    U128_MAX / x
  }

  function Pow(base: uint128, exp: nat): Result<uint128> {
    if exp == 0 then Ok(Q64) else
      var _ :- Require(exp < MAX_EXPONENTIAL, MathOverflow);
      var invert := base >= Q64;
      var result :- Rounds(MulShift, exp, EXPONENT_BITS, if invert then Inverse(base) else base, Q64);
      var _ :- Require(result > 0, MathOverflow);
      Ok(if invert then Inverse(result) else result)
  }

  datatype Registers = Registers(squaredBase: uint128, result: uint128)

  /** One unrolled round: multiply when the lowest bit of `exp` is set, then square. */
  method MultiplyThenSquare(mul: Multiplication, exp: nat, bits: nat, regs: Registers) returns (r: Result<Registers>)
    requires bits > 1
    ensures Rounds(mul, exp, bits, regs.squaredBase, regs.result)
         == if r.Ok? then Rounds(mul, exp / 2, bits - 1, r.value.squaredBase, r.value.result) else Err(r.error)
  {
    var result := regs.result;
    if exp % 2 == 1 {
      result :- mul(result, regs.squaredBase);
    }
    var squaredBase :- mul(regs.squaredBase, regs.squaredBase);
    return Ok(Registers(squaredBase, result));
  }

  /** Six rounds; bit `k` of `exp` is the lowest bit of `exp` shifted right by `k`. */
  method SixRounds(mul: Multiplication, exp: nat, bits: nat, start: Registers) returns (r: Result<Registers>)
    requires bits > 6
    ensures Rounds(mul, exp, bits, start.squaredBase, start.result)
         == if r.Ok? then Rounds(mul, exp / 0x40, bits - 6, r.value.squaredBase, r.value.result) else Err(r.error)
  {
    var e0, regs := exp, start;
    regs :- MultiplyThenSquare(mul, e0, bits, regs);
    var e1 := e0 / 2;
    regs :- MultiplyThenSquare(mul, e1, bits - 1, regs);
    var e2 := e1 / 2;
    regs :- MultiplyThenSquare(mul, e2, bits - 2, regs);
    var e3 := e2 / 2;
    regs :- MultiplyThenSquare(mul, e3, bits - 3, regs);
    var e4 := e3 / 2;
    regs :- MultiplyThenSquare(mul, e4, bits - 4, regs);
    var e5 := e4 / 2;
    regs :- MultiplyThenSquare(mul, e5, bits - 5, regs);
    return Ok(regs);
  }

  /** The program's 19 unrolled steps: 18 rounds, and a last multiplication without a squaring. */
  method UnrolledRounds(mul: Multiplication, exp: nat, start: Registers) returns (r: Result<uint128>)
    ensures r == Rounds(mul, exp, EXPONENT_BITS, start.squaredBase, start.result)
  {
    var regs := start;
    regs :- SixRounds(mul, exp, 19, regs);
    var from6 := exp / 0x40;
    regs :- SixRounds(mul, from6, 13, regs);
    var from12 := from6 / 0x40;
    regs :- SixRounds(mul, from12, 7, regs);
    var from18 := from12 / 0x40;
    if from18 % 2 == 1 {
      r := mul(regs.result, regs.squaredBase);
    } else {
      r := Ok(regs.result);
    }
  }

  method PowUnrolled(base: uint128, exp: nat) returns (r: Result<uint128>)
    ensures r == Pow(base, exp)
  {
    if exp == 0 {
      return Ok(Q64);
    }
    if exp >= MAX_EXPONENTIAL {
      return Err(MathOverflow);
    }
    var invert := false;
    var squaredBase := base;
    if squaredBase >= Q64 {
      squaredBase := Inverse(squaredBase);
      invert := !invert;
    }
    var result :- UnrolledRounds(MulShift, exp, Registers(squaredBase, Q64));
    if result == 0 {
      return Err(MathOverflow);
    }
    if invert {
      result := Inverse(result);
    }
    return Ok(result);
  }

  /** The loop the program's comment says the unrolled rounds stand for. */
  function Loop(exp: nat, base: uint128, result: uint128): Result<uint128> {
    if exp == 0 then Ok(result) else
      var next :- if exp % 2 == 1 then MulShift(result, base) else Ok(result);
      var square :- MulShift(base, base);
      Loop(exp / 2, square, next)
  }

  function Exp2(n: nat): nat {
    if n == 0 then 1 else 2 * Exp2(n - 1)
  }

  /** Below one in Q64 no product overflows and the results stay there. */
  lemma MulShiftStays(x: uint128, y: uint128)
    requires x <= Q64 && y < Q64
    ensures MulShift(x, y) == Ok(x * y / Q64) && x * y / Q64 <= y
  {
    MulMono(x, Q64, y);
    FloorMono(x * y, Q64 * y, Q64);
  }

  lemma {:induction false} RoundsAreTheLoop(exp: nat, bits: nat, base: uint128, result: uint128)
    requires bits > 0 && exp < Exp2(bits) && base < Q64 && result <= Q64
    ensures Rounds(MulShift, exp, bits, base, result) == Loop(exp, base, result)
  {
    MulShiftStays(result, base);
    MulShiftStays(base, base);
    var next := if exp % 2 == 1 then result * base / Q64 else result;
    if bits == 1 {
      assert exp / 2 == 0;
    } else {
      RoundsAreTheLoop(exp / 2, bits - 1, base * base / Q64, next);
      if exp == 0 {
        assert Loop(exp / 2, base * base / Q64, next) == Ok(result);
      }
    }
  }

  // ---------------------------------------------------------------------------------------------
  // Error bound
  // ---------------------------------------------------------------------------------------------

  function Power(b: nat, n: nat): nat {
    if n == 0 then 1 else b * Power(b, n - 1)
  }

  lemma {:induction false} PowerAdd(b: nat, m: nat, n: nat)
    ensures Power(b, m + n) == Power(b, m) * Power(b, n)
  {
    if m > 0 {
      PowerAdd(b, m - 1, n);
      assert b * (Power(b, m - 1) * Power(b, n)) == b * Power(b, m - 1) * Power(b, n);
    }
  }

  lemma {:induction false} PowerMono(a: nat, b: nat, n: nat)
    requires a <= b
    ensures Power(a, n) <= Power(b, n)
  {
    if n > 0 {
      PowerMono(a, b, n - 1);
      MulMono(a, b, Power(a, n - 1));
      MulMono(Power(a, n - 1), Power(b, n - 1), b);
    }
  }

  lemma {:induction false} PowerPositive(b: nat, n: nat)
    requires b > 0
    ensures Power(b, n) > 0
  {
    if n > 0 {
      PowerPositive(b, n - 1);
    }
  }

  /** `x` is `base^n / one^(n-1)`, the exact power in units of `1 / one`, less at most `n - 1` units. */
  ghost predicate Approximates(x: nat, base: nat, n: nat, one: nat)
    requires n > 0
  {
    x * Power(one, n - 1) <= Power(base, n) <= (x + n - 1) * Power(one, n - 1)
  }

  /** The powers of a product's exponent, by those of its factors. */
  lemma PowersOfSum(base: nat, m: nat, n: nat, one: nat)
    requires m > 0 && n > 0 && base <= one
    ensures Power(base, m + n) == Power(base, m) * Power(base, n)
    ensures Power(one, m + n - 1) == one * (Power(one, m - 1) * Power(one, n - 1))
    ensures Power(base, n) <= one * Power(one, n - 1)
  {
    PowerAdd(base, m, n);
    PowerAdd(one, m - 1, n - 1);
    PowerMono(base, one, n);
  }

  /** One truncated multiplication adds the two errors and one more unit. */
  lemma ProductApproximates(x: nat, m: nat, y: nat, n: nat, base: nat, one: nat)
    requires m > 0 && n > 0 && 0 < one && base <= one && x <= one
    requires Approximates(x, base, m, one) && Approximates(y, base, n, one)
    ensures Approximates(x * y / one, base, m + n, one)
  {
    hide Power;
    var z := Quotient(x * y, one);
    FloorIs(x * y, one, z);
    PowersOfSum(base, m, n, one);
    var u, v := Power(one, m - 1), Power(one, n - 1);
    var f, g := Power(base, m), Power(base, n);
    ProductLower(x, u, f, y, v, g, z, one);
    ProductUpper(x, m - 1, u, f, y, n - 1, v, g, z, one);
  }

  lemma ProductLower(x: nat, u: nat, f: nat, y: nat, v: nat, g: nat, z: nat, one: nat)
    requires x * u <= f && y * v <= g && z * one <= x * y
    ensures z * (one * (u * v)) <= f * g
  {
    calc {
      z * (one * (u * v));
      z * one * (u * v);
    <= { MulMono(z * one, x * y, u * v); }
      x * y * (u * v);
      (x * u) * (y * v);
    <= { MulMono(x * u, f, y * v); }
      f * (y * v);
    <= { MulMono(y * v, g, f); }
      f * g;
    }
  }

  lemma ProductUpper(x: nat, d: nat, u: nat, f: nat, y: nat, e: nat, v: nat, g: nat, z: nat, one: nat)
    requires f <= (x + d) * u && g <= (y + e) * v && g <= one * v
    requires x <= one && x * y < (z + 1) * one
    ensures f * g <= (z + d + e + 1) * (one * (u * v))
  {
    UpperFactor(x, d, u, f, y, e, v, g, one);
    UpperFactors(x, d, u, y, e, v, one);
    UpperTotal(x * y, x * e, d, e, z, one) by {
      MulMono(x, one, e);
    }
    UpperTimes(x * y + x * e + d * one, z + d + e + 1, one, u * v);
  }

  lemma UpperFactor(x: nat, d: nat, u: nat, f: nat, y: nat, e: nat, v: nat, g: nat, one: nat)
    requires f <= (x + d) * u && g <= (y + e) * v && g <= one * v
    ensures f * g <= x * u * ((y + e) * v) + d * u * (one * v)
  {
    var xu, du := x * u, d * u;
    assert (x + d) * u == xu + du;
    MulMono(f, xu + du, g);
    assert (xu + du) * g == xu * g + du * g;
    MulMono(g, (y + e) * v, xu);
    MulMono(g, one * v, du);
  }

  lemma UpperTimes(total: nat, q: nat, one: nat, w: nat)
    requires total <= q * one
    ensures total * w <= q * (one * w)
  {
    MulMono(total, q * one, w);
    assert q * one * w == q * (one * w);
  }

  lemma UpperFactors(x: nat, d: nat, u: nat, y: nat, e: nat, v: nat, one: nat)
    ensures x * u * ((y + e) * v) + d * u * (one * v) == (x * y + x * e + d * one) * (u * v)
  {
    var w := u * v;
    assert x * u * ((y + e) * v) == x * (y + e) * w;
    assert x * (y + e) == x * y + x * e;
    assert d * u * (one * v) == d * one * w;
  }

  lemma UpperTotal(xy: nat, xe: nat, d: nat, e: nat, z: nat, one: nat)
    requires xy < (z + 1) * one && xe <= one * e
    ensures xy + xe + d * one <= (z + d + e + 1) * one
  {
    assert (z + d + e + 1) * one == (z + 1) * one + d * one + e * one;
  }

  /** What the rounds hold: `done` is the part of the exponent already in `result`. */
  ghost predicate Holds(result: uint128, base: uint128, done: nat) {
    result <= Q64 && if done == 0 then result == Q64 else Approximates(result, base, done, Q64)
  }

  lemma MultiplyHolds(result: uint128, base: uint128, done: nat, square: uint128, weight: nat)
    requires weight > 0 && base < Q64 && square < Q64
    requires Holds(result, base, done) && Approximates(square, base, weight, Q64)
    ensures MulShift(result, square) == Ok(result * square / Q64)
    ensures Holds(result * square / Q64, base, done + weight)
    ensures result * square / Q64 <= square
  {
    MulShiftStays(result, square);
    if done > 0 {
      ProductApproximates(result, done, square, weight, base, Q64);
    }
  }

  lemma SquareHolds(square: uint128, weight: nat, base: uint128)
    requires weight > 0 && base < Q64 && square < Q64 && Approximates(square, base, weight, Q64)
    ensures var next := square * square / Q64;
            MulShift(square, square) == Ok(next) && next < Q64 && Approximates(next, base, 2 * weight, Q64)
  {
    MulShiftStays(square, square);
    ProductApproximates(square, weight, square, weight, base, Q64);
  }

  lemma Halves(exp: nat, weight: nat, done: nat)
    ensures done + weight * exp == done + weight * (exp % 2) + 2 * weight * (exp / 2)
  {
    assert exp == 2 * (exp / 2) + exp % 2;
    assert weight * (2 * (exp / 2) + exp % 2) == 2 * weight * (exp / 2) + weight * (exp % 2);
  }

  lemma {:induction false} RoundsApproximate(exp: nat, bits: nat, square: uint128, result: uint128,
                                             base: uint128, weight: nat, done: nat)
    requires bits > 0 && exp < Exp2(bits) && weight > 0 && base < Q64 && square < Q64
    requires Approximates(square, base, weight, Q64) && Holds(result, base, done)
    ensures var r := Rounds(MulShift, exp, bits, square, result);
            r.Ok? && Holds(r.value, base, done + weight * exp)
  {
    Halves(exp, weight, done);
    var next, reached := result, done;
    if exp % 2 == 1 {
      MultiplyHolds(result, base, done, square, weight);
      next, reached := result * square / Q64, done + weight;
    }
    if bits == 1 {
      assert exp / 2 == 0;
    } else {
      SquareHolds(square, weight, base);
      RoundsApproximate(exp / 2, bits - 1, square * square / Q64, next, base, 2 * weight, reached);
    }
  }

  lemma ExponentBits()
    ensures Exp2(EXPONENT_BITS) == MAX_EXPONENTIAL
  {
    assert Exp2(15) == 0x8000;
  }

  lemma RoundsOfPow(base: uint128, exp: nat)
    requires base < Q64 && 0 < exp < MAX_EXPONENTIAL
    ensures var r := Rounds(MulShift, exp, EXPONENT_BITS, base, Q64);
            r.Ok? && r.value <= Q64 && Approximates(r.value, base, exp, Q64)
  {
    ExponentBits();
    assert Power(base, 1) == base * Power(base, 0) == base;
    RoundsApproximate(exp, EXPONENT_BITS, base, Q64, base, 1, 0);
  }

  /** For a base below one, no checked multiplication fails, the unrolled rounds are the loop, and a
      returned power is positive, at most the exact one and at most `exp - 1` units below it. Nothing is
      returned exactly when the truncated result reached zero, and then the exact power is below `exp` units. */
  lemma PowErrorBound(base: uint128, exp: nat)
    requires base < Q64 && 0 < exp < MAX_EXPONENTIAL
    ensures Rounds(MulShift, exp, EXPONENT_BITS, base, Q64) == Loop(exp, base, Q64)
    ensures Loop(exp, base, Q64).Ok?
    ensures Pow(base, exp).Ok? <==> Loop(exp, base, Q64) != Ok(0)
    ensures var r := Pow(base, exp);
            if r.Ok? then 0 < r.value <= Q64 && Approximates(r.value, base, exp, Q64)
            else Power(base, exp) <= (exp - 1) * Power(Q64, exp - 1)
  {
    RoundsOfPow(base, exp);
    ExponentBits();
    RoundsAreTheLoop(exp, EXPONENT_BITS, base, Q64);
  }

  /** The base below one that the rounds start from. */
  ghost function Start(base: uint128): uint128 {
    if base >= Q64 then Inverse(base) else base
  }

  lemma StartBelowOne(base: uint128)
    ensures Start(base) < Q64
  {
    if base >= Q64 {
      FloorBelow(U128_MAX, base, Q64) by {
        MulMono(Q64, base, Q64);
      }
    }
  }

  lemma InverseBounds(x: uint128)
    requires x > 0
    ensures Inverse(x) * x <= U128_MAX < (Inverse(x) + 1) * x
  {
    FloorBounds(U128_MAX, x);
  }

  /** No checked multiplication fails for any base, since one of one or more is inverted first. The only failure is a
      result truncated to zero, and then the exact power of the starting base is below `exp` units; otherwise the power of
      the starting base, approximated from below, is returned as it is or inverted back. */
  lemma PowNeverOverflows(base: uint128, exp: nat)
    requires 0 < exp < MAX_EXPONENTIAL
    ensures var rounds, pow := Rounds(MulShift, exp, EXPONENT_BITS, Start(base), Q64), Pow(base, exp);
            && rounds.Ok? && Approximates(rounds.value, Start(base), exp, Q64)
            && (pow.Err? <==> rounds.value == 0)
            && (pow.Err? ==> Power(Start(base), exp) <= (exp - 1) * Power(Q64, exp - 1))
            && (pow.Ok? ==>
                  if base < Q64 then pow.value == rounds.value
                  else pow.value * rounds.value <= U128_MAX < (pow.value + 1) * rounds.value)
  {
    StartBelowOne(base);
    RoundsOfPow(Start(base), exp);
    var rounds := Rounds(MulShift, exp, EXPONENT_BITS, Start(base), Q64).value;
    if rounds > 0 {
      InverseBounds(rounds);
    }
    hide Rounds, Power, Inverse;
  }
}
