/** The exponentially decayed fee, `cliff * (1 - reductionFactor / 10_000) ^ passedPeriod`
    (`fee_math.rs`, `get_fee_in_period`), and why it does not increase with time although its powers are
    rounded independently of each other. */
module FeeMath {
  import opened Numbers
  import opened Arithmetic
  import opened Exponentiation

  const BASIS_POINT_MAX: nat := 10_000

  /** The Q64 factor kept per period; negative when the reduction exceeds the whole fee. */
  function DecayBase(reductionFactor: uint64): int {
    Q64 - reductionFactor * Q64 / BASIS_POINT_MAX
  }

  function ScaledFee(power: uint128, cliff: uint64): Result<uint64> {
    var product :- Checked128(power * cliff);
    Cast64(product / Q64)
  }

  function FeeInPeriod(cliff: uint64, reductionFactor: uint64, passedPeriod: uint16): Result<uint64> {
    if reductionFactor == 0 then Ok(cliff) else
      var base :- Checked128(DecayBase(reductionFactor));
      var power :- Pow(base, passedPeriod);
      ScaledFee(power, cliff)
  }

  lemma ScaledFeeBounds(power: uint128, cliff: uint64)
    requires power <= Q64
    ensures ScaledFee(power, cliff) == Ok(power * cliff / Q64) && power * cliff / Q64 <= cliff
  {
    MulMono(power, Q64, cliff);
    FloorMono(power * cliff, Q64 * cliff, Q64);
  }

  lemma ScaledFeeMono(late: uint128, early: uint128, cliff: uint64)
    requires late <= early <= Q64
    ensures ScaledFee(late, cliff).Ok? && ScaledFee(early, cliff).Ok?
    ensures ScaledFee(late, cliff).value <= ScaledFee(early, cliff).value <= cliff
  {
    ScaledFeeBounds(late, cliff);
    ScaledFeeBounds(early, cliff);
    MulMono(late, early, cliff);
    FloorMono(late * cliff, early * cliff, Q64);
  }

  /** A fee that is still at least 1/5_000 of the cliff fee leaves a large power. */
  lemma LargePower(power: nat, cliff: nat)
    requires 0 < cliff <= 5_000 * (power * cliff / Q64)
    ensures power >= 0x1_0000_0000
  {
    FloorBounds(power * cliff, Q64);
    assert cliff * Q64 <= 5_000 * power * cliff;
    CancelFactor(Q64, 5_000 * power, cliff);
  }

  /** One basis point in Q64, the least that a positive reduction factor takes from the base. */
  const ONE_BPS: nat := 1844674407370955

  lemma DecayBaseBelowOne(reductionFactor: uint64)
    requires reductionFactor > 0
    ensures DecayBase(reductionFactor) + ONE_BPS <= Q64
  {
    assert ONE_BPS == Q64 / BASIS_POINT_MAX;
    FloorMono(Q64, reductionFactor * Q64, BASIS_POINT_MAX);
  }

  lemma CancelPowers(late: nat, one: nat, base: nat, e: nat, u: nat, v: nat, f: nat, g: nat)
    requires late * (u * (one * v)) <= f * (base * g) && f <= e * u && g <= v && u > 0 && v > 0
    ensures late * one <= base * e
  {
    calc {
      late * one * (u * v);
      late * (u * (one * v));
    <=
      f * (base * g);
      f * g * base;
    <= { MulMono(f, e * u, g); MulMono(g, v, e * u); MulMono(f * g, e * u * v, base); }
      e * u * v * base;
      base * e * (u * v);
    }
    CancelFactor(late * one, base * e, u * v);
  }

  /** Approximate powers at two periods, the later against the earlier. */
  lemma DecayBetween(base: nat, n: nat, m: nat, early: nat, late: nat)
    requires 0 < n < m && base <= Q64
    requires Approximates(early, base, n, Q64) && Approximates(late, base, m, Q64)
    ensures late <= early + n - 1
    ensures late * Q64 <= base * (early + n - 1)
  {
    PowerAdd(base, n, m - n);
    PowerAdd(Q64, n - 1, m - n);
    PowerMono(base, Q64, m - n - 1);
    PowerPositive(Q64, n - 1);
    PowerPositive(Q64, m - n - 1);
    CancelPowers(late, Q64, base, early + n - 1, Power(Q64, n - 1), Power(Q64, m - n - 1),
                 Power(base, n), Power(base, m - n - 1));
    MulMono(base, Q64, early + n - 1);
  }

  /** While the power at the last period is at least 2^32, no power exceeds an earlier one: what one period
      takes off outweighs the rounding error. */
  lemma DecayIsMonotone(base: nat, n: nat, m: nat, end: nat, early: nat, late: nat, last: nat)
    requires base + ONE_BPS <= Q64 && 0 < n < m <= end <= 0xFFFF && last >= 0x1_0000_0000
    requires Approximates(early, base, n, Q64) && Approximates(late, base, m, Q64) && Approximates(last, base, end, Q64)
    ensures late <= early
  {
    DecayBetween(base, n, m, early, late);
    DecayBetween(base, n, end, early, last);
    MulMono(base, Q64 - ONE_BPS, early + n - 1);
    assert late * Q64 <= (Q64 - ONE_BPS) * (early + n - 1);
  }

  lemma PowerOf(base: uint128, n: nat) returns (power: uint128)
    requires base < Q64 && 0 < n < MAX_EXPONENTIAL
    ensures power <= Q64 && Approximates(power, base, n, Q64)
    ensures Pow(base, n) == if power > 0 then Ok(power) else Err(MathOverflow)
  {
    RoundsOfPow(base, n);
    power := Rounds(MulShift, n, EXPONENT_BITS, base, Q64).value;
  }

  lemma PowersDecay(base: uint128, n: nat, m: nat, end: nat)
    requires base + ONE_BPS <= Q64 && n <= m <= end <= 0xFFFF
    requires Pow(base, end).Ok? && Pow(base, end).value >= 0x1_0000_0000
    ensures var early, late := Pow(base, n), Pow(base, m);
            early.Ok? && late.Ok? && late.value <= early.value <= Q64
  {
    if m > 0 {
      var last := PowerOf(base, end);
      var late := PowerOf(base, m);
      if m < end {
        DecayBetween(base, m, end, late, last);
      }
      if 0 < n < m {
        var early := PowerOf(base, n);
        DecayIsMonotone(base, n, m, end, early, late, last);
      }
    }
  }

  /** If the fee after `end` periods exists and is at least 1/5_000 of the cliff fee, so does the fee after
      any fewer periods, and the fees do not increase with the periods passed. */
  lemma FeeInPeriodIsMonotone(cliff: uint64, reductionFactor: uint64, n: uint16, m: uint16, end: uint16)
    requires n <= m <= end && cliff > 0
    requires var last := FeeInPeriod(cliff, reductionFactor, end); last.Ok? && cliff <= 5_000 * last.value
    ensures var early, late := FeeInPeriod(cliff, reductionFactor, n), FeeInPeriod(cliff, reductionFactor, m);
            early.Ok? && late.Ok? && late.value <= early.value <= cliff
  {
    if reductionFactor > 0 {
      DecayBaseBelowOne(reductionFactor);
      var base := DecayBase(reductionFactor);
      if end > 0 {
        var last := PowerOf(base, end);
      }
      ScaledFeeBounds(Pow(base, end).value, cliff);
      LargePower(Pow(base, end).value, cliff);
      PowersDecay(base, n, m, end);
      ScaledFeeMono(Pow(base, m).value, Pow(base, n).value, cliff);
    }
  }

  lemma NoFeeWithoutCliff(reductionFactor: uint64, n: uint16)
    ensures var fee := FeeInPeriod(0, reductionFactor, n); fee.Ok? ==> fee.value == 0
  {
    hide Pow;
  }

  lemma FeeAgainstPower(fee: nat, cliff: nat, power: nat, k: nat, scale: nat, exact: nat)
    requires fee * Q64 <= power * cliff < (fee + 1) * Q64 && power * scale <= exact <= (power + k) * scale
    ensures fee * (Q64 * scale) <= cliff * exact <= ((fee + 1) * Q64 + cliff * k) * scale
  {
    MulMono(fee * Q64, power * cliff, scale);
    MulMono(power * scale, exact, cliff);
    assert fee * (Q64 * scale) == fee * Q64 * scale && power * cliff * scale == cliff * (power * scale);
    MulMono(exact, (power + k) * scale, cliff);
    assert cliff * ((power + k) * scale) == (power * cliff + cliff * k) * scale;
    MulMono(power * cliff + cliff * k, (fee + 1) * Q64 + cliff * k, scale);
  }

  /** The base takes off, rounded down, `reductionFactor` ten-thousandths. */
  lemma DecayBaseIs(reductionFactor: uint64)
    ensures var taken := Q64 - DecayBase(reductionFactor);
            taken * BASIS_POINT_MAX <= reductionFactor * Q64 < (taken + 1) * BASIS_POINT_MAX
  {
    FloorBounds(reductionFactor * Q64, BASIS_POINT_MAX);
  }

  /** Before any period has passed, or without a reduction, the fee is the cliff fee. It is undefined only if the reduction
      is more than the whole, or if the exact power is below `k` units in the last place. */
  lemma FeeInPeriodIsDefined(cliff: uint64, reductionFactor: uint64, k: uint16)
    ensures reductionFactor == 0 || (k == 0 && reductionFactor <= BASIS_POINT_MAX) ==>
              FeeInPeriod(cliff, reductionFactor, k) == Ok(cliff)
    ensures reductionFactor > BASIS_POINT_MAX ==> FeeInPeriod(cliff, reductionFactor, k).Err?
    ensures 0 < reductionFactor <= BASIS_POINT_MAX ==> DecayBase(reductionFactor) >= 0
    ensures 0 < reductionFactor <= BASIS_POINT_MAX && FeeInPeriod(cliff, reductionFactor, k).Err? ==>
              k > 0 && Power(DecayBase(reductionFactor), k) <= (k - 1) * Power(Q64, k - 1)
  {
    DecayBaseIs(reductionFactor);
    if 0 < reductionFactor <= BASIS_POINT_MAX {
      DecayBaseBelowOne(reductionFactor);
      hide DecayBase, Power;
      if k > 0 {
        PowErrorBound(DecayBase(reductionFactor), k);
        var power := PowerOf(DecayBase(reductionFactor), k);
        hide Pow;
        ScaledFeeBounds(power, cliff);
      } else {
        assert Pow(DecayBase(reductionFactor), 0) == Ok(Q64);
        hide Pow;
        assert ScaledFee(Q64, cliff) == Ok(cliff);
      }
    }
  }

  /** The exponential fee after `k` periods is the cliff fee times the `k`-th power of the decay base, from below and up
      to `k - 1` truncations of the power and one of the fee. */
  lemma FeeInPeriodApproximates(cliff: uint64, reductionFactor: uint64, k: uint16)
    requires reductionFactor > 0 && k > 0 && FeeInPeriod(cliff, reductionFactor, k).Ok?
    ensures 0 <= DecayBase(reductionFactor) < Q64
    ensures var taken := Q64 - DecayBase(reductionFactor);
            taken * BASIS_POINT_MAX <= reductionFactor * Q64 < (taken + 1) * BASIS_POINT_MAX
    ensures var fee, base := FeeInPeriod(cliff, reductionFactor, k).value, DecayBase(reductionFactor);
            && fee * Power(Q64, k) <= cliff * Power(base, k)
            <= ((fee + 1) * Q64 + cliff * (k - 1)) * Power(Q64, k - 1)
  {
    hide Pow, Power;
    DecayBaseBelowOne(reductionFactor);
    DecayBaseIs(reductionFactor);
    var power := PowerOf(DecayBase(reductionFactor), k);
    ScaledFeeBounds(power, cliff);
    var fee := Quotient(power * cliff, Q64);
    FloorIs(power * cliff, Q64, fee);
    FeeAgainstPower(fee, cliff, power, k - 1, Power(Q64, k - 1), Power(DecayBase(reductionFactor), k));
    NextPower(Q64, k);
  }

  lemma NextPower(b: nat, n: nat)
    requires n > 0
    ensures Power(b, n) == b * Power(b, n - 1)
  {
  }
}
