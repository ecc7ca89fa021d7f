/** Facts about products, floors and ceilings that the other modules share. */
module Arithmetic {
  import opened Numbers

  lemma MulMono(a: int, b: int, c: int)
    requires a <= b && c >= 0
    ensures a * c <= b * c && c * a <= c * b
  {
  }

  /** A common positive factor can be cancelled from an inequality. */
  lemma CancelFactor(a: int, b: int, c: int)
    requires c > 0 && a * c <= b * c
    ensures a <= b
  {
    if a > b {
      MulMono(b + 1, a, c);
    }
  }

  lemma CancelFactorStrict(a: int, b: int, c: int)
    requires c > 0 && a * c < b * c
    ensures a < b
  {
    if a >= b {
      MulMono(b, a, c);
    }
  }

  lemma {:induction false} FloorIsDivision(n: nat, d: nat)
    requires d > 0
    ensures Floor(n, d) == n / d
    decreases n
  {
    if n >= d {
      FloorIsDivision(n - d, d);
      var q := (n - d) / d;
      assert q * d <= n - d < q * d + d;
      assert (q + 1) * d == q * d + d;
      DivisionIs(n, d, q + 1);
    } else {
      DivisionIs(n, d, 0);
    }
  }

  lemma DivisionIs(n: nat, d: nat, q: nat)
    requires d > 0 && q * d <= n < q * d + d
    ensures n / d == q
  {
    var r := n / d;
    assert r * d <= n < r * d + d;
    assert (r + 1) * d == r * d + d && (q + 1) * d == q * d + d;
    CancelFactorStrict(q, r + 1, d);
    CancelFactorStrict(r, q + 1, d);
  }

  lemma FloorBounds(n: nat, d: nat)
    requires d > 0
    ensures n / d * d <= n < n / d * d + d
    ensures n < (n / d + 1) * d && n / d <= n
  {
    var q := n / d;
    assert q * d <= n < q * d + d;
    assert (q + 1) * d == q * d + d;
    MulMono(1, d, q);
  }

  /** The rounded quotient is the integer next to `n / d` on the side asked for. */
  lemma DivRoundBounds(n: nat, d: nat, rounding: Rounding)
    requires d > 0
    ensures rounding.Down? ==> var q := DivRound(n, d, rounding); q * d <= n < q * d + d
    ensures rounding.Up? ==> var q := DivRound(n, d, rounding); n <= q * d < n + d
  {
    FloorIsDivision(n, d);
    FloorIsDivision(n + d - 1, d);
    FloorBounds(n, d);
    FloorBounds(n + d - 1, d);
  }

  /** Floor and ceiling are the greatest and least integers on their side. */
  lemma FloorIsGreatest(n: nat, d: nat, m: nat)
    requires d > 0 && m * d <= n
    ensures m <= n / d
  {
    var q := n / d;
    FloorBounds(n, d);
    if m > q {
      MulMono(q + 1, m, d);
    }
  }

  lemma FloorBelow(n: nat, d: nat, m: nat)
    requires d > 0 && n < m * d
    ensures n / d < m
  {
    var q := n / d;
    FloorBounds(n, d);
    if m <= q {
      MulMono(m, q, d);
    }
  }

  lemma CeilIsLeast(n: nat, d: nat, m: nat)
    requires d > 0 && n <= m * d
    ensures DivRound(n, d, Up) <= m
  {
    var q := DivRound(n, d, Up);
    DivRoundBounds(n, d, Up);
    if q > m {
      MulMono(m + 1, q, d);
    }
  }

  lemma FloorIs(n: nat, d: nat, q: nat)
    requires q * d <= n < (q + 1) * d
    ensures d > 0 && n / d == q
  {
    assert (q + 1) * d == q * d + d;
    FloorIsGreatest(n, d, q);
    FloorBelow(n, d, q + 1);
  }

  lemma Quotient(n: nat, d: nat) returns (q: nat)
    requires d > 0
    ensures q * d <= n < (q + 1) * d
  {
    q := n / d;
    FloorBounds(n, d);
  }

  lemma LeastQuotient(n: nat, d: nat, bound: nat) returns (q: nat)
    requires n > 0 && d > 0 && n <= bound * d
    ensures 0 < q <= bound && (q - 1) * d < n <= q * d
  {
    q := DivRound(n, d, Up);
    DivRoundBounds(n, d, Up);
    CeilIsLeast(n, d, bound);
    hide DivRound;
    assert (q - 1) * d == q * d - d;
  }

  /** The least of the integers `m` with `target <= m * d` is unique. */
  lemma LeastIs(target: nat, d: nat, n: nat, m: nat)
    requires (n - 1) * d < target <= m * d
    ensures n <= m
  {
    if m < n {
      MulMono(m, n - 1, d);
    }
  }

  lemma FloorMono(n: nat, m: nat, d: nat)
    requires d > 0 && n <= m
    ensures n / d <= m / d
  {
    var q := n / d;
    assert q * d <= m by {
      FloorBounds(n, d);
    }
    FloorIsGreatest(m, d, q);
  }

  /** Flooring two parts loses at most one unit against flooring their sum. */
  lemma FloorOfSum(x: nat, y: nat, d: nat)
    requires d > 0
    ensures x / d + y / d <= (x + y) / d <= x / d + y / d + 1
  {
    var a, b := x / d, y / d;
    assert a * d + b * d <= x + y < a * d + b * d + 2 * d by {
      FloorBounds(x, d);
      FloorBounds(y, d);
    }
    SumBounds(x + y, d, a, b);
  }

  lemma SumBounds(n: nat, d: nat, a: nat, b: nat)
    requires d > 0 && a * d + b * d <= n < a * d + b * d + 2 * d
    ensures a + b <= n / d <= a + b + 1
  {
    assert (a + b) * d == a * d + b * d;
    assert (a + b + 2) * d == a * d + b * d + 2 * d;
    FloorIsGreatest(n, d, a + b);
    FloorBelow(n, d, a + b + 2);
  }

  /** A floor or a ceiling is exact just when the division has no remainder. */
  lemma FloorIsExact(n: nat, d: nat, q: nat)
    requires q * d <= n < (q + 1) * d
    ensures d > 0 && (n % d == 0 <==> n == q * d)
  {
    FloorIs(n, d, q);
    assert n == n / d * d + n % d;
  }

  lemma CeilIsExact(n: nat, d: nat, q: nat)
    requires (q - 1) * d < n <= q * d
    ensures d > 0 && (n % d == 0 <==> n == q * d)
  {
    assert q * d == (q - 1) * d + d;
    if n < q * d {
      FloorIsExact(n, d, q - 1);
    } else {
      assert (q + 1) * d == q * d + d;
      FloorIsExact(n, d, q);
    }
  }

  /** `k` whole periods of length `f` have passed, or all `n` of them. */
  ghost predicate InPeriod(elapsed: int, f: nat, n: nat, k: nat) {
    k <= n && k * f <= elapsed && (k < n ==> elapsed < (k + 1) * f)
  }

  lemma WholePeriods(elapsed: nat, f: nat, n: nat, k: nat)
    requires f > 0 && InPeriod(elapsed, f, n, k)
    ensures Min(elapsed / f, n) == k
  {
    FloorIsGreatest(elapsed, f, k);
    if k < n {
      FloorBelow(elapsed, f, k + 1);
    }
  }

  /** `shl_div_256` of two 128-bit numbers always fits, and is the quotient rounded down. */
  lemma ShiftedQuotient(total: uint128, supply: uint128) returns (growth: uint256)
    requires supply > 0
    ensures ShlDiv128(total, supply) == Ok(growth)
    ensures supply * growth <= Q128 * total < supply * (growth + 1)
  {
    var shifted := total * Q128;
    var q := Quotient(shifted, supply);
    FloorIs(shifted, supply, q);
    MulMono(1, supply, q);
    growth := q;
  }

  lemma QuotientFits(q: nat, d: nat, n: int, room: nat)
    requires d > 0 && d * q <= n < d * (q + 1)
    ensures q <= room <==> n < d * (room + 1)
  {
    if q <= room {
      MulMono(q + 1, room + 1, d);
    } else {
      MulMono(room + 1, q, d);
    }
  }
}
