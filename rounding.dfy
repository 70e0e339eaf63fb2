/**
 The probability column of `create_combinations`: `round(Trx AB / Trx A, 3) * 100`.
 The `round` there is applied to a pandas Series, so it rounds as numpy does:
 scale by 1000, round to the nearest integer with ties to even, scale back.
 The model does this on the exact rational quotient rather than on floats.
 */
module Rounding {

  /** The distance between two integers. */
  function Dist(x: int, y: int): nat
  {
    if x <= y then y - x else x - y
  }

  /**
   The quotient `n / d` rounded to an integer: nearest to `n / d`, and even
   when `n / d` lies exactly halfway between two integers.
   */
  function RoundHalfEven(n: nat, d: nat): (q: nat)
    requires d > 0
    ensures 2 * Dist(n, q * d) <= d
    ensures 2 * Dist(n, q * d) == d ==> q % 2 == 0
  {
    var q0, r := n / d, n % d;
    DivMod(n, d);
    if 2 * r < d then q0
    else if 2 * r > d then q0 + 1
    else if q0 % 2 == 0 then q0
    else q0 + 1
  }

  /** The quotient and remainder of `n / d`, and the next multiple of `d` after `n / d * d`. */
  lemma DivMod(n: nat, d: nat)
    requires d > 0
    ensures n == (n / d) * d + n % d && 0 <= n % d < d
    ensures (n / d + 1) * d == (n / d) * d + d
  {
  }

  /** Two nonnegative integers within half a denominator of `n` differ by at most one. */
  lemma {:induction false} NearbyMultiples(n: nat, d: nat, q1: nat, q2: nat)
    requires d > 0
    requires 2 * Dist(n, q1 * d) <= d && 2 * Dist(n, q2 * d) <= d
    requires q1 < q2
    ensures q2 == q1 + 1
    ensures 2 * Dist(n, q1 * d) == d && 2 * Dist(n, q2 * d) == d
  {
    // both multiples lie within d / 2 of n, so they are at most d apart
    assert (q2 - q1) * d == q2 * d - q1 * d <= d;
    assert q2 - q1 < 2 by {
      MultipleGrows(q2 - q1, 2, d);
    }
    assert q2 * d == q1 * d + d;
  }

  /** The two properties of `RoundHalfEven` determine its result. */
  lemma RoundingIsUnique(n: nat, d: nat, q: nat)
    requires d > 0
    requires 2 * Dist(n, q * d) <= d
    requires 2 * Dist(n, q * d) == d ==> q % 2 == 0
    ensures q == RoundHalfEven(n, d)
  {
    var p := RoundHalfEven(n, d);
    if q < p {
      NearbyMultiples(n, d, q, p);
    } else if p < q {
      NearbyMultiples(n, d, p, q);
    }
  }

  /** A quotient of at most `k` rounds to at most `k`. */
  lemma {:induction false} RoundedAtMost(n: nat, d: nat, k: nat)
    requires d > 0
    ensures n <= k * d ==> RoundHalfEven(n, d) <= k
  {
    var q := RoundHalfEven(n, d);
    // q * d <= n + d / 2 <= k * d + d / 2 < (k + 1) * d
    assert (k + 1) * d == k * d + d;
    MultipleGrows(q, k + 1, d);
  }

  /** Multiplying by a positive `d` preserves order. */
  lemma MultipleGrows(x: nat, y: nat, d: nat)
    requires d > 0
    ensures x >= y <==> x * d >= y * d
  {
  }

  /**
   `Prob (%)` for `ab` joint transactions out of `a`: the quotient rounded to
   thousandths, times 100. It lies within 0.05 of the exact percentage
   `100 * ab / a`, is never negative, and is at most 100 when `ab <= a`.
   */
  function ProbPercent(ab: nat, a: nat): (p: real)
    requires a > 0
    ensures 0.0 <= p
    ensures NearPercent(p, ab, a)
    ensures ab <= a ==> p <= 100.0
  {
    var thousandths := RoundHalfEven(1000 * ab, a);
    RoundedAtMost(1000 * ab, a, 1000);
    PercentNear(ab, a, thousandths);
    thousandths as real / 10.0
  }

  /**
   An exact tie rounds to the even thousandth: 203 out of 400 is 0.5075, which
   the model rounds to 0.508, so `Prob (%)` is 50.8.
   */
  lemma TieRoundsToEven()
    ensures ProbPercent(203, 400) == 50.8
  {
    assert RoundHalfEven(203000, 400) == 508;
  }

  /** `p` lies within 0.05 of the exact percentage `100 * ab / a`, stated without division. */
  predicate NearPercent(p: real, ab: nat, a: nat)
  {
    (p - 0.05) * (a as real) <= 100.0 * (ab as real) <= (p + 0.05) * (a as real)
  }

  /** Half a denominator of distance, read in percent, is 0.05 percentage points. */
  lemma PercentNear(ab: nat, a: nat, q: nat)
    requires a > 0
    requires 2 * Dist(1000 * ab, q * a) <= a
    ensures NearPercent(q as real / 10.0, ab, a)
  {
    var A, Q, N := a as real, q as real, (1000 * ab) as real;
    assert (q * a) as real == Q * A;
    assert 2.0 * (N - Q * A) <= A && 2.0 * (Q * A - N) <= A;
    assert (Q / 10.0 - 0.05) * A == (2.0 * Q * A - A) / 20.0;
    assert (Q / 10.0 + 0.05) * A == (2.0 * Q * A + A) / 20.0;
    assert 100.0 * (ab as real) == 2.0 * N / 20.0;
  }
}
