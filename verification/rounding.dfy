/** Python's `round` on exact reals.

    `round(x)` returns the integer nearest to `x`, ties going to the even
    neighbour; `round(x, d)` rounds to `d` decimal places by the same rule.
    The model works on exact reals, so the binary representation of floats
    (which can move a decimal tie off its midpoint) is not part of it. */
module Rounding {

  /** Round to the nearest integer, ties to even. The two ensures clauses
      characterise the result completely (see RoundHalfEvenUnique). */
  function RoundHalfEven(x: real): (n: int)
    ensures x - 0.5 <= n as real <= x + 0.5
    ensures (n as real == x - 0.5 || n as real == x + 0.5) ==> n % 2 == 0
  {
    var f := x.Floor;
    var d := x - f as real;
    if d < 0.5 then f
    else if d > 0.5 then f + 1
    else if f % 2 == 0 then f
    else f + 1
  }

  /** Any integer within one half of `x` that is even on a tie is the rounding of `x`. */
  lemma RoundHalfEvenUnique(x: real, m: int)
    requires x - 0.5 <= m as real <= x + 0.5
    requires (m as real == x - 0.5 || m as real == x + 0.5) ==> m % 2 == 0
    ensures RoundHalfEven(x) == m
  {
  }

  /** Rounding an integer gives it back. */
  lemma RoundHalfEvenIntegral(k: int)
    ensures RoundHalfEven(k as real) == k
  {
    RoundHalfEvenUnique(k as real, k);
  }

  /** Rounding is monotone. */
  lemma RoundHalfEvenMonotone(x: real, y: real)
    requires x <= y
    ensures RoundHalfEven(x) <= RoundHalfEven(y)
  {
  }

  /** `round(x, 6)`: a multiple of 10^-6 nearest to `x`; exact when `x`
      already has at most six decimals. */
  function Round6(x: real): (r: real)
    ensures x - 0.0000005 <= r <= x + 0.0000005
    ensures (x * 1000000.0).Floor as real == x * 1000000.0 ==> r == x
  {
    var y := x * 1000000.0;
    if y.Floor as real == y then
      RoundHalfEvenIntegral(y.Floor);
      RoundHalfEven(y) as real / 1000000.0
    else
      RoundHalfEven(y) as real / 1000000.0
  }

  /** `round(x, 1)`: a multiple of 0.1 nearest to `x`. */
  function Round1(x: real): (r: real)
    ensures x - 0.05 <= r <= x + 0.05
  {
    RoundHalfEven(x * 10.0) as real / 10.0
  }

  /** A value at or above an integer threshold `t` keeps that bound after
      `round(x, 1)`, because `10 * t` is one of the candidates of the rounding. */
  lemma Round1KeepsIntegerLowerBound(x: real, t: int)
    requires x >= t as real
    ensures Round1(x) >= t as real
  {
    RoundHalfEvenMonotone((t * 10) as real, x * 10.0);
    RoundHalfEvenIntegral(t * 10);
  }

  /** Likewise for an integer upper bound. */
  lemma Round1KeepsIntegerUpperBound(x: real, t: int)
    requires x <= t as real
    ensures Round1(x) <= t as real
  {
    RoundHalfEvenMonotone(x * 10.0, (t * 10) as real);
    RoundHalfEvenIntegral(t * 10);
  }
}
