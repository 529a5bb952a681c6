/** The three Python number conversions the core relies on, stated over exact
    integers and rationals: `int(x)` (truncation toward zero), `a // b` (floor
    division) and `round(x)` (round half to even). */
module PyNum {

  /** `n` is `x` truncated toward zero: the integer part of `x`, never farther
      from zero than `x` itself. */
  predicate IsTruncation(x: real, n: int) {
    if x >= 0.0 then n as real <= x < n as real + 1.0
    else n as real - 1.0 < x <= n as real
  }

  /** Python's `int(x)` on a number. */
  function Trunc(x: real): (n: int)
    ensures IsTruncation(x, n)
    ensures x >= 0.0 ==> n >= 0
    ensures x <= 0.0 ==> n <= 0
  {
    if x >= 0.0 then x.Floor else -((-x).Floor)
  }

  /** Exactly one integer is the truncation of a number. */
  lemma TruncationUnique(x: real, n: int, m: int)
    requires IsTruncation(x, n) && IsTruncation(x, m)
    ensures n == m
  {
  }

  /** Truncation is symmetric about zero, which floor is not. */
  lemma TruncOdd(x: real)
    ensures Trunc(-x) == -Trunc(x)
  {
    TruncationUnique(-x, Trunc(-x), -Trunc(x));
  }

  /** Truncation and floor differ on negative non-integers: `int(-2.5)` is -2. */
  lemma TruncIsNotFloor()
    ensures Trunc(-2.5) == -2
    ensures (-2.5).Floor == -3
  {
    TruncationUnique(-2.5, Trunc(-2.5), -2);
  }

  /** Python's `a // b` on integers: the quotient rounded toward negative infinity. */
  function FloorDiv(a: int, b: int): (q: int)
    requires b != 0
    ensures b > 0 ==> q * b <= a < q * b + b
    ensures b < 0 ==> q * b + b < a <= q * b
  {
    if b > 0 then a / b else (-a) / (-b)
  }

  /** `n` is what Python's `round(x)` returns: the nearest integer, and the
      even one of the two at an exact tie. */
  predicate IsRoundHalfEven(x: real, n: int) {
    var d := n as real - x;
    && -0.5 <= d <= 0.5
    && ((d == 0.5 || d == -0.5) ==> n % 2 == 0)
  }

  /** Python's `round(x)` with no digits argument. */
  function RoundHalfEven(x: real): (n: int)
    ensures IsRoundHalfEven(x, n)
  {
    var f := x.Floor;
    var frac := x - f as real;
    if frac < 0.5 then f
    else if frac > 0.5 then f + 1
    else if f % 2 == 0 then f
    else f + 1
  }

  /** Exactly one integer is the half-to-even rounding of a number. */
  lemma RoundHalfEvenUnique(x: real, n: int, m: int)
    requires IsRoundHalfEven(x, n) && IsRoundHalfEven(x, m)
    ensures n == m
  {
  }

  /** Rounding an integer gives it back. */
  lemma RoundOfInteger(k: int)
    ensures RoundHalfEven(k as real) == k
  {
    RoundHalfEvenUnique(k as real, RoundHalfEven(k as real), k);
  }

  /** Rounding preserves order. */
  lemma RoundMonotone(x: real, y: real)
    requires x <= y
    ensures RoundHalfEven(x) <= RoundHalfEven(y)
  {
  }

  /** A number between two integers rounds to an integer between them. */
  lemma RoundWithin(x: real, lo: int, hi: int)
    requires lo as real <= x <= hi as real
    ensures lo <= RoundHalfEven(x) <= hi
  {
    RoundMonotone(lo as real, x);
    RoundMonotone(x, hi as real);
    RoundOfInteger(lo);
    RoundOfInteger(hi);
  }
}
