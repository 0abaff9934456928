/** Integer facts the other modules share: Min, Abs and the few steps of
    nonlinear arithmetic that the solver is given by hand. */
module Arithmetic {

  function Min(a: int, b: int): int { if a <= b then a else b }

  function Abs(x: int): nat { if x < 0 then -x else x }

  /** (k + 1) * m is k * m + m. */
  lemma MulSucc(k: int, m: int)
    ensures (k + 1) * m == k * m + m
  {
  }

  /** A positive n times a positive d is at least n. */
  lemma MulAtLeast(n: int, d: int)
    requires n > 0 && d >= 1
    ensures n * d >= n
  {
  }

  /** n * x < n * y + n with n positive forces x <= y. */
  lemma MulStrict(n: int, x: int, y: int)
    requires n > 0 && n * x < n * y + n
    ensures x <= y
  {
    if x > y {
      MulAtLeast(n, x - y);
    }
  }

  /** The product of b and a non-negative q, by the sign of b. */
  lemma MulSigned(b: int, q: int)
    requires q >= 0
    ensures b * q == if b < 0 then -(Abs(b) * q) else Abs(b) * q
    ensures b * -q == if b < 0 then Abs(b) * q else -(Abs(b) * q)
  {
  }

  /** Euclidean division of naturals leaves a remainder below the divisor. */
  lemma NatDiv(x: nat, y: nat)
    requires y > 0
    ensures 0 <= x - y * (x / y) < y
  {
  }
}
