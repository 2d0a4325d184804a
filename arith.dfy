/**
 Small facts of arithmetic that the solver does not find on its own, because they
 multiply or divide two unknowns, or that it finds only slowly in a large context.
 */
module Arith {

  /** The quotient x / d, as the number that d multiplies back to x. */
  lemma Quotient(x: real, d: real) returns (q: real)
    requires d > 0.0
    ensures q == x / d && q * d == x
  {
    q := x / d;
  }

  /** Multiplying by a positive factor keeps a non-strict order. */
  lemma ScaleLe(a: real, b: real, c: real)
    requires a <= b && c > 0.0
    ensures a * c <= b * c
  {
  }

  /** Multiplying by a positive factor keeps a strict order. */
  lemma ScaleLt(a: real, b: real, c: real)
    requires a < b && c > 0.0
    ensures a * c < b * c
  {
  }

  /** One more multiple of x adds x. */
  lemma NextMultiple(m: int, x: real)
    ensures (m + 1) as real * x == m as real * x + x
  {
  }

  /** A value q between n - 1 and n, scaled by a positive factor, lies between the
      scaled ends. */
  lemma ScaleBracket(q: real, n: int, d: real)
    requires d > 0.0 && (n - 1) as real <= q < n as real
    ensures (n - 1) as real * d <= q * d < n as real * d
  {
    ScaleLe((n - 1) as real, q, d);
    ScaleLt(q, n as real, d);
  }

  /** The parity of n + 1 is the other one. */
  lemma NextParity(n: int)
    ensures (n + 1) % 2 == 1 - n % 2
  {
  }
}
