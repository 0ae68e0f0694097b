/** Small facts about real multiplication and division that the nonlinear proofs cite by name. */
module RealFacts {

  /** A product of two non-negative factors is non-negative. */
  lemma NonNegProduct(a: real, b: real)
    requires 0.0 <= a && 0.0 <= b
    ensures 0.0 <= a * b
  {
  }

  /** A product of two positive factors is positive. */
  lemma PositiveProduct(a: real, b: real)
    requires 0.0 < a && 0.0 < b
    ensures 0.0 < a * b
  {
  }

  /** A product that is not negative, with a positive second factor, has a non-negative first factor. */
  lemma NonNegFactor(a: real, m: real)
    requires 0.0 < m && 0.0 <= a * m
    ensures 0.0 <= a
  {
  }

  /** Division by a non-zero m distributes over a sum. */
  lemma DivSplit(a: real, b: real, m: real)
    requires m != 0.0
    ensures (a + b) / m == a / m + b / m
  {
    var p, q := a / m, b / m;
    assert p * m == a && q * m == b;
    assert (p + q) * m == a + b;
  }
}
