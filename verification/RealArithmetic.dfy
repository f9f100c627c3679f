/** Sign facts about products of reals, stated once so that larger proofs stay linear. */
module RealArithmetic {

  /** A product that proofs can keep folded. */
  function Times(x: real, y: real): real { x * y }

  function Abs(x: real): real { if x >= 0.0 then x else -x }

  lemma Product(a: real, b: real)
    requires (a > 0.0 && b > 0.0) || (a < 0.0 && b < 0.0)
    ensures a * b > 0.0 && Times(a, b) > 0.0
  {
    if a < 0.0 { assert a * b == (-a) * (-b); }
  }

  lemma NonNegativeProduct(a: real, b: real)
    requires a >= 0.0 && b >= 0.0
    ensures a * b >= 0.0 && Times(a, b) >= 0.0
  {
    if a > 0.0 && b > 0.0 { Product(a, b); }
  }
}
