/** Small facts of real arithmetic shared by the engine and the lobby. */
module Arith {
  /** A product of non-negative factors is non-negative. */
  lemma NonNegProduct(x: real, y: real)
    requires x >= 0.0 && y >= 0.0
    ensures x * y >= 0.0
  {
  }
}
