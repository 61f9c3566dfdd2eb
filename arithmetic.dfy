/** Facts about real arithmetic that both the indicators and the simulator lean on. */
module Arithmetic {
  lemma MulNonNegative(x: real, y: real)
    requires x >= 0.0 && y >= 0.0
    ensures x * y >= 0.0
  {
  }
}
