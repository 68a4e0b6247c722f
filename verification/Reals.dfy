/** Signs of real products. */
module Reals {

  lemma NonNegativeProduct(x: real, y: real)
    requires x >= 0.0 && y >= 0.0
    ensures x * y >= 0.0
    ensures y > 0.0 && x * y == 0.0 ==> x == 0.0
  {}
}
