/** Facts about products that the solver finds unaided only now and then. */
module Arithmetic {

  lemma MulOrder(a: nat, b: nat, t: nat)
    ensures a <= b ==> a * t <= b * t
    ensures a < b ==> a * t + t <= b * t
  {
    if a < b {
      assert (a + 1) * t <= b * t;
    }
  }

  lemma DoubleProduct(x: nat, y: nat)
    ensures 2 * (x * y) == (2 * x) * y
  {
  }

  /** A number below a product has its quotient below the other factor. */
  lemma QuotientBelow(x: nat, a: nat, b: nat)
    requires b > 0 && x < a * b
    ensures x / b < a
    ensures x / b * b <= x < x / b * b + b
  {
    MulOrder(a, x / b, b);
  }
}
