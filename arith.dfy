/** Facts about division of reals that the metrics rely on. */
module Arith {

  lemma DivMul(x: real, d: real)
    requires d > 0.0
    ensures (x / d) * d == x
  {
  }

  lemma DivAtLeastOne(x: real, d: real)
    requires d > 0.0
    ensures x / d >= 1.0 <==> x >= d
  {
    DivMul(x, d);
    var q := x / d;
    if q >= 1.0 {
      assert q * d >= 1.0 * d;
    }
  }

  lemma DivNonneg(x: real, d: real)
    requires d > 0.0 && x >= 0.0
    ensures x / d >= 0.0
    ensures x / d == 0.0 <==> x == 0.0
  {
    DivMul(x, d);
  }
}
