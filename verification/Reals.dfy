/** Reciprocals of positive numbers. */
module Reals {
  lemma Reciprocals(x: real, y: real)
    requires x > 0.0 && y > 0.0
    ensures 1.0 / x > 1.0 / y <==> x < y
    ensures 1.0 / x > 0.0
  {
    var a, b := 1.0 / x, 1.0 / y;
    assert a * x == 1.0 && b * y == 1.0;
    if x < y {
      assert b * x < b * y;
      assert (a - b) * x > 0.0;
    }
    if a > b {
      assert a * y > b * y;
      assert a * (y - x) > 0.0;
    }
  }
}
