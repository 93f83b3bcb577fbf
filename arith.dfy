/** Facts about multiplication and Euclidean division used by the scan proofs. */
module Arith {
  lemma MulAtLeast(x: int, b: int)
    requires x >= 1 && b >= 1
    ensures x * b >= b
  {
  }

  lemma MulSign(x: int, b: int)
    requires b >= 1
    ensures x >= 1 ==> x * b >= b
    ensures x <= -1 ==> x * b <= -b
  {
    if x >= 1 {
      MulAtLeast(x, b);
    } else if x <= -1 {
      MulAtLeast(-x, b);
      assert (-x) * b == -(x * b);
    }
  }

  /** The quotient and remainder are the only ones with `0 <= r < b`. */
  lemma DivUnique(a: int, b: int, q: int, r: int)
    requires b >= 1 && a == q * b + r && 0 <= r < b
    ensures a / b == q && a % b == r
  {
    var q', r' := a / b, a % b;
    assert a == q' * b + r';
    assert (q - q') * b == r' - r;
    MulSign(q - q', b);
  }

  lemma DivStep(d: int, step: int)
    requires step >= 1 && d >= step
    ensures (d - step) / step == d / step - 1
    ensures (d - step) % step == d % step
  {
    var q, r := d / step, d % step;
    assert d == q * step + r;
    assert d - step == (q - 1) * step + r;
    DivUnique(d - step, step, q - 1, r);
  }

  /** The remainder of a non-negative number is at most the number. */
  lemma ModAtMost(a: int, b: int)
    requires a >= 0 && b >= 1
    ensures 0 <= a % b <= a
  {
    var q, r := a / b, a % b;
    assert a == q * b + r;
    MulSign(q, b);
  }

  lemma ModSmall(x: int, b: int)
    requires 0 <= x < b
    ensures x % b == x && x / b == 0
  {
    DivUnique(x, b, 0, x);
  }
}
