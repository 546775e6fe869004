/**
 * Integer division facts used by the width and page arithmetic: the quotient
 * is the unique multiple that brackets the dividend, and JavaScript's
 * `Math.ceil(a / b)` on integers.
 */
module Arith {
  lemma MulLe(d: nat, a: int, b: int)
    requires a <= b
    ensures d * a <= d * b
  {
    var k := b - a;
    assert d * b == d * a + d * k;
  }

  lemma MulGap(d: nat, a: int, b: int)
    ensures a < b ==> d * a + d <= d * b
  {
    if a < b {
      assert d * (a + 1) == d * a + d;
      MulLe(d, a + 1, b);
    }
  }

  /** The quotient is the one multiple that brackets the dividend. */
  lemma DivUnique(x: int, d: nat, q: int)
    requires d > 0 && d * q <= x < d * q + d
    ensures x / d == q
  {
    var r := x / d;
    assert d * r <= x < d * r + d;
    MulGap(d, r, q);
    MulGap(d, q, r);
  }

  lemma DivMonotone(x: int, y: int, d: nat)
    requires d >= 1 && x <= y
    ensures x / d <= y / d
  {
    var a := x / d;
    var b := y / d;
    assert d * a <= x && y < d * b + d;
    MulGap(d, b, a);
  }

  /** `Math.ceil(a / b)` for a positive divisor: the least `q` with `a <= b * q`. */
  function CeilDiv(a: int, b: nat): (q: int)
    requires b >= 1
    ensures a <= b * q && b * q - b < a
  {
    var q := (a + b - 1) / b;
    assert b * q <= a + b - 1 < b * q + b;
    q
  }

  lemma CeilUnique(a: int, b: nat, q: int)
    requires b >= 1 && b * q - b < a <= b * q
    ensures CeilDiv(a, b) == q
  {
    var r := CeilDiv(a, b);
    MulGap(b, r, q);
    MulGap(b, q, r);
  }
}
