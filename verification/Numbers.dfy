/** Number conversions the sources rely on. */
module Numbers {

  /** Python's int() on a float: the fraction is dropped, toward zero. */
  function Trunc(x: real): (n: int)
    ensures x >= 0.0 ==> n as real <= x < n as real + 1.0
    ensures x < 0.0 ==> n as real - 1.0 < x <= n as real
  {
    if x >= 0.0 then x.Floor else -((-x).Floor)
  }

  function Min(a: int, b: int): (m: int) {
    if a <= b then a else b
  }

  function Max(a: int, b: int): (m: int) {
    if a >= b then a else b
  }

  function Abs(a: int): (m: int) {
    if a >= 0 then a else -a
  }

  function Digit(n: nat): (c: char)
    requires n < 10
    ensures '0' <= c <= '9'
  {
    '0' + n as char
  }

  // ---------- real arithmetic ----------

  lemma MulPos(a: real, b: real)
    requires a > 0.0 && b > 0.0
    ensures a * b > 0.0
  {
  }

  lemma MulNonNeg(a: real, b: real)
    requires a >= 0.0 && b >= 0.0
    ensures a * b >= 0.0
  {
  }

  lemma DivMul(a: real, s: real)
    requires s > 0.0
    ensures (a / s) * s == a
  {
  }

  lemma QuotientLeq(a: real, b: real, c: real)
    requires b > 0.0
    ensures a / b <= c <==> a <= c * b
    ensures a / b < c <==> a < c * b
  {
  }

  lemma QuotientMinus(a: real, b: real, s: real)
    requires s > 0.0
    ensures a / s - b / s == (a - b) / s
  {
  }

  lemma NegateBoth(a: real, b: real)
    requires b < 0.0
    ensures (-a) / (-b) == a / b
  {
  }

  lemma SquareLess(b: real, a: real)
    requires 0.0 <= b < a
    ensures b * b < a * a
  {
    MulPos(a - b, a + b);
    assert (a - b) * (a + b) == a * a - b * b;
  }

  lemma SquareLeq(a: real, b: real)
    requires 0.0 <= a <= b
    ensures a * a <= b * b
  {
  }

  lemma SquareOrder(a: real, b: real)
    requires b >= 0.0 && a * a <= b * b
    ensures -b <= a <= b
  {
    assert (-a) * (-a) == a * a;
    if a > b {
      SquareLess(b, a);
    } else if a < -b {
      SquareLess(b, -a);
    }
  }
}
