/** Small facts about products and quotients of reals that the solver does not find alone. */
module RealArith {

  lemma MulNonneg(c: real, d: real)
    requires 0.0 <= c && 0.0 <= d
    ensures 0.0 <= c * d
  {
  }

  /** Multiplying by a non-negative factor keeps an inequality. */
  lemma MulLe(c: real, x: real, y: real)
    requires 0.0 <= c && x <= y
    ensures c * x <= c * y
  {
  }

  /** Scaling by a factor in [0, 1] gives a value between 0 and the original. */
  lemma MulUnit(c: real, e: real)
    requires 0.0 <= c && 0.0 <= e <= 1.0
    ensures 0.0 <= c * e <= c
  {
  }

  /** Scaling a non-positive value by a factor in [0, 1] gives a value between it and 0. */
  lemma MulUnitNeg(c: real, e: real)
    requires c <= 0.0 && 0.0 <= e <= 1.0
    ensures c <= c * e <= 0.0
  {
    MulUnit(-c, e);
    assert (-c) * e == -(c * e);
  }

  /** A quotient of a non-negative number by a larger positive one lies in [0, 1]. */
  lemma DivUnit(n: real, d: real)
    requires 0.0 < d && 0.0 <= n <= d
    ensures 0.0 <= n / d <= 1.0
  {
    var t := n / d;
    assert t * d == n;
    if t < 0.0 { MulLe(d, t, 0.0); }
    if t > 1.0 { MulLe(d, 1.0, t); }
  }

  /** Dividing by a positive number keeps an inequality. */
  lemma DivLe(n1: real, n2: real, d: real)
    requires 0.0 < d && n1 <= n2
    ensures n1 / d <= n2 / d
  {
    var t1, t2 := n1 / d, n2 / d;
    assert t1 * d == n1 && t2 * d == n2;
    if t2 < t1 { MulLe(d, t2, t1); }
  }

  /** Scaling a positive value by a factor strictly inside (0, 1) strictly shrinks it. */
  lemma MulShrink(c: real, e: real)
    requires 0.0 < c && 0.0 < e < 1.0
    ensures 0.0 < c * e < c
  {
    MulLe(c, e, 1.0);
    MulNonneg(c, e);
    assert c * (1.0 - e) > 0.0;
  }
}
