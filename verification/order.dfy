/** Order facts about products and powers of reals, stated so that each proof
    obligation stays small and linear in its product terms. */
module RealOrder {

  /** x cubed. */
  function Cube(x: real): real { x * x * x }

  /** x to the fourth power. */
  function Fourth(x: real): real { (x * x) * (x * x) }

  /** Scaling an inequality by a non-negative factor keeps it. */
  lemma ScaleMonotone(x: real, y: real, z: real)
    requires x <= y && 0.0 <= z
    ensures z * x <= z * y
  {
  }

  /** Products of ordered non-negative factors are ordered. */
  lemma ProductOrder(x1: real, y1: real, x2: real, y2: real)
    requires 0.0 <= x1 <= x2 && 0.0 <= y1 <= y2
    ensures x1 * y1 <= x2 * y2
  {
    assert x1 * y1 <= x2 * y1;
  }

  /** A strictly smaller second factor gives a strictly smaller product. */
  lemma ProductStrictOrder(x1: real, y1: real, x2: real, y2: real)
    requires 0.0 <= x1 <= x2 && 0.0 <= y1 < y2 && 0.0 < x2
    ensures x1 * y1 < x2 * y2
  {
    assert x1 * y1 <= x2 * y1;
  }

  /** On non-negative reals, squaring preserves and reflects order. */
  lemma SquareOrder(a: real, b: real)
    requires 0.0 <= a && 0.0 <= b
    ensures a <= b <==> a * a <= b * b
  {
    if a <= b {
      ProductOrder(a, a, b, b);
    } else {
      ProductStrictOrder(b, b, a, a);
    }
  }

  /** On non-negative reals, cubing preserves and reflects order. */
  lemma CubeOrder(a: real, b: real)
    requires 0.0 <= a && 0.0 <= b
    ensures a <= b <==> Cube(a) <= Cube(b)
  {
    SquareOrder(a, b);
    if a <= b {
      ProductOrder(a * a, a, b * b, b);
    } else {
      ProductStrictOrder(b * b, b, a * a, a);
    }
  }

  /** On non-negative reals, the fourth power preserves and reflects order. */
  lemma FourthOrder(a: real, b: real)
    requires 0.0 <= a && 0.0 <= b
    ensures a <= b <==> Fourth(a) <= Fourth(b)
  {
    SquareOrder(a, b);
    if a <= b {
      ProductOrder(a * a, a * a, b * b, b * b);
    } else {
      ProductStrictOrder(b * b, b * b, a * a, a * a);
    }
  }

  /** Scaling a strict inequality by a positive factor keeps it. */
  lemma ScaleStrictMonotone(x: real, y: real, z: real)
    requires x < y && 0.0 < z
    ensures z * x < z * y
  {
  }

  /** Dividing by a positive ratio keeps order. */
  lemma DivideMonotone(x: real, y: real, ratio: real)
    requires x <= y && ratio > 0.0
    ensures x / ratio <= y / ratio
  {
    var q := 1.0 / ratio;
    assert q > 0.0;
    assert x / ratio == q * x && y / ratio == q * y;
    ScaleMonotone(x, y, q);
  }
}
