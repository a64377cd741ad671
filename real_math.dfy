/**
 * The float64 operations the transforms use, over exact reals: products,
 * math.Floor, math.Ceil and Go's int(x) conversion (truncation toward zero).
 */
module RealMath {

  /** int(math.Floor(x)) */
  function Floor(x: real): (r: int)
    ensures r as real <= x < r as real + 1.0
  {
    x.Floor
  }

  /** int(math.Ceil(x)) */
  function Ceil(x: real): (r: int)
    ensures r as real - 1.0 < x <= r as real
  {
    -((-x).Floor)
  }

  /** Go's int(x): the integer part, rounding toward zero. */
  function Trunc(x: real): (r: int)
    ensures 0.0 <= x ==> r == Floor(x)
    ensures x < 0.0 ==> r == Ceil(x)
  {
    if x >= 0.0 then x.Floor else -((-x).Floor)
  }

  /**
   * The product x·y.  Products are written through this function so that
   * each fact about them is proved once, in a lemma of its own.
   */
  function Mul(x: real, y: real): real {
    x * y
  }

  lemma MulOne(x: real)
    ensures Mul(1.0, x) == x
  {
  }

  lemma MulZero(x: real)
    ensures Mul(0.0, x) == 0.0
  {
  }

  /** Multiplication distributes over a sum of the second factor. */
  lemma MulAdd(a: real, x: real, y: real)
    ensures Mul(a, x + y) == Mul(a, x) + Mul(a, y)
  {
    assert a * (x + y) == a * x + a * y;
  }

  lemma MulOneRight(x: real)
    ensures Mul(x, 1.0) == x
  {
  }

  lemma MulZeroRight(x: real)
    ensures Mul(x, 0.0) == 0.0
  {
  }

  /** Multiplication distributes over a sum of the first factor. */
  lemma MulAddLeft(x: real, y: real, a: real)
    ensures Mul(x + y, a) == Mul(x, a) + Mul(y, a)
  {
    assert (x + y) * a == x * a + y * a;
  }

  /** A fraction in [0, 1] of a non-negative d lies in [0, d]. */
  lemma ScaleUp(p: real, d: real)
    requires 0.0 <= p <= 1.0 && 0.0 <= d
    ensures 0.0 <= Mul(p, d) <= d
  {
    assert 0.0 <= p * d;
    assert 0.0 <= (1.0 - p) * d;
    assert (1.0 - p) * d == d - p * d;
    assert p * d <= d;
  }

  /** A fraction in [0, 1] of a non-positive d lies in [d, 0]. */
  lemma ScaleDown(p: real, d: real)
    requires 0.0 <= p <= 1.0 && d <= 0.0
    ensures d <= Mul(p, d) <= 0.0
  {
    assert p * d <= 0.0;
    assert (1.0 - p) * d <= 0.0;
    assert (1.0 - p) * d == d - p * d;
    assert d <= p * d;
  }

  /** Floor and ceiling meet exactly at the integers. */
  lemma FloorCeil(x: real)
    ensures Floor(x) == Ceil(x) <==> x == Floor(x) as real
    ensures Floor(x) != Ceil(x) ==> Ceil(x) == Floor(x) + 1
  {
  }
}
