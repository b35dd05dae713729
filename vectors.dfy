/** Exact-real stand-in for pygame's Vector2 and for math.hypot. */
module Vectors {

  datatype Vec = Vec(x: real, y: real)

  const Zero := Vec(0.0, 0.0)

  function Add(a: Vec, b: Vec): Vec { Vec(a.x + b.x, a.y + b.y) }

  function Sub(a: Vec, b: Vec): Vec { Vec(a.x - b.x, a.y - b.y) }

  function Neg(a: Vec): Vec { Vec(-a.x, -a.y) }

  function Scale(k: real, a: Vec): Vec { Vec(k * a.x, k * a.y) }

  function Dot(a: Vec, b: Vec): real { a.x * b.x + a.y * b.y }

  // Facts about real multiplication, each proved on its own so that callers
  // only combine them linearly.

  lemma SquareNonNegative(x: real)
    ensures x * x >= 0.0
  {
  }

  lemma MulLe(k: real, x: real, y: real)
    requires 0.0 <= k && x <= y
    ensures k * x <= k * y
  {
  }

  lemma MulLt(k: real, x: real, y: real)
    requires 0.0 < k && x < y
    ensures k * x < k * y
  {
  }

  lemma ProductZero(x: real, y: real)
    requires x * y == 0.0 && y != 0.0
    ensures x == 0.0
  {
    assert x == (x * y) / y;
  }

  /** A sum of two squares vanishes only when both terms do. */
  lemma SquaresSumZero(x: real, y: real)
    requires x * x + y * y == 0.0
    ensures x == 0.0 && y == 0.0
  {
    SquareNonNegative(x);
    SquareNonNegative(y);
    assert x * x == 0.0 && y * y == 0.0;
    if x != 0.0 {
      ProductZero(x, x);
    }
    if y != 0.0 {
      ProductZero(y, y);
    }
  }

  /** Scaling one side scales the dot product. */
  lemma DotScale(k: real, a: Vec, b: Vec)
    ensures Dot(Scale(k, a), b) == k * Dot(a, b)
  {
  }

  /** The squared length of a vector is zero exactly for the zero vector. */
  lemma DotSelfZero(a: Vec)
    ensures Dot(a, a) == 0.0 <==> a == Zero
  {
    if Dot(a, a) == 0.0 {
      SquaresSumZero(a.x, a.y);
    }
  }

  /** The difference of two points is zero exactly when they coincide. */
  lemma SubZero(p: Vec, q: Vec)
    ensures Sub(p, q) == Zero <==> p == q
  {
  }

  /** Two non-negative reals with the same square are equal. */
  lemma RootUnique(d: real, r: real)
    requires 0.0 <= d && 0.0 < r && d * d == r * r
    ensures d == r
  {
    assert (d - r) * (d + r) == d * d - r * r;
    ProductZero(d - r, d + r);
  }

  /** Squaring is monotone on the non-negative reals. */
  lemma SquareMonotone(a: real, b: real)
    requires 0.0 <= a && 0.0 <= b
    ensures a <= b <==> a * a <= b * b
  {
    assert (a + b) * (b - a) == b * b - a * a;
    if a <= b {
      MulLe(a + b, 0.0, b - a);
    } else {
      MulLt(a + b, b - a, 0.0);
    }
  }

  /**
   * Vector2.project: the vector projection of `a` onto `b`. pygame raises
   * ValueError when the squared length of `b` is zero, so that case is
   * excluded here and handled by the callers as an error.
   */
  function Project(a: Vec, b: Vec): (p: Vec)
    requires Dot(b, b) != 0.0
    ensures Dot(Sub(a, p), b) == 0.0
    ensures Dot(p, Vec(-b.y, b.x)) == 0.0
  {
    var k := Dot(a, b) / Dot(b, b);
    assert Dot(Sub(a, Scale(k, b)), b) == Dot(a, b) - k * Dot(b, b);
    Scale(k, b)
  }

  /** Projecting the negated vector onto the negated direction negates the projection. */
  lemma ProjectNegated(a: Vec, b: Vec)
    requires Dot(b, b) != 0.0
    ensures Dot(Neg(b), Neg(b)) != 0.0
    ensures Project(Neg(a), Neg(b)) == Neg(Project(a, b))
  {
    assert Dot(Neg(a), Neg(b)) == Dot(a, b);
    assert Dot(Neg(b), Neg(b)) == Dot(b, b);
  }

  /** math.hypot(a, b), supplied by the caller. */
  type Hypot = (real, real) -> real

  /** `h` is the exact Euclidean norm: non-negative, and its square is a*a + b*b. */
  ghost predicate IsHypot(h: Hypot)
  {
    forall a: real, b: real :: 0.0 <= h(a, b) && h(a, b) * h(a, b) == a * a + b * b
  }

  /** The distance between two centres, computed as the source does: hypot of the differences. */
  function Distance(p: Vec, q: Vec, h: Hypot): real
  {
    h(p.x - q.x, p.y - q.y)
  }

  /** The distance test the source makes is the squared-distance test. */
  lemma DistanceAtMost(p: Vec, q: Vec, h: Hypot, bound: real)
    requires IsHypot(h)
    requires 0.0 <= bound
    ensures Distance(p, q, h) <= bound <==> Dot(Sub(p, q), Sub(p, q)) <= bound * bound
  {
    var d := h(p.x - q.x, p.y - q.y);
    assert 0.0 <= d && d * d == Dot(Sub(p, q), Sub(p, q));
    SquareMonotone(d, bound);
  }

  /** The distance between two centres is zero exactly when the squared length of their difference is. */
  lemma DistanceZero(p: Vec, q: Vec, h: Hypot)
    requires IsHypot(h)
    ensures Distance(p, q, h) >= 0.0
    ensures Distance(p, q, h) == 0.0 <==> Dot(Sub(p, q), Sub(p, q)) == 0.0
  {
    var d := h(p.x - q.x, p.y - q.y);
    assert 0.0 <= d && d * d == Dot(Sub(p, q), Sub(p, q));
    if d == 0.0 {
      ZeroSquare(d);
    } else if d * d == 0.0 {
      ProductZero(d, d);
    }
  }

  lemma ZeroSquare(d: real)
    requires d == 0.0
    ensures d * d == 0.0
  {
  }
}
