/**
 * Ball-ball collisions: the elastic velocity update along the line of
 * centres (verificar_colisao_bolas) and the push that leaves the two balls
 * exactly touching (separa_bolas).
 */
module Collisions {
  import opened Vectors
  import opened Optional
  import opened Bodies

  /**
   * The velocities after an elastic collision of masses m1, m2 at centres
   * x1, x2, both computed from the velocities before it. pygame's project
   * raises ValueError when the centres coincide, so that case is excluded.
   */
  function NewVelocities(v1: Vec, v2: Vec, x1: Vec, x2: Vec, m1: Positive, m2: Positive): (r: (Vec, Vec))
    requires Dot(Sub(x1, x2), Sub(x1, x2)) != 0.0
  {
    ProjectNegated(Sub(v1, v2), Sub(x1, x2));
    assert Sub(v2, v1) == Neg(Sub(v1, v2)) && Sub(x2, x1) == Neg(Sub(x1, x2));
    var total := (m1 + m2) as real;
    (Sub(v1, Scale(2.0 * m2 as real / total, Project(Sub(v1, v2), Sub(x1, x2)))),
     Sub(v2, Scale(2.0 * m1 as real / total, Project(Sub(v2, v1), Sub(x2, x1)))))
  }

  /** The two velocity changes are equal and opposite multiples of one projection. */
  lemma NewVelocitiesShape(v1: Vec, v2: Vec, x1: Vec, x2: Vec, m1: Positive, m2: Positive)
    requires Dot(Sub(x1, x2), Sub(x1, x2)) != 0.0
    ensures var p := Project(Sub(v1, v2), Sub(x1, x2));
            var total := (m1 + m2) as real;
            NewVelocities(v1, v2, x1, x2, m1, m2)
            == (Sub(v1, Scale(2.0 * m2 as real / total, p)), Add(v2, Scale(2.0 * m1 as real / total, p)))
  {
    var p := Project(Sub(v1, v2), Sub(x1, x2));
    ProjectNegated(Sub(v1, v2), Sub(x1, x2));
    assert Sub(v2, v1) == Neg(Sub(v1, v2)) && Sub(x2, x1) == Neg(Sub(x1, x2));
    var k := 2.0 * m1 as real / (m1 + m2) as real;
    assert Scale(k, Neg(p)) == Neg(Scale(k, p)) by {
      assert k * -p.x == -(k * p.x) && k * -p.y == -(k * p.y);
    }
  }

  /** The coefficients of the two velocity changes. */
  lemma Coefficients(m1: real, m2: real)
    requires m1 > 0.0 && m2 > 0.0
    ensures m1 * (2.0 * m2 / (m1 + m2)) == m2 * (2.0 * m1 / (m1 + m2))
    ensures 2.0 * m2 / (m1 + m2) + 2.0 * m1 / (m1 + m2) == 2.0
  {
    var t := m1 + m2;
    assert 2.0 * m2 / t + 2.0 * m1 / t == (2.0 * m2 + 2.0 * m1) / t;
    assert m1 * (2.0 * m2 / t) == (2.0 * m1 * m2) / t;
    assert m2 * (2.0 * m1 / t) == (2.0 * m1 * m2) / t;
  }

  /** Total linear momentum m1*v1 + m2*v2 is the same before and after the update. */
  lemma MomentumConserved(v1: Vec, v2: Vec, x1: Vec, x2: Vec, m1: Positive, m2: Positive)
    requires Dot(Sub(x1, x2), Sub(x1, x2)) != 0.0
    ensures var r := NewVelocities(v1, v2, x1, x2, m1, m2);
            Add(Scale(m1 as real, r.0), Scale(m2 as real, r.1)) == Add(Scale(m1 as real, v1), Scale(m2 as real, v2))
  {
    NewVelocitiesShape(v1, v2, x1, x2, m1, m2);
    var a, b := m1 as real, m2 as real;
    Coefficients(a, b);
    var p := Project(Sub(v1, v2), Sub(x1, x2));
    var r := NewVelocities(v1, v2, x1, x2, m1, m2);
    MomentumOfShape(a, b, 2.0 * b / (a + b), 2.0 * a / (a + b), v1, v2, p, r.0, r.1);
  }

  lemma MomentumOfShape(a: real, b: real, k1: real, k2: real, v1: Vec, v2: Vec, p: Vec, w1: Vec, w2: Vec)
    requires a * k1 == b * k2
    requires w1 == Sub(v1, Scale(k1, p)) && w2 == Add(v2, Scale(k2, p))
    ensures Add(Scale(a, w1), Scale(b, w2)) == Add(Scale(a, v1), Scale(b, v2))
  {
    MomentumAlgebra(a, b, k1, k2, v1.x, v2.x, p.x, w1.x, w2.x);
    MomentumAlgebra(a, b, k1, k2, v1.y, v2.y, p.y, w1.y, w2.y);
  }

  lemma MomentumAlgebra(a: real, b: real, k1: real, k2: real, v1: real, v2: real, p: real, w1: real, w2: real)
    requires a * k1 == b * k2
    requires w1 == v1 - k1 * p && w2 == v2 + k2 * p
    ensures a * w1 + b * w2 == a * v1 + b * v2
  {
    assert a * (k1 * p) == (a * k1) * p;
    assert b * (k2 * p) == (b * k2) * p;
  }

  /** Total kinetic energy is the same before and after the update: the collision is elastic. */
  lemma EnergyConserved(v1: Vec, v2: Vec, x1: Vec, x2: Vec, m1: Positive, m2: Positive)
    requires Dot(Sub(x1, x2), Sub(x1, x2)) != 0.0
    ensures var r := NewVelocities(v1, v2, x1, x2, m1, m2);
            m1 as real * Dot(r.0, r.0) + m2 as real * Dot(r.1, r.1)
            == m1 as real * Dot(v1, v1) + m2 as real * Dot(v2, v2)
  {
    NewVelocitiesShape(v1, v2, x1, x2, m1, m2);
    var a, b := m1 as real, m2 as real;
    Coefficients(a, b);
    var u, n := Sub(v1, v2), Sub(x1, x2);
    var p := Project(u, n);
    ProjectionOrthogonal(u, n);
    var k1, k2 := 2.0 * b / (a + b), 2.0 * a / (a + b);
    EnergyAlgebra(a, b, a * k1, k1, k2, v1, v2, p);
  }

  /** The projection is orthogonal to what it leaves of the projected vector. */
  lemma ProjectionOrthogonal(u: Vec, n: Vec)
    requires Dot(n, n) != 0.0
    ensures Dot(Sub(u, Project(u, n)), Project(u, n)) == 0.0
  {
    var c := Dot(u, n) / Dot(n, n);
    var q := Sub(u, Project(u, n));
    assert Dot(q, Scale(c, n)) == c * Dot(q, n);
  }

  lemma EnergyAlgebra(a: real, b: real, kk: real, k1: real, k2: real, v1: Vec, v2: Vec, p: Vec)
    requires kk == a * k1 && kk == b * k2 && k1 + k2 == 2.0
    requires Dot(Sub(Sub(v1, v2), p), p) == 0.0
    ensures a * Dot(Sub(v1, Scale(k1, p)), Sub(v1, Scale(k1, p))) + b * Dot(Add(v2, Scale(k2, p)), Add(v2, Scale(k2, p)))
            == a * Dot(v1, v1) + b * Dot(v2, v2)
  {
    ExpandSquare(v1, p, -k1);
    ExpandSquare(v2, p, k2);
    assert Sub(v1, Scale(k1, p)) == Add(v1, Scale(-k1, p));
    DotSubLeft(v1, v2, p);
    WeightedSum(a, b, kk, k1, k2, Dot(v1, v1), Dot(v2, v2), Dot(v1, p), Dot(v2, p), Dot(p, p));
  }

  /** |v + k p|^2 = |v|^2 + 2k v.p + k^2 |p|^2. */
  lemma ExpandSquare(v: Vec, p: Vec, k: real)
    ensures Dot(Add(v, Scale(k, p)), Add(v, Scale(k, p))) == Dot(v, v) + 2.0 * k * Dot(v, p) + k * k * Dot(p, p)
  {
  }

  lemma DotSubLeft(a: Vec, b: Vec, c: Vec)
    ensures Dot(Sub(Sub(a, b), c), c) == Dot(a, c) - Dot(b, c) - Dot(c, c)
  {
  }

  /** The scalar identity behind energy conservation. */
  lemma WeightedSum(a: real, b: real, kk: real, k1: real, k2: real, e1: real, e2: real, d1: real, d2: real, pp: real)
    requires kk == a * k1 && kk == b * k2 && k1 + k2 == 2.0
    requires d1 - d2 - pp == 0.0
    ensures a * (e1 + 2.0 * -k1 * d1 + -k1 * -k1 * pp) + b * (e2 + 2.0 * k2 * d2 + k2 * k2 * pp) == a * e1 + b * e2
  {
    assert a * (2.0 * -k1 * d1) == -2.0 * kk * d1;
    assert b * (2.0 * k2 * d2) == 2.0 * kk * d2;
    assert a * (-k1 * -k1 * pp) == kk * k1 * pp;
    assert b * (k2 * k2 * pp) == kk * k2 * pp;
    assert kk * k1 * pp + kk * k2 * pp == 2.0 * kk * pp;
  }

  /** The velocity changes lie along the line of centres: the tangential components are unchanged. */
  lemma TangentialUnchanged(v1: Vec, v2: Vec, x1: Vec, x2: Vec, m1: Positive, m2: Positive)
    requires Dot(Sub(x1, x2), Sub(x1, x2)) != 0.0
    ensures var r := NewVelocities(v1, v2, x1, x2, m1, m2);
            var t := Vec(x2.y - x1.y, x1.x - x2.x);
            Dot(r.0, t) == Dot(v1, t) && Dot(r.1, t) == Dot(v2, t)
  {
    NewVelocitiesShape(v1, v2, x1, x2, m1, m2);
    var n := Sub(x1, x2);
    var t := Vec(x2.y - x1.y, x1.x - x2.x);
    var p := Project(Sub(v1, v2), n);
    assert Dot(n, t) == 0.0;
    DotScale(Dot(Sub(v1, v2), n) / Dot(n, n), n, t);
    var total := (m1 + m2) as real;
    var r := NewVelocities(v1, v2, x1, x2, m1, m2);
    TangentialOfShape(2.0 * m2 as real / total, 2.0 * m1 as real / total, v1, v2, p, t, r.0, r.1);
  }

  lemma TangentialOfShape(k1: real, k2: real, v1: Vec, v2: Vec, p: Vec, t: Vec, w1: Vec, w2: Vec)
    requires Dot(p, t) == 0.0
    requires w1 == Sub(v1, Scale(k1, p)) && w2 == Add(v2, Scale(k2, p))
    ensures Dot(w1, t) == Dot(v1, t) && Dot(w2, t) == Dot(v2, t)
  {
    DotScale(k1, p, t);
    DotScale(k2, p, t);
  }

  /** Two equal masses whose relative velocity lies along the line of centres exchange their velocities. */
  lemma EqualMassesExchange(v1: Vec, v2: Vec, x1: Vec, x2: Vec, m: Positive, c: real)
    requires Dot(Sub(x1, x2), Sub(x1, x2)) != 0.0
    requires Sub(v1, v2) == Scale(c, Sub(x1, x2))
    ensures NewVelocities(v1, v2, x1, x2, m, m) == (v2, v1)
  {
    NewVelocitiesShape(v1, v2, x1, x2, m, m);
    ProjectParallel(Sub(v1, v2), Sub(x1, x2), c);
    var a := m as real;
    assert 2.0 * a / (m + m) as real == 1.0;
    var u := Sub(v1, v2);
    assert Scale(1.0, u) == u;
  }

  /** Projecting a vector onto a direction it already lies along gives it back. */
  lemma ProjectParallel(u: Vec, n: Vec, c: real)
    requires Dot(n, n) != 0.0
    requires u == Scale(c, n)
    ensures Project(u, n) == u
  {
    assert Dot(u, n) == c * Dot(n, n);
    assert Dot(u, n) / Dot(n, n) == c;
  }

  // ---------------------------------------------------------------------------
  // separa_bolas

  /**
   * The centres after the push apart: each centre moves by half of the
   * overlap r1 + r2 - distance along the line of centres, in opposite
   * directions. The source divides by the distance.
   */
  function SeparatedPositions(p1: Vec, p2: Vec, r1: Positive, r2: Positive, h: Hypot): (q: (Vec, Vec))
    requires Distance(p1, p2, h) != 0.0
    ensures Add(q.0, q.1) == Add(p1, p2)
  {
    var distance := Distance(p1, p2, h);
    var offset := (r1 + r2) as real - distance;
    var dx := (p1.x - p2.x) / distance * offset;
    var dy := (p1.y - p2.y) / distance * offset;
    (Vec(p1.x + dx / 2.0, p1.y + dy / 2.0), Vec(p2.x - dx / 2.0, p2.y - dy / 2.0))
  }

  /** After the push the centres lie on the same line, scaled to the sum of the radii. */
  lemma SeparatedDirection(p1: Vec, p2: Vec, r1: Positive, r2: Positive, h: Hypot)
    requires Distance(p1, p2, h) != 0.0
    ensures var q := SeparatedPositions(p1, p2, r1, r2, h);
            Sub(q.0, q.1) == Scale((r1 + r2) as real / Distance(p1, p2, h), Sub(p1, p2))
  {
    var d := Distance(p1, p2, h);
    var total := (r1 + r2) as real;
    StretchAlgebra(p1.x - p2.x, d, total);
    StretchAlgebra(p1.y - p2.y, d, total);
  }

  lemma StretchAlgebra(n: real, d: real, total: real)
    requires d != 0.0
    ensures n + n / d * (total - d) == total / d * n
  {
    assert n / d * (total - d) == n / d * total - n / d * d;
    assert n / d * d == n;
    assert n / d * total == total / d * n;
  }

  /** After the push the centres are exactly r1 + r2 apart: the balls touch. */
  lemma SeparatedTouch(p1: Vec, p2: Vec, r1: Positive, r2: Positive, h: Hypot)
    requires IsHypot(h)
    requires Distance(p1, p2, h) != 0.0
    ensures var q := SeparatedPositions(p1, p2, r1, r2, h);
            Distance(q.0, q.1, h) == (r1 + r2) as real
  {
    var q := SeparatedPositions(p1, p2, r1, r2, h);
    SeparatedDirection(p1, p2, r1, r2, h);
    var d := Distance(p1, p2, h);
    var e := Distance(q.0, q.1, h);
    assert 0.0 <= d && d * d == Dot(Sub(p1, p2), Sub(p1, p2));
    assert 0.0 <= e && e * e == Dot(Sub(q.0, q.1), Sub(q.0, q.1));
    StretchedLength(Sub(p1, p2), Sub(q.0, q.1), d, e, (r1 + r2) as real);
  }

  /** Scaling a vector of length d by total / d gives a vector of length total. */
  lemma StretchedLength(n: Vec, w: Vec, d: real, e: real, total: real)
    requires d != 0.0 && 0.0 < total
    requires w == Scale(total / d, n)
    requires d * d == Dot(n, n) && 0.0 <= e && e * e == Dot(w, w)
    ensures e == total
  {
    var k := total / d;
    assert Dot(Scale(k, n), Scale(k, n)) == k * k * Dot(n, n);
    assert k * k * (d * d) == total * total by {
      assert k * d == total;
    }
    RootUnique(e, total);
  }

  // ---------------------------------------------------------------------------
  // verificar_colisao_bolas on snapshots

  /**
   * One pair check: nothing happens unless the circles touch or overlap;
   * then the velocities are updated and the balls pushed apart. None when the
   * source raises: ValueError from project when the line of centres has zero
   * length, ZeroDivisionError in separa_bolas when the distance is zero.
   */
  function CollidePair(s1: BallState, s2: BallState, h: Hypot): (r: Option<(BallState, BallState)>)
    ensures Distance(s1.pos, s2.pos, h) > (s1.radius + s2.radius) as real ==> r == Some((s1, s2))
    ensures r.Some? ==> r.value.0.mass == s1.mass && r.value.0.radius == s1.radius
                        && r.value.0.trajectory == s1.trajectory
                        && r.value.1.mass == s2.mass && r.value.1.radius == s2.radius
                        && r.value.1.trajectory == s2.trajectory
  {
    var n := Sub(s1.pos, s2.pos);
    var distance := Distance(s1.pos, s2.pos, h);
    if distance > (s1.radius + s2.radius) as real then
      Some((s1, s2))
    else if Dot(n, n) == 0.0 || distance == 0.0 then
      None
    else
      Some(Resolved(s1, s2, h))
  }

  /** The two balls after the velocity update and the push apart. */
  function Resolved(s1: BallState, s2: BallState, h: Hypot): (r: (BallState, BallState))
    requires Dot(Sub(s1.pos, s2.pos), Sub(s1.pos, s2.pos)) != 0.0
    requires Distance(s1.pos, s2.pos, h) != 0.0
    ensures r.0.mass == s1.mass && r.0.radius == s1.radius && r.0.trajectory == s1.trajectory
    ensures r.1.mass == s2.mass && r.1.radius == s2.radius && r.1.trajectory == s2.trajectory
  {
    var w := NewVelocities(s1.v, s2.v, s1.pos, s2.pos, s1.mass, s2.mass);
    var q := SeparatedPositions(s1.pos, s2.pos, s1.radius, s2.radius, h);
    (s1.(v := w.0, pos := q.0), s2.(v := w.1, pos := q.1))
  }

  /** With an exact hypot, a pair check fails exactly when the two centres coincide. */
  lemma CollidePairFails(s1: BallState, s2: BallState, h: Hypot)
    requires IsHypot(h)
    ensures CollidePair(s1, s2, h).None? <==> s1.pos == s2.pos
  {
    var n := Sub(s1.pos, s2.pos);
    DotSelfZero(n);
    SubZero(s1.pos, s2.pos);
    DistanceZero(s1.pos, s2.pos, h);
    assert CollidePair(s1, s2, h).None? <==> Dot(n, n) == 0.0;
  }

  /** A pair check keeps the pair's total momentum and total kinetic energy. */
  lemma CollidePairConserves(s1: BallState, s2: BallState, h: Hypot)
    requires CollidePair(s1, s2, h).Some?
    ensures var r := CollidePair(s1, s2, h).value;
            Add(Momentum(r.0), Momentum(r.1)) == Add(Momentum(s1), Momentum(s2))
            && Energy(r.0) + Energy(r.1) == Energy(s1) + Energy(s2)
  {
    var n := Sub(s1.pos, s2.pos);
    if Distance(s1.pos, s2.pos, h) <= (s1.radius + s2.radius) as real {
      MomentumConserved(s1.v, s2.v, s1.pos, s2.pos, s1.mass, s2.mass);
      EnergyConserved(s1.v, s2.v, s1.pos, s2.pos, s1.mass, s2.mass);
    }
  }

  /** After a pair check that acted, the two balls touch and their midpoint has not moved. */
  lemma CollidePairTouch(s1: BallState, s2: BallState, h: Hypot)
    requires IsHypot(h)
    requires Distance(s1.pos, s2.pos, h) <= (s1.radius + s2.radius) as real
    requires s1.pos != s2.pos
    ensures CollidePair(s1, s2, h).Some?
    ensures var r := CollidePair(s1, s2, h).value;
            Distance(r.0.pos, r.1.pos, h) == (s1.radius + s2.radius) as real
            && Add(r.0.pos, r.1.pos) == Add(s1.pos, s2.pos)
  {
    CollidePairFails(s1, s2, h);
    var n := Sub(s1.pos, s2.pos);
    DotSelfZero(n);
    SubZero(s1.pos, s2.pos);
    DistanceZero(s1.pos, s2.pos, h);
    assert CollidePair(s1, s2, h) == Some(Resolved(s1, s2, h));
    var q := SeparatedPositions(s1.pos, s2.pos, s1.radius, s2.radius, h);
    assert Resolved(s1, s2, h).0.pos == q.0 && Resolved(s1, s2, h).1.pos == q.1;
    SeparatedTouch(s1.pos, s2.pos, s1.radius, s2.radius, h);
  }

  // ---------------------------------------------------------------------------
  // The same operations on the mutable balls

  /** separa_bolas(obj1, obj2). */
  method Separate(b1: Ball, b2: Ball, h: Hypot)
    requires b1 != b2
    requires Distance(b1.pos, b2.pos, h) != 0.0
    modifies b1`pos, b2`pos
    ensures (b1.pos, b2.pos) == SeparatedPositions(old(b1.pos), old(b2.pos), b1.radius, b2.radius, h)
  {
    var p1, p2 := b1.pos, b2.pos;
    var distance := h(p1.x - p2.x, p1.y - p2.y);
    var offset := (b1.radius + b2.radius) as real - distance;
    var dx := (p1.x - p2.x) / distance * offset;
    var dy := (p1.y - p2.y) / distance * offset;
    ghost var q := SeparatedPositions(p1, p2, b1.radius, b2.radius, h);
    assert q.0.x == p1.x + dx / 2.0;
    assert q.0.y == p1.y + dy / 2.0;
    assert q.1.x == p2.x - dx / 2.0;
    assert q.1.y == p2.y - dy / 2.0;
    b1.pos := Vec(p1.x + dx / 2.0, p1.y + dy / 2.0);
    b2.pos := Vec(p2.x - dx / 2.0, p2.y - dy / 2.0);
  }

  /**
   * verificar_colisao_bolas(obj1, obj2). The result is false when the source
   * raises; neither centre has moved then.
   */
  method Collide(b1: Ball, b2: Ball, h: Hypot) returns (ok: bool)
    requires b1 != b2
    modifies b1`pos, b1`v, b2`pos, b2`v
    ensures var r := CollidePair(old(b1.State()), old(b2.State()), h);
            if ok then r == Some((b1.State(), b2.State())) else r.None?
    ensures !ok ==> b1.pos == old(b1.pos) && b2.pos == old(b2.pos)
  {
    var distance := h(b1.pos.x - b2.pos.x, b1.pos.y - b2.pos.y);
    if distance <= (b1.radius + b2.radius) as real {
      var n := Sub(b1.pos, b2.pos);
      if Dot(n, n) == 0.0 {
        return false;
      }
      var w := NewVelocities(b1.v, b2.v, b1.pos, b2.pos, b1.mass, b2.mass);
      b1.v := w.0;
      b2.v := w.1;
      if distance == 0.0 {
        return false;
      }
      Separate(b1, b2, h);
    }
    ok := true;
  }
}
