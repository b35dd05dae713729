/**
 * A ball of the simulator (class Bola): its centre, velocity, mass, radius and
 * the recent positions it leaves as a trail, with one frame of motion and the
 * reflection off the window's walls.
 */
module Bodies {
  import opened Vectors
  import Settings

  /** The number of positions a trail keeps. */
  const TrajectoryLifetime: nat := 100

  /** The scale from mass to radius (RATIO). */
  const Ratio: int := 1

  type Positive = n: int | n >= 1 witness 1

  /** A snapshot of a ball's fields. */
  datatype BallState = BallState(pos: Vec, v: Vec, mass: Positive, radius: Positive, trajectory: seq<Vec>)

  /** radius = int(RATIO * mass). */
  function RadiusOf(mass: Positive): (r: Positive)
    ensures r == Ratio * mass
  {
    Ratio * mass
  }

  /**
   * A new ball drawn from the parameters: mass from randint(MASS_MIN,
   * MASS_MAX), each velocity component from randint(V_MIN, V_MAX), centre at
   * the origin and an empty trail. The draws are the random source's raw output.
   */
  function Fresh(c: Settings.Config, massDraw: nat, vxDraw: nat, vyDraw: nat): (s: BallState)
    requires Settings.ValidConfig(c)
    ensures c.massMin <= s.mass <= c.massMax && s.radius == s.mass
    ensures c.vMin as real <= s.v.x <= c.vMax as real && c.vMin as real <= s.v.y <= c.vMax as real
    ensures s.pos == Zero && s.trajectory == []
  {
    var mass := Settings.RandInt(c.massMin, c.massMax, massDraw);
    var vx := Settings.RandInt(c.vMin, c.vMax, vxDraw);
    var vy := Settings.RandInt(c.vMin, c.vMax, vyDraw);
    BallState(Zero, Vec(vx as real, vy as real), mass, RadiusOf(mass), [])
  }

  /**
   * One frame of motion: the centre advances by the velocity and the new
   * centre is appended to the trail, which then drops its oldest entry if it
   * holds more than TrajectoryLifetime positions.
   */
  function Moved(s: BallState): (r: BallState)
    ensures r.pos == Add(s.pos, s.v)
    ensures r.v == s.v && r.mass == s.mass && r.radius == s.radius
    ensures |r.trajectory| > 0 && r.trajectory[|r.trajectory| - 1] == r.pos
    ensures |r.trajectory| == if |s.trajectory| < TrajectoryLifetime then |s.trajectory| + 1 else |s.trajectory|
    ensures |s.trajectory| <= TrajectoryLifetime ==> |r.trajectory| <= TrajectoryLifetime
    ensures |s.trajectory| < TrajectoryLifetime ==> r.trajectory[..|s.trajectory|] == s.trajectory
    ensures |s.trajectory| >= TrajectoryLifetime ==> r.trajectory[..|s.trajectory| - 1] == s.trajectory[1..]
  {
    var pos := Add(s.pos, s.v);
    var trail := s.trajectory + [pos];
    s.(pos := pos, trajectory := if |trail| > TrajectoryLifetime then trail[1..] else trail)
  }

  /**
   * The reflection along one axis. The far wall is tested first, on the
   * incoming component; the near wall afterwards, on the component as the
   * first test left it.
   */
  function Reflect(p: real, w: real, r: real, size: real): (u: real)
    ensures u == w || u == -w
    ensures u != w <==> OutwardAt(p, w, r, size)
  {
    var w1 := if p + r >= size && w > 0.0 then -w else w;
    if p - r <= 0.0 && w1 < 0.0 then -w1 else w1
  }

  /** A ball that reaches both walls of an axis moving towards the far one keeps its velocity there. */
  lemma ReflectSpanningBothWalls(p: real, w: real, r: real, size: real)
    requires w > 0.0 && p + r >= size && p - r <= 0.0
    ensures Reflect(p, w, r, size) == w
  {
  }

  /** manageWallCollision: each velocity component reflected against its pair of walls. */
  function WallBounced(s: BallState, width: int, height: int): (r: BallState)
    ensures r.pos == s.pos && r.mass == s.mass && r.radius == s.radius && r.trajectory == s.trajectory
    ensures (r.v.x == s.v.x || r.v.x == -s.v.x) && (r.v.y == s.v.y || r.v.y == -s.v.y)
    ensures r.v.x != s.v.x <==> OutwardAt(s.pos.x, s.v.x, s.radius as real, width as real)
    ensures r.v.y != s.v.y <==> OutwardAt(s.pos.y, s.v.y, s.radius as real, height as real)
  {
    var r := s.radius as real;
    s.(v := Vec(Reflect(s.pos.x, s.v.x, r, width as real), Reflect(s.pos.y, s.v.y, r, height as real)))
  }

  /**
   * The condition under which a component comes out of the two wall tests
   * negated: moving outwards past the far wall while clear of the near one,
   * or moving outwards past the near wall.
   */
  predicate OutwardAt(p: real, w: real, r: real, size: real)
  {
    (w > 0.0 && p + r >= size && p - r > 0.0) || (w < 0.0 && p - r <= 0.0)
  }

  /** Twice the kinetic energy of a ball. */
  function Energy(s: BallState): real
  {
    s.mass as real * Dot(s.v, s.v)
  }

  /** The linear momentum of a ball. */
  function Momentum(s: BallState): Vec
  {
    Scale(s.mass as real, s.v)
  }

  /** Neither a frame of motion nor a wall reflection changes a ball's kinetic energy. */
  lemma MoveAndBounceKeepEnergy(s: BallState, width: int, height: int)
    ensures Energy(WallBounced(Moved(s), width, height)) == Energy(s)
  {
    var r := WallBounced(Moved(s), width, height);
    assert Dot(r.v, r.v) == Dot(s.v, s.v);
  }

  /** The trail holds at most TrajectoryLifetime positions. */
  predicate TrailBounded(s: BallState)
  {
    |s.trajectory| <= TrajectoryLifetime
  }

  /** The mutable ball. Mass and radius never change after construction. */
  class Ball {
    var pos: Vec
    var v: Vec
    const mass: Positive
    const radius: Positive
    var trajectory: seq<Vec>

    function State(): BallState
      reads this
    {
      BallState(pos, v, mass, radius, trajectory)
    }

    ghost predicate Valid()
      reads this
    {
      radius == RadiusOf(mass) && TrailBounded(State())
    }

    /** Bola(screen), with the three randint draws it takes as parameters. */
    constructor (c: Settings.Config, massDraw: nat, vxDraw: nat, vyDraw: nat)
      requires Settings.ValidConfig(c)
      ensures Valid()
      ensures State() == Fresh(c, massDraw, vxDraw, vyDraw)
    {
      var s := Fresh(c, massDraw, vxDraw, vyDraw);
      pos := s.pos;
      v := s.v;
      mass := s.mass;
      radius := s.radius;
      trajectory := s.trajectory;
    }

    /** move. */
    method Move()
      requires Valid()
      modifies this`pos, this`trajectory
      ensures Valid()
      ensures State() == Moved(old(State()))
    {
      pos := Add(pos, v);
      trajectory := trajectory + [pos];
      if |trajectory| > TrajectoryLifetime {
        trajectory := trajectory[1..];
      }
    }

    /** manageWallCollision(screen_width, screen_height). */
    method ManageWallCollision(width: int, height: int)
      requires Valid()
      modifies this`v
      ensures Valid()
      ensures State() == WallBounced(old(State()), width, height)
    {
      if pos.x + radius as real >= width as real && v.x > 0.0 {
        v := v.(x := -v.x);
      }
      if pos.x - radius as real <= 0.0 && v.x < 0.0 {
        v := v.(x := -v.x);
      }
      if pos.y + radius as real >= height as real && v.y > 0.0 {
        v := v.(y := -v.y);
      }
      if pos.y - radius as real <= 0.0 && v.y < 0.0 {
        v := v.(y := -v.y);
      }
    }
  }

  /** The balls of the list are distinct objects. */
  predicate Distinct(balls: seq<Ball>)
  {
    forall a, b :: 0 <= a < b < |balls| ==> balls[a] != balls[b]
  }

  /** Snapshots of all the balls of the list, in order. */
  function States(balls: seq<Ball>): (s: seq<BallState>)
    reads balls
    ensures |s| == |balls| && forall k :: 0 <= k < |balls| ==> s[k] == balls[k].State()
  {
    seq(|balls|, k reads balls requires 0 <= k < |balls| => balls[k].State())
  }

  /** Every ball of the list keeps its invariant. */
  ghost predicate AllValid(balls: seq<Ball>)
    reads balls
  {
    forall k :: 0 <= k < |balls| ==> balls[k].Valid()
  }
}
