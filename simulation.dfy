/**
 * The simulation loop of loop_jogo: creating and placing the balls, and one
 * frame of the game loop, which checks every pair i < j once and then moves
 * each ball and reflects it off the walls.
 */
module Simulation {
  import opened Vectors
  import opened Optional
  import opened Bodies
  import opened Collisions
  import Settings
  import Placement

  // ---------------------------------------------------------------------------
  // Totals over all balls

  function Sum(s: seq<BallState>, f: BallState -> real): real
  {
    if |s| == 0 then 0.0 else f(s[0]) + Sum(s[1..], f)
  }

  function MomentumX(b: BallState): real { Momentum(b).x }

  function MomentumY(b: BallState): real { Momentum(b).y }

  /** The total linear momentum of the balls. */
  function TotalMomentum(s: seq<BallState>): Vec
  {
    Vec(Sum(s, MomentumX), Sum(s, MomentumY))
  }

  /** Replacing one ball changes a total by the difference of its terms. */
  lemma {:induction false} SumUpdate(s: seq<BallState>, k: nat, b: BallState, f: BallState -> real)
    requires k < |s|
    ensures Sum(s[k := b], f) == Sum(s, f) - f(s[k]) + f(b)
  {
    if k == 0 {
      assert s[k := b][1..] == s[1..];
    } else {
      assert s[k := b][1..] == s[1..][k - 1 := b];
      SumUpdate(s[1..], k - 1, b, f);
    }
  }

  /** Replacing two balls whose terms have the same sum leaves a total unchanged. */
  lemma SumPairUpdate(s: seq<BallState>, i: nat, j: nat, b1: BallState, b2: BallState, f: BallState -> real)
    requires i < |s| && j < |s| && i != j
    requires f(b1) + f(b2) == f(s[i]) + f(s[j])
    ensures Sum(s[i := b1][j := b2], f) == Sum(s, f)
  {
    SumUpdate(s, i, b1, f);
    SumUpdate(s[i := b1], j, b2, f);
  }

  // ---------------------------------------------------------------------------
  // The pair pass

  /** The balls agree in everything that a pair pass does not change. */
  predicate SameBodies(s: seq<BallState>, t: seq<BallState>)
  {
    |s| == |t|
    && forall k :: 0 <= k < |s| ==>
         s[k].mass == t[k].mass && s[k].radius == t[k].radius && s[k].trajectory == t[k].trajectory
  }

  /**
   * The nested loops `for i in range(0, N - 1): for j in range(i + 1, N)`
   * from pair (i, j) on, each pair checked on the balls as the earlier pairs
   * left them. None when a pair check raises.
   */
  function PassFrom(s: seq<BallState>, i: nat, j: nat, h: Hypot): (r: Option<seq<BallState>>)
    requires i < j
    ensures r.Some? ==> SameBodies(s, r.value)
    decreases |s| - i, |s| - j
  {
    if i + 1 >= |s| then
      Some(s)
    else if j >= |s| then
      PassFrom(s, i + 1, i + 2, h)
    else
      match CollidePair(s[i], s[j], h)
      case None => None
      case Some(p) => PassFrom(s[i := p.0][j := p.1], i, j + 1, h)
  }

  /** One pair of the pass, when its check succeeds. */
  lemma PassStep(s: seq<BallState>, i: nat, j: nat, h: Hypot, r: Option<(BallState, BallState)>, p: (BallState, BallState))
    requires i < j < |s|
    requires r == CollidePair(s[i], s[j], h) && r == Some(p)
    ensures PassFrom(s, i, j, h) == PassFrom(s[i := p.0][j := p.1], i, j + 1, h)
  {
  }

  /** One pair of the pass, when its check raises. */
  lemma PassStepFails(s: seq<BallState>, i: nat, j: nat, h: Hypot, r: Option<(BallState, BallState)>)
    requires i < j < |s|
    requires r == CollidePair(s[i], s[j], h) && r.None?
    ensures PassFrom(s, i, j, h).None?
  {
  }

  /** The whole pair pass of one frame. */
  function Pass(s: seq<BallState>, h: Hypot): (r: Option<seq<BallState>>)
    ensures r.Some? ==> SameBodies(s, r.value)
  {
    PassFrom(s, 0, 1, h)
  }

  /** The pair pass keeps the total momentum and the total kinetic energy of the balls. */
  lemma {:induction false} PassConserves(s: seq<BallState>, i: nat, j: nat, h: Hypot)
    requires i < j
    requires PassFrom(s, i, j, h).Some?
    ensures TotalMomentum(PassFrom(s, i, j, h).value) == TotalMomentum(s)
    ensures Sum(PassFrom(s, i, j, h).value, Energy) == Sum(s, Energy)
    decreases |s| - i, |s| - j
  {
    if i + 1 >= |s| {
    } else if j >= |s| {
      PassConserves(s, i + 1, i + 2, h);
    } else {
      var r := CollidePair(s[i], s[j], h);
      var p := r.value;
      PassStep(s, i, j, h, r, p);
      PairStepConserves(s, i, j, h);
      PassConserves(s[i := p.0][j := p.1], i, j + 1, h);
    }
  }

  /** One successful pair check keeps the totals over all balls. */
  lemma PairStepConserves(s: seq<BallState>, i: nat, j: nat, h: Hypot)
    requires i < j < |s|
    requires CollidePair(s[i], s[j], h).Some?
    ensures var p := CollidePair(s[i], s[j], h).value;
            TotalMomentum(s[i := p.0][j := p.1]) == TotalMomentum(s)
            && Sum(s[i := p.0][j := p.1], Energy) == Sum(s, Energy)
  {
    var p := CollidePair(s[i], s[j], h).value;
    CollidePairConserves(s[i], s[j], h);
    SumPairUpdate(s, i, j, p.0, p.1, MomentumX);
    SumPairUpdate(s, i, j, p.0, p.1, MomentumY);
    SumPairUpdate(s, i, j, p.0, p.1, Energy);
  }

  /** Every pair of balls is further apart than the sum of its radii. */
  ghost predicate Apart(s: seq<BallState>, h: Hypot)
  {
    forall a, b :: 0 <= a < b < |s| ==> Distance(s[a].pos, s[b].pos, h) > (s[a].radius + s[b].radius) as real
  }

  /** When no two balls touch, the pair pass changes nothing. */
  lemma {:induction false} PassApart(s: seq<BallState>, i: nat, j: nat, h: Hypot)
    requires i < j
    requires Apart(s, h)
    ensures PassFrom(s, i, j, h) == Some(s)
    decreases |s| - i, |s| - j
  {
    if i + 1 >= |s| {
    } else if j >= |s| {
      PassApart(s, i + 1, i + 2, h);
    } else {
      assert CollidePair(s[i], s[j], h) == Some((s[i], s[j]));
      assert s[i := s[i]][j := s[j]] == s;
      PassApart(s, i, j + 1, h);
    }
  }

  // ---------------------------------------------------------------------------
  // One frame

  /** Every ball moved by one frame and then reflected off the walls of a width x height window. */
  function Advanced(s: seq<BallState>, width: int, height: int): (t: seq<BallState>)
    ensures |t| == |s|
    ensures forall k :: 0 <= k < |s| ==>
      t[k].pos == Add(s[k].pos, s[k].v) && t[k].mass == s[k].mass && t[k].radius == s[k].radius
  {
    seq(|s|, k requires 0 <= k < |s| => WallBounced(Moved(s[k]), width, height))
  }

  /** Moving and reflecting the balls keeps their total kinetic energy. */
  lemma {:induction false} AdvancedKeepsEnergy(s: seq<BallState>, width: int, height: int)
    ensures Sum(Advanced(s, width, height), Energy) == Sum(s, Energy)
  {
    if |s| > 0 {
      assert Advanced(s, width, height)[1..] == Advanced(s[1..], width, height);
      MoveAndBounceKeepEnergy(s[0], width, height);
      AdvancedKeepsEnergy(s[1..], width, height);
    }
  }

  /** Moving and reflecting the balls keeps every trail within its bound. */
  lemma AdvancedKeepsTrails(s: seq<BallState>, width: int, height: int)
    requires forall k :: 0 <= k < |s| ==> TrailBounded(s[k])
    ensures forall k :: 0 <= k < |s| ==> TrailBounded(Advanced(s, width, height)[k])
  {
  }

  /** A whole frame that does not fail keeps the total kinetic energy of the balls. */
  lemma FrameKeepsEnergy(s: seq<BallState>, width: int, height: int, h: Hypot)
    requires Pass(s, h).Some?
    ensures Sum(Advanced(Pass(s, h).value, width, height), Energy) == Sum(s, Energy)
  {
    PassConserves(s, 0, 1, h);
    AdvancedKeepsEnergy(Pass(s, h).value, width, height);
  }

  /**
   * The pair loop of one frame on the mutable balls. The result is false when
   * a pair check raises, where the program ends.
   */
  method CollisionPass(balls: seq<Ball>, h: Hypot) returns (ok: bool)
    requires Distinct(balls)
    modifies balls`pos, balls`v
    ensures var r := Pass(old(States(balls)), h); ok == r.Some? && (ok ==> States(balls) == r.value)
  {
    var i := 0;
    while i + 1 < |balls|
      invariant Pass(old(States(balls)), h) == PassFrom(States(balls), i, i + 1, h)
    {
      ok := CheckRow(balls, i, h);
      if !ok {
        return;
      }
      i := i + 1;
    }
    return true;
  }

  /** The inner loop for ball i: the pairs (i, j) for j from i + 1 up to the last ball. */
  method CheckRow(balls: seq<Ball>, i: nat, h: Hypot) returns (ok: bool)
    requires Distinct(balls) && i + 1 < |balls|
    modifies balls`pos, balls`v
    ensures ok ==> PassFrom(old(States(balls)), i, i + 1, h) == PassFrom(States(balls), i + 1, i + 2, h)
    ensures !ok ==> PassFrom(old(States(balls)), i, i + 1, h).None?
  {
    var j := i + 1;
    while j < |balls|
      invariant i + 1 <= j <= |balls|
      invariant PassFrom(old(States(balls)), i, i + 1, h) == PassFrom(States(balls), i, j, h)
    {
      ok := CheckPair(balls, i, j, h);
      if !ok {
        return;
      }
      j := j + 1;
    }
    return true;
  }

  /** One pair (i, j) of the pair loop, checked on the balls as the earlier pairs left them. */
  method CheckPair(balls: seq<Ball>, i: nat, j: nat, h: Hypot) returns (ok: bool)
    requires Distinct(balls) && i < j < |balls|
    modifies balls`pos, balls`v
    ensures ok ==> PassFrom(old(States(balls)), i, j, h) == PassFrom(States(balls), i, j + 1, h)
    ensures !ok ==> PassFrom(old(States(balls)), i, j, h).None?
  {
    ghost var before := States(balls);
    ghost var r := CollidePair(before[i], before[j], h);
    ok := Collide(balls[i], balls[j], h);
    if !ok {
      PassStepFails(before, i, j, h, r);
      return;
    }
    ghost var p := (balls[i].State(), balls[j].State());
    assert States(balls) == before[i := p.0][j := p.1];
    PassStep(before, i, j, h, r, p);
  }

  /** move and then manageWallCollision for each ball in order. */
  method AdvanceAll(balls: seq<Ball>, width: int, height: int)
    requires Distinct(balls) && AllValid(balls)
    modifies balls`pos, balls`v, balls`trajectory
    ensures AllValid(balls)
    ensures States(balls) == Advanced(old(States(balls)), width, height)
  {
    ghost var start := States(balls);
    for k := 0 to |balls|
      invariant AllValid(balls)
      invariant forall a :: 0 <= a < k ==> balls[a].State() == WallBounced(Moved(start[a]), width, height)
      invariant forall a :: k <= a < |balls| ==> balls[a].State() == start[a]
    {
      balls[k].Move();
      balls[k].ManageWallCollision(width, height);
    }
  }

  /**
   * One frame of the game loop for a window of width x height: the pair
   * loop, then move and manageWallCollision for each ball in order. The
   * result is false when a pair check raises.
   */
  method Tick(balls: seq<Ball>, width: int, height: int, h: Hypot) returns (ok: bool)
    requires Distinct(balls) && AllValid(balls)
    modifies balls`pos, balls`v, balls`trajectory
    ensures AllValid(balls)
    ensures var r := Pass(old(States(balls)), h);
            ok == r.Some? && (ok ==> States(balls) == Advanced(r.value, width, height))
  {
    ok := CollisionPass(balls, h);
    if !ok {
      return;
    }
    AdvanceAll(balls, width, height);
  }

  // ---------------------------------------------------------------------------
  // The start of a run

  /** The snapshots of the freshly created balls, one triple of draws each. */
  function FreshAll(c: Settings.Config, ballDraws: seq<(nat, nat, nat)>): (s: seq<BallState>)
    requires Settings.ValidConfig(c)
    ensures |s| == |ballDraws|
    ensures forall k :: 0 <= k < |s| ==> s[k] == Fresh(c, ballDraws[k].0, ballDraws[k].1, ballDraws[k].2)
  {
    seq(|ballDraws|, k requires 0 <= k < |ballDraws| => Fresh(c, ballDraws[k].0, ballDraws[k].1, ballDraws[k].2))
  }

  /** `[Bola(window) for _ in range(N)]`: N new, distinct balls, each taking a triple of draws. */
  method CreateBalls(c: Settings.Config, ballDraws: seq<(nat, nat, nat)>) returns (balls: seq<Ball>)
    requires Settings.ValidConfig(c)
    ensures Distinct(balls) && AllValid(balls)
    ensures forall k :: 0 <= k < |balls| ==> fresh(balls[k])
    ensures States(balls) == FreshAll(c, ballDraws)
  {
    balls := [];
    for k := 0 to |ballDraws|
      invariant |balls| == k && Distinct(balls) && AllValid(balls)
      invariant forall a :: 0 <= a < k ==> fresh(balls[a])
      invariant forall a :: 0 <= a < k ==> balls[a].State() == Fresh(c, ballDraws[a].0, ballDraws[a].1, ballDraws[a].2)
    {
      var b := new Ball(c, ballDraws[k].0, ballDraws[k].1, ballDraws[k].2);
      balls := balls + [b];
    }
  }

  /**
   * The start of a run: the balls are created and then placed. Each ball
   * takes a triple of draws for its mass and velocity components; the
   * placement takes pairs of draws for the centres.
   */
  method Setup(c: Settings.Config, ballDraws: seq<(nat, nat, nat)>, positionDraws: seq<(nat, nat)>, h: Hypot)
    returns (balls: seq<Ball>, outcome: Placement.Outcome)
    requires Settings.ValidConfig(c)
    requires |ballDraws| == c.n
    ensures |balls| == c.n && Distinct(balls) && AllValid(balls)
    ensures forall k :: 0 <= k < |balls| ==> fresh(balls[k])
    ensures Placement.Repositioned(FreshAll(c, ballDraws), States(balls))
    ensures outcome == Placement.Placed ==>
      Placement.Spread(States(balls), |balls|, h) && Placement.Inside(States(balls), |balls|)
  {
    balls := CreateBalls(c, ballDraws);
    outcome := Placement.PlaceBalls(balls, positionDraws, h);
  }
}
