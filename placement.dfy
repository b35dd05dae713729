/**
 * The initial placement of the balls (r_pos and the retry loop at the start
 * of loop_jogo): each ball in turn gets a random centre inside the window and
 * is re-rolled while it comes too close to one placed before it.
 */
module Placement {
  import opened Vectors
  import opened Optional
  import opened Bodies
  import Settings

  /** The centre keeps the whole ball inside the fixed window. */
  predicate InWindow(p: Vec, radius: int)
  {
    radius as real <= p.x <= (Settings.Width - radius) as real
    && radius as real <= p.y <= (Settings.Length - radius) as real
  }

  /**
   * r_pos: x from randint(r, WIDTH - r), y from randint(r, LENGTH - r). None
   * when a range is empty, where randint raises ValueError.
   */
  function RandomPosition(radius: int, xDraw: nat, yDraw: nat): (p: Option<Vec>)
    ensures p.Some? <==> 2 * radius <= Settings.Width && 2 * radius <= Settings.Length
    ensures p.Some? ==> InWindow(p.value, radius)
  {
    if Settings.Width - radius < radius || Settings.Length - radius < radius then
      None
    else
      var x := Settings.RandInt(radius, Settings.Width - radius, xDraw);
      var y := Settings.RandInt(radius, Settings.Length - radius, yDraw);
      Some(Vec(x as real, y as real))
  }

  /** Every integer centre that keeps the ball inside the window is the outcome of some pair of draws. */
  lemma RandomPositionCovers(radius: int, x: int, y: int)
    requires radius <= x <= Settings.Width - radius && radius <= y <= Settings.Length - radius
    ensures exists xDraw: nat, yDraw: nat :: RandomPosition(radius, xDraw, yDraw) == Some(Vec(x as real, y as real))
  {
    Settings.RandIntCovers(radius, Settings.Width - radius, x);
    Settings.RandIntCovers(radius, Settings.Length - radius, y);
    assert RandomPosition(radius, x - radius, y - radius) == Some(Vec(x as real, y as real));
  }

  /** The rejection test of the placement loop: distance + 10 <= r_i + r_j. */
  predicate TooClose(a: BallState, b: BallState, h: Hypot)
  {
    Distance(a.pos, b.pos, h) + 10.0 <= (a.radius + b.radius) as real
  }

  /**
   * Balls whose radii add up to less than 10 pass the test even with the same
   * centre: the test admits an overlap of up to 10 units.
   */
  lemma SmallBallsMayCoincide(a: BallState, b: BallState, h: Hypot)
    requires IsHypot(h)
    requires a.pos == b.pos && a.radius + b.radius < 10
    ensures !TooClose(a, b, h)
  {
    DistanceZero(a.pos, b.pos, h);
  }

  /** The inner loop over the balls placed before ball i; it stops at the first one too close. */
  method Conflicts(balls: seq<Ball>, i: nat, h: Hypot) returns (conflict: bool)
    requires i < |balls|
    ensures conflict <==> exists j :: 0 <= j < i && TooClose(balls[i].State(), balls[j].State(), h)
  {
    var j := 0;
    while j < i
      invariant 0 <= j <= i
      invariant forall k :: 0 <= k < j ==> !TooClose(balls[i].State(), balls[k].State(), h)
    {
      var distance := h(balls[i].pos.x - balls[j].pos.x, balls[i].pos.y - balls[j].pos.y);
      if distance + 10.0 <= (balls[i].radius + balls[j].radius) as real {
        assert TooClose(balls[i].State(), balls[j].State(), h);
        return true;
      }
      j := j + 1;
    }
    return false;
  }

  /** How the placement loop ends. */
  datatype Outcome =
    | Placed       // every ball has a centre
    | OutOfDraws   // the supplied draws ran out while a ball was still being re-rolled
    | EmptyRange   // a ball is too large for the window: randint raised ValueError

  /** The pairwise condition the placement loop establishes among the first n balls. */
  predicate Spread(s: seq<BallState>, n: int, h: Hypot)
    requires n <= |s|
  {
    forall a, b :: 0 <= b < a < n ==> !TooClose(s[a], s[b], h)
  }

  /** Every one of the first n balls lies inside the window. */
  predicate Inside(s: seq<BallState>, n: int)
    requires n <= |s|
  {
    forall a :: 0 <= a < n ==> InWindow(s[a].pos, s[a].radius)
  }

  /** Re-rolling ball i leaves the condition among the balls before it intact. */
  lemma PlacedKept(s: seq<BallState>, i: nat, b: BallState, h: Hypot)
    requires i < |s|
    requires Spread(s, i, h) && Inside(s, i)
    ensures Spread(s[i := b], i, h) && Inside(s[i := b], i)
  {
  }

  /** A ball clear of every ball before it extends the condition by one. */
  lemma PlacedExtended(s: seq<BallState>, i: nat, h: Hypot)
    requires i < |s|
    requires Spread(s, i, h) && Inside(s, i)
    requires InWindow(s[i].pos, s[i].radius)
    requires forall j :: 0 <= j < i ==> !TooClose(s[i], s[j], h)
    ensures Spread(s, i + 1, h) && Inside(s, i + 1)
  {
  }

  /** `t` is `s` with at most the centres changed. */
  predicate Repositioned(s: seq<BallState>, t: seq<BallState>)
  {
    |s| == |t| && forall k :: 0 <= k < |s| ==> t[k] == s[k].(pos := t[k].pos)
  }

  /** One attempt of the placement loop: ball i takes the centre p and is checked against the balls before it. */
  method Attempt(balls: seq<Ball>, i: nat, p: Vec, h: Hypot) returns (conflict: bool)
    requires Distinct(balls) && i < |balls|
    modifies balls`pos
    ensures States(balls) == old(States(balls))[i := old(balls[i].State()).(pos := p)]
    ensures conflict <==> exists j :: 0 <= j < i && TooClose(States(balls)[i], States(balls)[j], h)
  {
    balls[i].pos := p;
    conflict := Conflicts(balls, i, h);
  }

  /**
   * The placement loop from ball i and draw k on: the next pair of draws gives
   * ball i its centre; ball i is tried again on a conflict and the next ball
   * is taken otherwise.
   */
  function Placing(s: seq<BallState>, draws: seq<(nat, nat)>, i: nat, k: nat, h: Hypot): (r: (Outcome, seq<BallState>))
    requires i <= |s| && k <= |draws|
    ensures Repositioned(s, r.1)
    decreases |draws| - k
  {
    if i == |s| then
      (Placed, s)
    else if k == |draws| then
      (OutOfDraws, s)
    else
      match RandomPosition(s[i].radius, draws[k].0, draws[k].1)
      case None => (EmptyRange, s)
      case Some(p) =>
        var t := s[i := s[i].(pos := p)];
        if exists j :: 0 <= j < i && TooClose(t[i], t[j], h) then Placing(t, draws, i, k + 1, h)
        else Placing(t, draws, i + 1, k + 1, h)
  }

  /** A ball of this radius does not fit across the window or down it, so one randint range is empty. */
  predicate TooLarge(radius: int)
  {
    2 * radius > Settings.Width || 2 * radius > Settings.Length
  }

  /** One attempt of the placement loop, when the draws give ball i the centre p. */
  lemma PlacingStep(s: seq<BallState>, draws: seq<(nat, nat)>, i: nat, k: nat, h: Hypot, p: Vec)
    requires i < |s| && k < |draws|
    requires RandomPosition(s[i].radius, draws[k].0, draws[k].1) == Some(p)
    ensures var t := s[i := s[i].(pos := p)];
            Placing(s, draws, i, k, h)
            == if exists j :: 0 <= j < i && TooClose(t[i], t[j], h) then Placing(t, draws, i, k + 1, h)
               else Placing(t, draws, i + 1, k + 1, h)
  {
  }

  /**
   * What the placement loop guarantees besides moving only centres: a normal
   * exit leaves every ball inside the window and passing the test against
   * every ball before it; an empty randint range comes from a ball too large
   * for the window.
   */
  lemma {:induction false} PlacingGuarantees(s: seq<BallState>, draws: seq<(nat, nat)>, i: nat, k: nat, h: Hypot)
    requires i <= |s| && k <= |draws|
    requires Spread(s, i, h) && Inside(s, i)
    ensures var r := Placing(s, draws, i, k, h);
            (r.0 == Placed ==> Spread(r.1, |s|, h) && Inside(r.1, |s|))
            && (r.0 == EmptyRange ==> exists b :: 0 <= b < |s| && TooLarge(s[b].radius))
    decreases |draws| - k
  {
    if i < |s| && k < |draws| {
      var p := RandomPosition(s[i].radius, draws[k].0, draws[k].1);
      if p.None? {
        assert TooLarge(s[i].radius);
      } else {
        var t := s[i := s[i].(pos := p.value)];
        var next := if exists j :: 0 <= j < i && TooClose(t[i], t[j], h) then i else i + 1;
        PlacingStep(s, draws, i, k, h, p.value);
        assert Placing(s, draws, i, k, h) == Placing(t, draws, next, k + 1, h);
        PlacedKept(s, i, t[i], h);
        if next == i + 1 {
          PlacedExtended(t, i, h);
        }
        PlacingGuarantees(t, draws, next, k + 1, h);
        if Placing(t, draws, next, k + 1, h).0 == EmptyRange {
          var b :| 0 <= b < |t| && TooLarge(t[b].radius);
          assert s[b].radius == t[b].radius;
        }
      }
    }
  }

  /**
   * The placement loop. Each attempt for ball i takes the next pair of draws;
   * on a conflict i is stepped back so that the same ball is tried again.
   * Only the centres change.
   */
  method PlaceBalls(balls: seq<Ball>, draws: seq<(nat, nat)>, h: Hypot) returns (outcome: Outcome)
    requires Distinct(balls)
    modifies balls`pos
    ensures (outcome, States(balls)) == Placing(old(States(balls)), draws, 0, 0, h)
    ensures Repositioned(old(States(balls)), States(balls))
    ensures outcome == Placed ==> Spread(States(balls), |balls|, h) && Inside(States(balls), |balls|)
    ensures outcome == EmptyRange ==> exists k :: 0 <= k < |balls| && TooLarge(balls[k].radius)
  {
    PlacingGuarantees(States(balls), draws, 0, 0, h);
    var i, k := 0, 0;
    while i < |balls|
      invariant 0 <= i <= |balls| && 0 <= k <= |draws|
      invariant Placing(old(States(balls)), draws, 0, 0, h) == Placing(States(balls), draws, i, k, h)
      decreases |draws| - k
    {
      if k == |draws| {
        return OutOfDraws;
      }
      var p := RandomPosition(balls[i].radius, draws[k].0, draws[k].1);
      k := k + 1;
      if p.None? {
        return EmptyRange;
      }
      var conflict := Attempt(balls, i, p.value, h);
      if !conflict {
        i := i + 1;
      }
    }
    return Placed;
  }
}
