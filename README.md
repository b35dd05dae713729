# Collision simulator: a verified model of its physics and bookkeeping

The simulator animates a set of balls in a window. Each ball (`Bola`) has a
centre, a velocity, a mass, a radius equal to its mass, and a trail of its
last 100 centres. These are the pieces of one run:

- The settings screen edits the five parameters `N`, `MASS_MIN`, `MASS_MAX`,
  `V_MIN` and `V_MAX`.
- The balls are created from those parameters with `randint`.
- Each ball gets a random centre inside the window. A ball that comes too
  close to one placed before it is re-rolled.
- Every frame, each pair `i < j` is checked for a collision. Then each ball
  moves and bounces off the walls.
- A collision updates both velocities with the two-dimensional elastic
  formula, which projects onto the line of centres. It then pushes the two
  balls apart along that line until they just touch.

This project models those operations in Dafny and proves what they promise:

- A collision keeps the total momentum and the total kinetic energy.
- A collision leaves both tangential components unchanged.
- Equal masses colliding head-on exchange velocities.
- After the push the centres are exactly `r1 + r2` apart, and the midpoint
  has not moved.
- Pairs that do not touch are left alone.
- A wall only flips velocity signs, and the wall test fixes exactly which.
- Moving keeps the trail at 100 entries or fewer and drops only the oldest.
- Placement ends with every ball inside the window, and no earlier ball
  overlaps it by 10 units or more.
- The settings screen keeps its floors, and committing leaves both `randint`
  ranges non-empty.

Files and modules:

| file | module | contents |
|---|---|---|
| `option.dfy` | `Optional` | `Option` |
| `vectors.dfy` | `Vectors` | exact-real `Vector2`; `project` and `math.hypot` |
| `config.dfy` | `Settings` | parameters, `randint`, settings screen (`ConfigScreen` class) |
| `ball.dfy` | `Bodies` | `Bola` as the `Ball` class, its value snapshot `BallState`, `move`, `manageWallCollision` |
| `collision.dfy` | `Collisions` | `verificar_colisao_bolas`, `separa_bolas` |
| `placement.dfy` | `Placement` | `r_pos` and the placement loop |
| `simulation.dfy` | `Simulation` | ball creation, the pair loop, one frame of `loop_jogo` |

### How the model is built

State that the program changes in place is modelled in place:

- Ball positions, velocities and trails are fields of the `Ball` class.
- The editor's dictionary and cursor are fields of `ConfigScreen`.
- The methods that move, reflect or pair-check balls state their new state
  exactly. Each does so through a function on values, such as `Moved`,
  `WallBounced`, `CollidePair`, `PassFrom` or `Advanced`. The properties the
  program promises are proved about those functions.

Positions and velocities are exact reals, not floats. The model treats
`math.hypot` as a function `h` passed in by the caller. Every result that
depends on the hypotenuse being exact assumes `IsHypot(h)`: `h` is
non-negative and its square is `a*a + b*b`. The other results hold for every
`h`, following the source's own arithmetic. The overlap test keeps the
source's form `hypot(...) <= r1 + r2`. `Vectors.DistanceAtMost` proves it
equivalent to the squared-distance test.

Where the source would raise, the model returns an error outcome:

- `Vector2.project` raises `ValueError` for coincident centres.
- `separa_bolas` raises `ZeroDivisionError` when `distance` is zero.
- `randint` raises `ValueError` on an empty range, which happens when a ball
  is larger than the window.

The pair check then yields `None`, the frame reports `false`, and placement
reports `EmptyRange`. With an exact `hypot`, a pair check fails exactly when
the two centres coincide (`Collisions.CollidePairFails`).

Random draws are inputs. A draw is the random source's raw output, a natural
number, which is reduced into the requested range. `Settings.RandIntCovers`
and `Placement.RandomPositionCovers` show that every allowed value is the
result of some draw.

The placement margin follows the code. A ball is re-rolled when
`distance + 10 <= r_i + r_j`. The test therefore tolerates an overlap of
almost 10 units, rather than enforcing a gap of 10 between the balls.
`Placement.SmallBallsMayCoincide` shows that two balls whose radii sum to
less than 10 pass with the same centre.

## Model

| member | source | states |
|---|---|---|
| `Vectors.Project` | simuladordecolisoes.py:165-166 | `Vector2.project(a, b)`: the result lies along `b` (it is orthogonal to the normal of `b`) and the residual `a - p` is orthogonal to `b`, which together fix it as the vector projection; defined only for `b` of non-zero length, where pygame raises otherwise |
| `Vectors.ProjectNegated` | simuladordecolisoes.py:165-166 | `project(-a, -b) == -project(a, b)`, so the second velocity formula uses the same projection as the first, negated |
| `Vectors.DistanceAtMost` | simuladordecolisoes.py:154-155 | with an exact `hypot`, the test `distance <= bound` holds exactly when the squared distance is at most `bound * bound` |
| `Vectors.DistanceZero` | simuladordecolisoes.py:138-141 | with an exact `hypot`, the distance is non-negative, and zero exactly when the squared length of the difference is zero |
| `Settings.DefaultsValid` | simuladordecolisoes.py:35-39 | the starting parameters `N = 10`, masses 20..40, speeds 0..5 meet the conditions the later draws need |
| `Settings.RandInt` | simuladordecolisoes.py:66-73 | `randint(lo, hi)` returns a value in `lo..hi` inclusive |
| `Settings.RandIntCovers` | simuladordecolisoes.py:66-73 | every value of `lo..hi` is the outcome of some draw |
| `Settings.InputsOf` | simuladordecolisoes.py:213-219 | the screen's dictionary holds the five entries, each with the current parameter's value |
| `Settings.Decremented` | simuladordecolisoes.py:262-268 | LEFT lowers a value by at most 1. `N` and the entries starting with "MASS" never go below 1, and the other entries starting with "V" never below 0. Above its floor a value drops by exactly 1; at or below it, it becomes the floor. A value with no floor is unchanged |
| `Settings.DecrementedFloors` | simuladordecolisoes.py:262-268 | for the five entries, LEFT keeps `N` and both masses at 1 or more and both speeds at 0 or more; it lowers by at most 1, and by exactly 1 above the floor |
| `Settings.Committed` | simuladordecolisoes.py:271-276 | ENTER copies the minima and `N`, and raises each maximum to its minimum when it is below it, so `MASS_MAX >= MASS_MIN` and `V_MAX >= V_MIN`; floored inputs give valid parameters |
| `Settings.CommitUnedited` | simuladordecolisoes.py:213-219 | committing the unedited dictionary of valid parameters gives them back unchanged |
| `Settings.ConfigScreen.constructor` | simuladordecolisoes.py:213-222 | the screen opens on the current parameters with the first entry selected |
| `Settings.ConfigScreen.Press` | simuladordecolisoes.py:253-277 | each key's exact effect: UP and DOWN move the cursor modulo 5; LEFT applies `Decremented` to the selected entry; RIGHT adds exactly 1 to it and changes nothing else; ENTER returns the committed parameters; ESC quits. The cursor stays in 0..4, and floored values stay floored |
| `Bodies.RadiusOf` | simuladordecolisoes.py:67 | `radius = int(RATIO * mass)` with `RATIO = 1`, a positive integer |
| `Bodies.Fresh` | simuladordecolisoes.py:66-75 | a new ball's mass lies in `MASS_MIN..MASS_MAX`; its radius equals its mass; both velocity components lie in `V_MIN..V_MAX`; its centre is the origin; its trail is empty |
| `Bodies.Ball.constructor` | simuladordecolisoes.py:59-75 | `Bola(screen)` builds the ball `Fresh` describes, and the ball's invariant holds |
| `Bodies.Moved` | simuladordecolisoes.py:98-103 | `pos' = pos + v`; the last trail entry is `pos'`; the trail grows by one below the cap and keeps its length at the cap, by dropping exactly the oldest entry; a trail of at most 100 entries stays within 100; velocity, mass and radius are unchanged |
| `Bodies.Ball.Move` | simuladordecolisoes.py:93-103 | `move` updates the ball's centre and trail exactly as `Moved`, and keeps the ball's invariant |
| `Bodies.Reflect` | simuladordecolisoes.py:112-119 | one axis of the wall test: the component is kept or negated, and it is negated exactly when it points out past the far wall while clear of the near one, or out past the near wall |
| `Bodies.ReflectSpanningBothWalls` | simuladordecolisoes.py:112-115 | a ball touching both walls of an axis while moving towards the far one is flipped twice and keeps its velocity |
| `Bodies.WallBounced` | simuladordecolisoes.py:112-119 | `manageWallCollision` keeps the centre, mass, radius and trail. Each velocity component keeps its magnitude, and it is negated exactly when `Reflect`'s outward condition holds on that axis |
| `Bodies.Ball.ManageWallCollision` | simuladordecolisoes.py:105-119 | the four in-place sign flips produce exactly `WallBounced`, and keep the ball's invariant |
| `Bodies.MoveAndBounceKeepEnergy` | simuladordecolisoes.py:98-119 | moving and reflecting a ball keeps its kinetic energy |
| `Collisions.NewVelocitiesShape` | simuladordecolisoes.py:165-166 | `NewVelocities` is the velocity formula, both results computed from the velocities before the collision. The second formula, written with `project(v2 - v1, x2 - x1)`, equals `v2 + k2 p`, where `p` is the projection the first formula uses and `k2 = 2 m1 / (m1 + m2)`. So the two changes are opposite multiples of one projection, with `k1 = 2 m2 / (m1 + m2)` in `v1 - k1 p` |
| `Collisions.MomentumConserved` | simuladordecolisoes.py:150-166 | the velocity update keeps `m1 v1 + m2 v2` exactly |
| `Collisions.EnergyConserved` | simuladordecolisoes.py:165-166 | the velocity update keeps `m1 abs(v1)^2 + m2 abs(v2)^2`, so the collision is elastic |
| `Collisions.TangentialUnchanged` | simuladordecolisoes.py:165-166 | both velocities keep their components perpendicular to the line of centres |
| `Collisions.EqualMassesExchange` | simuladordecolisoes.py:165-166 | two equal masses whose relative velocity lies along the line of centres swap velocities |
| `Collisions.SeparatedPositions` | simuladordecolisoes.py:138-145 | the push moves the two centres by equal and opposite halves of the offset, so their midpoint is kept |
| `Collisions.SeparatedDirection` | simuladordecolisoes.py:138-145 | after the push, the difference of the centres is the old difference scaled by `(r1 + r2) / distance` |
| `Collisions.SeparatedTouch` | simuladordecolisoes.py:138-145 | with an exact `hypot`, the pushed centres are exactly `r1 + r2` apart |
| `Collisions.CollidePair` | simuladordecolisoes.py:154-175 | a pair further apart than `r1 + r2` is returned unchanged; a check that acts keeps both masses, radii and trails |
| `Collisions.Resolved` | simuladordecolisoes.py:157-175 | the acting branch replaces only the velocities and the centres |
| `Collisions.CollidePairFails` | simuladordecolisoes.py:138-166 | with an exact `hypot`, a pair check raises exactly when the two centres coincide |
| `Collisions.CollidePairConserves` | simuladordecolisoes.py:154-175 | each successful pair check keeps the pair's total momentum and total kinetic energy |
| `Collisions.CollidePairTouch` | simuladordecolisoes.py:154-175 | with an exact `hypot`, a check on touching or overlapping balls with distinct centres succeeds; afterwards the balls are exactly `r1 + r2` apart and their midpoint is unchanged |
| `Collisions.Separate` | simuladordecolisoes.py:132-145 | `separa_bolas` writes exactly the centres `SeparatedPositions` describes |
| `Collisions.Collide` | simuladordecolisoes.py:147-175 | `verificar_colisao_bolas` leaves both balls as `CollidePair` describes. Both velocities are computed before either is assigned. When it raises, it reports failure and neither centre has moved |
| `Placement.RandomPosition` | simuladordecolisoes.py:121-130 | `r_pos` yields a centre exactly when the ball fits the 800 x 480 window, and the centre keeps the whole ball inside it |
| `Placement.RandomPositionCovers` | simuladordecolisoes.py:127-128 | every integer centre that keeps the ball inside the window is the outcome of some pair of draws |
| `Placement.SmallBallsMayCoincide` | simuladordecolisoes.py:292-293 | the rejection test lets through two balls with the same centre whose radii add up to less than 10 |
| `Placement.Conflicts` | simuladordecolisoes.py:291-295 | the inner loop reports a conflict exactly when some earlier ball `j < i` satisfies `distance + 10 <= r_i + r_j`; so ball 0 is never rejected |
| `Placement.Attempt` | simuladordecolisoes.py:290-295 | one attempt changes only ball `i`'s centre and reports whether it conflicts |
| `Placement.Placing` | simuladordecolisoes.py:288-296 | the placement loop from ball `i` and draw `k` on: each attempt gives ball `i` the centre of the next pair of draws, a rejected ball is tried again and an accepted one lets the next ball be placed; only centres change |
| `Placement.PlacingGuarantees` | simuladordecolisoes.py:288-296 | a normal exit of the placement loop, as the function `Placing` defines it, leaves every pair `j < i` with `distance + 10 > r_i + r_j` and every centre in `[r, 800 - r] x [r, 480 - r]`, where `r` is that ball's radius; an empty `randint` range is reported only for a ball too large for the window |
| `Placement.PlaceBalls` | simuladordecolisoes.py:288-296 | the loop on the mutable balls ends with the outcome and the balls `Placing` gives: each attempt takes the next pair of draws, a rejected ball is tried again and an accepted one lets the next ball be placed; hence the guarantees above hold of the balls themselves |
| `Simulation.PassFrom` | simuladordecolisoes.py:305-307 | the nested pair loops from pair `(i, j)` on, each pair checked on the balls as the earlier pairs left them; a successful pass keeps every mass, radius and trail |
| `Simulation.Pass` | simuladordecolisoes.py:305-307 | the whole pair pass of one frame, from pair `(0, 1)`; a successful pass keeps every mass, radius and trail |
| `Simulation.PassConserves` | simuladordecolisoes.py:305-307 | a successful pair pass keeps the total momentum and the total kinetic energy of all balls |
| `Simulation.PassApart` | simuladordecolisoes.py:305-307 | when every pair is further apart than the sum of its radii, the pair pass changes nothing |
| `Simulation.Advanced` | simuladordecolisoes.py:309-312 | `move` then `manageWallCollision` applied to every ball, one result per ball: each centre advances by its velocity, masses and radii are kept; `AdvancedKeepsEnergy` and `AdvancedKeepsTrails` state what it keeps |
| `Simulation.AdvancedKeepsEnergy` | simuladordecolisoes.py:309-312 | moving and reflecting all balls keeps their total kinetic energy |
| `Simulation.AdvancedKeepsTrails` | simuladordecolisoes.py:309-312 | moving and reflecting all balls keeps every trail within 100 entries |
| `Simulation.FrameKeepsEnergy` | simuladordecolisoes.py:305-312 | a whole frame that does not raise keeps the total kinetic energy |
| `Simulation.CollisionPass` | simuladordecolisoes.py:305-307 | the nested loops on the mutable balls succeed exactly when `Pass` does, and then leave the balls as `Pass` says |
| `Simulation.CheckRow` | simuladordecolisoes.py:306-307 | the inner loop for ball `i` carries the pass from `(i, i + 1)` on to `(i + 1, i + 2)` on, or reports that it raised |
| `Simulation.CheckPair` | simuladordecolisoes.py:307 | one call of the pair check advances the pass by one pair, or reports that the pass raises |
| `Simulation.AdvanceAll` | simuladordecolisoes.py:309-312 | `move` then `manageWallCollision` for each ball in turn leaves the balls exactly as `Advanced` says. Every ball keeps its invariant: radius from mass, trail of at most 100 |
| `Simulation.Tick` | simuladordecolisoes.py:303-312 | one frame: success exactly when the pair pass succeeds, and then the balls are the pass's result moved and reflected in a `width x height` window |
| `Simulation.FreshAll` | simuladordecolisoes.py:286 | the snapshot of N new balls: ball `k` is the `Fresh` ball of the `k`-th triple of draws |
| `Simulation.CreateBalls` | simuladordecolisoes.py:286 | `[Bola(window) for _ in range(N)]`: distinct new balls whose states are exactly `FreshAll` |
| `Simulation.Setup` | simuladordecolisoes.py:286-296 | the start of a run: `N` new distinct balls as drawn, of which only the centres are then changed. A normal exit gives the placement guarantees of `PlaceBalls` |

## Left out

- Drawing, fonts, colours, `gerar_cor`, the frame clock, `display.update` and the trail lines: output only, with nothing to state.
- `menu_inicial` and the event polling of the screens and of the game loop. The model takes one key per `Press` and one frame per `Tick`. The unbounded game loop is the repetition of `Tick`.
- The window-close event and ESC in the game loop: they end the program and change no simulation state.
- The `vx`/`vy` fields: they are written but only displayed, and they go stale after a wall reflection.
- Floating point: positions and velocities are exact reals, so rounding in `hypot`, in the division and in `project` is not modelled.
- Vectors.Project: pygame rejects a projection target whose squared length is below a small tolerance; the model rejects only an exact zero.
- Live window resizing: the frame takes the window's current width and height as parameters. Placement uses the fixed 800 x 480 size, as `r_pos` does.
- Placement.PlaceBalls: the source's loop may re-roll forever when the balls cannot be spread. The model's loop takes its draws from a finite sequence and reports `OutOfDraws` when they run out.
- Collisions.Collide: after a raise, the model states only that neither centre moved. The velocities written before `separa_bolas` raised are left unspecified, since the program ends there.
- Each ball's colour and screen reference: they do not affect the simulation.
