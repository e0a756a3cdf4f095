# Boids flocking core in Dafny

A model of the flocking core of a boids simulation. Each boid is a kinematic
body (a `Vehicle`). It perceives the flockmates within its visual range and
combines three steering behaviours into one steering direction:

- separation, from the flockmates inside its avoid range;
- alignment, towards the mean heading of its neighbours;
- cohesion, towards the centre of its neighbours.

The body then integrates one time step under that steering, capped at
`max_force`, and its position wraps around the arena. A simulation tick runs
two passes over the whole flock, in registration order: first every member
steers, then every member moves.

The project has four modules:

- `Vectors` (`vectors.dfy`): plane vectors with cartesian coordinates and
  the polar view the code uses (`rho`, `phi`). The magnitude is an abstract
  norm and the angle an abstract unit direction. Each is given only by its
  laws, so everything proved holds for the Euclidean norm and the `atan2`
  angle in particular.
- `Vehicles` (`vehicle.dfy`): the kinematic body, `truncate`, `clamp`,
  `normalise` and the integrator `move`.
- `Boids` (`boid.dfy`): the boid, perception, the three behaviours, their
  weighted combination, `calculate_steering`, and `update_position` with its
  toroidal wrap. Flockmates are identified by their index in the flock. A
  steering boid reads only the others' positions and velocities, given as a
  `Snapshot` of the flock.
- `Flocks` (`flock.dfy`): registration, the two passes
  `calculate_steering_all` and `update_position_all`, and the tick. Each
  pass is defined for any per-member step that has the properties the pass
  relies on. The step is given as a table (`imap`) from inputs to results,
  and is then taken to be the boid's own steering or position update.

The central result is `Flocks.SteeringOrderIrrelevant`. The in-order
steering pass lets a member see the flock as earlier visits left it. Steering
moves no one, so the pass equals steering every member against the flock as
it was before the pass. `Flocks.TickAt` then states the two-phase character
of a tick. Member j ends the tick moved with the steering it computed
against the flock before the tick.

## Model

| member | source | states |
|---|---|---|
| Vectors.Polar | vehicle.py:18 | `vector.obj(rho, phi)` has magnitude rho, keeps the angle phi when rho > 0, and is the zero vector when rho = 0 |
| Vectors.Div | vehicle.py:31 | `v / k` divides the magnitude by abs(k) and keeps the angle when k > 0 |
| Vectors.WithRho | boid.py:52 | assigning `rho` sets the magnitude and keeps the angle unless the new magnitude is 0 |
| Vectors.Distance | boid.py:39 | `abs(to - from)` is non-negative and is 0 exactly when the two points coincide |
| Vectors.PolarOfParts | vehicle.py:18 | rebuilding a vector from its own magnitude and angle gives the vector back |
| Vectors.Add | vehicle.py:33 | `a + b` is at most as long as the two lengths together (the triangle inequality) |
| Vectors.Sub | boid.py:34 | `a - b` is at most as long as the two lengths together |
| Vectors.AddThenSub | boid.py:34 | subtracting b undoes adding b, so `-` is the inverse of `+` |
| Vectors.Scale | vehicle.py:34 | `v * k` multiplies the length by abs(k) and keeps the angle when k > 0 |
| Vectors.ScaleThenDiv | vehicle.py:31 | dividing by a non-zero k undoes scaling by k |
| Vehicles.NewVehicle | vehicle.py:4-14 | the constructor stores its arguments, sets the minimum speed to 1, and starts steering and acceleration at zero |
| Vehicles.Truncate | vehicle.py:17-18 | the result's magnitude is at most the cap and at most the input's; an input within the cap is returned unchanged; a longer one is cut to exactly the cap; the angle is kept when the cap is positive |
| Vehicles.TruncateIdempotent | vehicle.py:17-18 | truncating twice with the same cap is truncating once |
| Vehicles.Clamp | vehicle.py:20-21 | the magnitude lands in [min, max]; an input already inside is unchanged; too short goes to min and too long to max; an empty interval gives min, because the maximum is taken last; the angle is kept unless both bounds are 0 |
| Vehicles.ClampIdempotent | vehicle.py:20-21 | clamping twice into the same interval is clamping once |
| Vehicles.TruncateIsClampFromZero | vehicle.py:17-21 | truncation equals clamping with lower bound 0 |
| Vehicles.Normalise | vehicle.py:23-27 | the result has magnitude 1 and the input's angle; the zero vector gives the unit vector at angle 0 |
| Vehicles.NormaliseThenRescale | vehicle.py:24-27 | a non-zero vector is its normalised form scaled by its magnitude |
| Vehicles.NormaliseIdempotent | vehicle.py:24-27 | normalising a unit vector returns it unchanged |
| Vehicles.Move | vehicle.py:29-36 | the acceleration has length min(steering length, max_force) / mass and points along the steering; with s = old velocity + acceleration, the new velocity is 0.99 * s when 1 <= abs(s) <= max_speed, has length 0.99 * max_speed when s is longer, and length 0.99 when s is shorter than 1; so the new speed lies in [0.99, 0.99 * max_speed], or is 0.99 when max_speed < 1; the velocity keeps the angle of s; the position advances by velocity * dt; the orientation is the new velocity's angle; no other field changes |
| Vehicles.MoveAdvancesPosition | vehicle.py:35 | each coordinate of the new position is the old one plus dt times the new velocity's |
| Vehicles.MoveOrientationIsNormalisedVelocity | vehicle.py:36 | the new orientation is the angle of the normalised new velocity |
| Vehicles.MoveIgnoresMinSpeed | vehicle.py:33 | the result does not depend on the min_speed field: the clamp uses the literal 1 |
| Vehicles.MoveCanUndershootMinSpeed | vehicle.py:33-34 | damping after the clamp can leave the speed below min_speed: a vehicle at speed 1 with no steering ends at 0.99 |
| Vehicles.MoveWithoutSteering | vehicle.py:29-35 | with zero steering and a speed in [1, max_speed], a step only damps the velocity by 0.99 and advances the position by the damped velocity * dt |
| Boids.Square | boid.py:20 | the mass size * size is positive exactly when the size is not 0 |
| Boids.NewBoid | boid.py:17-31 | the new boid is well-formed exactly when its size is non-zero and the window has positive width and height; its arena is [0, width] x [0, height]; it keeps the given position and velocity; max_force is 100, max_speed 200 and min_speed 1; the separation, alignment and cohesion weights are 10, 10 and 7; the visual range is 20 * size and the avoid range 5 * size, so 0 < avoid range < visual range for a positive size; it keeps the given size, its mass is size * size, and it starts with no neighbours, no steering and zero acceleration |
| Boids.AddToFlock | boid.py:140-142 | registration appends the boid at the end and keeps every earlier member in its place |
| Boids.SteeringForce | boid.py:33-34 | the steering force plus the unit heading gives the desired velocity, coordinate by coordinate; its magnitude is at most one more than the desired velocity's |
| Boids.SteeringForceReachesDesired | boid.py:33-34 | adding the unit heading back to the steering force gives the desired velocity |
| Boids.SeenAmong | boid.py:37-41 | the scan over the first k members collects exactly those that are other members strictly within the visual range |
| Boids.FindInVisualRange | boid.py:36-41 | the neighbourhood is exactly the other members strictly within the visual range, and never the boid itself |
| Boids.FindInVisualRangeReads | boid.py:36-41 | the search reads of the boid only its position and visual range |
| Boids.SumOver | boid.py:44-53 | the accumulation `force += v` over the neighbours, from the zero vector; a sum of k vectors of length at most 1 has length at most k |
| Boids.SumOverNone | boid.py:44-53 | a sum that adds no neighbour stays at the zero vector it starts from |
| Boids.SumOverSingleton | boid.py:75-76 | summing over a single neighbour gives that neighbour's vector |
| Boids.SumOverPair | boid.py:75-76 | summing over two neighbours gives the sum of their two vectors |
| Boids.SumOverInsert | boid.py:48-53 | adding one more neighbour to the accumulation adds its vector, wherever it falls in the order |
| Boids.SumOverIsSetSum | boid.py:75-76 | the sum in index order equals the sum taken in any order, as iterating over a Python set does |
| Boids.SumOverSameMembers | boid.py:93-94 | the sum depends only on the vectors of the neighbours it adds |
| Boids.Steer | boid.py:64-65 | the last step of every behaviour truncates the steering force to max_force: a force within max_force is returned unchanged, a longer one is cut to exactly max_force, and for max_force > 0 the angle is kept |
| Boids.AwayFrom | boid.py:51-52 | each push has magnitude 1 and points from the flockmate towards the boid; `rho *= 1/rho` leaves it a unit vector |
| Boids.AvoidSetOfPrepared | boid.py:36-50 | on the boid with its neighbourhood found afresh, separation counts exactly the other members strictly within both the visual range and the avoid range |
| Boids.Separation | boid.py:43-69 | the force is at most max_force, and zero when no neighbour is inside the avoid range, including when there is no neighbour at all |
| Boids.AvoidPush | boid.py:47-69 | the mean push, rescaled to the current speed and steered towards, is at most max_force, and is zero when nothing is counted |
| Boids.AvoidPushAlongMean | boid.py:58-69 | for a non-empty set of counted neighbours, the push steers along the mean unit push at the current speed, and is the zero vector when that mean has magnitude 0 |
| Boids.AvoidPushOfTwo | boid.py:47-69 | for two counted neighbours, the push steers along the sum of their two unit pushes at the current speed, and is the zero vector when the two pushes cancel |
| Boids.SeparationOnlyAvoidRange | boid.py:48-57 | neighbours outside the avoid range do not affect separation: computing it from the avoid-range part of the neighbourhood gives the same force |
| Boids.SeparationFromOne | boid.py:43-69 | with one neighbour, inside the avoid range, separation steers straight away from it at the current speed |
| Boids.SeparationFromTwo | boid.py:43-69 | with two neighbours, both inside the avoid range, separation steers along the sum of the two unit pushes away from them at the current speed, or is the zero vector when those pushes cancel |
| Boids.SeparationAlongMean | boid.py:43-69 | with any number of neighbours inside the avoid range, separation steers along the mean of their unit pushes at the current speed, or is the zero vector when that mean has magnitude 0 |
| Boids.Alignment | boid.py:71-87 | the force is at most max_force and zero with no neighbour |
| Boids.AlignmentFromOne | boid.py:71-87 | with one neighbour, alignment steers towards that neighbour's heading at the current speed |
| Boids.AlignmentFromTwo | boid.py:71-87 | with two neighbours, alignment steers along the sum of their velocities (the direction of their mean) at the current speed |
| Boids.AlignmentAlongMean | boid.py:71-87 | for any non-empty neighbourhood, alignment steers along the mean of the neighbours' velocities at the current speed |
| Boids.Cohesion | boid.py:89-108 | the force is at most max_force and zero with no neighbour |
| Boids.CohesionFromOne | boid.py:89-108 | with one neighbour, cohesion steers straight towards it at max_speed |
| Boids.CohesionFromTwo | boid.py:89-108 | with two neighbours, cohesion steers straight towards the midpoint of their positions at max_speed |
| Boids.CohesionTowardsMean | boid.py:89-108 | for any non-empty neighbourhood, cohesion steers towards the mean of the neighbours' positions at max_speed |
| Boids.Combine | boid.py:112-115 | the weighted sum's magnitude is at most the weighted sum of the behaviours' magnitudes, with the factors' absolute values as weights, so behaviours within max_force give at most the total weight times max_force |
| Boids.CombineBounded | boid.py:112-115 | behaviours within max_force combine to at most `SteeringCap`, the total weight times max_force |
| Boids.CombineIsAccumulation | boid.py:112-115 | the combination is what the source's accumulation computes: start at zero, then add separation, alignment and cohesion, each times its factor |
| Boids.CombineZero | boid.py:112-115 | three zero behaviours combine to the zero vector |
| Boids.Prepared | boid.py:111-112 | before the behaviours run, the neighbourhood is found afresh and the steering is reset to zero; nothing else changes |
| Boids.SteerBoid | boid.py:110-115 | only the neighbourhood and the steering direction change; the neighbourhood is exactly the other members within the visual range; the steering is the weighted combination of the behaviours on the prepared boid, and is zero when there are no neighbours |
| Boids.CalculateSteering | boid.py:110-115 | for member i of a flock: the neighbourhood is exactly the other members within its visual range, no field except the neighbourhood and the steering changes, and a boid with no neighbours gets zero steering |
| Boids.SteerBoidBounded | boid.py:110-115 | the steering direction is at most the total weight times max_force |
| Boids.CalculateSteeringBounded | boid.py:110-115 | member i's steering direction is at most its total weight times its max_force |
| Boids.SteerBoidKeepsKinematics | boid.py:110-115 | steering leaves the position, the velocity and max_force unchanged |
| Boids.CalculateSteeringKeepsKinematics | boid.py:110-115 | steering member i leaves its position, velocity and max_force unchanged |
| Boids.CalculateSteeringLocal | boid.py:110-115 | member i's steering depends only on member i and the positions and velocities of the flock |
| Boids.SteeringDoesNotAccumulate | boid.py:111-112 | the previous steering direction and neighbourhood play no part in the result |
| Boids.SnapshotUpdate | boid.py:38-39 | replacing a member by one with the same position and velocity changes nothing the other members read |
| Boids.WrapPosition | boid.py:119-126 | with a non-degenerate arena, the result is inside it; an in-bounds point stays put; past the far edge (strictly) goes to the near edge, and before the near edge goes to the far edge, each axis on its own |
| Boids.WrapIdempotent | boid.py:119-126 | wrapping a wrapped position changes nothing |
| Boids.UpdatePosition | boid.py:117-126 | the boid moves as `move` says, and its position is then the wrap of the moved position: it ends inside its arena, keeps every other field, is exactly the moved body when that is already in bounds, and stays well-formed |
| Flocks.Visit | boid.py:147-148 | one visit steers member i against the flock as it is now, leaves the other members and the flock's positions and velocities unchanged, and keeps every member steerable |
| Flocks.SteerFirst | boid.py:144-148 | after the first k visits in index order, each visited member is steered against the flock as it was before the pass, the rest are untouched, and the positions and velocities are unchanged |
| Flocks.SteeringOrderIrrelevant | boid.py:144-148 | the in-order pass equals `SteerTogether`, the simultaneous steering of every member against the flock before the pass |
| Flocks.MemberSteeringAt | boid.py:148 | the steering table holds the boid's own steering for every steerable boid |
| Flocks.MemberSteeringIsSteeringStep | boid.py:110-115 | the boid's own steering has what the pass relies on: it moves no one and keeps the force cap |
| Flocks.CalculateSteeringAll | boid.py:144-148 | the pass keeps the number of members and every position and velocity |
| Flocks.CalculateSteeringAllAt | boid.py:144-148 | after the pass, member j is `calculate_steering` of member j against the flock before the pass |
| Flocks.CalculateSteeringAllBounded | boid.py:144-148 | after the pass, every member's steering direction is at most its total weight times its max_force |
| Flocks.CalculateSteeringAllWellFormed | boid.py:144-148 | the steering pass keeps every member well-formed |
| Flocks.UpdateFirst | boid.py:150-153 | after the first k members are updated, the flock is still well-formed and each updated member is inside its arena |
| Flocks.UpdateFirstAt | boid.py:150-153 | after the first k updates, each updated member is its own update and the rest are untouched |
| Flocks.MemberMoveAt | boid.py:153 | the move table holds the boid's own `update_position` for every well-formed boid |
| Flocks.MemberMoveIsMoveStep | boid.py:117-126 | the boid's own position update has what the pass relies on: it keeps a boid well-formed and puts it inside its arena |
| Flocks.UpdatePositionAll | boid.py:150-153 | the pass keeps the flock well-formed and puts every member inside its arena |
| Flocks.UpdatePositionAllAt | boid.py:150-153 | each member's update reads only that member |
| Flocks.Tick | environment.py:38-39 | a tick (steer all, then move all) keeps the flock well-formed and ends with every member inside its arena |
| Flocks.TickAt | environment.py:38-39 | in a tick, member j is moved with the steering it computed against the flock before the tick |
| Flocks.AddToFlockWellFormed | boid.py:140-142 | registering a boid keeps a well-formed flock well-formed exactly when the boid is well-formed |

## Behaviour of note

- The speed after `move` can fall below `min_speed`, because the damping comes after the clamp. The speed lies in [0.99, 0.99 * max_speed] (vehicle.py:33-34; `Vehicles.MoveCanUndershootMinSpeed`).
- The clamp's lower bound is the literal 1, not the `min_speed` field. The two agree, because the constructor sets `min_speed` to 1 (vehicle.py:9, 33; `Vehicles.MoveIgnoresMinSpeed`).
- The wrap tests are strict: a position exactly at `x1` stays at `x1` (boid.py:119-126; `Boids.WrapPosition`).
- A wrap can move a boid by the whole width of the arena in one tick. So the displacement in a tick is bounded by `max_speed * dt` only when no wrap happens.

## Left out

- Vectors: the magnitude and the angle are abstract functions obeying the norm and `atan2` laws, not the vector library's square root and arc tangent. Floating-point rounding is not modelled: arithmetic is on exact reals.
- Vectors.Polar: a vector is stored by its cartesian coordinates, so a vector of magnitude 0 is the zero vector, whose angle is 0. The vector library keeps the phi it was given even with rho 0, and `normalise` would then return the unit vector at that phi (vehicle.py:25-26). No call the core makes pairs magnitude 0 with an angle other than 0 (truncating a zero steering keeps its angle 0 in both): the force cap is 100, the clamp floor is 1, and the speed that separation rescales to is at least 0.99 after a move and between 1 and 5 at construction.
- Vehicles.Truncate: the angle is kept only when the cap is positive, because of the representation described under Vectors.Polar.
- Vehicles.Clamp: the angle is kept only when a bound is positive, for the same reason.
- Vectors.WithRho: the angle is lost when the new magnitude is 0, for the same reason.
- Vehicles.Move: it requires a positive mass. A boid of size 0 has mass 0, and the source then raises ZeroDivisionError at vehicle.py:31 (mass = size * size, boid.py:20); the model does not model that error, and `Boids.WellFormed` excludes such boids. The negative caps that `Vehicles.Truncate` and `Vehicles.Clamp` exclude are likewise not modelled; with max_force 100 and the clamp floor 1 no call makes them.
- Boids.NewBoid: the source passes the velocity vector itself as the orientation (boid.py:20). The core never reads the orientation; the model stores the initial velocity's angle.
- Boids.NewBoid: the initial velocity, random in the source (boid.py:18-19), is a parameter. The constructor's own registration call (boid.py:23) is the separate `Boids.AddToFlock`.
- Boids.CalculateSteering: the bound on the steering direction is stated in `Boids.CalculateSteeringBounded`, not in its contract.
- Flocks.MemberSteering: a boid with a negative force cap cannot be steered and is left unchanged by the table. The pass requires every member to be steerable, so it never uses that entry.
- The flock is an explicit sequence, not the class-level `members` list, and the passes and the tick are functions of it. Boids are told apart by index, not by object identity (boid.py:38).
- The source sums over the neighbourhood in the iteration order of a Python set. The model sums in index order; `Boids.SumOverIsSetSum` shows that this gives the same sum as any order, on exact reals.
- Drawing (`draw`, `draw_all`, the `surface` arguments and the lines they draw), the colour, and `max_turn_speed`, which nothing reads, are not modelled. The `dt` argument of `calculate_steering`, which it never uses, is also left out.
- The event loop, clock and frame rate of environment.py are not modelled; `dt` is a parameter. compute_shader_boids.py and python_boids.py are not part of this model.
- The model is ghost: every definition is a specification over reals and abstract norms, and none is compiled.
