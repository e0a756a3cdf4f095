/**
 * A boid: a vehicle plus perception and steering configuration. Perception
 * finds the flockmates within the visual range; separation, alignment and
 * cohesion each turn that neighbourhood into a bounded force; the weighted
 * sum becomes the steering direction; updating the position integrates the
 * vehicle and wraps it around the arena.
 *
 * Flockmates are identified by their index in the flock. During the steering
 * pass a boid reads of the others only their positions and velocities, here
 * passed as a `Snapshot`.
 */
module Boids {
  import opened Vectors
  import opened Vehicles

  /** The arena [x0, x1] x [y0, y1]. */
  datatype Bounds = Bounds(x0: real, x1: real, y0: real, y1: real)

  datatype Boid = Boid(
    body: Vehicle,
    size: real,
    bounds: Bounds,
    visualRange: real,
    avoidRange: real,
    cohesionFactor: real,
    separationFactor: real,
    alignmentFactor: real,
    inVisualRange: set<nat>)

  /** What one boid reads of another while steering. */
  datatype Kinematics = Kinematics(position: Vector, velocity: Vector)

  /** What a member shows the others while they steer: its position and velocity. */
  ghost function KinematicsOf(b: Boid): Kinematics {
    Kinematics(b.body.position, b.body.velocity)
  }

  /** The kinematics of the whole flock, member by member. */
  ghost function Snapshot(flock: seq<Boid>): seq<Kinematics> {
    seq(|flock|, j requires 0 <= j < |flock| => KinematicsOf(flock[j]))
  }

  /** Replacing a member by one with the same position and velocity keeps the snapshot. */
  lemma SnapshotUpdate(flock: seq<Boid>, i: nat, b: Boid)
    requires i < |flock| && KinematicsOf(b) == KinematicsOf(flock[i])
    ensures Snapshot(flock[i := b]) == Snapshot(flock)
  {
    var r := flock[i := b];
    assert forall j :: 0 <= j < |flock| ==> Snapshot(r)[j] == Snapshot(flock)[j];
  }

  /**
   * What the passes require of a boid: positive mass, a usable force cap,
   * a real arena, and a maximum speed of at least 1.
   */
  ghost predicate WellFormed(b: Boid) {
    && b.body.mass > 0.0
    && b.body.maxForce >= 0.0
    && b.body.maxSpeed >= 1.0
    && b.bounds.x0 < b.bounds.x1
    && b.bounds.y0 < b.bounds.y1
  }

  const MaxForce: real := 100.0
  const MaxSpeed: real := 200.0
  const CohesionFactor: real := 7.0
  const SeparationFactor: real := 10.0
  const AlignmentFactor: real := 10.0

  /** The sign of a product. */
  ghost function Product(a: real, b: real): (r: real)
    ensures (a > 0.0 && b > 0.0) || (a < 0.0 && b < 0.0) ==> r > 0.0
    ensures a == 0.0 || b == 0.0 ==> r == 0.0
  {
    if a < 0.0 && b < 0.0 then
      assert (-a) * (-b) > 0.0;
      a * b
    else
      a * b
  }

  /** `size * size`, the mass of a boid: positive exactly when the size is not zero. */
  ghost function Square(s: real): (r: real)
    ensures r > 0.0 <==> s != 0.0
  {
    Product(s, s)
  }

  /**
   * The constructor for a window of the given size. The initial velocity,
   * random in the source, is a parameter; the initial orientation is its angle.
   */
  ghost function NewBoid(width: real, height: real, position: Vector, size: real, velocity: Vector): (b: Boid)
    ensures WellFormed(b) <==> size != 0.0 && width > 0.0 && height > 0.0
    ensures b.bounds == Bounds(0.0, width, 0.0, height)
    ensures b.body.position == position && b.body.velocity == velocity
    ensures b.body.maxForce == MaxForce && b.body.maxSpeed == MaxSpeed && b.body.minSpeed == 1.0
    ensures b.separationFactor == 10.0 && b.alignmentFactor == 10.0 && b.cohesionFactor == 7.0
    ensures b.visualRange == 20.0 * size && b.avoidRange == 5.0 * size
    ensures size > 0.0 ==> 0.0 < b.avoidRange < b.visualRange
    ensures b.size == size && b.body.mass == Square(size)
    ensures b.inVisualRange == {} && b.body.steeringDirection == Zero && b.body.acceleration == Zero
  {
    Boid(NewVehicle(Square(size), position, velocity, MaxForce, MaxSpeed, velocity.Phi()),
         size, Bounds(0.0, width, 0.0, height), 20.0 * size, 5.0 * size,
         CohesionFactor, SeparationFactor, AlignmentFactor, {})
  }

  /** Registration appends to the flock; earlier members keep their places. */
  ghost function AddToFlock(flock: seq<Boid>, b: Boid): (r: seq<Boid>)
    ensures |r| == |flock| + 1 && r[|flock|] == b
    ensures forall j :: 0 <= j < |flock| ==> r[j] == flock[j]
  {
    flock + [b]
  }

  /**
   * The force that turns the current heading towards `desired`: what must be
   * added to the unit heading to reach `desired`; at most one longer than it.
   */
  ghost function SteeringForce(self: Boid, desired: Vector): (r: Vector)
    ensures r.x + Normalise(self.body.velocity).x == desired.x
    ensures r.y + Normalise(self.body.velocity).y == desired.y
    ensures r.Rho() <= desired.Rho() + 1.0
  {
    Sub(desired, Normalise(self.body.velocity))
  }

  /** Adding the unit heading back to the steering force gives the desired velocity. */
  lemma SteeringForceReachesDesired(self: Boid, desired: Vector)
    ensures Add(SteeringForce(self, desired), Normalise(self.body.velocity)) == desired
  {
  }

  // ---------------------------------------------------------------------------
  // Perception

  /** Flockmate j is seen by `self` (at index i): another member strictly within the visual range. */
  ghost predicate Sees(self: Boid, i: nat, snap: seq<Kinematics>, j: nat)
    requires j < |snap|
  {
    j != i && Distance(self.body.position, snap[j].position) < self.visualRange
  }

  /** The members among the first k that `self` sees, scanned in index order. */
  ghost function SeenAmong(self: Boid, i: nat, snap: seq<Kinematics>, k: nat): (r: set<nat>)
    requires k <= |snap|
    ensures forall j: nat :: j in r <==> j < k && Sees(self, i, snap, j)
  {
    if k == 0 then {}
    else
      var seen := SeenAmong(self, i, snap, k - 1);
      if Sees(self, i, snap, k - 1) then seen + {k - 1} else seen
  }

  /** Every other member strictly within the visual range, never `self`. */
  ghost function FindInVisualRange(self: Boid, i: nat, snap: seq<Kinematics>): (r: set<nat>)
    ensures forall j: nat :: j in r <==> j < |snap| && Sees(self, i, snap, j)
    ensures i !in r
  {
    SeenAmong(self, i, snap, |snap|)
  }

  // ---------------------------------------------------------------------------
  // Sums over the neighbourhood

  ghost function Positions(snap: seq<Kinematics>): seq<Vector> {
    seq(|snap|, j requires 0 <= j < |snap| => snap[j].position)
  }

  ghost function Velocities(snap: seq<Kinematics>): seq<Vector> {
    seq(|snap|, j requires 0 <= j < |snap| => snap[j].velocity)
  }

  /**
   * `force += v` for every neighbour among the first k, starting from the
   * zero vector. A sum of unit vectors is at most as long as their number.
   */
  ghost function SumOver(s: set<nat>, vs: seq<Vector>, k: nat): (r: Vector)
    requires k <= |vs|
    ensures (forall j :: 0 <= j < k && j in s ==> vs[j].Rho() <= 1.0) ==> r.Rho() <= k as real
  {
    if k == 0 then Zero
    else
      var acc := SumOver(s, vs, k - 1);
      if k - 1 in s then Add(acc, vs[k - 1]) else acc
  }

  /** With no neighbour below k nothing is added. */
  lemma {:induction false} SumOverNone(s: set<nat>, vs: seq<Vector>, k: nat)
    requires k <= |vs|
    requires forall j :: j in s ==> j >= k
    ensures SumOver(s, vs, k) == Zero
  {
    if k > 0 {
      SumOverNone(s, vs, k - 1);
    }
  }

  /** The sum over a single neighbour j is that neighbour's vector. */
  lemma {:induction false} SumOverSingleton(j: nat, vs: seq<Vector>, k: nat)
    requires j < k <= |vs|
    ensures SumOver({j}, vs, k) == vs[j]
  {
    if k - 1 == j {
      SumOverNone({j}, vs, j);
    } else {
      SumOverSingleton(j, vs, k - 1);
    }
  }

  /** The sum depends on the vectors of the members only. */
  lemma {:induction false} SumOverSameMembers(s: set<nat>, vs: seq<Vector>, ws: seq<Vector>, k: nat)
    requires k <= |vs| && k <= |ws|
    requires forall j :: 0 <= j < k && j in s ==> vs[j] == ws[j]
    ensures SumOver(s, vs, k) == SumOver(s, ws, k)
  {
    if k > 0 {
      SumOverSameMembers(s, vs, ws, k - 1);
    }
  }

  /** The sum depends on membership below k only. */
  lemma {:induction false} SumOverSameBelow(s: set<nat>, t: set<nat>, vs: seq<Vector>, k: nat)
    requires k <= |vs|
    requires forall j :: 0 <= j < k ==> (j in s <==> j in t)
    ensures SumOver(s, vs, k) == SumOver(t, vs, k)
  {
    if k > 0 {
      SumOverSameBelow(s, t, vs, k - 1);
    }
  }

  /** The sum over two neighbours j and l is the sum of their two vectors. */
  lemma {:induction false} SumOverPair(j: nat, l: nat, vs: seq<Vector>, k: nat)
    requires j < l < k <= |vs|
    ensures SumOver({j, l}, vs, k) == Add(vs[j], vs[l])
  {
    if k - 1 == l {
      SumOverSameBelow({j, l}, {j}, vs, l);
      SumOverSingleton(j, vs, l);
    } else {
      SumOverPair(j, l, vs, k - 1);
    }
  }

  /** Adding one more member m below k adds its vector, wherever m falls in the index order. */
  lemma {:induction false} SumOverInsert(s: set<nat>, m: nat, vs: seq<Vector>, k: nat)
    requires m < k <= |vs| && m !in s
    ensures SumOver(s + {m}, vs, k) == Add(SumOver(s, vs, k), vs[m])
  {
    if k - 1 == m {
      SumOverSameBelow(s + {m}, s, vs, m);
    } else {
      SumOverInsert(s, m, vs, k - 1);
    }
  }

  /**
   * The sum of the members' vectors, taking the members in no particular
   * order, as iterating over a Python set does.
   */
  ghost function SetSum(s: set<nat>, vs: seq<Vector>): Vector
    requires forall j :: j in s ==> j < |vs|
    decreases s
  {
    if s == {} then Zero
    else
      var m :| m in s;
      Add(SetSum(s - {m}, vs), vs[m])
  }

  /** Summing in index order gives the sum in any order. */
  lemma {:induction false} SumOverIsSetSum(s: set<nat>, vs: seq<Vector>)
    requires forall j :: j in s ==> j < |vs|
    ensures SumOver(s, vs, |vs|) == SetSum(s, vs)
    decreases s
  {
    if s == {} {
      SumOverNone(s, vs, |vs|);
    } else {
      var m :| m in s && SetSum(s, vs) == Add(SetSum(s - {m}, vs), vs[m]);
      SumOverIsSetSum(s - {m}, vs);
      SumOverInsert(s - {m}, m, vs, |vs|);
      assert s - {m} + {m} == s;
    }
  }

  /** The common last step: the force towards `desired`, capped at maxForce. */
  ghost function Steer(self: Boid, desired: Vector): (r: Vector)
    requires self.body.maxForce >= 0.0
    ensures r.Rho() <= self.body.maxForce
    ensures SteeringForce(self, desired).Rho() <= self.body.maxForce ==> r == SteeringForce(self, desired)
    ensures SteeringForce(self, desired).Rho() > self.body.maxForce ==> r.Rho() == self.body.maxForce
    ensures self.body.maxForce > 0.0 ==> r.Phi() == SteeringForce(self, desired).Phi()
  {
    Truncate(SteeringForce(self, desired), self.body.maxForce)
  }

  // ---------------------------------------------------------------------------
  // Separation

  /** Flockmate `other` is strictly inside the avoid range of `self`. */
  ghost predicate TooClose(self: Boid, other: Kinematics) {
    Distance(self.body.position, other.position) < self.avoidRange
  }

  /** The unit push from `other` towards `position`: normalised, then rho *= 1/rho. */
  ghost function AwayFrom(position: Vector, other: Kinematics): (r: Vector)
    ensures r.Rho() == 1.0
    ensures r.Phi() == Sub(position, other.position).Phi()
  {
    var localForce := Normalise(Sub(position, other.position));
    WithRho(localForce, localForce.Rho() * (1.0 / localForce.Rho()))
  }

  ghost function Pushes(position: Vector, snap: seq<Kinematics>): seq<Vector> {
    seq(|snap|, j requires 0 <= j < |snap| => AwayFrom(position, snap[j]))
  }

  /** The neighbours that separation counts: those strictly inside the avoid range. */
  ghost function AvoidSet(self: Boid, snap: seq<Kinematics>): (s: set<nat>)
    ensures s <= self.inVisualRange
  {
    set j | j in self.inVisualRange && j < |snap| && TooClose(self, snap[j])
  }

  /**
   * On the boid as the behaviours see it, the members separation counts are
   * exactly the other members strictly within both the visual and the avoid range.
   */
  lemma AvoidSetOfPrepared(b: Boid, i: nat, snap: seq<Kinematics>, j: nat)
    ensures j in AvoidSet(Prepared(b, i, snap), snap)
            <==> j < |snap| && j != i
                 && Distance(b.body.position, snap[j].position) < b.visualRange
                 && Distance(b.body.position, snap[j].position) < b.avoidRange
  {
  }

  /**
   * Steer away from the flockmates inside the avoid range: the mean of the
   * unit pushes, at the current speed, as a steering force capped at
   * maxForce. With no neighbour at all, or none inside the avoid range, the
   * result is the zero vector; a mean push of magnitude 0 is returned as it is.
   */
  ghost function Separation(self: Boid, snap: seq<Kinematics>): (r: Vector)
    requires self.body.maxForce >= 0.0
    ensures r.Rho() <= self.body.maxForce
    ensures AvoidSet(self, snap) == {} ==> r == Zero
  {
    if |self.inVisualRange| == 0 then Zero else AvoidPush(self, AvoidSet(self, snap), snap)
  }

  /**
   * The separation force from the neighbours in `avoid`: the mean of their
   * unit pushes, rescaled to the current speed and steered towards; zero
   * when `avoid` is empty, and the mean itself when it has magnitude 0.
   */
  ghost function AvoidPush(self: Boid, avoid: set<nat>, snap: seq<Kinematics>): (r: Vector)
    requires self.body.maxForce >= 0.0
    ensures r.Rho() <= self.body.maxForce
    ensures avoid == {} ==> r == Zero
  {
    var pushes := Pushes(self.body.position, snap);
    var force := SumOver(avoid, pushes, |snap|);
    if |avoid| == 0 then
      SumOverNone(avoid, pushes, |snap|);
      force
    else
      var mean := Div(force, |avoid| as real);
      if mean.Rho() > 0.0 then
        var unit := Normalise(mean);
        Steer(self, WithRho(unit, unit.Rho() * self.body.velocity.Rho()))
      else
        mean
  }

  /** The push reads of the boid only its body. */
  lemma AvoidPushReadsBody(self: Boid, other: Boid, avoid: set<nat>, snap: seq<Kinematics>)
    requires self.body.maxForce >= 0.0 && other.body == self.body
    ensures AvoidPush(other, avoid, snap) == AvoidPush(self, avoid, snap)
  {
  }

  /**
   * Separation counts only neighbours strictly inside the avoid range: computed
   * from the whole visual-range set or from its avoid-range part, it is the same.
   */
  lemma SeparationOnlyAvoidRange(self: Boid, snap: seq<Kinematics>)
    requires self.body.maxForce >= 0.0
    ensures Separation(self, snap)
            == Separation(self.(inVisualRange := AvoidSet(self, snap)), snap)
  {
    var avoid := AvoidSet(self, snap);
    var self' := self.(inVisualRange := avoid);
    assert AvoidSet(self', snap) == avoid;
    if avoid != {} {
      assert |self.inVisualRange| != 0 && |self'.inVisualRange| != 0;
      AvoidPushReadsBody(self, self', avoid, snap);
    }
  }

  /** One neighbour inside the avoid range: steer straight away from it at the current speed. */
  lemma SeparationFromOne(self: Boid, snap: seq<Kinematics>, j: nat)
    requires self.body.maxForce >= 0.0
    requires j < |snap| && self.inVisualRange == {j} && TooClose(self, snap[j])
    ensures Separation(self, snap)
            == Steer(self, WithRho(Sub(self.body.position, snap[j].position), self.body.velocity.Rho()))
  {
    var avoid := AvoidSet(self, snap);
    assert avoid == {j};
    var pushes := Pushes(self.body.position, snap);
    var away := pushes[j];
    assert away == AwayFrom(self.body.position, snap[j]);
    SumOverSingleton(j, pushes, |snap|);
    var mean := Div(SumOver(avoid, pushes, |snap|), |avoid| as real);
    assert mean == away;
    var unit := Normalise(mean);
    var speed := self.body.velocity.Rho();
    assert unit.Rho() * speed == speed;
    assert unit.Phi() == Sub(self.body.position, snap[j].position).Phi();
  }

  /**
   * For a non-empty `avoid`, the push steers along the mean unit push at the
   * current speed, and is zero when the mean has magnitude 0.
   */
  lemma AvoidPushAlongMean(self: Boid, avoid: set<nat>, snap: seq<Kinematics>)
    requires self.body.maxForce >= 0.0 && avoid != {}
    ensures var mean := Div(SumOver(avoid, Pushes(self.body.position, snap), |snap|), |avoid| as real);
            AvoidPush(self, avoid, snap)
            == if mean.Rho() > 0.0 then Steer(self, WithRho(mean, self.body.velocity.Rho())) else Zero
  {
    var mean := Div(SumOver(avoid, Pushes(self.body.position, snap), |snap|), |avoid| as real);
    if mean.Rho() > 0.0 {
      var unit := Normalise(mean);
      var speed := self.body.velocity.Rho();
      assert unit.Rho() * speed == speed;
    } else {
      assert IsZero(mean);
    }
  }

  /** The push from two neighbours j and l: along the sum of their unit pushes. */
  lemma AvoidPushOfTwo(self: Boid, snap: seq<Kinematics>, j: nat, l: nat)
    requires self.body.maxForce >= 0.0
    requires j < l < |snap|
    ensures var sum := Add(AwayFrom(self.body.position, snap[j]), AwayFrom(self.body.position, snap[l]));
            AvoidPush(self, {j, l}, snap)
            == if sum.Rho() > 0.0 then Steer(self, WithRho(sum, self.body.velocity.Rho())) else Zero
  {
    var avoid := {j, l};
    assert |avoid| as real == 2.0;
    var pushes := Pushes(self.body.position, snap);
    var sum := Add(AwayFrom(self.body.position, snap[j]), AwayFrom(self.body.position, snap[l]));
    assert pushes[j] == AwayFrom(self.body.position, snap[j]);
    assert pushes[l] == AwayFrom(self.body.position, snap[l]);
    SumOverPair(j, l, pushes, |snap|);
    AvoidPushAlongMean(self, avoid, snap);
    var mean := Div(sum, 2.0);
    assert mean.Phi() == sum.Phi();
  }

  /**
   * Two neighbours inside the avoid range: steer along the sum of the two
   * unit pushes at the current speed, or return the zero vector when the two
   * pushes cancel out.
   */
  lemma SeparationFromTwo(self: Boid, snap: seq<Kinematics>, j: nat, l: nat)
    requires self.body.maxForce >= 0.0
    requires j < l < |snap| && self.inVisualRange == {j, l}
    requires TooClose(self, snap[j]) && TooClose(self, snap[l])
    ensures var sum := Add(AwayFrom(self.body.position, snap[j]), AwayFrom(self.body.position, snap[l]));
            Separation(self, snap)
            == if sum.Rho() > 0.0 then Steer(self, WithRho(sum, self.body.velocity.Rho())) else Zero
  {
    assert AvoidSet(self, snap) == {j, l};
    assert |self.inVisualRange| != 0;
    AvoidPushOfTwo(self, snap, j, l);
  }

  /**
   * Any number of neighbours inside the avoid range: steer along the mean of
   * their unit pushes at the current speed, or return the zero vector when
   * that mean has magnitude 0.
   */
  lemma SeparationAlongMean(self: Boid, snap: seq<Kinematics>)
    requires self.body.maxForce >= 0.0 && AvoidSet(self, snap) != {}
    ensures var avoid := AvoidSet(self, snap);
            var mean := Div(SetSum(avoid, Pushes(self.body.position, snap)), |avoid| as real);
            Separation(self, snap)
            == if mean.Rho() > 0.0 then Steer(self, WithRho(mean, self.body.velocity.Rho())) else Zero
  {
    var avoid := AvoidSet(self, snap);
    assert |self.inVisualRange| != 0;
    AvoidPushAlongMean(self, avoid, snap);
    SumOverIsSetSum(avoid, Pushes(self.body.position, snap));
  }

  // ---------------------------------------------------------------------------
  // Alignment

  /** Steer towards the neighbours' mean heading, at the current speed, capped at maxForce. */
  ghost function Alignment(self: Boid, snap: seq<Kinematics>): (r: Vector)
    requires self.body.maxForce >= 0.0
    ensures r.Rho() <= self.body.maxForce
    ensures self.inVisualRange == {} ==> r == Zero
  {
    if |self.inVisualRange| == 0 then Zero
    else
      var vs := Velocities(snap);
      var force := Div(SumOver(self.inVisualRange, vs, |vs|), |self.inVisualRange| as real);
      Steer(self, Scale(Normalise(force), self.body.velocity.Rho()))
  }

  /** One neighbour: steer towards its heading at the current speed. */
  lemma AlignmentFromOne(self: Boid, snap: seq<Kinematics>, j: nat)
    requires self.body.maxForce >= 0.0
    requires j < |snap| && self.inVisualRange == {j}
    ensures Alignment(self, snap)
            == Steer(self, Scale(Normalise(snap[j].velocity), self.body.velocity.Rho()))
  {
    var vs := Velocities(snap);
    SumOverSingleton(j, vs, |vs|);
    assert |self.inVisualRange| as real == 1.0;
  }

  /** Two neighbours: steer along the sum of their velocities, at the current speed. */
  lemma AlignmentFromTwo(self: Boid, snap: seq<Kinematics>, j: nat, l: nat)
    requires self.body.maxForce >= 0.0
    requires j < l < |snap| && self.inVisualRange == {j, l}
    ensures Alignment(self, snap)
            == Steer(self, Scale(Normalise(Add(snap[j].velocity, snap[l].velocity)), self.body.velocity.Rho()))
  {
    var vs := Velocities(snap);
    SumOverPair(j, l, vs, |vs|);
    assert |self.inVisualRange| as real == 2.0;
    var sum := Add(vs[j], vs[l]);
    SamePolar(Normalise(Div(sum, 2.0)), Normalise(sum));
  }

  /** Any neighbourhood: steer along the mean of the neighbours' velocities, at the current speed. */
  lemma AlignmentAlongMean(self: Boid, snap: seq<Kinematics>)
    requires self.body.maxForce >= 0.0
    requires self.inVisualRange != {} && forall j :: j in self.inVisualRange ==> j < |snap|
    ensures var mean := Div(SetSum(self.inVisualRange, Velocities(snap)), |self.inVisualRange| as real);
            Alignment(self, snap) == Steer(self, Scale(Normalise(mean), self.body.velocity.Rho()))
  {
    SumOverIsSetSum(self.inVisualRange, Velocities(snap));
  }

  // ---------------------------------------------------------------------------
  // Cohesion

  /** Steer towards the neighbours' centre, at maxSpeed, capped at maxForce. */
  ghost function Cohesion(self: Boid, snap: seq<Kinematics>): (r: Vector)
    requires self.body.maxForce >= 0.0
    ensures r.Rho() <= self.body.maxForce
    ensures self.inVisualRange == {} ==> r == Zero
  {
    if |self.inVisualRange| == 0 then Zero
    else
      var ps := Positions(snap);
      var centre := Div(SumOver(self.inVisualRange, ps, |ps|), |self.inVisualRange| as real);
      Steer(self, Scale(Normalise(Sub(centre, self.body.position)), self.body.maxSpeed))
  }

  /** One neighbour: steer straight towards it at maxSpeed. */
  lemma CohesionFromOne(self: Boid, snap: seq<Kinematics>, j: nat)
    requires self.body.maxForce >= 0.0
    requires j < |snap| && self.inVisualRange == {j}
    ensures Cohesion(self, snap)
            == Steer(self, Scale(Normalise(Sub(snap[j].position, self.body.position)), self.body.maxSpeed))
  {
    var ps := Positions(snap);
    SumOverSingleton(j, ps, |ps|);
    assert |self.inVisualRange| as real == 1.0;
  }

  /** Two neighbours: steer towards the midpoint of their positions, at maxSpeed. */
  lemma CohesionFromTwo(self: Boid, snap: seq<Kinematics>, j: nat, l: nat)
    requires self.body.maxForce >= 0.0
    requires j < l < |snap| && self.inVisualRange == {j, l}
    ensures var pj := snap[j].position;
            var pl := snap[l].position;
            var midpoint := Vector((pj.x + pl.x) / 2.0, (pj.y + pl.y) / 2.0);
            Cohesion(self, snap)
            == Steer(self, Scale(Normalise(Sub(midpoint, self.body.position)), self.body.maxSpeed))
  {
    var ps := Positions(snap);
    SumOverPair(j, l, ps, |ps|);
    assert |self.inVisualRange| as real == 2.0;
    var pj := snap[j].position;
    var pl := snap[l].position;
    assert Div(Add(ps[j], ps[l]), 2.0) == Vector((pj.x + pl.x) / 2.0, (pj.y + pl.y) / 2.0);
  }

  /** Any neighbourhood: steer towards the mean of the neighbours' positions, at maxSpeed. */
  lemma CohesionTowardsMean(self: Boid, snap: seq<Kinematics>)
    requires self.body.maxForce >= 0.0
    requires self.inVisualRange != {} && forall j :: j in self.inVisualRange ==> j < |snap|
    ensures var centre := Div(SetSum(self.inVisualRange, Positions(snap)), |self.inVisualRange| as real);
            Cohesion(self, snap)
            == Steer(self, Scale(Normalise(Sub(centre, self.body.position)), self.body.maxSpeed))
  {
    SumOverIsSetSum(self.inVisualRange, Positions(snap));
  }

  // ---------------------------------------------------------------------------
  // Combination

  /** A value below a weighted sum of three values below m is below the total weight w times m. */
  lemma WeightedBound(r: real, wa: real, a: real, wb: real, b: real, wc: real, c: real, w: real, m: real)
    requires wa >= 0.0 && wb >= 0.0 && wc >= 0.0 && w == wa + wb + wc
    requires r <= wa * a + wb * b + wc * c
    requires a <= m && b <= m && c <= m
    ensures r <= w * m
  {
    assert wa * a <= wa * m;
    assert wb * b <= wb * m;
    assert wc * c <= wc * m;
  }

  /** The triangle inequality applied twice to three scaled magnitudes. */
  lemma ChainBound(r: real, sa: real, s: real, a: real, c: real,
                   ws: real, x: real, wa: real, y: real, wc: real, z: real)
    requires r <= sa + c && sa <= s + a
    requires s == ws * x && a == wa * y && c == wc * z
    ensures r <= ws * x + wa * y + wc * z
  {
  }

  /** The sum of the magnitudes of the three weights. */
  ghost function TotalWeight(self: Boid): real {
    Abs(self.separationFactor) + Abs(self.alignmentFactor) + Abs(self.cohesionFactor)
  }

  /**
   * The magnitude of a weighted sum of three vectors is at most the weighted
   * sum of their magnitudes.
   */
  lemma WeightedTriangle(ws: real, p: Vector, wa: real, q: Vector, wc: real, t: Vector)
    ensures Vector(ws * p.x + wa * q.x + wc * t.x, ws * p.y + wa * q.y + wc * t.y).Rho()
            <= Abs(ws) * p.Rho() + Abs(wa) * q.Rho() + Abs(wc) * t.Rho()
  {
    var s := Vector(ws * p.x, ws * p.y);
    var a := Vector(wa * q.x, wa * q.y);
    var c := Vector(wc * t.x, wc * t.y);
    NormScale(ws, p);
    NormScale(wa, q);
    NormScale(wc, t);
    var sa := Vector(s.x + a.x, s.y + a.y);
    NormTriangle(s, a);
    NormTriangle(sa, c);
    ChainBound(Norm[Vector(sa.x + c.x, sa.y + c.y)], Norm[sa], Norm[s], Norm[a], Norm[c],
               Abs(ws), Norm[p], Abs(wa), Norm[q], Abs(wc), Norm[t]);
  }

  /**
   * The weighted sum of the three behaviours, with the boid's separation,
   * alignment and cohesion factors as weights. Its magnitude is at most the
   * weighted sum of theirs, so behaviours capped at maxForce give at most the
   * total weight times maxForce.
   */
  ghost function Combine(self: Boid, separation: Vector, alignment: Vector, cohesion: Vector): (r: Vector)
    ensures r.Rho() <= Abs(self.separationFactor) * separation.Rho()
                       + Abs(self.alignmentFactor) * alignment.Rho()
                       + Abs(self.cohesionFactor) * cohesion.Rho()
    ensures separation.Rho() <= self.body.maxForce && alignment.Rho() <= self.body.maxForce
            && cohesion.Rho() <= self.body.maxForce
            ==> r.Rho() <= TotalWeight(self) * self.body.maxForce
  {
    var ws, wa, wc := self.separationFactor, self.alignmentFactor, self.cohesionFactor;
    WeightedTriangle(ws, separation, wa, alignment, wc, cohesion);
    var r := Vector(ws * separation.x + wa * alignment.x + wc * cohesion.x,
                    ws * separation.y + wa * alignment.y + wc * cohesion.y);
    var m := self.body.maxForce;
    if separation.Rho() <= m && alignment.Rho() <= m && cohesion.Rho() <= m then
      WeightedBound(r.Rho(), Abs(ws), separation.Rho(), Abs(wa), alignment.Rho(), Abs(wc), cohesion.Rho(),
                    TotalWeight(self), m);
      r
    else
      r
  }

  /** With every behaviour capped at maxForce, the weighted sum is capped at the total weight times maxForce. */
  lemma CombineBounded(self: Boid, separation: Vector, alignment: Vector, cohesion: Vector)
    requires separation.Rho() <= self.body.maxForce && alignment.Rho() <= self.body.maxForce
    requires cohesion.Rho() <= self.body.maxForce
    ensures Combine(self, separation, alignment, cohesion).Rho() <= SteeringCap(self)
  {
  }

  /**
   * `steering = 0; steering += separation * sf; += alignment * af; += cohesion * cf`
   * accumulates exactly the weighted sum.
   */
  lemma CombineIsAccumulation(self: Boid, separation: Vector, alignment: Vector, cohesion: Vector)
    ensures Combine(self, separation, alignment, cohesion)
            == Add(Add(Add(Zero, Scale(separation, self.separationFactor)),
                       Scale(alignment, self.alignmentFactor)),
                   Scale(cohesion, self.cohesionFactor))
  {
  }

  /** The weighted sum of three zero vectors is the zero vector. */
  lemma CombineZero(self: Boid)
    ensures Combine(self, Zero, Zero, Zero) == Zero
  {
  }

  /**
   * The boid as the behaviours see it: the neighbourhood found afresh in the
   * snapshot and the steering direction reset to zero; nothing else changes.
   */
  ghost function Prepared(b: Boid, i: nat, snap: seq<Kinematics>): (self: Boid)
    ensures self.(inVisualRange := b.inVisualRange, body := self.body.(steeringDirection := b.body.steeringDirection)) == b
    ensures self.body.steeringDirection == Zero
    ensures forall j: nat :: j in self.inVisualRange <==> j < |snap| && Sees(b, i, snap, j)
  {
    b.(inVisualRange := FindInVisualRange(b, i, snap), body := b.body.(steeringDirection := Zero))
  }

  /**
   * Steering for the boid b at index i of a flock whose kinematics are snap:
   * prepare it, then set its steering direction to the weighted sum of the
   * three behaviours. Only `inVisualRange` and the steering direction change.
   */
  ghost function SteerBoid(b: Boid, i: nat, snap: seq<Kinematics>): (r: Boid)
    requires b.body.maxForce >= 0.0
    ensures r.(inVisualRange := b.inVisualRange, body := r.body.(steeringDirection := b.body.steeringDirection)) == b
    ensures forall j: nat :: j in r.inVisualRange <==> j < |snap| && Sees(b, i, snap, j)
    ensures var self := Prepared(b, i, snap);
            r.body.steeringDirection
            == Combine(self, Separation(self, snap), Alignment(self, snap), Cohesion(self, snap))
    ensures r.inVisualRange == {} ==> r.body.steeringDirection == Zero
  {
    var self := Prepared(b, i, snap);
    var separation := Separation(self, snap);
    var alignment := Alignment(self, snap);
    var cohesion := Cohesion(self, snap);
    var steering := Combine(self, separation, alignment, cohesion);
    assert self.inVisualRange == {} ==> steering == Zero by {
      if self.inVisualRange == {} {
        assert AvoidSet(self, snap) == {};
        CombineZero(self);
      }
    }
    self.(body := self.body.(steeringDirection := steering))
  }

  /**
   * `calculate_steering` for member i: its neighbourhood is the set of other
   * members strictly within its visual range, its steering direction the
   * weighted sum of the behaviours (bounded in `CalculateSteeringBounded`);
   * nothing else about it changes.
   */
  ghost function CalculateSteering(flock: seq<Boid>, i: nat): (r: Boid)
    requires i < |flock| && flock[i].body.maxForce >= 0.0
    ensures forall j: nat :: j in r.inVisualRange <==> j < |flock| && Sees(flock[i], i, Snapshot(flock), j)
    ensures r.(inVisualRange := flock[i].inVisualRange,
               body := r.body.(steeringDirection := flock[i].body.steeringDirection)) == flock[i]
    ensures r.inVisualRange == {} ==> r.body.steeringDirection == Zero
  {
    SteerBoid(flock[i], i, Snapshot(flock))
  }

  /** The largest steering direction the behaviours can produce together. */
  ghost function SteeringCap(b: Boid): real { TotalWeight(b) * b.body.maxForce }

  /** The cap depends only on the three weights and maxForce. */
  lemma SteeringCapFrame(b: Boid, c: Boid)
    requires b.separationFactor == c.separationFactor && b.alignmentFactor == c.alignmentFactor
    requires b.cohesionFactor == c.cohesionFactor && b.body.maxForce == c.body.maxForce
    ensures SteeringCap(b) == SteeringCap(c)
  {
  }

  /**
   * The steering direction SteerBoid sets is at most the total weight of the
   * behaviours times maxForce, since each behaviour is capped at maxForce.
   */
  lemma SteerBoidBounded(b: Boid, i: nat, snap: seq<Kinematics>)
    requires b.body.maxForce >= 0.0
    ensures SteerBoid(b, i, snap).body.steeringDirection.Rho() <= SteeringCap(b)
  {
    var self := Prepared(b, i, snap);
    var s, a, c := Separation(self, snap), Alignment(self, snap), Cohesion(self, snap);
    CombineBounded(self, s, a, c);
    SteeringCapFrame(self, b);
  }

  /** The same bound for member i of a flock. */
  lemma CalculateSteeringBounded(flock: seq<Boid>, i: nat)
    requires i < |flock| && flock[i].body.maxForce >= 0.0
    ensures CalculateSteering(flock, i).body.steeringDirection.Rho() <= SteeringCap(flock[i])
  {
    SteerBoidBounded(flock[i], i, Snapshot(flock));
  }

  /** Steering a boid moves it nowhere and keeps its force cap. */
  lemma SteerBoidKeepsKinematics(b: Boid, i: nat, snap: seq<Kinematics>)
    requires b.body.maxForce >= 0.0
    ensures KinematicsOf(SteerBoid(b, i, snap)) == KinematicsOf(b)
    ensures SteerBoid(b, i, snap).body.maxForce == b.body.maxForce
  {
  }

  /** Steering moves no one: member i keeps its position and velocity. */
  lemma CalculateSteeringKeepsKinematics(flock: seq<Boid>, i: nat)
    requires i < |flock| && flock[i].body.maxForce >= 0.0
    ensures CalculateSteering(flock, i).body.position == flock[i].body.position
    ensures CalculateSteering(flock, i).body.velocity == flock[i].body.velocity
    ensures CalculateSteering(flock, i).body.maxForce == flock[i].body.maxForce
  {
  }

  /** Member i's steering depends only on member i itself and the kinematics of the flock. */
  lemma CalculateSteeringLocal(flock: seq<Boid>, other: seq<Boid>, i: nat)
    requires i < |flock| && flock[i].body.maxForce >= 0.0
    requires |other| == |flock| && other[i] == flock[i] && Snapshot(other) == Snapshot(flock)
    ensures CalculateSteering(other, i) == CalculateSteering(flock, i)
  {
  }

  /** The neighbourhood search reads of the boid only its position and visual range. */
  lemma FindInVisualRangeReads(b: Boid, c: Boid, i: nat, snap: seq<Kinematics>)
    requires b.body.position == c.body.position && b.visualRange == c.visualRange
    ensures FindInVisualRange(b, i, snap) == FindInVisualRange(c, i, snap)
  {
    assert forall j: nat :: j < |snap| ==> (Sees(b, i, snap, j) <==> Sees(c, i, snap, j));
  }

  /** The previous steering direction and neighbourhood play no part: nothing accumulates. */
  lemma SteeringDoesNotAccumulate(flock: seq<Boid>, i: nat, steering: Vector, seen: set<nat>)
    requires i < |flock| && flock[i].body.maxForce >= 0.0
    ensures var stale := flock[i].(inVisualRange := seen,
                                   body := flock[i].body.(steeringDirection := steering));
            CalculateSteering(flock[i := stale], i) == CalculateSteering(flock, i)
  {
    var stale := flock[i].(inVisualRange := seen, body := flock[i].body.(steeringDirection := steering));
    var snap := Snapshot(flock);
    SnapshotUpdate(flock, i, stale);
    FindInVisualRangeReads(stale, flock[i], i, snap);
    assert Prepared(stale, i, snap) == Prepared(flock[i], i, snap);
  }

  // ---------------------------------------------------------------------------
  // Position update

  ghost predicate InBounds(p: Vector, b: Bounds) {
    b.x0 <= p.x <= b.x1 && b.y0 <= p.y <= b.y1
  }

  /**
   * Toroidal wrap: past the far edge (strictly) goes to the near edge, before
   * the near edge goes to the far edge, each axis on its own.
   */
  ghost function WrapPosition(p: Vector, b: Bounds): (r: Vector)
    ensures b.x0 <= b.x1 ==> b.x0 <= r.x <= b.x1
    ensures b.y0 <= b.y1 ==> b.y0 <= r.y <= b.y1
    ensures InBounds(p, b) ==> r == p
    ensures b.x0 <= b.x1 ==>
              && (p.x > b.x1 ==> r.x == b.x0)
              && (p.x < b.x0 ==> r.x == b.x1)
    ensures b.y0 <= b.y1 ==>
              && (p.y > b.y1 ==> r.y == b.y0)
              && (p.y < b.y0 ==> r.y == b.y1)
    ensures b.x0 <= p.x <= b.x1 ==> r.x == p.x
    ensures b.y0 <= p.y <= b.y1 ==> r.y == p.y
  {
    var p1 := if p.x > b.x1 then p.(x := b.x0) else p;
    var p2 := if p1.x < b.x0 then p1.(x := b.x1) else p1;
    var p3 := if p2.y > b.y1 then p2.(y := b.y0) else p2;
    if p3.y < b.y0 then p3.(y := b.y1) else p3
  }

  lemma WrapIdempotent(p: Vector, b: Bounds)
    requires b.x0 <= b.x1 && b.y0 <= b.y1
    ensures WrapPosition(WrapPosition(p, b), b) == WrapPosition(p, b)
  {
  }

  /** Integrate one step, then wrap the position into the arena. */
  ghost function UpdatePosition(b: Boid, dt: real): (r: Boid)
    requires b.body.mass > 0.0 && b.body.maxForce >= 0.0
    ensures r.(body := b.body) == b
    ensures r.body.(position := Move(b.body, dt).position) == Move(b.body, dt)
    ensures r.body.position == WrapPosition(Move(b.body, dt).position, b.bounds)
    ensures b.bounds.x0 <= b.bounds.x1 && b.bounds.y0 <= b.bounds.y1 ==>
              InBounds(r.body.position, b.bounds)
    ensures InBounds(Move(b.body, dt).position, b.bounds) ==> r.body == Move(b.body, dt)
    ensures WellFormed(b) ==> WellFormed(r)
  {
    var moved := Move(b.body, dt);
    b.(body := moved.(position := WrapPosition(moved.position, b.bounds)))
  }
}
