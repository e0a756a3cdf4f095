/**
 * The flock: the registered boids in registration order, and the two passes
 * of a simulation tick. Each pass visits the members one after the other.
 * In the steering pass a member reads the flock as the earlier visits left
 * it; since steering moves no one, the order does not matter, and the pass
 * equals steering every member against the flock as it was before the pass.
 *
 * The passes are stated for any per-member step with the properties they
 * rely on (`IsSteeringStep`, `IsMoveStep`), given as a table from inputs to
 * results, and then taken with the boid's own steering and position update.
 */
module Flocks {
  import opened Vectors
  import opened Vehicles
  import opened Boids

  /** Every member can be steered: its force cap is not negative. */
  ghost predicate Steerable(flock: seq<Boid>) {
    forall j :: 0 <= j < |flock| ==> flock[j].body.maxForce >= 0.0
  }

  /** Every member satisfies the constructor's guarantees. */
  ghost predicate AllWellFormed(flock: seq<Boid>) {
    forall j :: 0 <= j < |flock| ==> WellFormed(flock[j])
  }

  /** The steering of one member, from the member, its index and the kinematics of the flock. */
  type SteeringTable = imap<(Boid, nat, seq<Kinematics>), Boid>

  /**
   * What the steering pass relies on: every steerable member can be steered,
   * and steering moves no one and keeps the force cap.
   */
  ghost predicate IsSteeringStep(step: SteeringTable) {
    && (forall b: Boid, i: nat, snap: seq<Kinematics> ::
          b.body.maxForce >= 0.0 ==> (b, i, snap) in step)
    && (forall key :: key in step ==>
          && KinematicsOf(step[key]) == KinematicsOf(key.0)
          && step[key].body.maxForce == key.0.body.maxForce)
  }

  /** Visiting member i: steer it against the flock as it is now. */
  ghost function Visit(flock: seq<Boid>, i: nat, step: SteeringTable): (r: seq<Boid>)
    requires i < |flock| && Steerable(flock) && IsSteeringStep(step)
    ensures |r| == |flock| && Steerable(r) && Snapshot(r) == Snapshot(flock)
    ensures r[i] == step[(flock[i], i, Snapshot(flock))]
    ensures forall j :: 0 <= j < |flock| && j != i ==> r[j] == flock[j]
  {
    var steered := step[(flock[i], i, Snapshot(flock))];
    SnapshotUpdate(flock, i, steered);
    flock[i := steered]
  }

  /** The steering pass after the first k visits, in index order. */
  ghost function SteerFirst(flock: seq<Boid>, k: nat, step: SteeringTable): (r: seq<Boid>)
    requires k <= |flock| && Steerable(flock) && IsSteeringStep(step)
    ensures |r| == |flock| && Steerable(r) && Snapshot(r) == Snapshot(flock)
    ensures forall j :: 0 <= j < k ==> r[j] == step[(flock[j], j, Snapshot(flock))]
    ensures forall j :: k <= j < |flock| ==> r[j] == flock[j]
    decreases k
  {
    if k == 0 then flock
    else Visit(SteerFirst(flock, k - 1, step), k - 1, step)
  }

  /** Every member steered against the flock as it was before the pass. */
  ghost function SteerTogether(flock: seq<Boid>, step: SteeringTable): (r: seq<Boid>)
    requires Steerable(flock) && IsSteeringStep(step)
  {
    seq(|flock|, j requires 0 <= j < |flock| => step[(flock[j], j, Snapshot(flock))])
  }

  /** The order of the visits does not matter: the pass is the simultaneous steering. */
  lemma SteeringOrderIrrelevant(flock: seq<Boid>, step: SteeringTable)
    requires Steerable(flock) && IsSteeringStep(step)
    ensures SteerFirst(flock, |flock|, step) == SteerTogether(flock, step)
  {
  }

  /**
   * The boid's own steering, `calculate_steering`, as a table. A boid with a
   * negative force cap cannot be steered; the table leaves it as it is, and
   * the steering pass never asks for it.
   */
  ghost const MemberSteering: SteeringTable :=
    imap key: (Boid, nat, seq<Kinematics>) ::
      if key.0.body.maxForce >= 0.0 then SteerBoid(key.0, key.1, key.2) else key.0

  /** The table holds `SteerBoid` for every steerable boid. */
  lemma MemberSteeringAt(b: Boid, i: nat, snap: seq<Kinematics>)
    requires b.body.maxForce >= 0.0
    ensures (b, i, snap) in MemberSteering
    ensures MemberSteering[(b, i, snap)] == SteerBoid(b, i, snap)
  {
  }

  /** The boid's own steering has what the steering pass relies on. */
  lemma MemberSteeringIsSteeringStep()
    ensures IsSteeringStep(MemberSteering)
  {
    forall key | key in MemberSteering
      ensures KinematicsOf(MemberSteering[key]) == KinematicsOf(key.0)
      ensures MemberSteering[key].body.maxForce == key.0.body.maxForce
    {
      if key.0.body.maxForce >= 0.0 {
        SteerBoidKeepsKinematics(key.0, key.1, key.2);
      }
    }
  }

  /** `calculate_steering_all`: visit every member in order. */
  ghost function CalculateSteeringAll(flock: seq<Boid>): (r: seq<Boid>)
    requires Steerable(flock)
    ensures |r| == |flock| && Snapshot(r) == Snapshot(flock)
  {
    MemberSteeringIsSteeringStep();
    SteerFirst(flock, |flock|, MemberSteering)
  }

  /** After the pass, member j is as `calculate_steering` makes it against the flock before the pass. */
  lemma CalculateSteeringAllAt(flock: seq<Boid>, j: nat)
    requires Steerable(flock) && j < |flock|
    ensures CalculateSteeringAll(flock)[j] == CalculateSteering(flock, j)
  {
    MemberSteeringIsSteeringStep();
    MemberSteeringAt(flock[j], j, Snapshot(flock));
  }

  /** Each member's steering after the pass is bounded as `calculate_steering` bounds it. */
  lemma CalculateSteeringAllBounded(flock: seq<Boid>, j: nat)
    requires Steerable(flock) && j < |flock|
    ensures CalculateSteeringAll(flock)[j].body.steeringDirection.Rho() <= SteeringCap(flock[j])
  {
    CalculateSteeringAllAt(flock, j);
    CalculateSteeringBounded(flock, j);
  }

  /** The steering pass keeps every member's constructor guarantees. */
  lemma CalculateSteeringAllWellFormed(flock: seq<Boid>)
    requires AllWellFormed(flock)
    ensures Steerable(flock) && AllWellFormed(CalculateSteeringAll(flock))
  {
    var r := CalculateSteeringAll(flock);
    forall j | 0 <= j < |flock| ensures WellFormed(r[j]) {
      CalculateSteeringAllAt(flock, j);
      var b := CalculateSteering(flock, j);
      assert b.bounds == flock[j].bounds && b.body.mass == flock[j].body.mass;
      assert b.body.maxForce == flock[j].body.maxForce && b.body.maxSpeed == flock[j].body.maxSpeed;
    }
  }

  /** The position update of one boid, from the boid before the update. */
  type MoveTable = imap<Boid, Boid>

  /**
   * What the update pass relies on: every well-formed boid can be moved, and
   * the moved boid is well-formed and inside its arena.
   */
  ghost predicate IsMoveStep(step: MoveTable) {
    forall b: Boid {:trigger step[b]} {:trigger b in step} :: WellFormed(b) ==>
      && b in step
      && WellFormed(step[b])
      && InBounds(step[b].body.position, step[b].bounds)
  }

  /** The update pass after the first k members, in index order. */
  ghost function UpdateFirst(flock: seq<Boid>, k: nat, step: MoveTable): (r: seq<Boid>)
    requires k <= |flock| && AllWellFormed(flock) && IsMoveStep(step)
    ensures |r| == |flock| && AllWellFormed(r)
    ensures forall j :: 0 <= j < k ==> InBounds(r[j].body.position, r[j].bounds)
    decreases k
  {
    if k == 0 then flock
    else
      var prev := UpdateFirst(flock, k - 1, step);
      prev[k - 1 := step[prev[k - 1]]]
  }

  /** After the first k members are updated, each of them is its own step and the rest are untouched. */
  lemma {:induction false} UpdateFirstAt(flock: seq<Boid>, k: nat, step: MoveTable, j: nat)
    requires k <= |flock| && AllWellFormed(flock) && IsMoveStep(step) && j < |flock|
    ensures j < k ==> UpdateFirst(flock, k, step)[j] == step[flock[j]]
    ensures k <= j ==> UpdateFirst(flock, k, step)[j] == flock[j]
    decreases k
  {
    if k > 0 {
      UpdateFirstAt(flock, k - 1, step, j);
      if j == k - 1 {
        UpdateFirstAt(flock, k - 1, step, k - 1);
      }
    }
  }

  /** The boid's own `update_position` with step length dt, as a table. */
  ghost function MemberMove(dt: real): MoveTable {
    imap b: Boid :: if WellFormed(b) then UpdatePosition(b, dt) else b
  }

  /** The table holds `UpdatePosition` for every well-formed boid. */
  lemma MemberMoveAt(b: Boid, dt: real)
    requires WellFormed(b)
    ensures b in MemberMove(dt) && MemberMove(dt)[b] == UpdatePosition(b, dt)
  {
  }

  /** The boid's own position update has what the update pass relies on. */
  lemma MemberMoveIsMoveStep(dt: real)
    ensures IsMoveStep(MemberMove(dt))
  {
    forall b: Boid | WellFormed(b)
      ensures b in MemberMove(dt)
      ensures WellFormed(MemberMove(dt)[b])
      ensures InBounds(MemberMove(dt)[b].body.position, MemberMove(dt)[b].bounds)
    {
      MemberMoveAt(b, dt);
      var r := UpdatePosition(b, dt);
      assert r.bounds == b.bounds;
    }
  }

  /** `update_position_all`: every member integrated and wrapped, each inside its arena. */
  ghost function UpdatePositionAll(flock: seq<Boid>, dt: real): (r: seq<Boid>)
    requires AllWellFormed(flock)
    ensures |r| == |flock| && AllWellFormed(r)
    ensures forall j :: 0 <= j < |flock| ==> InBounds(r[j].body.position, r[j].bounds)
  {
    MemberMoveIsMoveStep(dt);
    UpdateFirst(flock, |flock|, MemberMove(dt))
  }

  /** Each member's position update reads only that member. */
  lemma UpdatePositionAllAt(flock: seq<Boid>, dt: real, j: nat)
    requires AllWellFormed(flock) && j < |flock|
    ensures UpdatePositionAll(flock, dt)[j] == UpdatePosition(flock[j], dt)
  {
    MemberMoveIsMoveStep(dt);
    UpdateFirstAt(flock, |flock|, MemberMove(dt), j);
    MemberMoveAt(flock[j], dt);
  }

  /**
   * One tick of the environment: steer every member, then move every member.
   * Well-formedness is kept and every member ends inside its arena.
   */
  ghost function Tick(flock: seq<Boid>, dt: real): (r: seq<Boid>)
    requires AllWellFormed(flock)
    ensures |r| == |flock| && AllWellFormed(r)
    ensures forall j :: 0 <= j < |flock| ==> InBounds(r[j].body.position, r[j].bounds)
  {
    CalculateSteeringAllWellFormed(flock);
    UpdatePositionAll(CalculateSteeringAll(flock), dt)
  }

  /** In a tick, member j moves with the steering computed against the flock before the tick. */
  lemma TickAt(flock: seq<Boid>, dt: real, j: nat)
    requires AllWellFormed(flock) && j < |flock|
    ensures Tick(flock, dt)[j] == UpdatePosition(CalculateSteering(flock, j), dt)
  {
    CalculateSteeringAllWellFormed(flock);
    CalculateSteeringAllAt(flock, j);
    UpdatePositionAllAt(CalculateSteeringAll(flock), dt, j);
  }

  /** Registering a boid keeps the flock well-formed exactly when the boid is. */
  lemma AddToFlockWellFormed(flock: seq<Boid>, b: Boid)
    requires AllWellFormed(flock)
    ensures AllWellFormed(AddToFlock(flock, b)) <==> WellFormed(b)
  {
    var r := AddToFlock(flock, b);
    assert r[|flock|] == b;
  }
}
