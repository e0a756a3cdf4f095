/**
 * The kinematic body of an agent: its physical state and limits, the three
 * magnitude operators (truncate, clamp, normalise) and the one-step
 * integrator `Move`.
 */
module Vehicles {
  import opened Vectors

  /**
   * Physical state and limits. `orientation` is an angle (a unit direction).
   * The source also keeps `max_turn_speed`, which nothing reads.
   */
  datatype Vehicle = Vehicle(
    mass: real,
    position: Vector,
    velocity: Vector,
    maxForce: real,
    minSpeed: real,
    maxSpeed: real,
    orientation: Angle,
    steeringDirection: Vector,
    acceleration: Vector)

  /** The per-step damping factor applied to the velocity. */
  const Damping: real := 0.99

  /** The lower speed bound `Move` clamps to: the literal 1, not the `minSpeed` field. */
  const ClampFloor: real := 1.0

  ghost function Min(a: real, b: real): real { if a <= b then a else b }

  ghost function Max(a: real, b: real): real { if a >= b then a else b }

  /** The constructor: minimum speed 1, steering and acceleration start at zero. */
  ghost function NewVehicle(mass: real, position: Vector, velocity: Vector, maxForce: real,
                      maxSpeed: real, orientation: Angle): (v: Vehicle)
    ensures v.minSpeed == 1.0
    ensures v.steeringDirection == Zero && v.acceleration == Zero
    ensures v.mass == mass && v.maxForce == maxForce && v.maxSpeed == maxSpeed
    ensures v.position == position && v.velocity == velocity && v.orientation == orientation
  {
    Vehicle(mass, position, velocity, maxForce, 1.0, maxSpeed, orientation, Zero, Zero)
  }

  /**
   * Caps the magnitude at `maxValue`, keeping the angle; a cap of 0 gives the
   * zero vector.
   */
  ghost function Truncate(v: Vector, maxValue: real): (r: Vector)
    requires maxValue >= 0.0
    ensures r.Rho() <= maxValue && r.Rho() <= v.Rho()
    ensures v.Rho() <= maxValue ==> r == v
    ensures v.Rho() > maxValue ==> r.Rho() == maxValue
    ensures maxValue > 0.0 ==> r.Phi() == v.Phi()
  {
    PolarOfParts(v);
    Polar(Min(v.Rho(), maxValue), v.Phi())
  }

  lemma TruncateIdempotent(v: Vector, maxValue: real)
    requires maxValue >= 0.0
    ensures Truncate(Truncate(v, maxValue), maxValue) == Truncate(v, maxValue)
  {
  }

  /**
   * Forces the magnitude into [minValue, maxValue], keeping the angle unless
   * both bounds are 0. When the interval is empty the lower bound wins,
   * because the maximum is taken last.
   */
  ghost function Clamp(v: Vector, minValue: real, maxValue: real): (r: Vector)
    requires minValue >= 0.0
    ensures minValue <= maxValue ==> minValue <= r.Rho() <= maxValue
    ensures minValue <= v.Rho() <= maxValue ==> r == v
    ensures v.Rho() < minValue || maxValue < minValue ==> r.Rho() == minValue
    ensures minValue <= maxValue < v.Rho() ==> r.Rho() == maxValue
    ensures minValue > 0.0 || maxValue > 0.0 ==> r.Phi() == v.Phi()
  {
    PolarOfParts(v);
    Polar(Max(Min(v.Rho(), maxValue), minValue), v.Phi())
  }

  lemma ClampIdempotent(v: Vector, minValue: real, maxValue: real)
    requires 0.0 <= minValue <= maxValue
    ensures Clamp(Clamp(v, minValue, maxValue), minValue, maxValue) == Clamp(v, minValue, maxValue)
  {
  }

  /** Truncation is clamping with lower bound 0. */
  lemma TruncateIsClampFromZero(v: Vector, maxValue: real)
    requires maxValue >= 0.0
    ensures Truncate(v, maxValue) == Clamp(v, 0.0, maxValue)
  {
  }

  /**
   * The unit vector with the same angle. A zero vector is not an error: it
   * becomes magnitude 1 at its angle, which is angle 0.
   */
  ghost function Normalise(v: Vector): (r: Vector)
    ensures r.Rho() == 1.0
    ensures r.Phi() == v.Phi()
  {
    if v.Rho() == 0.0 then Polar(1.0, v.Phi())
    else
      assert v.Rho() / Abs(v.Rho()) == 1.0;
      Div(v, v.Rho())
  }

  /** Scaling the unit vector back by the magnitude recovers any vector. */
  lemma NormaliseThenRescale(v: Vector)
    requires v.Rho() > 0.0
    ensures Scale(Normalise(v), v.Rho()) == v
  {
    var n := v.Rho();
    assert n * ((1.0 / n) * v.x) == v.x;
    assert n * ((1.0 / n) * v.y) == v.y;
  }

  lemma NormaliseIdempotent(v: Vector)
    ensures Normalise(Normalise(v)) == Normalise(v)
  {
  }

  lemma DivMonotone(a: real, b: real, m: real)
    requires 0.0 <= a <= b && m > 0.0
    ensures a / m <= b / m
  {
  }

  /**
   * One integration step of length dt: the steering direction, capped at
   * `maxForce`, divided by the mass is the acceleration; the new velocity is
   * the old one plus the acceleration, clamped to [1, maxSpeed] and then
   * damped; the position advances by the new velocity times dt; the
   * orientation becomes the new velocity's angle.
   */
  ghost function Move(v: Vehicle, dt: real): (r: Vehicle)
    requires v.mass > 0.0 && v.maxForce >= 0.0
    ensures r.acceleration.Rho() == Min(v.steeringDirection.Rho(), v.maxForce) / v.mass
    ensures r.acceleration.Rho() <= v.maxForce / v.mass
    ensures v.maxForce > 0.0 ==> r.acceleration.Phi() == v.steeringDirection.Phi()
    ensures v.maxSpeed >= 1.0 ==> Damping <= r.velocity.Rho() <= Damping * v.maxSpeed
    ensures v.maxSpeed < 1.0 ==> r.velocity.Rho() == Damping
    ensures r.velocity.Phi() == Add(v.velocity, r.acceleration).Phi()
    ensures var sum := Add(v.velocity, r.acceleration);
            && (1.0 <= sum.Rho() <= v.maxSpeed ==> r.velocity == Scale(sum, Damping))
            && (1.0 <= v.maxSpeed < sum.Rho() ==> r.velocity.Rho() == Damping * v.maxSpeed)
            && (sum.Rho() < 1.0 ==> r.velocity.Rho() == Damping)
    ensures r.position == Add(v.position, Scale(r.velocity, dt))
    ensures r.orientation == r.velocity.Phi()
    ensures r.(acceleration := v.acceleration, velocity := v.velocity,
               position := v.position, orientation := v.orientation) == v
  {
    var steeringForce := Truncate(v.steeringDirection, v.maxForce);
    var acceleration := Div(steeringForce, v.mass);
    DivMonotone(steeringForce.Rho(), v.maxForce, v.mass);
    var sum := Add(v.velocity, acceleration);
    var clamped := Clamp(sum, ClampFloor, v.maxSpeed);
    var velocity := Scale(clamped, Damping);
    var position := Add(v.position, Scale(velocity, dt));
    // the source takes the angle of normalise(velocity), which is the
    // velocity's own angle (`MoveOrientationIsNormalisedVelocity`)
    v.(acceleration := acceleration, velocity := velocity, position := position,
       orientation := velocity.Phi())
  }

  /** The position advances by the new (damped) velocity times dt. */
  lemma MoveAdvancesPosition(v: Vehicle, dt: real)
    requires v.mass > 0.0 && v.maxForce >= 0.0
    ensures Move(v, dt).position.x == v.position.x + dt * Move(v, dt).velocity.x
    ensures Move(v, dt).position.y == v.position.y + dt * Move(v, dt).velocity.y
  {
  }

  /** The new orientation is the angle of the normalised new velocity. */
  lemma MoveOrientationIsNormalisedVelocity(v: Vehicle, dt: real)
    requires v.mass > 0.0 && v.maxForce >= 0.0
    ensures Move(v, dt).orientation == Normalise(Move(v, dt).velocity).Phi()
  {
  }

  /** The `minSpeed` field plays no part in `Move`. */
  lemma MoveIgnoresMinSpeed(v: Vehicle, minSpeed: real, dt: real)
    requires v.mass > 0.0 && v.maxForce >= 0.0
    ensures Move(v.(minSpeed := minSpeed), dt) == Move(v, dt).(minSpeed := minSpeed)
  {
  }

  /**
   * Damping is applied after the clamp, so the speed after `Move` can fall
   * below `minSpeed`: a vehicle at speed 1 with no steering ends at 0.99.
   */
  lemma MoveCanUndershootMinSpeed()
    ensures var v := NewVehicle(1.0, Zero, East, 100.0, 200.0, East);
            Move(v, 1.0).velocity.Rho() < v.minSpeed
  {
    var v := NewVehicle(1.0, Zero, East, 100.0, 200.0, East);
    MoveWithoutSteering(v, 1.0);
  }

  /**
   * With no steering and a speed already within [1, maxSpeed], a step only
   * damps the velocity once and advances the position by velocity * dt.
   */
  lemma MoveWithoutSteering(v: Vehicle, dt: real)
    requires v.mass > 0.0 && v.maxForce >= 0.0
    requires v.steeringDirection == Zero
    requires 1.0 <= v.velocity.Rho() <= v.maxSpeed
    ensures Move(v, dt).velocity == Scale(v.velocity, Damping)
    ensures Move(v, dt).position.x == v.position.x + dt * Damping * v.velocity.x
    ensures Move(v, dt).position.y == v.position.y + dt * Damping * v.velocity.y
    ensures Move(v, dt).acceleration == Zero
  {
    var t := Truncate(v.steeringDirection, v.maxForce);
    assert t == Zero;
    var a := Div(t, v.mass);
    assert a.x == 0.0 && a.y == 0.0;
    var sum := Add(v.velocity, a);
    assert sum == v.velocity;
    var w := Move(v, dt).velocity;
    assert dt * w.x == dt * Damping * v.velocity.x;
    assert dt * w.y == dt * Damping * v.velocity.y;
  }
}
