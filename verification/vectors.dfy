/**
 * Two-dimensional vectors as the flocking code uses them: stored by their
 * cartesian coordinates (x, y), with the polar view (magnitude `Rho()`, angle
 * `Phi()`) derived from them.
 *
 * An angle is represented by its unit direction (cos phi, sin phi), so that no
 * trigonometry is needed. The magnitude is an abstract `Norm`: Dafny's reals
 * have no square root, so instead of the Euclidean sqrt(x*x + y*y) the model
 * takes an arbitrary function obeying the norm laws listed in `IsNorm`. The
 * angle is likewise an abstract `Direction` obeying the laws of `IsDirection`.
 * Every property proved here therefore holds for the Euclidean norm and the
 * atan2 angle in particular.
 */
module Vectors {

  ghost function Abs(r: real): real { if r < 0.0 then -r else r }

  /** The vector with both coordinates 0. */
  ghost predicate IsZero(v: Vector) { v.x == 0.0 && v.y == 0.0 }

  /**
   * k * v, the same vector as `Scale(v, k)`. It is a separate name so that the
   * norm law it triggers fires only where a lemma asks for it.
   */
  ghost function Scaled(k: real, v: Vector): Vector { Vector(k * v.x, k * v.y) }

  /**
   * a + b, the same vector as `Add(a, b)`. It is a separate name so that the
   * norm law it triggers fires only where a lemma asks for it.
   */
  ghost function Sum(a: Vector, b: Vector): Vector { Vector(a.x + b.x, a.y + b.y) }

  /** f vanishes at v; named so that definiteness is used only where it is asked for. */
  ghost predicate Vanishes(f: imap<Vector, real>, v: Vector) { v in f && f[v] == 0.0 }

  /**
   * The laws of a norm on the plane that the model relies on. Non-negativity
   * follows from the others (`NormNonNegative`).
   */
  ghost predicate IsNorm(f: imap<Vector, real>) {
    && (forall v :: v in f)
    && (forall v {:trigger Vanishes(f, v)} :: Vanishes(f, v) ==> IsZero(v))
    && (forall k, v :: f[Scaled(k, v)] == Abs(k) * f[v])
    && (forall a, b :: f[Sum(a, b)] <= f[a] + f[b])
    && f[Vector(1.0, 0.0)] == 1.0
  }

  // The taxicab norm |x| + |y| satisfies the laws; it only shows that they are
  // consistent and is not the magnitude the model uses.

  ghost function Taxicab(v: Vector): real { Abs(v.x) + Abs(v.y) }

  lemma AbsMul(k: real, x: real)
    ensures Abs(k * x) == Abs(k) * Abs(x)
  {
    if k < 0.0 {
      if x < 0.0 { assert k * x > 0.0; } else { assert k * x <= 0.0; }
    } else {
      if x < 0.0 { assert k * x <= 0.0; } else { assert k * x >= 0.0; }
    }
  }

  lemma TaxicabScale(k: real, v: Vector)
    ensures Taxicab(Scaled(k, v)) == Abs(k) * Taxicab(v)
  {
    AbsMul(k, v.x);
    AbsMul(k, v.y);
    var a, b, d := Abs(k), Abs(v.x), Abs(v.y);
    assert a * (b + d) == a * b + a * d;
  }

  lemma TaxicabTriangle(a: Vector, b: Vector)
    ensures Taxicab(Sum(a, b)) <= Taxicab(a) + Taxicab(b)
  {
    assert Abs(a.x + b.x) <= Abs(a.x) + Abs(b.x);
    assert Abs(a.y + b.y) <= Abs(a.y) + Abs(b.y);
  }

  lemma TaxicabDefinite(v: Vector)
    requires Taxicab(v) == 0.0
    ensures IsZero(v)
  {
  }

  lemma TaxicabLaws(f: imap<Vector, real>)
    requires forall v :: v in f && f[v] == Taxicab(v)
    ensures IsNorm(f)
  {
    forall v | Vanishes(f, v) ensures IsZero(v) { TaxicabDefinite(v); }
    forall k, v ensures f[Scaled(k, v)] == Abs(k) * f[v] { TaxicabScale(k, v); }
    forall a, b ensures f[Sum(a, b)] <= f[a] + f[b] { TaxicabTriangle(a, b); }
  }

  ghost function TaxicabNorm(): (f: imap<Vector, real>)
    ensures IsNorm(f)
  {
    var f := imap v: Vector :: Taxicab(v);
    TaxicabLaws(f);
    f
  }

  /** A magnitude function, as the table of its values on every vector. */
  type NormFn = f: imap<Vector, real> | IsNorm(f) ghost witness TaxicabNorm()

  /** The magnitude `abs(v)` of the vector library: any function with the norm laws. */
  ghost const Norm: NormFn

  /** |k * v| = |k| * |v|. */
  lemma NormScale(k: real, v: Vector)
    ensures Norm[Vector(k * v.x, k * v.y)] == Abs(k) * Norm[v]
  {
    assert Scaled(k, v) == Vector(k * v.x, k * v.y);
  }

  /** |a + b| <= |a| + |b|. */
  lemma NormTriangle(a: Vector, b: Vector)
    ensures Norm[Vector(a.x + b.x, a.y + b.y)] <= Norm[a] + Norm[b]
  {
    assert Sum(a, b) == Vector(a.x + b.x, a.y + b.y);
  }

  lemma NormOfZero(v: Vector)
    requires IsZero(v)
    ensures Norm[v] == 0.0
  {
    NormScale(0.0, v);
    assert Vector(0.0 * v.x, 0.0 * v.y) == v;
  }

  /** 0 = |v + (-v)| <= |v| + |-v| = 2|v|. */
  lemma NormNonNegative(v: Vector)
    ensures Norm[v] >= 0.0
  {
    var k := -1.0;
    var m := Vector(k * v.x, k * v.y);
    NormScale(k, v);
    assert Norm[m] == Norm[v];
    NormTriangle(v, m);
    assert v.x + m.x == 0.0 && v.y + m.y == 0.0;
    NormOfZero(Vector(v.x + m.x, v.y + m.y));
  }

  /** Only the zero vector has magnitude 0. */
  lemma NormDefinite(v: Vector)
    ensures Norm[v] == 0.0 <==> IsZero(v)
  {
    if IsZero(v) { NormOfZero(v); }
    assert Vanishes(Norm, v) ==> IsZero(v);
  }

  /** A direction (cos phi, sin phi): a vector of magnitude 1. */
  type Angle = d: Vector | Norm[d] == 1.0 witness Vector(1.0, 0.0)

  /** The directions on the positive x axis. */
  type EastDir = d: Angle | d.y == 0.0 && d.x > 0.0 witness Vector(1.0, 0.0)

  /**
   * The direction phi = 0, which is what the vector library reports for (0, 0).
   * It is given by its defining property rather than by its coordinates.
   */
  ghost const East: EastDir

  type ZeroVector = v: Vector | IsZero(v) witness Vector(0.0, 0.0)

  /**
   * `vector.obj(x=0, y=0)`. Like `East`, it is given by its defining property
   * rather than by a constructor expression.
   */
  const Zero: ZeroVector

  /** v is its magnitude times its direction d. */
  ghost predicate Recovers(v: Vector, d: Vector) {
    Norm[v] * d.x == v.x && Norm[v] * d.y == v.y
  }

  /**
   * The laws of the angle of a vector, as atan2 computes it in the vector
   * library: the unit direction d with v = |v| * d, and angle 0 for the zero
   * vector.
   */
  ghost predicate IsDirection(f: imap<Vector, Angle>) {
    && (forall v :: v in f)
    && (forall v {:trigger Recovers(v, f[v])} :: Recovers(v, f[v]))
    && f[Zero] == East
  }

  /** v / |v|, or angle 0 for the zero vector; shows that the laws can be met. */
  ghost function UnitDirection(v: Vector): (d: Angle)
    ensures Recovers(v, d)
    ensures IsZero(v) ==> d == East
  {
    NormDefinite(v);
    NormNonNegative(v);
    var n := Norm[v];
    if n == 0.0 then
      assert n * East.x == v.x && n * East.y == v.y;
      East
    else
      var q := 1.0 / n;
      NormScale(q, v);
      assert Abs(q) * n == 1.0;
      var u := Vector(q * v.x, q * v.y);
      assert n * u.x == v.x && n * u.y == v.y by {
        assert n * q == 1.0;
        assert n * (q * v.x) == (n * q) * v.x;
        assert n * (q * v.y) == (n * q) * v.y;
      }
      u
  }

  ghost function UnitDirectionFn(): (f: imap<Vector, Angle>)
    ensures IsDirection(f)
  {
    imap v: Vector :: UnitDirection(v)
  }

  /** An angle function, as the table of its values on every vector. */
  type DirectionFn = f: imap<Vector, Angle> | IsDirection(f) ghost witness UnitDirectionFn()

  /** The angle of a vector, as its unit direction. */
  ghost const Direction: DirectionFn

  datatype Vector = Vector(x: real, y: real) {
    /** The magnitude `rho`, which is also `abs(v)`. */
    ghost function Rho(): (r: real)
      ensures r >= 0.0
      ensures r == 0.0 <==> IsZero(this)
    {
      NormNonNegative(this);
      NormDefinite(this);
      Norm[this]
    }

    /** The angle `phi`, as a unit direction. */
    ghost function Phi(): Angle { Direction[this] }
  }

  /** The polar parts make up the vector: v = |v| * phi. */
  lemma PolarParts(v: Vector)
    ensures v.x == v.Rho() * v.Phi().x && v.y == v.Rho() * v.Phi().y
  {
    assert Recovers(v, Direction[v]);
  }

  /** b == c from a * b == a * c with a != 0. */
  lemma Cancel(a: real, b: real, c: real)
    requires a != 0.0 && a * b == a * c
    ensures b == c
  {
    calc {
      b;
      == (a * b) / a;
      == (a * c) / a;
      == c;
    }
  }

  /** Two non-zero vectors whose coordinates are the same positive multiple of one direction have it as angle. */
  lemma PhiOfMultiple(v: Vector, k: real, d: Angle)
    requires k > 0.0 && v.x == k * d.x && v.y == k * d.y
    ensures v.Phi() == d
  {
    NormScale(k, d);
    assert v == Vector(k * d.x, k * d.y);
    assert v.Rho() == k;
    PolarParts(v);
    Cancel(k, v.Phi().x, d.x);
    Cancel(k, v.Phi().y, d.y);
  }

  /**
   * `vector.obj(rho=rho, phi=phi)`. A magnitude of 0 gives the zero vector,
   * whose angle is 0 whatever phi was.
   */
  ghost function Polar(rho: real, phi: Angle): (v: Vector)
    requires rho >= 0.0
    ensures v.Rho() == rho
    ensures rho > 0.0 ==> v.Phi() == phi
    ensures rho == 0.0 ==> v == Zero
  {
    NormScale(rho, phi);
    var v := Vector(rho * phi.x, rho * phi.y);
    if rho > 0.0 then
      PhiOfMultiple(v, rho, phi);
      v
    else
      v
  }

  /** Rebuilding a vector from its polar parts gives it back. */
  lemma PolarOfParts(v: Vector)
    ensures Polar(v.Rho(), v.Phi()) == v
  {
    PolarParts(v);
  }

  /** A vector is determined by its magnitude and its angle. */
  lemma SamePolar(a: Vector, b: Vector)
    requires a.Rho() == b.Rho() && a.Phi() == b.Phi()
    ensures a == b
  {
    PolarOfParts(a);
    PolarOfParts(b);
  }

  /** `a + b`, coordinate-wise; the vector `Sum(a, b)` of the norm laws. */
  ghost function Add(a: Vector, b: Vector): (r: Vector)
    ensures r.Rho() <= a.Rho() + b.Rho()
  {
    NormTriangle(a, b);
    Vector(a.x + b.x, a.y + b.y)
  }

  /** `a - b`. */
  ghost function Sub(a: Vector, b: Vector): (r: Vector)
    ensures r.Rho() <= a.Rho() + b.Rho()
  {
    var k := -1.0;
    var m := Vector(k * b.x, k * b.y);
    NormScale(k, b);
    NormTriangle(a, m);
    assert Vector(a.x + m.x, a.y + m.y) == Vector(a.x - b.x, a.y - b.y);
    Vector(a.x - b.x, a.y - b.y)
  }

  /**
   * `v * k`: the magnitude scales by |k|; a positive k keeps the angle. It is
   * the vector `Scaled(k, v)` of the norm laws.
   */
  ghost function Scale(v: Vector, k: real): (r: Vector)
    ensures r.Rho() == Abs(k) * v.Rho()
    ensures k > 0.0 ==> r.Phi() == v.Phi()
  {
    NormScale(k, v);
    var r := Vector(k * v.x, k * v.y);
    if k > 0.0 && v.Rho() > 0.0 then
      PolarParts(v);
      assert r.x == (k * v.Rho()) * v.Phi().x && r.y == (k * v.Rho()) * v.Phi().y;
      PhiOfMultiple(r, k * v.Rho(), v.Phi());
      r
    else
      r
  }

  /**
   * `v / k`; the vector library raises on k == 0. The neighbourhood means
   * divide by a non-zero count; the division by the mass needs a mass
   * other than 0, which a boid of size 0 does not have.
   */
  ghost function Div(v: Vector, k: real): (r: Vector)
    requires k != 0.0
    ensures r.Rho() == v.Rho() / Abs(k)
    ensures k > 0.0 ==> r.Phi() == v.Phi()
  {
    var q := 1.0 / k;
    assert Abs(q) * v.Rho() == v.Rho() / Abs(k) by {
      assert Abs(q) == 1.0 / Abs(k);
    }
    Scale(v, q)
  }

  /** Subtraction undoes addition. */
  lemma AddThenSub(a: Vector, b: Vector)
    ensures Sub(Add(a, b), b) == a
  {
  }

  /** Dividing by a non-zero k undoes scaling by k. */
  lemma ScaleThenDiv(v: Vector, k: real)
    requires k != 0.0
    ensures Div(Scale(v, k), k) == v
  {
    assert (1.0 / k) * (k * v.x) == v.x;
    assert (1.0 / k) * (k * v.y) == v.y;
  }

  /** Assigning `v.rho = rho`: the angle stays unless the vector becomes zero. */
  ghost function WithRho(v: Vector, rho: real): (w: Vector)
    requires rho >= 0.0
    ensures w.Rho() == rho
    ensures rho > 0.0 ==> w.Phi() == v.Phi()
  {
    Polar(rho, v.Phi())
  }

  /** `abs(to - from)`: the magnitude of the difference. */
  ghost function Distance(from: Vector, to: Vector): (d: real)
    ensures d >= 0.0
    ensures d == 0.0 <==> from == to
  {
    Sub(to, from).Rho()
  }
}
