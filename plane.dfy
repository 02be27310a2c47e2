/**
 * A plane in Hessian form: the points `p` with `normal · p + constant == 0`.
 *
 * The plane owns a mutable `Vector3` for its normal, which the constructor may
 * share with the caller; the setters copy into it. Coordinates are exact reals.
 */
module Planes {
  import opened Wrappers

  /** The value of a vector: three coordinates. */
  datatype Vec3 = Vec3(x: real, y: real, z: real)

  function Dot(a: Vec3, b: Vec3): real
  {
    a.x * b.x + a.y * b.y + a.z * b.z
  }

  function Scale(a: Vec3, k: real): Vec3
  {
    Vec3(a.x * k, a.y * k, a.z * k)
  }

  /** The signed distance from `p` to the plane `normal · x + constant == 0`, for a unit normal. */
  function SignedDistance(normal: Vec3, constant: real, p: Vec3): real
  {
    Dot(normal, p) + constant
  }

  /** The dot product does not depend on the order of its arguments. */
  lemma DotSymmetric(a: Vec3, b: Vec3)
    ensures Dot(a, b) == Dot(b, a)
  {
    assert a.x * b.x == b.x * a.x && a.y * b.y == b.y * a.y && a.z * b.z == b.z * a.z;
  }

  /** A plane through `point` with the given normal contains that point. */
  lemma ThroughPointContainsIt(normal: Vec3, point: Vec3)
    ensures SignedDistance(normal, -Dot(point, normal), point) == 0.0
  {
    DotSymmetric(point, normal);
  }

  /** Scaling a vector scales its dot products. */
  lemma DotScale(a: Vec3, b: Vec3, k: real)
    ensures Dot(a, Scale(b, k)) == Dot(a, b) * k
  {
    assert a.x * (b.x * k) == (a.x * b.x) * k;
    assert a.y * (b.y * k) == (a.y * b.y) * k;
    assert a.z * (b.z * k) == (a.z * b.z) * k;
  }

  /**
   * The point `-constant · normal` lies on the plane when the normal has unit
   * length; in general its signed distance is `constant · (1 - |normal|²)`.
   */
  lemma CoplanarPointOnPlane(normal: Vec3, constant: real)
    ensures SignedDistance(normal, constant, Scale(normal, -constant)) == constant * (1.0 - Dot(normal, normal))
    ensures Dot(normal, normal) == 1.0 ==> SignedDistance(normal, constant, Scale(normal, -constant)) == 0.0
  {
    DotScale(normal, normal, -constant);
    assert Dot(normal, normal) * -constant == -(constant * Dot(normal, normal));
  }

  /** A mutable 3D vector, as the plane stores its normal and returns points. */
  class Vector3 {
    var x: real
    var y: real
    var z: real

    function Value(): Vec3
      reads this
    {
      Vec3(x, y, z)
    }

    method MultiplyScalar(k: real)
      modifies this
      ensures Value() == Scale(old(Value()), k)
    {
      x, y, z := x * k, y * k, z * k;
    }

    constructor (x: real, y: real, z: real)
      ensures Value() == Vec3(x, y, z)
    {
      this.x := x;
      this.y := y;
      this.z := z;
    }
  }

  class Plane {
    /** The normal vector; the constructor keeps the caller's object when one is given. */
    const normal: Vector3
    var constant: real

    /** The plane with the given normal (absent: a new (1, 0, 0)) and constant (absent: 0). */
    constructor (normal: Option<Vector3>, constant: Option<real>)
      ensures normal.Some? ==> this.normal == normal.value
      ensures normal.None? ==> fresh(this.normal) && this.normal.Value() == Vec3(1.0, 0.0, 0.0)
      ensures this.constant == constant.GetOr(0.0)
    {
      if normal.Some? {
        this.normal := normal.value;
      } else {
        this.normal := new Vector3(1.0, 0.0, 0.0);
      }
      this.constant := constant.GetOr(0.0);
    }

    /** Copies `normal` into this plane's normal and sets the constant. */
    method Set(normal: Vector3, constant: real) returns (self: Plane)
      modifies this`constant, this.normal
      ensures self == this
      ensures this.normal.Value() == old(normal.Value()) && this.constant == constant
    {
      this.normal.x, this.normal.y, this.normal.z := normal.x, normal.y, normal.z;
      this.constant := constant;
      return this;
    }

    method SetComponents(x: real, y: real, z: real, w: real) returns (self: Plane)
      modifies this`constant, this.normal
      ensures self == this
      ensures normal.Value() == Vec3(x, y, z) && constant == w
    {
      normal.x, normal.y, normal.z := x, y, z;
      constant := w;
      return this;
    }

    /**
     * The plane with the given normal through `point`; the point then lies
     * on the plane, unless `point` is this plane's own normal vector, which
     * the copy overwrites first.
     */
    method SetFromNormalAndCoplanarPoint(normal: Vector3, point: Vector3) returns (self: Plane)
      modifies this`constant, this.normal
      ensures self == this
      ensures this.normal.Value() == old(normal.Value())
      ensures this.constant == -Dot(point.Value(), this.normal.Value())
      ensures point != this.normal ==> point.Value() == old(point.Value())
      ensures DistanceToPoint(point) == 0.0
    {
      this.normal.x, this.normal.y, this.normal.z := normal.x, normal.y, normal.z;
      this.constant := -(point.x * this.normal.x + point.y * this.normal.y + point.z * this.normal.z);
      ThroughPointContainsIt(this.normal.Value(), point.Value());
      return this;
    }

    /** The signed distance from `point` to the plane (exact for a unit normal). */
    function DistanceToPoint(point: Vector3): (d: real)
      reads this, normal, point
      ensures d == SignedDistance(normal.Value(), constant, point.Value())
    {
      normal.x * point.x + normal.y * point.y + normal.z * point.z + constant
    }

    /**
     * The point `-constant · normal`, written into `target` when given (else a
     * new vector), which is returned; on the plane when the normal has unit
     * length and `target` is not the normal itself.
     */
    method CoplanarPoint(target: Option<Vector3>) returns (result: Vector3)
      modifies if target.Some? then {target.value} else {}
      ensures target.Some? ==> result == target.value
      ensures target.None? ==> fresh(result)
      ensures result.Value() == Scale(old(normal.Value()), -constant)
      ensures result != normal ==> normal.Value() == old(normal.Value())
      ensures result != normal && Dot(normal.Value(), normal.Value()) == 1.0 ==> DistanceToPoint(result) == 0.0
    {
      if target.Some? {
        result := target.value;
      } else {
        result := new Vector3(0.0, 0.0, 0.0);
      }
      ghost var n := normal.Value();
      result.x, result.y, result.z := normal.x, normal.y, normal.z;
      result.MultiplyScalar(-constant);
      if result != normal {
        assert normal.Value() == n;
        CoplanarPointOnPlane(n, constant);
      }
    }

    /** Makes this plane equal to `plane`, copying the normal's coordinates. */
    method Copy(plane: Plane) returns (self: Plane)
      modifies this`constant, this.normal
      ensures self == this
      ensures normal.Value() == old(plane.normal.Value()) && constant == old(plane.constant)
    {
      normal.x, normal.y, normal.z := plane.normal.x, plane.normal.y, plane.normal.z;
      constant := plane.constant;
      return this;
    }
  }
}
