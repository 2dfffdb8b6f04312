/** Three-component points and vectors, axis-aligned boxes, and the
    abstract Euclidean length that stands in for `Math.hypot`. */
module Vectors {
  import opened Numbers

  datatype Vec3 = Vec3(x: real, y: real, z: real)

  const Zero: Vec3 := Vec3(0.0, 0.0, 0.0)

  function Add(a: Vec3, b: Vec3): Vec3 {
    Vec3(a.x + b.x, a.y + b.y, a.z + b.z)
  }

  function Sub(a: Vec3, b: Vec3): Vec3 {
    Vec3(a.x - b.x, a.y - b.y, a.z - b.z)
  }

  function Scale(a: Vec3, k: real): Vec3 {
    Vec3(a.x * k, a.y * k, a.z * k)
  }

  function Dot(a: Vec3, b: Vec3): real {
    a.x * b.x + a.y * b.y + a.z * b.z
  }

  function Cross(a: Vec3, b: Vec3): Vec3 {
    Vec3(a.y * b.z - a.z * b.y, a.z * b.x - a.x * b.z, a.x * b.y - a.y * b.x)
  }

  function AbsVec(v: Vec3): Vec3 {
    Vec3(Abs(v.x), Abs(v.y), Abs(v.z))
  }

  /** Linear interpolation `from + (to - from) * u`, written per component in
      the same shape as the planner and the carver compute it. */
  function Lerp(from: Vec3, to: Vec3, u: real): (r: Vec3)
    ensures u == 0.0 ==> r == from
    ensures u == 1.0 ==> r == to
  {
    Vec3(from.x + (to.x - from.x) * u,
         from.y + (to.y - from.y) * u,
         from.z + (to.z - from.z) * u)
  }

  /** The properties of `Math.hypot(dx, dy, dz)` that the model relies on:
      it is at least the magnitude of each component (hence non-negative and
      zero only at the origin), it is exact on vectors along one axis, and it
      ignores the signs of the components. The Euclidean length has all
      three; the model never depends on which function it is beyond them. */
  ghost predicate IsHypot(h: Vec3 -> real) {
    && (forall v :: h(v) >= v.x && h(v) >= -v.x && h(v) >= v.y && h(v) >= -v.y
                    && h(v) >= v.z && h(v) >= -v.z)
    && (forall a :: h(Vec3(a, 0.0, 0.0)) == Abs(a))
    && (forall a :: h(Vec3(0.0, a, 0.0)) == Abs(a))
    && (forall a :: h(Vec3(0.0, 0.0, a)) == Abs(a))
    && (forall v {:trigger AbsVec(v)} :: h(v) == h(AbsVec(v)))
  }

  /** The Manhattan length, which also has every property `IsHypot` asks
      for; it only shows that such functions exist. */
  function Manhattan(v: Vec3): (r: real)
    ensures r >= v.x && r >= -v.x && r >= v.y && r >= -v.y && r >= v.z && r >= -v.z
    ensures v.y == 0.0 && v.z == 0.0 ==> r == Abs(v.x)
    ensures v.x == 0.0 && v.z == 0.0 ==> r == Abs(v.y)
    ensures v.x == 0.0 && v.y == 0.0 ==> r == Abs(v.z)
  {
    Abs(v.x) + Abs(v.y) + Abs(v.z)
  }

  /** A length function on vectors. The operations of the model take the
      one they measure with as a parameter. */
  type Length = Vec3 -> real

  /** The length functions with the properties of `Math.hypot`. */
  type Hypot = h: Length | IsHypot(h)
    witness Manhattan

  /** Distance between two points, `Math.hypot(b.x - a.x, b.y - a.y, b.z - a.z)`. */
  function Dist(h: Length, a: Vec3, b: Vec3): real {
    h(Sub(b, a))
  }

  lemma DistProperties(h: Hypot, a: Vec3, b: Vec3)
    ensures Dist(h, a, b) >= 0.0
    ensures Dist(h, a, b) == 0.0 <==> a == b
    ensures Dist(h, a, b) == Dist(h, b, a)
  {
    assert AbsVec(Sub(b, a)) == AbsVec(Sub(a, b));
    if Dist(h, a, b) == 0.0 {
      assert Abs(b.x - a.x) <= 0.0 && Abs(b.y - a.y) <= 0.0 && Abs(b.z - a.z) <= 0.0;
    }
    if a == b {
      assert Sub(b, a) == Vec3(0.0, 0.0, 0.0);
      assert h(Vec3(0.0, 0.0, 0.0)) == Abs(0.0);
    }
  }

  /** A move along the X axis alone is as long as its X extent. */
  lemma DistAlongX(h: Hypot, a: Vec3, b: Vec3)
    requires a.y == b.y && a.z == b.z
    ensures Dist(h, a, b) == Abs(b.x - a.x)
  {
    assert Sub(b, a) == Vec3(b.x - a.x, 0.0, 0.0);
  }

  /** An axis-aligned box with inclusive bounds. */
  datatype Aabb = Aabb(min: Vec3, max: Vec3)
}
