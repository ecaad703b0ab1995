/** Three- and two-component real vectors (the engine's Vector3 and Vector2), with the componentwise
    operations the core uses. Floating-point rounding is not modelled: components are reals. */
module Vectors {

  datatype Vec3 = Vec3(x: real, y: real, z: real)
  datatype Vec2 = Vec2(x: real, y: real)

  const Zero3: Vec3 := Vec3(0.0, 0.0, 0.0)
  const One3: Vec3 := Vec3(1.0, 1.0, 1.0)

  function Add(a: Vec3, b: Vec3): Vec3 { Vec3(a.x + b.x, a.y + b.y, a.z + b.z) }
  function Sub(a: Vec3, b: Vec3): Vec3 { Vec3(a.x - b.x, a.y - b.y, a.z - b.z) }

  /** Componentwise product. */
  function Hadamard(a: Vec3, b: Vec3): Vec3 { Vec3(a.x * b.x, a.y * b.y, a.z * b.z) }

  predicate NonZeroComponents(a: Vec3) { a.x != 0.0 && a.y != 0.0 && a.z != 0.0 }

  /** Componentwise quotient; the source divides by each component without a check. */
  function Quotient(a: Vec3, b: Vec3): Vec3
    requires NonZeroComponents(b)
  {
    Vec3(a.x / b.x, a.y / b.y, a.z / b.z)
  }

  /** Scaling back up by the divisor undoes the quotient. */
  lemma HadamardQuotient(a: Vec3, b: Vec3)
    requires NonZeroComponents(b)
    ensures Hadamard(b, Quotient(a, b)) == a
  {
  }

  /** Squared Euclidean distance. Distances are only compared, so the model orders by their squares. */
  function DistSq(a: Vec3, b: Vec3): (d: real)
    ensures d >= 0.0
  {
    var dx, dy, dz := a.x - b.x, a.y - b.y, a.z - b.z;
    dx * dx + dy * dy + dz * dz
  }

  /** std::clamp(v, lo, hi). */
  function Clamp(v: real, lo: real, hi: real): (r: real)
    requires lo <= hi
    ensures lo <= r <= hi
    ensures lo <= v <= hi ==> r == v
    ensures v < lo ==> r == lo
    ensures hi < v ==> r == hi
  {
    if v < lo then lo else if hi < v then hi else v
  }

  function Clamp01(v: real): (r: real)
    ensures 0.0 <= r <= 1.0
  {
    Clamp(v, 0.0, 1.0)
  }

  /** Each component clamped to [0, 1]. */
  function ClampVec01(v: Vec3): (r: Vec3)
    ensures 0.0 <= r.x <= 1.0 && 0.0 <= r.y <= 1.0 && 0.0 <= r.z <= 1.0
  {
    Vec3(Clamp01(v.x), Clamp01(v.y), Clamp01(v.z))
  }

  predicate InUnitCube(v: Vec3) { 0.0 <= v.x <= 1.0 && 0.0 <= v.y <= 1.0 && 0.0 <= v.z <= 1.0 }

  lemma SubThenAdd(a: Vec3, b: Vec3)
    ensures Add(Sub(a, b), b) == a
  {
  }

  lemma ClampVec01Idempotent(v: Vec3)
    ensures ClampVec01(ClampVec01(v)) == ClampVec01(v)
    ensures InUnitCube(v) ==> ClampVec01(v) == v
  {
  }
}
