/** Matrices as symbolic values: the model never multiplies numbers in a 4x4 matrix; it records how a
    matrix was composed. Applying a matrix to a point needs a rotation, which the caller supplies. */
module Matrices {
  import opened Vectors

  datatype Matrix =
    | Identity
      /** translate(position) * rotation(Euler degrees) * scale(scale), as the scene-graph updater composes it */
    | Local(position: Vec3, rotation: Vec3, scale: Vec3)
    | Product(left: Matrix, right: Matrix)
      /** a matrix produced outside the core (camera view-projection, orthographic projection) */
    | Opaque(tag: int)

  /** Rotating a vector by Euler angles (degrees); trigonometry is outside the model. */
  type Rotation = (Vec3, Vec3) -> Vec3

  /** The image of point v under m; undefined for external matrices, which map every point to the origin here. */
  function Apply(m: Matrix, v: Vec3, rot: Rotation): Vec3
  {
    match m
    case Identity => v
    case Local(t, r, s) => Add(t, rot(r, Hadamard(s, v)))
    case Product(a, b) => Apply(a, Apply(b, v, rot), rot)
    case Opaque(_) => Zero3
  }

  /** A rotation that leaves every vector alone when all angles are zero. */
  ghost predicate ZeroRotationIsIdentity(rot: Rotation)
  {
    forall v: Vec3 {:trigger rot(Zero3, v)} :: rot(Zero3, v) == v
  }
}
