/** Quaternion algebra: the componentwise operators, the Hamilton product, the dot product and the
    sign choice of Lerp. The vector part is (x, y, z) and r is the scalar part. */
module Quaternions {
  datatype Quat = Quat(x: real, y: real, z: real, r: real)

  /** The identity rotation. */
  const Identity: Quat := Quat(0.0, 0.0, 0.0, 1.0)
  const ZeroQuat: Quat := Quat(0.0, 0.0, 0.0, 0.0)

  function Add(q: Quat, p: Quat): Quat
  {
    Quat(q.x + p.x, q.y + p.y, q.z + p.z, q.r + p.r)
  }

  function Sub(q: Quat, p: Quat): Quat
  {
    Quat(q.x - p.x, q.y - p.y, q.z - p.z, q.r - p.r)
  }

  function Neg(q: Quat): Quat
  {
    Quat(-q.x, -q.y, -q.z, -q.r)
  }

  /** The Hamilton product q * p. */
  function Mul(q: Quat, p: Quat): Quat
  {
    Quat(q.r * p.x + q.x * p.r + q.y * p.z - q.z * p.y,
         q.r * p.y - q.x * p.z + q.y * p.r + q.z * p.x,
         q.r * p.z + q.x * p.y - q.y * p.x + q.z * p.r,
         q.r * p.r - q.x * p.x - q.y * p.y - q.z * p.z)
  }

  /** Scaling by a float. */
  function Scale(q: Quat, c: real): Quat
  {
    Quat(q.x * c, q.y * c, q.z * c, q.r * c)
  }

  /** Scaling by an int, converted to float first. */
  function ScaleInt(q: Quat, c: int): Quat
  {
    Scale(q, c as real)
  }

  function Dot(q1: Quat, q2: Quat): real
  {
    q1.x * q2.x + q1.y * q2.y + q1.z * q2.z + q1.r * q2.r
  }

  /** Subtraction undoes addition, and negation is its own inverse. */
  lemma AddSubInverse(q: Quat, p: Quat)
    ensures Sub(Add(q, p), p) == q
    ensures Neg(Neg(q)) == q
    ensures Add(q, Neg(q)) == ZeroQuat
    ensures Sub(q, p) == Add(q, Neg(p))
  {
  }

  /** The Hamilton product has the identity as a unit on both sides. */
  lemma MulIdentity(q: Quat)
    ensures Mul(q, Identity) == q && Mul(Identity, q) == q
  {
  }

  /** Scaling acts on every component, an int scale agrees with the corresponding float scale,
      scaling by 1 changes nothing and scaling by -1 negates. */
  lemma ScaleFacts(q: Quat, c: int)
    ensures ScaleInt(q, c) == Quat(q.x * c as real, q.y * c as real, q.z * c as real, q.r * c as real)
    ensures Scale(q, 1.0) == q && Scale(q, -1.0) == Neg(q)
  {
  }

  /** The dot product is symmetric and negating one side negates it. */
  lemma DotSymmetric(q: Quat, p: Quat)
    ensures Dot(q, p) == Dot(p, q)
    ensures Dot(q, Neg(p)) == -Dot(q, p)
  {
  }

  /** The components of the Hamilton product, as equations the lemmas below can take apart. */
  lemma MulComponents(q: Quat, p: Quat)
    ensures Mul(q, p).x == q.r * p.x + q.x * p.r + q.y * p.z - q.z * p.y
    ensures Mul(q, p).y == q.r * p.y - q.x * p.z + q.y * p.r + q.z * p.x
    ensures Mul(q, p).z == q.r * p.z + q.x * p.y - q.y * p.x + q.z * p.r
    ensures Mul(q, p).r == q.r * p.r - q.x * p.x - q.y * p.y - q.z * p.z
  {
  }

  /** Associativity on plain reals, one component at a time: a holds the components of q * p and u
      those of p * s, and the component of a * s equals that of q * u. */
  lemma AssociativeX(qx: real, qy: real, qz: real, qr: real, px: real, py: real, pz: real, pr: real,
                      sx: real, sy: real, sz: real, sr: real, ax: real, ay: real, az: real, ar: real,
                      ux: real, uy: real, uz: real, ur: real)
    requires ax == qr * px + qx * pr + qy * pz - qz * py && ay == qr * py - qx * pz + qy * pr + qz * px
    requires az == qr * pz + qx * py - qy * px + qz * pr && ar == qr * pr - qx * px - qy * py - qz * pz
    requires ux == pr * sx + px * sr + py * sz - pz * sy && uy == pr * sy - px * sz + py * sr + pz * sx
    requires uz == pr * sz + px * sy - py * sx + pz * sr && ur == pr * sr - px * sx - py * sy - pz * sz
    ensures ar * sx + ax * sr + ay * sz - az * sy == qr * ux + qx * ur + qy * uz - qz * uy
  {
  }

  lemma AssociativeY(qx: real, qy: real, qz: real, qr: real, px: real, py: real, pz: real, pr: real,
                      sx: real, sy: real, sz: real, sr: real, ax: real, ay: real, az: real, ar: real,
                      ux: real, uy: real, uz: real, ur: real)
    requires ax == qr * px + qx * pr + qy * pz - qz * py && ay == qr * py - qx * pz + qy * pr + qz * px
    requires az == qr * pz + qx * py - qy * px + qz * pr && ar == qr * pr - qx * px - qy * py - qz * pz
    requires ux == pr * sx + px * sr + py * sz - pz * sy && uy == pr * sy - px * sz + py * sr + pz * sx
    requires uz == pr * sz + px * sy - py * sx + pz * sr && ur == pr * sr - px * sx - py * sy - pz * sz
    ensures ar * sy - ax * sz + ay * sr + az * sx == qr * uy - qx * uz + qy * ur + qz * ux
  {
  }

  lemma AssociativeZ(qx: real, qy: real, qz: real, qr: real, px: real, py: real, pz: real, pr: real,
                      sx: real, sy: real, sz: real, sr: real, ax: real, ay: real, az: real, ar: real,
                      ux: real, uy: real, uz: real, ur: real)
    requires ax == qr * px + qx * pr + qy * pz - qz * py && ay == qr * py - qx * pz + qy * pr + qz * px
    requires az == qr * pz + qx * py - qy * px + qz * pr && ar == qr * pr - qx * px - qy * py - qz * pz
    requires ux == pr * sx + px * sr + py * sz - pz * sy && uy == pr * sy - px * sz + py * sr + pz * sx
    requires uz == pr * sz + px * sy - py * sx + pz * sr && ur == pr * sr - px * sx - py * sy - pz * sz
    ensures ar * sz + ax * sy - ay * sx + az * sr == qr * uz + qx * uy - qy * ux + qz * ur
  {
  }

  lemma AssociativeR(qx: real, qy: real, qz: real, qr: real, px: real, py: real, pz: real, pr: real,
                      sx: real, sy: real, sz: real, sr: real, ax: real, ay: real, az: real, ar: real,
                      ux: real, uy: real, uz: real, ur: real)
    requires ax == qr * px + qx * pr + qy * pz - qz * py && ay == qr * py - qx * pz + qy * pr + qz * px
    requires az == qr * pz + qx * py - qy * px + qz * pr && ar == qr * pr - qx * px - qy * py - qz * pz
    requires ux == pr * sx + px * sr + py * sz - pz * sy && uy == pr * sy - px * sz + py * sr + pz * sx
    requires uz == pr * sz + px * sy - py * sx + pz * sr && ur == pr * sr - px * sx - py * sy - pz * sz
    ensures ar * sr - ax * sx - ay * sy - az * sz == qr * ur - qx * ux - qy * uy - qz * uz
  {
  }

  /** Associativity carried over to one component of the quaternions. */
  lemma MulAssociativeX(q: Quat, p: Quat, s: Quat)
    ensures Mul(Mul(q, p), s).x == Mul(q, Mul(p, s)).x
  {
    var a, u := Mul(q, p), Mul(p, s);
    MulComponents(q, p);
    MulComponents(p, s);
    AssociativeX(q.x, q.y, q.z, q.r, p.x, p.y, p.z, p.r, s.x, s.y, s.z, s.r,
                    a.x, a.y, a.z, a.r, u.x, u.y, u.z, u.r);
  }

  lemma MulAssociativeY(q: Quat, p: Quat, s: Quat)
    ensures Mul(Mul(q, p), s).y == Mul(q, Mul(p, s)).y
  {
    var a, u := Mul(q, p), Mul(p, s);
    MulComponents(q, p);
    MulComponents(p, s);
    AssociativeY(q.x, q.y, q.z, q.r, p.x, p.y, p.z, p.r, s.x, s.y, s.z, s.r,
                    a.x, a.y, a.z, a.r, u.x, u.y, u.z, u.r);
  }

  lemma MulAssociativeZ(q: Quat, p: Quat, s: Quat)
    ensures Mul(Mul(q, p), s).z == Mul(q, Mul(p, s)).z
  {
    var a, u := Mul(q, p), Mul(p, s);
    MulComponents(q, p);
    MulComponents(p, s);
    AssociativeZ(q.x, q.y, q.z, q.r, p.x, p.y, p.z, p.r, s.x, s.y, s.z, s.r,
                    a.x, a.y, a.z, a.r, u.x, u.y, u.z, u.r);
  }

  lemma MulAssociativeR(q: Quat, p: Quat, s: Quat)
    ensures Mul(Mul(q, p), s).r == Mul(q, Mul(p, s)).r
  {
    var a, u := Mul(q, p), Mul(p, s);
    MulComponents(q, p);
    MulComponents(p, s);
    AssociativeR(q.x, q.y, q.z, q.r, p.x, p.y, p.z, p.r, s.x, s.y, s.z, s.r,
                    a.x, a.y, a.z, a.r, u.x, u.y, u.z, u.r);
  }

  /** The Hamilton product is associative, so composing three rotations does not depend on the
      grouping. */
  lemma MulAssociative(q: Quat, p: Quat, s: Quat)
    ensures Mul(Mul(q, p), s) == Mul(q, Mul(p, s))
  {
    MulAssociativeX(q, p, s);
    MulAssociativeY(q, p, s);
    MulAssociativeZ(q, p, s);
    MulAssociativeR(q, p, s);
  }

  /** Distributivity on plain reals: w holds the components of p + s, a those of q * p and t those
      of q * s, and each component of q * w is the sum of those of a and t. */
  lemma DistributiveComponents(qx: real, qy: real, qz: real, qr: real, px: real, py: real, pz: real, pr: real,
                               sx: real, sy: real, sz: real, sr: real, wx: real, wy: real, wz: real, wr: real,
                               ax: real, ay: real, az: real, ar: real, tx: real, ty: real, tz: real, tr: real)
    requires wx == px + sx && wy == py + sy && wz == pz + sz && wr == pr + sr
    requires ax == qr * px + qx * pr + qy * pz - qz * py && ay == qr * py - qx * pz + qy * pr + qz * px
    requires az == qr * pz + qx * py - qy * px + qz * pr && ar == qr * pr - qx * px - qy * py - qz * pz
    requires tx == qr * sx + qx * sr + qy * sz - qz * sy && ty == qr * sy - qx * sz + qy * sr + qz * sx
    requires tz == qr * sz + qx * sy - qy * sx + qz * sr && tr == qr * sr - qx * sx - qy * sy - qz * sz
    ensures qr * wx + qx * wr + qy * wz - qz * wy == ax + tx
    ensures qr * wy - qx * wz + qy * wr + qz * wx == ay + ty
    ensures qr * wz + qx * wy - qy * wx + qz * wr == az + tz
    ensures qr * wr - qx * wx - qy * wy - qz * wz == ar + tr
  {
  }

  /** The Hamilton product distributes over addition: q * (p + s) == q * p + q * s. */
  lemma MulDistributes(q: Quat, p: Quat, s: Quat)
    ensures Mul(q, Add(p, s)) == Add(Mul(q, p), Mul(q, s))
  {
    var w, a, b := Add(p, s), Mul(q, p), Mul(q, s);
    MulComponents(q, w);
    MulComponents(q, p);
    MulComponents(q, s);
    DistributiveComponents(q.x, q.y, q.z, q.r, p.x, p.y, p.z, p.r, s.x, s.y, s.z, s.r,
                           w.x, w.y, w.z, w.r, a.x, a.y, a.z, a.r, b.x, b.y, b.z, b.r);
  }

  /** Euler's four-square identity on plain reals: a holds the components of q * p. */
  lemma FourSquares(qx: real, qy: real, qz: real, qr: real, px: real, py: real, pz: real, pr: real,
                    ax: real, ay: real, az: real, ar: real)
    requires ax == qr * px + qx * pr + qy * pz - qz * py && ay == qr * py - qx * pz + qy * pr + qz * px
    requires az == qr * pz + qx * py - qy * px + qz * pr && ar == qr * pr - qx * px - qy * py - qz * pz
    ensures ax * ax + ay * ay + az * az + ar * ar
         == (qx * qx + qy * qy + qz * qz + qr * qr) * (px * px + py * py + pz * pz + pr * pr)
  {
  }

  /** The squared norm q · q is multiplicative: |q * p|^2 == |q|^2 |p|^2. Hence the product of two
      unit quaternions is again a unit quaternion. */
  lemma MulNormMultiplicative(q: Quat, p: Quat)
    ensures Dot(Mul(q, p), Mul(q, p)) == Dot(q, q) * Dot(p, p)
    ensures Dot(q, q) == 1.0 && Dot(p, p) == 1.0 ==> Dot(Mul(q, p), Mul(q, p)) == 1.0
  {
    var a := Mul(q, p);
    MulComponents(q, p);
    FourSquares(q.x, q.y, q.z, q.r, p.x, p.y, p.z, p.r, a.x, a.y, a.z, a.r);
  }

  /** The dot product of a quaternion with itself is a sum of squares, so never negative. */
  lemma DotSelf(q: Quat)
    ensures Dot(q, q) >= 0.0
  {
    Square(q.x);
    Square(q.y);
    Square(q.z);
    Square(q.r);
  }

  lemma Square(a: real)
    ensures a * a >= 0.0
  {
  }

  /** Linear interpolation between two reals. */
  function LerpReal(a: real, b: real, t: real): real
  {
    a + (b - a) * t
  }

  function LerpComponents(q1: Quat, q2: Quat, t: real): Quat
  {
    Quat(LerpReal(q1.x, q2.x, t), LerpReal(q1.y, q2.y, t), LerpReal(q1.z, q2.z, t), LerpReal(q1.r, q2.r, t))
  }

  /** Lerp as written: it keeps q2 when the dot product is negative and negates it otherwise. */
  function LerpAsWritten(q1: Quat, q2: Quat, t: real): Quat
  {
    var tempQ2 := if Dot(q1, q2) < 0.0 then q2 else Neg(q2);
    LerpComponents(q1, tempQ2, t)
  }

  /** As written, interpolating a quaternion with itself goes through the zero quaternion halfway,
      where it should stay put: the sign choice is inverted. */
  lemma LerpAsWrittenCollapses()
    ensures LerpAsWritten(Identity, Identity, 0.5) == ZeroQuat
    ensures LerpAsWritten(Identity, Identity, 1.0) == Neg(Identity)
  {
  }

  /** The rule the comment describes: flip q2 onto q1's hemisphere when they are more than 180
      degrees apart, so the interpolation takes the short path. */
  function Lerp(q1: Quat, q2: Quat, t: real): Quat
  {
    var tempQ2 := if Dot(q1, q2) < 0.0 then Neg(q2) else q2;
    LerpComponents(q1, tempQ2, t)
  }

  /** The corrected Lerp interpolates toward a target on q1's side (never more than 180 degrees
      away), starts at q1, ends at q2 or its equivalent -q2, and stays put between equal inputs. */
  lemma LerpShortPath(q1: Quat, q2: Quat, t: real)
    ensures var target := if Dot(q1, q2) < 0.0 then Neg(q2) else q2;
      Dot(q1, target) >= 0.0 && Lerp(q1, q2, t) == LerpComponents(q1, target, t)
    ensures Lerp(q1, q2, 0.0) == q1
    ensures Lerp(q1, q2, 1.0) == q2 || Lerp(q1, q2, 1.0) == Neg(q2)
    ensures Lerp(q1, q1, t) == q1
  {
    DotSymmetric(q1, q2);
    DotSelf(q1);
  }

  /** A quaternion variable, for the compound assignments that update it in place. */
  class QuaternionVar {
    var x: real
    var y: real
    var z: real
    var r: real

    function Value(): Quat
      reads this
    {
      Quat(x, y, z, r)
    }

    constructor (q: Quat)
      ensures Value() == q
    {
      x, y, z, r := q.x, q.y, q.z, q.r;
    }

    /** += agrees with +. */
    method AddAssign(q: Quat)
      modifies this
      ensures Value() == Add(old(Value()), q)
    {
      x := x + q.x;
      y := y + q.y;
      z := z + q.z;
      r := r + q.r;
    }

    /** -= agrees with -. */
    method SubAssign(q: Quat)
      modifies this
      ensures Value() == Sub(old(Value()), q)
    {
      x := x - q.x;
      y := y - q.y;
      z := z - q.z;
      r := r - q.r;
    }

    /** *= by a float agrees with *. */
    method ScaleAssign(c: real)
      modifies this
      ensures Value() == Scale(old(Value()), c)
    {
      r := r * c;
      x := x * c;
      y := y * c;
      z := z * c;
    }

    /** *= by an int agrees with *. */
    method ScaleIntAssign(c: int)
      modifies this
      ensures Value() == ScaleInt(old(Value()), c)
    {
      r := r * c as real;
      x := x * c as real;
      y := y * c as real;
      z := z * c as real;
    }
  }
}
