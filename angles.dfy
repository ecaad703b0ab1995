/** The angle helpers of the transform component: C's fmod by 360 followed by a shift into the
    non-negative range, applied per Euler component. Over the reals the result lies in [0, 360). */
module Angles {
  import opened Vectors

  /** Truncation toward zero, the rounding C's fmod uses for its quotient. */
  function Trunc(v: real): (k: int)
    ensures v >= 0.0 ==> k as real <= v < k as real + 1.0
    ensures v < 0.0 ==> k as real - 1.0 < v <= k as real
  {
    if v >= 0.0 then v.Floor else -((-v).Floor)
  }

  /** fmod(angle, 360): the remainder carries the sign of the dividend. */
  function FMod360(angle: real): (m: real)
    ensures angle >= 0.0 ==> 0.0 <= m < 360.0
    ensures angle < 0.0 ==> -360.0 < m <= 0.0
    ensures angle - m == 360.0 * (Trunc(angle / 360.0) as real)
  {
    angle - 360.0 * (Trunc(angle / 360.0) as real)
  }

  /** k whole turns, in degrees. */
  function Turns(k: int): real
  {
    360.0 * (k as real)
  }

  /** a and b denote the same direction: they differ by a whole number of turns. */
  ghost predicate SameAngle(a: real, b: real)
  {
    exists k: int :: a - b == Turns(k)
  }

  /** NormalizeAngle: the representative of the angle in [0, 360). */
  function NormalizeAngle(angle: real): (r: real)
    ensures 0.0 <= r < 360.0
    ensures SameAngle(r, angle)
  {
    var m := FMod360(angle);
    var k := Trunc(angle / 360.0);
    if m < 0.0 then
      assert (m + 360.0) - angle == Turns(1 - k);
      m + 360.0
    else
      assert m - angle == Turns(-k);
      m
  }

  /** Two angles have the same normal form exactly when they are the same direction. */
  lemma NormalizeAngleCanonical(a: real, b: real)
    ensures NormalizeAngle(a) == NormalizeAngle(b) <==> SameAngle(a, b)
  {
    var ra, rb := NormalizeAngle(a), NormalizeAngle(b);
    var ka: int :| ra - a == Turns(ka);
    var kb: int :| rb - b == Turns(kb);
    if SameAngle(a, b) {
      var k: int :| a - b == Turns(k);
      assert ra - rb == Turns(ka - kb + k);
      var d := ka - kb + k;
      assert -360.0 < Turns(d) < 360.0;
      assert d == 0;
    }
    if ra == rb {
      assert a - b == Turns(kb - ka);
    }
  }

  /** An angle already in [0, 360) is its own normal form, so normalising twice changes nothing. */
  lemma NormalizeAngleFixpoint(a: real)
    ensures 0.0 <= a < 360.0 ==> NormalizeAngle(a) == a
    ensures NormalizeAngle(NormalizeAngle(a)) == NormalizeAngle(a)
  {
    if 0.0 <= a < 360.0 {
      assert Trunc(a / 360.0) == 0;
    }
    var r := NormalizeAngle(a);
    assert Trunc(r / 360.0) == 0;
  }

  /** NormalizeAngles: each Euler component normalised. */
  function NormalizeAngles(v: Vec3): (r: Vec3)
    ensures AnglesNormalized(r)
  {
    Vec3(NormalizeAngle(v.x), NormalizeAngle(v.y), NormalizeAngle(v.z))
  }

  predicate AnglesNormalized(v: Vec3)
  {
    0.0 <= v.x < 360.0 && 0.0 <= v.y < 360.0 && 0.0 <= v.z < 360.0
  }

  lemma NormalizeAnglesFixpoint(v: Vec3)
    ensures AnglesNormalized(v) ==> NormalizeAngles(v) == v
    ensures NormalizeAngles(NormalizeAngles(v)) == NormalizeAngles(v)
  {
    NormalizeAngleFixpoint(v.x);
    NormalizeAngleFixpoint(v.y);
    NormalizeAngleFixpoint(v.z);
  }

  /** CalculateAngularRotation: the normalised per-axis difference v2 - v1. */
  function CalculateAngularRotation(v1: Vec3, v2: Vec3): (r: Vec3)
    ensures AnglesNormalized(r)
  {
    NormalizeAngles(Vec3(v2.x - v1.x, v2.y - v1.y, v2.z - v1.z))
  }

  /** Turning v1 by the angular difference reaches the direction of v2 on every axis. */
  lemma AngularRotationReachesTarget(v1: Vec3, v2: Vec3)
    ensures NormalizeAngles(Add(v1, CalculateAngularRotation(v1, v2))) == NormalizeAngles(v2)
  {
    var d := CalculateAngularRotation(v1, v2);
    SameAngleAfterShift(v1.x, v2.x, d.x);
    SameAngleAfterShift(v1.y, v2.y, d.y);
    SameAngleAfterShift(v1.z, v2.z, d.z);
  }

  lemma SameAngleAfterShift(a: real, b: real, d: real)
    requires d == NormalizeAngle(b - a)
    ensures NormalizeAngle(a + d) == NormalizeAngle(b)
  {
    var k: int :| d - (b - a) == Turns(k);
    assert (a + d) - b == Turns(k);
    NormalizeAngleCanonical(a + d, b);
  }
}
