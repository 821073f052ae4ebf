/** Three-component real vectors, used both for positions (three.js Vector3)
    and for Euler angles (three.js Euler), and the linear interpolation that
    both the per-frame camera moves and the eased transitions use. */
module Vectors {

  datatype Vec3 = Vec3(x: real, y: real, z: real)

  const Zero := Vec3(0.0, 0.0, 0.0)

  /** `v` lies on the closed segment between `a` and `b`, whichever is larger. */
  predicate Between(a: real, b: real, v: real) {
    (a <= v <= b) || (b <= v <= a)
  }

  /** The absolute value of a real. */
  function Abs(v: real): (r: real)
    ensures r >= 0.0
    ensures r == v || r == -v
  {
    if v < 0.0 then -v else v
  }

  /** One scalar step of `a + (b - a) * k`. */
  function LerpScalar(a: real, b: real, k: real): real {
    a + (b - a) * k
  }

  /** Vector3.lerp(b, k) applied to `a`: every component moves the fraction
      `k` of the way towards `b`. */
  function Lerp(a: Vec3, b: Vec3, k: real): Vec3 {
    Vec3(LerpScalar(a.x, b.x, k), LerpScalar(a.y, b.y, k), LerpScalar(a.z, b.z, k))
  }

  /** A scalar step leaves the fraction `1 - k` of the gap to the target. */
  lemma LerpScalarGap(a: real, b: real, k: real)
    ensures LerpScalar(a, b, k) - b == (1.0 - k) * (a - b)
  {
    assert (b - a) * k == -(k * (a - b));
  }

  /** Vector3.lerp leaves, in every component, the fraction `1 - k` of the gap to the target. */
  lemma LerpGap(a: Vec3, b: Vec3, k: real)
    ensures Lerp(a, b, k).x - b.x == (1.0 - k) * (a.x - b.x)
    ensures Lerp(a, b, k).y - b.y == (1.0 - k) * (a.y - b.y)
    ensures Lerp(a, b, k).z - b.z == (1.0 - k) * (a.z - b.z)
  {
    LerpScalarGap(a.x, b.x, k);
    LerpScalarGap(a.y, b.y, k);
    LerpScalarGap(a.z, b.z, k);
  }

  /** Every component of `v` lies between the matching components of `a` and `b`. */
  predicate VecBetween(a: Vec3, b: Vec3, v: Vec3) {
    Between(a.x, b.x, v.x) && Between(a.y, b.y, v.y) && Between(a.z, b.z, v.z)
  }

  /** A factor of 0 leaves the vector where it is, a factor of 1 lands exactly on the target. */
  lemma LerpEndpoints(a: Vec3, b: Vec3)
    ensures Lerp(a, b, 0.0) == a
    ensures Lerp(a, b, 1.0) == b
  {
  }

  /** A point already at the target stays there, whatever the factor. */
  lemma LerpAtTarget(b: Vec3, k: real)
    ensures Lerp(b, b, k) == b
  {
    assert (1.0 - k) * 0.0 == 0.0;
  }

  /** The product of two positive reals is positive. */
  lemma MulPositive(x: real, y: real)
    requires x > 0.0 && y > 0.0
    ensures x * y > 0.0
  {
  }

  /** Scaling by a factor in [0, 1] keeps a value on its side of zero and no larger. */
  lemma ScaleWithinUnit(c: real, g: real)
    requires 0.0 <= c <= 1.0
    ensures Between(0.0, g, c * g)
  {
    if g >= 0.0 {
      assert c * g <= 1.0 * g;
    } else {
      assert c * g >= 1.0 * g;
    }
  }

  /** With a factor in [0, 1] a scalar step neither overshoots the target nor
      moves away from it. */
  lemma LerpScalarNoOvershoot(a: real, b: real, k: real)
    requires 0.0 <= k <= 1.0
    ensures Between(a, b, LerpScalar(a, b, k))
    ensures Between(0.0, a - b, LerpScalar(a, b, k) - b)
    ensures Abs(LerpScalar(a, b, k) - b) <= Abs(a - b)
  {
    var r := LerpScalar(a, b, k);
    var g := a - b;
    LerpScalarGap(a, b, k);
    ScaleWithinUnit(1.0 - k, g);
  }

  /** The vector form of LerpScalarNoOvershoot: every component stays between
      the start and the target, and no component's gap grows. */
  lemma LerpNoOvershoot(a: Vec3, b: Vec3, k: real)
    requires 0.0 <= k <= 1.0
    ensures VecBetween(a, b, Lerp(a, b, k))
    ensures Abs(Lerp(a, b, k).x - b.x) <= Abs(a.x - b.x)
    ensures Abs(Lerp(a, b, k).y - b.y) <= Abs(a.y - b.y)
    ensures Abs(Lerp(a, b, k).z - b.z) <= Abs(a.z - b.z)
  {
    LerpScalarNoOvershoot(a.x, b.x, k);
    LerpScalarNoOvershoot(a.y, b.y, k);
    LerpScalarNoOvershoot(a.z, b.z, k);
  }

  /** A larger factor leaves a point at least as close to the target. */
  lemma LerpScalarCloser(a: real, b: real, k1: real, k2: real)
    requires 0.0 <= k1 <= k2 <= 1.0
    ensures Abs(LerpScalar(a, b, k2) - b) <= Abs(LerpScalar(a, b, k1) - b)
  {
    var g := a - b;
    LerpScalarGap(a, b, k1);
    LerpScalarGap(a, b, k2);
    ScaleWithinUnit(1.0 - k2, g);
    assert (1.0 - k1) * g - (1.0 - k2) * g == (k2 - k1) * g;
    ScaleWithinUnit(k2 - k1, g);
  }

  /** Being between two points is kept by any further step towards the far point:
      if `v` lies between `a` and `b`, so does every point between `v` and `b`. */
  lemma BetweenNarrows(a: real, b: real, v: real, w: real)
    requires Between(a, b, v) && Between(v, b, w)
    ensures Between(a, b, w)
  {
  }
}
