/** The two cubic easing curves: `cubicEaseInOut` shapes the gem rotation
    transitions and `cubicEaseOut` the camera's return to its saved pose. */
module Easing {

  /** Math.pow(x, n) for a natural exponent, on exact reals. */
  function Pow(x: real, n: nat): real {
    if n == 0 then 1.0 else x * Pow(x, n - 1)
  }

  /** The cube, spelled out. */
  lemma PowThree(x: real)
    ensures Pow(x, 3) == x * (x * x)
  {
    assert Pow(x, 1) == x;
    assert Pow(x, 2) == x * x;
  }

  /** Multiplying by a non-negative factor keeps an inequality. */
  lemma ScaleMonotone(c: real, x: real, y: real)
    requires 0.0 <= c && x <= y
    ensures c * x <= c * y
  {
  }

  /** On [0, 1] the cube stays in [0, 1] and below its argument. */
  lemma CubeUnit(u: real)
    requires 0.0 <= u <= 1.0
    ensures 0.0 <= Pow(u, 3) <= u <= 1.0
  {
    PowThree(u);
    var uu := u * u;
    assert 0.0 <= uu <= u by {
      ScaleMonotone(u, 0.0, u);
      ScaleMonotone(u, u, 1.0);
    }
    assert 0.0 <= u * uu <= uu by {
      ScaleMonotone(u, 0.0, uu);
      ScaleMonotone(uu, u, 1.0);
      assert uu * u == u * uu;
    }
  }

  /** The cube is monotone on the non-negative reals. */
  lemma CubeMonotone(a: real, b: real)
    requires 0.0 <= a <= b
    ensures Pow(a, 3) <= Pow(b, 3)
  {
    PowThree(a);
    PowThree(b);
    var aa, bb := a * a, b * b;
    assert aa <= bb by {
      ScaleMonotone(a, a, b);
      ScaleMonotone(b, a, b);
      assert a * b == b * a;
    }
    calc {
      a * aa;
    <= { ScaleMonotone(a, aa, bb); }
      a * bb;
    == bb * a;
    <= { ScaleMonotone(bb, a, b); }
      bb * b;
    == b * bb;
    }
  }

  /** The accelerating half of cubicEaseInOut, `4 * t * t * t`, used for t < 0.5. */
  function EaseIn(t: real): real {
    4.0 * Pow(t, 3)
  }

  /** The decelerating half of cubicEaseInOut, used for t >= 0.5. */
  function EaseOutHalf(t: real): real {
    1.0 - Pow(-2.0 * t + 2.0, 3) / 2.0
  }

  /** cubicEaseInOut: slow start, fast middle, slow end. */
  function CubicEaseInOut(t: real): real {
    if t < 0.5 then EaseIn(t) else EaseOutHalf(t)
  }

  /** cubicEaseOut: fast start, slow settle. */
  function CubicEaseOut(t: real): real {
    1.0 - Pow(1.0 - t, 3)
  }

  /** For progress in [0, 1] both curves give an eased progress in [0, 1]. */
  lemma EaseBounds(t: real)
    requires 0.0 <= t <= 1.0
    ensures 0.0 <= CubicEaseInOut(t) <= 1.0
    ensures 0.0 <= CubicEaseOut(t) <= 1.0
  {
    CubeUnit(1.0 - t);
    if t < 0.5 {
      CubeUnit(t);
      CubeMonotone(t, 0.5);
      PowThree(0.5);
    } else {
      CubeUnit(-2.0 * t + 2.0);
    }
  }

  /** cubicEaseInOut starts exactly at 0 and ends exactly at 1. */
  lemma EaseInOutEndpoints()
    ensures CubicEaseInOut(0.0) == 0.0 && CubicEaseInOut(1.0) == 1.0
  {
    PowThree(0.0);
  }

  /** cubicEaseOut starts exactly at 0 and ends exactly at 1. */
  lemma EaseOutEndpoints()
    ensures CubicEaseOut(0.0) == 0.0 && CubicEaseOut(1.0) == 1.0
  {
    PowThree(0.0);
    PowThree(1.0);
  }

  /** The two halves of cubicEaseInOut meet at t = 0.5, both at 0.5, so the
      curve is continuous where it switches branch. */
  lemma EaseInOutHalvesMeet()
    ensures EaseIn(0.5) == 0.5 && EaseOutHalf(0.5) == 0.5
    ensures CubicEaseInOut(0.5) == 0.5
  {
    PowThree(0.5);
    PowThree(1.0);
  }

  /** cubicEaseInOut is point-symmetric about (0.5, 0.5): f(1 - t) == 1 - f(t). */
  lemma EaseInOutSymmetric(t: real)
    ensures CubicEaseInOut(1.0 - t) == 1.0 - CubicEaseInOut(t)
  {
    if t < 0.5 {
      assert -2.0 * (1.0 - t) + 2.0 == 2.0 * t;
      PowThree(2.0 * t);
      PowThree(t);
    } else if t > 0.5 {
      assert -2.0 * t + 2.0 == 2.0 * (1.0 - t);
      PowThree(2.0 * (1.0 - t));
      PowThree(1.0 - t);
    } else {
      EaseInOutHalvesMeet();
    }
  }

  /** For progress in [0, 1], cubicEaseOut never decreases. */
  lemma EaseOutMonotone(s: real, t: real)
    requires 0.0 <= s <= t <= 1.0
    ensures CubicEaseOut(s) <= CubicEaseOut(t)
  {
    CubeMonotone(1.0 - t, 1.0 - s);
  }

  /** For progress in [0, 1], cubicEaseInOut never decreases, across the
      switch between its two halves as well. */
  lemma EaseInOutMonotone(s: real, t: real)
    requires 0.0 <= s <= t <= 1.0
    ensures CubicEaseInOut(s) <= CubicEaseInOut(t)
  {
    if t < 0.5 {
      CubeMonotone(s, t);
    } else if s >= 0.5 {
      CubeMonotone(-2.0 * t + 2.0, -2.0 * s + 2.0);
    } else {
      CubeMonotone(s, 0.5);
      CubeMonotone(-2.0 * t + 2.0, 1.0);
      PowThree(0.5);
      PowThree(1.0);
    }
  }
}
