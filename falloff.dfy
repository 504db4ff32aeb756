/**
  `cubicGaussian`: a piecewise cubic approximation of a gaussian, of the normalized
  distance `h = 2 * distance / radius`, that falls off to exactly 0 at `h = 2`
  (distance equal to the light's radius). GLSL's `pow(x, 3.0)` is `x * x * x`; its
  argument is positive on every branch where it is evaluated.
*/
module Falloff {

  function Cube(x: real): real {
    x * x * x
  }

  /** The polynomial of the branch `h < 1`. */
  function NearBranch(h: real): real {
    0.25 * Cube(2.0 - h) - Cube(1.0 - h)
  }

  /** The polynomial of the branch `1 <= h < 2`. */
  function FarBranch(h: real): real {
    0.25 * Cube(2.0 - h)
  }

  /** The near branch written in `s = 1 - h`: `0.25 + 0.75 s (1 + s - s^2)`. */
  lemma NearBranchInS(h: real)
    ensures var s := 1.0 - h; NearBranch(h) == 0.25 + 0.75 * s * (1.0 + s - s * s)
  {
    var s := 1.0 - h;
    assert 2.0 - h == 1.0 + s;
    assert Cube(1.0 + s) == 1.0 + 3.0 * s + 3.0 * s * s + s * s * s;
  }

  function CubicGaussian(h: real): (r: real)
    ensures h >= 2.0 ==> r == 0.0
    ensures h == 0.0 ==> r == 1.0
    ensures 0.0 <= h ==> 0.0 <= r <= 1.0
  {
    if h < 1.0 then
      NearBranchInS(h);
      NearBranchBounds(1.0 - h);
      NearBranch(h)
    else if h < 2.0 then
      CubeBounds(2.0 - h);
      FarBranch(h)
    else
      0.0
  }

  /** For `0 <= x <= 1`, `0 <= x^3 <= x <= 1`. */
  lemma CubeBounds(x: real)
    requires 0.0 <= x <= 1.0
    ensures 0.0 <= Cube(x) <= x
  {
    assert 0.0 <= x * x <= x;
    assert x * x * x <= x * x;
  }

  /** For `s` in `(0, 1]` (that is, `h` in `[0, 1)`) the near branch stays in `[0.25, 1]`. */
  lemma NearBranchBounds(s: real)
    ensures 0.0 < s <= 1.0 ==> 0.25 <= 0.25 + 0.75 * s * (1.0 + s - s * s) <= 1.0
  {
    if 0.0 < s <= 1.0 {
      var q := 1.0 + s - s * s;
      assert q >= 1.0 by {
        ScaleDown(s, s);
      }
      assert s * q >= 0.0 by {
        MulMonotone(0.0, s, q);
      }
      // 1 - s q == (1 - s)^2 (1 + s), which is non-negative
      var e := 1.0 - s;
      assert 1.0 - s * q == e * e * (1.0 + s);
      assert e * e * (1.0 + s) >= 0.0 by {
        MulMonotone(0.0, e, e);
        MulMonotone(0.0, e * e, 1.0 + s);
      }
    }
  }

  /** Scaling a non-negative `x` by a factor `y` in `[0, 1]` does not make it larger. */
  lemma ScaleDown(x: real, y: real)
    requires 0.0 <= x && 0.0 <= y <= 1.0
    ensures x * y <= x
  {
    MulMonotone(y, 1.0, x);
    assert y * x <= 1.0 * x;
  }

  /** Multiplying by a non-negative factor keeps the order. */
  lemma MulMonotone(a: real, b: real, c: real)
    requires a <= b && 0.0 <= c
    ensures a * c <= b * c
  {
  }

  /** Both pieces meet where they join: 0.25 at `h = 1`, and the far piece reaches 0 at `h = 2`. */
  lemma BranchesAgree()
    ensures NearBranch(1.0) == FarBranch(1.0) == 0.25
    ensures FarBranch(2.0) == 0.0
    ensures CubicGaussian(1.0) == 0.25 && CubicGaussian(2.0) == 0.0
  {
  }

  /** `cubicGaussian` never increases with distance: for `0 <= a <= b`, `f(b) <= f(a)`. */
  lemma CubicGaussianNonIncreasing(a: real, b: real)
    requires 0.0 <= a <= b
    ensures CubicGaussian(b) <= CubicGaussian(a)
  {
    if b >= 2.0 {
    } else if a >= 1.0 {
      CubeMonotone(2.0 - b, 2.0 - a);
    } else if b >= 1.0 {
      assert CubicGaussian(b) <= 0.25 by {
        CubeBounds(2.0 - b);
      }
      assert CubicGaussian(a) >= 0.25 by {
        NearBranchInS(a);
        NearBranchBounds(1.0 - a);
      }
    } else {
      NearBranchInS(a);
      NearBranchInS(b);
      NearPolyMonotone(1.0 - b, 1.0 - a);
    }
  }

  /** `x^3` is monotone on the non-negative reals. */
  lemma CubeMonotone(x: real, y: real)
    requires 0.0 <= x <= y
    ensures Cube(x) <= Cube(y)
  {
    assert x * x <= y * y;
    assert x * x * x <= y * y * x <= y * y * y;
  }

  /** `s (1 + s - s^2)` grows on `[0, 1]`: its increments factor as `(t - s)(1 + s + t - (t^2 + t s + s^2))`. */
  lemma NearPolyMonotone(s: real, t: real)
    requires 0.0 <= s <= t <= 1.0
    ensures s * (1.0 + s - s * s) <= t * (1.0 + t - t * t)
  {
    var k := 1.0 + s + t - (t * t + t * s + s * s);
    assert t * (1.0 + t - t * t) - s * (1.0 + s - s * s) == (t - s) * k;
    assert k >= 0.0 by {
      ScaleDown(t, t);
      ScaleDown(s, t);
      ScaleDown(s, s);
    }
    MulMonotone(0.0, t - s, k);
  }

  /**
    The light intensity the shader computes, `cubicGaussian(2.0 * lightDistance / radius)`:
    it lies in `[0, 1]`, is 1 at distance 0, and is exactly 0 at and beyond distance `radius`.
  */
  function LightIntensity(lightDistance: real, radius: real): (r: real)
    requires radius > 0.0
    ensures lightDistance >= radius ==> r == 0.0
    ensures lightDistance == 0.0 ==> r == 1.0
    ensures lightDistance >= 0.0 ==> 0.0 <= r <= 1.0
  {
    var h := 2.0 * lightDistance / radius;
    assert lightDistance >= radius ==> h >= 2.0 by {
      assert h * radius == 2.0 * lightDistance;
    }
    assert lightDistance >= 0.0 ==> h >= 0.0 by {
      assert h * radius == 2.0 * lightDistance;
    }
    CubicGaussian(h)
  }
}
