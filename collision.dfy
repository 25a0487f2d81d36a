/**
 * Circle-overlap test. The source compares `radius1 + radius2` with the square
 * root of the squared distance. Over integers this is the same as comparing the
 * squared distance with the squared sum of the radii, as long as that sum is
 * not negative. A negative sum is smaller than every square root, so the test
 * fails for it.
 */
module Collision {

  /** Squared Euclidean distance between two points. */
  function SquaredDistance(x1: int, y1: int, x2: int, y2: int): (d: nat)
  {
    (x2 - x1) * (x2 - x1) + (y2 - y1) * (y2 - y1)
  }

  /** True iff the two circles touch or overlap. */
  predicate DetectCollision(x1: int, y1: int, x2: int, y2: int, radius1: int, radius2: int): (c: bool)
    // circles with a negative sum of radii never touch
    ensures c ==> radius1 + radius2 >= 0
    // concentric circles touch exactly when the sum of the radii is not negative
    ensures x1 == x2 && y1 == y2 ==> (c <==> radius1 + radius2 >= 0)
    // a circle overlapping another lies within the sum of the radii on each axis
    ensures c ==> -(radius1 + radius2) <= x2 - x1 <= radius1 + radius2
    ensures c ==> -(radius1 + radius2) <= y2 - y1 <= radius1 + radius2
  {
    AxisWithinDistance(x2 - x1, y2 - y1, radius1 + radius2);
    radius1 + radius2 >= 0 &&
    SquaredDistance(x1, y1, x2, y2) <= (radius1 + radius2) * (radius1 + radius2)
  }

  /** A point within distance `s` of the origin is within `s` of it on each axis. */
  lemma AxisWithinDistance(dx: int, dy: int, s: int)
    ensures s >= 0 && dx * dx + dy * dy <= s * s ==> -s <= dx <= s && -s <= dy <= s
  {
    if s >= 0 && dx * dx + dy * dy <= s * s {
      var ax, ay := if dx < 0 then -dx else dx, if dy < 0 then -dy else dy;
      assert ax * ax == dx * dx && ay * ay == dy * dy;
      assert 0 <= ax * ax && 0 <= ay * ay;
      if s < ax { SquareBelow(s, ax); }
      if s < ay { SquareBelow(s, ay); }
    }
  }

  /** Squaring is strictly increasing on the naturals. */
  lemma SquareBelow(a: int, b: int)
    requires 0 <= a < b
    ensures a * a < b * b
  {
    assert a * a <= a * b < b * b;
  }

  /** Search for the smallest root, starting at `k`. */
  ghost function CeilSqrtFrom(n: nat, k: nat): (c: nat)
    requires k == 0 || (k - 1) * (k - 1) < n
    ensures c * c >= n
    ensures c == 0 || (c - 1) * (c - 1) < n
    decreases n - k
  {
    if k * k >= n then k
    else
      assert k < n by { if k > 0 { assert k <= k * k; } }
      CeilSqrtFrom(n, k + 1)
  }

  /** The least natural number whose square is at least `n`: the ceiling of the real root. */
  ghost function CeilSqrt(n: nat): (c: nat)
    ensures c * c >= n
    ensures c == 0 || (c - 1) * (c - 1) < n
  {
    CeilSqrtFrom(n, 0)
  }

  lemma SquareMonotone(a: int, b: int)
    requires 0 <= a <= b
    ensures a * a <= b * b
  {
    assert a * a <= a * b <= b * b;
  }

  /**
   * For an integer sum of radii `s` and a squared distance `d`, `s >= sqrt(d)` holds
   * iff `s >= ceil(sqrt(d))`. So the squared form agrees with the source's square-root form.
   */
  lemma DetectCollisionMatchesSqrt(x1: int, y1: int, x2: int, y2: int, radius1: int, radius2: int)
    ensures DetectCollision(x1, y1, x2, y2, radius1, radius2)
        <==> radius1 + radius2 >= CeilSqrt(SquaredDistance(x1, y1, x2, y2))
  {
    var s := radius1 + radius2;
    var d := SquaredDistance(x1, y1, x2, y2);
    var c := CeilSqrt(d);
    if s >= c {
      SquareMonotone(c, s);
    } else if s >= 0 {
      SquareMonotone(s, c - 1);
    }
  }

  /** The test does not depend on which circle comes first. */
  lemma DetectCollisionSymmetric(x1: int, y1: int, x2: int, y2: int, radius1: int, radius2: int)
    ensures DetectCollision(x1, y1, x2, y2, radius1, radius2)
        <==> DetectCollision(x2, y2, x1, y1, radius2, radius1)
  {
    assert (x1 - x2) * (x1 - x2) == (x2 - x1) * (x2 - x1);
    assert (y1 - y2) * (y1 - y2) == (y2 - y1) * (y2 - y1);
  }

  /** With a second radius of 0 the test asks whether a point lies in a circle. */
  lemma PointInCircle(cx: int, cy: int, radius: int, px: int, py: int)
    requires radius >= 0
    ensures DetectCollision(cx, cy, px, py, radius, 0)
        <==> SquaredDistance(cx, cy, px, py) <= radius * radius
  {
  }
}
