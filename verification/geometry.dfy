/**
 * The measured geometry of one contour. OpenCV and the robot library compute
 * these values (bounding rectangle, contour area, arc length, convex hull,
 * minimum-area rotated rectangle); the model takes them as given fields.
 */
module Geometry {

  /** `Math.abs` on a double. */
  function Abs(x: real): (r: real)
    ensures r >= 0.0
    ensures r == x || r == -x
  {
    if x < 0.0 then -x else x
  }

  /** Comparing a quotient with a bound is comparing the dividend with the scaled bound. */
  lemma QuotientBounds(x: real, y: real, m: real)
    requires y > 0.0
    ensures m <= x / y <==> m * y <= x
    ensures x / y <= m <==> x <= m * y
  {
    assert x / y * y == x;
    if m <= x / y {
      assert m * y <= x / y * y;
    }
    if m * y <= x {
      assert m <= x / y;
    }
    if x / y <= m {
      assert x / y * y <= m * y;
    }
    if x <= m * y {
      assert x / y <= m;
    }
  }

  /** The minimum-area rectangle of a contour (OpenCV `RotatedRect`): centre x, size and angle in degrees. */
  datatype RotatedRect = RotatedRect(centerX: real, width: real, height: real, angle: real)

  /**
   * One contour with its measurements:
   * - `bbWidth`, `bbHeight`: the axis-aligned bounding rectangle (`Imgproc.boundingRect`);
   * - `area`: `Imgproc.contourArea` of the contour, `perimeter`: its closed arc length;
   * - `hullArea`: `Imgproc.contourArea` of its convex hull;
   * - `vertexCount`: the number of points of the contour;
   * - `targetArea`: the area the robot library's `Contour` reports;
   * - `rect`: the `Contour`'s rotated rectangle;
   * - `coordsX`: the x of the `Contour`'s reference corner.
   */
  datatype Candidate = Candidate(
    bbWidth: nat,
    bbHeight: nat,
    area: real,
    perimeter: real,
    hullArea: real,
    vertexCount: nat,
    targetArea: real,
    rect: RotatedRect,
    coordsX: real)

  /** The filter stage divides by the hull area and the bounding height. */
  predicate Filterable(c: Candidate) {
    c.bbHeight > 0 && c.hullArea > 0.0
  }

  /** The identification stage divides by the rotated rectangle's sides. */
  predicate HasRect(c: Candidate) {
    c.rect.width > 0.0 && c.rect.height > 0.0
  }
}
