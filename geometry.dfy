/** Points, rectangles and rounding as the ROI code uses them, over exact reals. */
module Geometry {
  import opened Wrappers

  /** A pyqtgraph `Point` (a pair of floats). */
  datatype Point = Point(x: real, y: real)

  function Add(a: Point, b: Point): Point { Point(a.x + b.x, a.y + b.y) }
  function Sub(a: Point, b: Point): Point { Point(a.x - b.x, a.y - b.y) }
  /** `Point * Point` is componentwise in pyqtgraph. */
  function Mul(a: Point, b: Point): Point { Point(a.x * b.x, a.y * b.y) }

  /** A `QRectF`: corner (x, y), width w and height h, either of which may be negative. */
  datatype Rect = Rect(x: real, y: real, w: real, h: real) {
    function Left(): real { x }
    function Right(): real { x + w }
    function Top(): real { y }
    function Bottom(): real { y + h }
  }

  /**
   * Numeric primitives the ROI code borrows from Qt and from pyqtgraph's `Point`
   * class, neither of which is part of this model:
   *  - rotate(deg, v): `QTransform().rotate(deg).map(v)`;
   *  - angleTo(a, b): `a.angle(b)`, the signed angle in degrees from a to b, or None;
   *  - length(v): `v.length()`;
   *  - project(a, b): `a.proj(b)`, the projection of a onto b.
   */
  datatype Primitives = Primitives(
    rotate: (real, Point) -> Point,
    angleTo: (Point, Point) -> Option<real>,
    length: Point -> real,
    project: (Point, Point) -> Point)

  function Abs(x: real): (r: real)
    ensures r >= 0.0 && (r == x || r == -x)
  {
    if x < 0.0 then -x else x
  }

  /** Python's `round` to the nearest integer, with ties rounded upward. */
  function Round(x: real): (r: int)
    ensures r as real - 0.5 <= x < r as real + 0.5
  {
    (x + 0.5).Floor
  }

  lemma RoundOfInteger(k: int)
    ensures Round(k as real) == k
  {
  }

  /** Among all integers, Round(x) is one closest to x. */
  lemma RoundIsNearest(x: real, m: int)
    ensures Abs(Round(x) as real - x) <= Abs(m as real - x)
  {
    var r := Round(x);
    if m < r {
      assert m as real <= r as real - 1.0;
    } else if m > r {
      assert m as real >= r as real + 1.0;
    }
  }
}
