/** Grid snapping of positions and sizes, and the 15-degree rotation snap. */
module Snapping {
  import opened Wrappers
  import opened Geometry

  /** The `snap` argument of `translate` and `getSnapPosition`: None, False, True, or a grid spacing. */
  datatype SnapArg = Unspecified | Disabled | Enabled | Grid(spacing: Point)

  /** The k-th multiple of a grid step. */
  function Times(k: int, s: real): real { k as real * s }

  ghost predicate IsMultiple(v: real, s: real) {
    exists k: int :: v == Times(k, s)
  }

  ghost predicate OnGrid(p: Point, spacing: Point) {
    IsMultiple(p.x, spacing.x) && IsMultiple(p.y, spacing.y)
  }

  /** One coordinate moved to a nearest multiple of s: `round(v / s) * s`. */
  function SnapCoord(v: real, s: real): (r: real)
    requires s != 0.0
    ensures IsMultiple(r, s)
  {
    assert Times(Round(v / s), s) == Times(Round(v / s), s);
    Times(Round(v / s), s)
  }

  lemma MulMonotone(a: real, b: real, c: real)
    requires a <= b && c >= 0.0
    ensures a * c <= b * c
  {
    assert b * c - a * c == (b - a) * c;
  }

  lemma LeFromScaled(x: real, y: real, a: real, b: real, c: real)
    requires x == a * c && y == b * c && a <= b && c >= 0.0
    ensures x <= y
  {
    MulMonotone(a, b, c);
  }

  lemma AbsMul(a: real, b: real)
    ensures Abs(a * b) == Abs(a) * Abs(b)
  {
    if a < 0.0 && b < 0.0 {
      assert a * b == (-a) * (-b);
    } else if a < 0.0 {
      assert -(a * b) == (-a) * b;
    } else if b < 0.0 {
      assert -(a * b) == a * (-b);
    }
  }

  /** The distance from v to the multiple k * s is |k - v/s| times |s|. */
  lemma DistanceToMultiple(v: real, s: real, k: int)
    requires s != 0.0
    ensures Abs(Times(k, s) - v) == Abs(k as real - v / s) * Abs(s)
  {
    var t := v / s;
    assert t * s == v;
    assert k as real * s - v == (k as real - t) * s;
    AbsMul(k as real - t, s);
  }

  /** A multiple whose index is closer to v / s is closer to v. */
  lemma CloserIndexCloserMultiple(v: real, s: real, k: int, m: int)
    requires s != 0.0
    requires Abs(k as real - v / s) <= Abs(m as real - v / s)
    ensures Abs(Times(k, s) - v) <= Abs(Times(m, s) - v)
  {
    var t := v / s;
    OffsetFromMultiple(v, s, t, k);
    OffsetFromMultiple(v, s, t, m);
    AbsMulLe(Times(k, s) - v, Times(m, s) - v, k as real - t, m as real - t, s);
  }

  /** Scaling by the same factor keeps the order of absolute values. */
  lemma AbsMulLe(x: real, y: real, a: real, b: real, c: real)
    requires x == a * c && y == b * c && Abs(a) <= Abs(b)
    ensures Abs(x) <= Abs(y)
  {
    AbsMul(a, c);
    AbsMul(b, c);
    LeFromScaled(Abs(x), Abs(y), Abs(a), Abs(b), Abs(c));
  }

  /** k * s - v is (k - v / s) * s. */
  lemma OffsetFromMultiple(v: real, s: real, t: real, k: int)
    requires s != 0.0 && t == v / s
    ensures Times(k, s) - v == (k as real - t) * s
  {
    assert t * s == v;
  }

  /** The snapped coordinate is no farther from v than any other multiple of s. */
  lemma SnapCoordNearest(v: real, s: real, m: int)
    requires s != 0.0
    ensures Abs(SnapCoord(v, s) - v) <= Abs(Times(m, s) - v)
  {
    RoundIsNearest(v / s, m);
    CloserIndexCloserMultiple(v, s, Round(v / s), m);
  }

  /** The snapped coordinate lies within half a grid step of v. */
  lemma SnapCoordClose(v: real, s: real)
    requires s != 0.0
    ensures Abs(SnapCoord(v, s) - v) <= Abs(s) / 2.0
  {
    var k := Round(v / s);
    var a := Abs(k as real - v / s);
    assert a <= 0.5;
    DistanceToMultiple(v, s, k);
    LeFromScaled(Abs(Times(k, s) - v), 0.5 * Abs(s), a, 0.5, Abs(s));
    assert Abs(s) / 2.0 == 0.5 * Abs(s);
  }

  /** A multiple of s is its own snap. */
  lemma SnapCoordOfMultiple(k: int, s: real)
    requires s != 0.0
    ensures SnapCoord(Times(k, s), s) == Times(k, s)
  {
    assert Times(k, s) / s == k as real;
    RoundOfInteger(k);
  }

  /** Snapping an already snapped coordinate changes nothing. */
  lemma SnapCoordIdempotent(v: real, s: real)
    requires s != 0.0
    ensures SnapCoord(SnapCoord(v, s), s) == SnapCoord(v, s)
  {
    SnapCoordOfMultiple(Round(v / s), s);
  }

  /** The grid that `getSnapPosition` uses for a snap argument other than False, if any. */
  function Spacing(snap: SnapArg, snapSize: Option<real>): Option<Point>
  {
    match snap
    case Grid(spacing) => Some(spacing)
    case _ => if snapSize.None? then None else Some(Point(snapSize.value, snapSize.value))
  }

  /**
   * `ROI.getSnapPosition`: None or True use `snapSize` (no snapping when it is None),
   * a Point is the grid spacing; False reaches `snap[0]` and raises TypeError.
   */
  function GetSnapPosition(pos: Point, snap: SnapArg, snapSize: Option<real>): (r: Result<Point>)
    ensures snap.Disabled? ==> r == Failure(TypeError)
    ensures !snap.Disabled? && Spacing(snap, snapSize).None? ==> r == Success(pos)
    ensures !snap.Disabled? && Spacing(snap, snapSize).Some? ==>
      var sp := Spacing(snap, snapSize).value;
      && (r.Failure? <==> sp.x == 0.0 || sp.y == 0.0)
      && (r.Failure? ==> r.error == ZeroDivisionError)
      && (r.Success? ==> OnGrid(r.value, sp))
  {
    if snap.Disabled? then Failure(TypeError)
    else
      match Spacing(snap, snapSize)
      case None => Success(pos)
      case Some(sp) =>
        if sp.x == 0.0 || sp.y == 0.0 then Failure(ZeroDivisionError)
        else Success(Point(SnapCoord(pos.x, sp.x), SnapCoord(pos.y, sp.y)))
  }

  /** A snapped position is within half a grid step of the request on each axis, and no grid point is closer. */
  lemma SnapPositionNearest(pos: Point, snap: SnapArg, snapSize: Option<real>, m: int, n: int)
    requires GetSnapPosition(pos, snap, snapSize).Success?
    requires Spacing(snap, snapSize).Some?
    ensures var q, sp := GetSnapPosition(pos, snap, snapSize).value, Spacing(snap, snapSize).value;
      && Abs(q.x - pos.x) <= Abs(sp.x) / 2.0 && Abs(q.y - pos.y) <= Abs(sp.y) / 2.0
      && Abs(q.x - pos.x) <= Abs(Times(m, sp.x) - pos.x)
      && Abs(q.y - pos.y) <= Abs(Times(n, sp.y) - pos.y)
  {
    var sp := Spacing(snap, snapSize).value;
    SnapCoordClose(pos.x, sp.x);
    SnapCoordClose(pos.y, sp.y);
    SnapCoordNearest(pos.x, sp.x, m);
    SnapCoordNearest(pos.y, sp.y, n);
  }

  /** Snapping an already snapped position with the same arguments leaves it where it is. */
  lemma SnapPositionIdempotent(pos: Point, snap: SnapArg, snapSize: Option<real>)
    requires GetSnapPosition(pos, snap, snapSize).Success?
    ensures var q := GetSnapPosition(pos, snap, snapSize).value;
      GetSnapPosition(q, snap, snapSize) == Success(q)
  {
    match Spacing(snap, snapSize)
    case None =>
    case Some(sp) =>
      SnapCoordIdempotent(pos.x, sp.x);
      SnapCoordIdempotent(pos.y, sp.y);
  }

  /** `round(v / snapSize) * snapSize` on a scale-handle offset or size: None raises TypeError, 0 ZeroDivisionError. */
  function SnapBySize(v: real, snapSize: Option<real>): (r: Result<real>)
    ensures snapSize.None? ==> r == Failure(TypeError)
    ensures snapSize == Some(0.0) ==> r == Failure(ZeroDivisionError)
    ensures snapSize.Some? && snapSize.value != 0.0 ==>
      r.Success? && IsMultiple(r.value, snapSize.value) && Abs(r.value - v) <= Abs(snapSize.value) / 2.0
  {
    match snapSize
    case None => Failure(TypeError)
    case Some(s) =>
      if s == 0.0 then Failure(ZeroDivisionError)
      else
        SnapCoordClose(v, s);
        Success(SnapCoord(v, s))
  }

  /** The rotation snap `round(ang / 15.) * 15.` of rotate and scale/rotate handles. */
  function SnapAngle(ang: real): (r: real)
    ensures IsMultiple(r, 15.0)
    ensures Abs(r - ang) <= 7.5
  {
    SnapCoordClose(ang, 15.0);
    SnapCoord(ang, 15.0)
  }

  lemma SnapAngleIdempotent(ang: real)
    ensures SnapAngle(SnapAngle(ang)) == SnapAngle(ang)
  {
    SnapCoordIdempotent(ang, 15.0);
  }
}
