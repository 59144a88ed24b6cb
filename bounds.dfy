/** The `maxBounds` rules: QRectF containment and the clamp `translate` applies. */
module Bounds {
  import opened Geometry

  /** `QRectF.normalized()`: the same rectangle with non-negative width and height. */
  function Normalized(r: Rect): (n: Rect)
    ensures n.w >= 0.0 && n.h >= 0.0
    ensures n.Left() == (if r.w < 0.0 then r.Right() else r.Left())
    ensures n.Right() == (if r.w < 0.0 then r.Left() else r.Right())
    ensures n.Top() == (if r.h < 0.0 then r.Bottom() else r.Top())
    ensures n.Bottom() == (if r.h < 0.0 then r.Top() else r.Bottom())
  {
    Rect(if r.w < 0.0 then r.x + r.w else r.x, if r.h < 0.0 then r.y + r.h else r.y, Abs(r.w), Abs(r.h))
  }

  /**
   * `QRectF.contains(QRectF)`: false when either rectangle has zero width or height,
   * otherwise whether the inner one lies within the outer one after normalising both.
   */
  predicate Contains(outer: Rect, inner: Rect)
  {
    var o, i := Normalized(outer), Normalized(inner);
    && o.w != 0.0 && o.h != 0.0 && i.w != 0.0 && i.h != 0.0
    && o.Left() <= i.Left() && i.Right() <= o.Right()
    && o.Top() <= i.Top() && i.Bottom() <= o.Bottom()
  }

  /** `QRectF.translated(d)`. */
  function Shifted(r: Rect, d: Point): Rect { Rect(r.x + d.x, r.y + d.y, r.w, r.h) }

  /**
   * The correction `d` that `translate` adds to a proposed position so that the rectangle
   * `r` moves back inside `bounds`: the left edge is checked first and the right edge only
   * when the left one is inside; likewise top before bottom.
   */
  function BoundsOffset(bounds: Rect, r: Rect): (d: Point)
    ensures bounds.Left() > r.Left() ==> r.Left() + d.x == bounds.Left()
    ensures bounds.Left() <= r.Left() && bounds.Right() < r.Right() ==> r.Right() + d.x == bounds.Right()
    ensures bounds.Left() <= r.Left() && r.Right() <= bounds.Right() ==> d.x == 0.0
    ensures bounds.Top() > r.Top() ==> r.Top() + d.y == bounds.Top()
    ensures bounds.Top() <= r.Top() && bounds.Bottom() < r.Bottom() ==> r.Bottom() + d.y == bounds.Bottom()
    ensures bounds.Top() <= r.Top() && r.Bottom() <= bounds.Bottom() ==> d.y == 0.0
  {
    var dx :=
      if bounds.Left() > r.Left() then bounds.Left() - r.Left()
      else if bounds.Right() < r.Right() then bounds.Right() - r.Right()
      else 0.0;
    var dy :=
      if bounds.Top() > r.Top() then bounds.Top() - r.Top()
      else if bounds.Bottom() < r.Bottom() then bounds.Bottom() - r.Bottom()
      else 0.0;
    Point(dx, dy)
  }

  /** Edges of r lie within the edges of bounds, as `translate` compares them (no normalising). */
  ghost predicate WithinEdges(bounds: Rect, r: Rect) {
    bounds.Left() <= r.Left() && r.Right() <= bounds.Right() &&
    bounds.Top() <= r.Top() && r.Bottom() <= bounds.Bottom()
  }

  /** A rectangle already inside the bounds is not moved. */
  lemma OffsetZeroInside(bounds: Rect, r: Rect)
    requires WithinEdges(bounds, r)
    ensures BoundsOffset(bounds, r) == Point(0.0, 0.0)
  {
  }

  /**
   * A rectangle that fits in the bounds ends up inside them after the correction, and a
   * second correction is zero.
   */
  lemma OffsetClampsFittingRect(bounds: Rect, r: Rect)
    requires 0.0 <= r.w <= bounds.w && 0.0 <= r.h <= bounds.h
    ensures WithinEdges(bounds, Shifted(r, BoundsOffset(bounds, r)))
    ensures BoundsOffset(bounds, Shifted(r, BoundsOffset(bounds, r))) == Point(0.0, 0.0)
  {
  }

  /** Where `movePoint` accepts a rectangle, `translate` would not move it. */
  lemma ContainedMeansNoOffset(bounds: Rect, r: Rect)
    requires bounds.w >= 0.0 && bounds.h >= 0.0 && r.w >= 0.0 && r.h >= 0.0
    requires Contains(bounds, r)
    ensures BoundsOffset(bounds, r) == Point(0.0, 0.0)
  {
  }
}
