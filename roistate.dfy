/** The ROI state record, its saved form, the change signals, and the item transform. */
module RoiState {
  import opened Wrappers
  import opened Geometry
  import opened Bounds

  /** `ROI.state`: position in the parent, size, and rotation angle in degrees. */
  datatype State = State(pos: Point, size: Point, angle: real)

  /** `ROI.saveState()`: the same record with the points turned into tuples. */
  datatype SavedState = SavedState(pos: (real, real), size: (real, real), angle: real)

  function SaveState(s: State): SavedState
  {
    SavedState((s.pos.x, s.pos.y), (s.size.x, s.size.y), s.angle)
  }

  /** What `setState` makes of a saved state: `Point(tuple)` for both points. */
  function Restore(t: SavedState): State
  {
    State(Point(t.pos.0, t.pos.1), Point(t.size.0, t.size.1), t.angle)
  }

  /** Restoring a saved state gives back the original, and saving a restored one gives back the saved form. */
  lemma SaveRestoreRoundTrip(s: State, t: SavedState)
    ensures Restore(SaveState(s)) == s
    ensures SaveState(Restore(t)) == t
  {
  }

  /** The signals of an ROI, recorded in the order they are emitted. */
  datatype Event = RegionChangeStarted | RegionChanged | RegionChangeFinished | Clicked

  /** `stateChanged`'s comparison: no previous state, or some key of the state differs. */
  predicate Changed(last: Option<State>, cur: State)
  {
    || last.None?
    || last.value.pos != cur.pos
    || last.value.size != cur.size
    || last.value.angle != cur.angle
  }

  /** The key-by-key comparison is exactly inequality of the records. */
  lemma ChangedIsInequality(last: State, cur: State)
    ensures Changed(Some(last), cur) <==> last != cur
  {
  }

  /** The signals one `stateChanged(finish)` call emits. */
  function Signals(last: Option<State>, cur: State, freeMoved: bool, finish: bool): (e: seq<Event>)
    ensures RegionChanged in e <==> Changed(last, cur) || freeMoved
    ensures RegionChangeFinished in e <==> finish
    ensures RegionChangeStarted !in e && Clicked !in e
    ensures |e| <= 2
    ensures finish ==> e[|e| - 1] == RegionChangeFinished
  {
    (if Changed(last, cur) || freeMoved then [RegionChanged] else [])
      + (if finish then [RegionChangeFinished] else [])
  }

  /** `mapToParent` of an ROI whose item transform is its position and a rotation by its angle. */
  function ToParent(g: Primitives, s: State, p: Point): Point
  {
    Add(s.pos, g.rotate(s.angle, p))
  }

  /** `mapFromParent`, the inverse of `ToParent`: undo the translation, then the rotation. */
  function FromParent(g: Primitives, s: State, p: Point): Point
  {
    g.rotate(-s.angle, Sub(p, s.pos))
  }

  function Min4(a: real, b: real, c: real, d: real): (m: real)
    ensures m <= a && m <= b && m <= c && m <= d
    ensures m == a || m == b || m == c || m == d
  {
    var ab := if a <= b then a else b;
    var cd := if c <= d then c else d;
    if ab <= cd then ab else cd
  }

  function Max4(a: real, b: real, c: real, d: real): (m: real)
    ensures m >= a && m >= b && m >= c && m >= d
    ensures m == a || m == b || m == c || m == d
  {
    var ab := if a >= b then a else b;
    var cd := if c >= d then c else d;
    if ab >= cd then ab else cd
  }

  /**
   * `QTransform().rotate(deg).mapRect(r)`: a zero rotation is the identity and leaves r as it
   * is; any other rotation gives the bounding box of the four rotated corners.
   */
  function MapRect(g: Primitives, deg: real, r: Rect): (m: Rect)
    ensures deg == 0.0 ==> m == r
    ensures deg != 0.0 ==> m.w >= 0.0 && m.h >= 0.0
    ensures deg != 0.0 ==>
      forall c :: c in [Point(r.x, r.y), Point(r.x + r.w, r.y), Point(r.x, r.y + r.h), Point(r.x + r.w, r.y + r.h)] ==>
        m.Left() <= g.rotate(deg, c).x <= m.Right() && m.Top() <= g.rotate(deg, c).y <= m.Bottom()
    // and it is the smallest such box: each edge is reached by a rotated corner
    ensures deg != 0.0 ==>
      var p1, p2 := g.rotate(deg, Point(r.x, r.y)), g.rotate(deg, Point(r.x + r.w, r.y));
      var p3, p4 := g.rotate(deg, Point(r.x, r.y + r.h)), g.rotate(deg, Point(r.x + r.w, r.y + r.h));
      && m.Left() == Min4(p1.x, p2.x, p3.x, p4.x) && m.Right() == Max4(p1.x, p2.x, p3.x, p4.x)
      && m.Top() == Min4(p1.y, p2.y, p3.y, p4.y) && m.Bottom() == Max4(p1.y, p2.y, p3.y, p4.y)
  {
    if deg == 0.0 then r
    else
      var p1, p2 := g.rotate(deg, Point(r.x, r.y)), g.rotate(deg, Point(r.x + r.w, r.y));
      var p3, p4 := g.rotate(deg, Point(r.x, r.y + r.h)), g.rotate(deg, Point(r.x + r.w, r.y + r.h));
      var x0, x1 := Min4(p1.x, p2.x, p3.x, p4.x), Max4(p1.x, p2.x, p3.x, p4.x);
      var y0, y1 := Min4(p1.y, p2.y, p3.y, p4.y), Max4(p1.y, p2.y, p3.y, p4.y);
      Rect(x0, y0, x1 - x0, y1 - y0)
  }

  /** `ROI.stateRect(state)`: the rectangle (0, 0, size) rotated by minus the angle, moved to pos. */
  function StateRect(g: Primitives, s: State): Rect
  {
    var r := MapRect(g, -s.angle, Rect(0.0, 0.0, s.size.x, s.size.y));
    Rect(r.x + s.pos.x, r.y + s.pos.y, r.w, r.h)
  }

  /** An unrotated ROI occupies exactly (pos, size). */
  lemma StateRectUnrotated(g: Primitives, s: State)
    requires s.angle == 0.0
    ensures StateRect(g, s) == Rect(s.pos.x, s.pos.y, s.size.x, s.size.y)
  {
  }

  /** `maxBounds` accepts the state: there are no bounds, or they contain its rectangle. */
  predicate InBounds(maxBounds: Option<Rect>, g: Primitives, s: State)
  {
    maxBounds.None? || Contains(maxBounds.value, StateRect(g, s))
  }
}
