/**
 * The multi-segment ROIs: the `MultiLineROI` precondition, `LineSegmentROI` construction, and
 * the segment list edits of `PolyLineROI`.
 */
module PolyLine {
  import opened Wrappers
  import opened Geometry
  import opened RoiState
  import opened HandleRules
  import opened Rois

  /** `MultiLineROI(points, width)` refuses fewer than two points before building anything. */
  function MultiLineCheck(points: seq<Point>): (r: Option<PyError>)
    ensures r.None? <==> |points| >= 2
    ensures r.Some? ==> r.value.RaisedException?
  {
    if |points| < 2 then Some(RaisedException("Must start with at least 2 points")) else None
  }

  /** The entry `addFreeHandle(p)` makes. */
  function FreeSpec(p: Point): HandleSpec
  {
    HandleSpec(None, FreeHandle, p, None, false, false, false)
  }

  /** The handle item given for position `i` of a line segment, if any. */
  function Given(items: (Handle?, Handle?), i: nat): Handle?
  {
    if i == 0 then items.0 else if i == 1 then items.1 else null
  }

  /**
   * `LineSegmentROI(positions, pos, handles, acceptsHandles, movable)`: an unrotated ROI of size
   * (1, 1) with one free handle per position, reusing the given handle items. More than two
   * positions raise, after the ROI itself was initialised.
   */
  method NewLineSegment(geo: Primitives, positions: seq<Point>, pos: Point, items: (Handle?, Handle?),
                        acceptsHandles: bool, movable: bool) returns (seg: ROI?, err: Option<PyError>)
    modifies Maybe(items.0)`roi, Maybe(items.1)`roi
    ensures err.Some? <==> |positions| > 2
    ensures err.Some? ==> seg == null && err.value.RaisedException?
    ensures err.Some? ==> (items.0 != null ==> items.0.roi == old(items.0.roi)) && (items.1 != null ==> items.1.roi == old(items.1.roi))
    ensures err.None? ==>
      && seg != null && fresh(seg) && seg.Linked() && seg.Valid()
      && seg.state == State(pos, Point(1.0, 1.0), 0.0) && seg.translatable == movable && !seg.isMoving
      && seg.acceptedButtons == (if acceptsHandles then {LeftButton} else {})
      && |seg.handles| == |positions|
      && forall i :: 0 <= i < |positions| ==>
           && seg.handles[i].spec == FreeSpec(positions[i])
           && (Given(items, i) != null ==> seg.handles[i].item == Given(items, i))
           && (Given(items, i) == null ==> fresh(seg.handles[i].item) && seg.handles[i].item.parent == seg)
           && (Given(items, i) == null ==> seg.handles[i].item.roi == [(seg, i)])
    ensures err.None? && items.0 != null && items.0 != items.1 ==>
      items.0.roi == old(items.0.roi) + (if |positions| > 0 then [(seg, 0)] else [])
    ensures err.None? && items.1 != null && items.1 != items.0 ==>
      items.1.roi == old(items.1.roi) + (if |positions| > 1 then [(seg, 1)] else [])
  {
    var r := new ROI(geo, (pt: int, p: Point, m: Modifiers) => true, pos, Point(1.0, 1.0), 0.0,
                     false, None, Some(1.0), false, false, false, movable);
    if |positions| > 2 {
      return null, Some(RaisedException("LineSegmentROI can only be defined by 2 positions. This is an API change."));
    }
    AddFreeHandles(r, positions, items);
    r.acceptedButtons := if acceptsHandles then {LeftButton} else {};
    return r, None;
  }

  /** The loop of `LineSegmentROI.__init__`: one free handle per position, given items first. */
  method AddFreeHandles(r: ROI, positions: seq<Point>, items: (Handle?, Handle?))
    requires |r.handles| == 0
    modifies r`handles, Maybe(items.0)`roi, Maybe(items.1)`roi
    ensures r.Linked() && |r.handles| == |positions|
    ensures forall i :: 0 <= i < |positions| ==>
      && r.handles[i].spec == FreeSpec(positions[i])
      && (Given(items, i) != null ==> r.handles[i].item == Given(items, i))
      && (Given(items, i) == null ==> fresh(r.handles[i].item) && r.handles[i].item.parent == r)
      && (Given(items, i) == null ==> r.handles[i].item.roi == [(r, i)])
    ensures items.0 != null && items.0 != items.1 ==>
      items.0.roi == old(items.0.roi) + (if |positions| > 0 then [(r, 0)] else [])
    ensures items.1 != null && items.1 != items.0 ==>
      items.1.roi == old(items.1.roi) + (if |positions| > 1 then [(r, 1)] else [])
  {
    var i := 0;
    while i < |positions|
      invariant 0 <= i <= |positions|
      invariant r.Linked() && |r.handles| == i
      invariant forall k :: 0 <= k < i ==>
        && r.handles[k].spec == FreeSpec(positions[k])
        && (Given(items, k) != null ==> r.handles[k].item == Given(items, k))
        && (Given(items, k) == null ==> fresh(r.handles[k].item) && r.handles[k].item.parent == r)
        && (Given(items, k) == null ==> r.handles[k].item.roi == [(r, k)])
      invariant items.0 != null && items.0 != items.1 ==>
        items.0.roi == old(items.0.roi) + (if i > 0 then [(r, 0)] else [])
      invariant items.1 != null && items.1 != items.0 ==>
        items.1.roi == old(items.1.roi) + (if i > 1 then [(r, 1)] else [])
    {
      var h := r.AddFreeHandle(positions[i], Given(items, i), None);
      i := i + 1;
    }
  }

  /**
   * The entries of a handle item after `next.replaceHandle(0, first)`: the item that `next`
   * had at entry 0 (`replaced`) forgets `next`, and `first` records `(next, 0)`.
   */
  function AfterTakeover(roi: seq<(ROI, int)>, next: ROI, first: bool, replaced: bool): seq<(ROI, int)>
  {
    (if replaced then Detached(roi, next) else roi) + (if first then [(next, 0)] else [])
  }

  /**
   * The handle items once `next` has taken over `fi` in place of its entry 0 item `prev` and
   * `handle` has forgotten `next`; `items` are the other items that may know `next`.
   */
  twostate predicate HandedOver(items: set<Handle>, handle: Handle, next: ROI, fi: Handle, prev: Handle)
    reads items, handle
  {
    && (forall x :: x in items && x != handle ==> x.roi == AfterTakeover(old(x.roi), next, x == fi, x == prev))
    && handle.roi == Detached(AfterTakeover(old(handle.roi), next, handle == fi, handle == prev), next)
  }

  class PolyLineROI {
    /** The ROI part of the polyline: its handle list and hover flag. */
    const base: ROI
    var segments: seq<ROI>

    /** A polyline is not one of its own segments. */
    predicate Valid()
      reads this
    {
      base !in segments
    }

    /** The segments as a set. */
    function Segs(): set<ROI>
      reads this
    {
      set i | 0 <= i < |segments| :: segments[i]
    }

    /** The handle items of all segments. */
    function SegItems(): set<Handle>
      reads this, Segs()
    {
      set i, k | 0 <= i < |segments| && 0 <= k < |segments[i].handles| :: segments[i].handles[k].item
    }

    /** A polyline over already built segments; building them from positions is not modelled. */
    constructor (base: ROI, segments: seq<ROI>)
      requires base !in segments
      ensures this.base == base && this.segments == segments && Valid()
    {
      this.base := base;
      this.segments := segments;
    }

    /**
     * `setSegmentSettings(s)`: the segment takes left clicks, and each of its handles becomes
     * deletable and takes left and right clicks.
     */
    static method SetSegmentSettings(s: ROI)
      modifies s`acceptedButtons, s.Items()`deletable, s.Items()`acceptedButtons
      ensures s.acceptedButtons == {LeftButton}
      ensures forall h :: h in s.Items() ==>
        h.deletable && h.acceptedButtons == old(h.acceptedButtons) + {LeftButton, RightButton}
    {
      s.acceptedButtons := {LeftButton};
      var i := 0;
      while i < |s.handles|
        invariant 0 <= i <= |s.handles|
        invariant s.acceptedButtons == {LeftButton}
        invariant forall h :: h in s.Items() ==>
          if exists j :: 0 <= j < i && s.handles[j].item == h
          then h.deletable && h.acceptedButtons == old(h.acceptedButtons) + {LeftButton, RightButton}
          else h.deletable == old(h.deletable) && h.acceptedButtons == old(h.acceptedButtons)
      {
        var h := s.handles[i].item;
        h.deletable := true;
        h.acceptedButtons := h.acceptedButtons + {RightButton};
        h.acceptedButtons := h.acceptedButtons + {LeftButton};
        i := i + 1;
      }
    }

    /** `setMouseHover(hover)`: a change of hover is passed on to every segment. */
    method SetMouseHover(hover: bool)
      requires Valid()
      modifies base`mouseHovering, Segs()`mouseHovering, Segs()`currentPen
      ensures base.mouseHovering == hover
      ensures old(base.mouseHovering) == hover ==>
        forall s :: s in Segs() ==> s.mouseHovering == old(s.mouseHovering) && s.currentPen == old(s.currentPen)
      ensures old(base.mouseHovering) != hover ==>
        forall s :: s in Segs() ==>
          s.mouseHovering == hover
          && s.currentPen == if old(s.mouseHovering) == hover then old(s.currentPen) else if hover then HoverPen else BasePen
    {
      if base.mouseHovering == hover {
        return;
      }
      base.mouseHovering := hover;
      var i := 0;
      while i < |segments|
        invariant 0 <= i <= |segments|
        invariant base.mouseHovering == hover
        invariant forall s :: s in Segs() ==>
          if exists j :: 0 <= j < i && segments[j] == s
          then s.mouseHovering == hover
               && s.currentPen == if old(s.mouseHovering) == hover then old(s.currentPen) else if hover then HoverPen else BasePen
          else s.mouseHovering == old(s.mouseHovering) && s.currentPen == old(s.currentPen)
      {
        segments[i].SetMouseHover(hover);
        i := i + 1;
      }
    }

    /**
     * `newHandleRequested(segment, ev, pos)`: a click on `segment` at `p` (the event position
     * mapped to the parent, or the given position) splits it. A new segment from the
     * segment's first handle to a new deletable handle at `p` is inserted before it, the
     * segment's first handle entry becomes the new handle, and the new handle joins the
     * polyline's handle list after index `i`.
     */
    method NewHandleRequested(segment: ROI, evPos: Option<Point>, pos: Option<Point>) returns (err: Option<PyError>)
      requires Valid()
      modifies this`segments, base`handles, segment`handles
      modifies segment.Items()`roi, segment.Items()`deletable, segment.Items()`acceptedButtons
      ensures Valid()
      ensures err.Some? ==> segments == old(segments) && base.handles == old(base.handles) && segment.handles == old(segment.handles)
      ensures err == Some(RaisedException("Either an event or a position must be given.")) <==> evPos.None? && pos.None?
      ensures (evPos.Some? || pos.Some?) && |old(segment.handles)| < 2 ==> err == Some(IndexError)
      ensures (evPos.Some? || pos.Some?) && |old(segment.handles)| >= 2 && segment !in old(segments) ==> err == Some(NameError)
      ensures err.None? <==> (evPos.Some? || pos.Some?) && |old(segment.handles)| >= 2 && segment in old(segments)
      ensures err.None? ==>
        var p := if evPos.Some? then ToParent(segment.geo, segment.state, evPos.value) else pos.value;
        var i := FirstIndex(old(segments), segment).value;
        var h1 := old(segment.handles[0]);
        && |segments| == |old(segments)| + 1
        && segments == PyInsert(old(segments), i, segments[i]) && segments[i + 1] == segment
        && fresh(segments[i]) && |segments[i].handles| == 2
        && segments[i].handles[0] == HandleInfo(FreeSpec(h1.spec.pos), h1.item)
        && segments[i].handles[1].spec == FreeSpec(p) && fresh(segments[i].handles[1].item)
        && segments[i].handles[1].item.deletable && segments[i].acceptedButtons == {LeftButton}
        && segment.handles == old(segment.handles)[0 := segments[i].handles[1]]
        && base.handles == PyInsert(old(base.handles), i + 1, segments[i].handles[1])
        && h1.item.roi == Detached(old(h1.item.roi) + [(segments[i], 0)], segment)
        && segments[i].handles[1].item.roi == [(segments[i], 1), (segment, 0)]
    {
      var p: Point;
      if evPos.Some? {
        p := ToParent(segment.geo, segment.state, evPos.value);
      } else if pos.Some? {
        p := pos.value;
      } else {
        return Some(RaisedException("Either an event or a position must be given."));
      }
      if |segment.handles| < 2 {
        return Some(IndexError);
      }
      var found := Find(segment);
      if found.None? {
        return Some(NameError);
      }
      var i := found.value;
      var ns := InsertSegment(i, segment, p);
      assert segments[i] == ns && segments[i + 1] == segment;
      return None;
    }

    /** The list edits of `newHandleRequested` once `segment` has been found at index `i`. */
    method InsertSegment(i: nat, segment: ROI, p: Point) returns (ns: ROI)
      requires Valid() && i < |segments| && segments[i] == segment && |segment.handles| >= 2
      modifies this`segments, base`handles, segment`handles
      modifies segment.Items()`roi, segment.Items()`deletable, segment.Items()`acceptedButtons
      ensures Valid()
      ensures segments == PyInsert(old(segments), i, ns)
      ensures fresh(ns) && |ns.handles| == 2
      ensures ns.handles[0] == HandleInfo(FreeSpec(old(segment.handles[0].spec.pos)), old(segment.handles[0].item))
      ensures ns.handles[1].spec == FreeSpec(p) && fresh(ns.handles[1].item)
      ensures ns.handles[1].item.deletable && ns.acceptedButtons == {LeftButton}
      ensures segment.handles == old(segment.handles)[0 := ns.handles[1]]
      ensures base.handles == PyInsert(old(base.handles), i + 1, ns.handles[1])
      ensures old(segment.handles[0].item).roi == Detached(old(segment.handles[0].item.roi) + [(ns, 0)], segment)
      ensures ns.handles[1].item.roi == [(ns, 1), (segment, 0)]
    {
      ghost var h1 := segment.handles[0].item;
      ns := SplitSegment(segment, p);
      var fh := ns.handles[1];
      ghost var nsHandles := ns.handles;
      ghost var linked := h1.roi;
      assert fh.item != h1;
      SetFirstHandle(segment, fh);
      assert ns.handles == nsHandles && fh.item.deletable;
      assert h1.roi == Detached(linked, segment) && fh.item.roi == [(ns, 1), (segment, 0)];
      segments := PyInsert(segments, i, ns);
      assert base !in multiset(segments);
      base.handles := PyInsert(base.handles, i + 1, fh);
    }

    /** `segment.replaceHandle(0, info)` for a segment with handles and a new item. */
    static method SetFirstHandle(segment: ROI, info: HandleInfo)
      requires |segment.handles| > 0 && info.item != segment.handles[0].item
      modifies segment`handles, segment.Items()`roi, info.item`roi
      ensures segment.handles == old(segment.handles)[0 := info]
      ensures old(segment.handles[0].item).roi == Detached(old(segment.handles[0].item.roi), segment)
      ensures info.item.roi == old(info.item.roi) + [(segment, 0)]
    {
      var e := segment.ReplaceHandle(0, info);
    }

    /**
     * The segment `newHandleRequested` builds in front of `segment`: from the first handle of
     * `segment` (which now also reports to it as its handle 0) to a fresh handle at `p`, with
     * the polyline's segment settings applied.
     */
    static method SplitSegment(segment: ROI, p: Point) returns (ns: ROI)
      requires |segment.handles| >= 2
      modifies segment.Items()`roi, segment.Items()`deletable, segment.Items()`acceptedButtons
      ensures fresh(ns) && |ns.handles| == 2
      ensures ns.handles[0] == HandleInfo(FreeSpec(segment.handles[0].spec.pos), segment.handles[0].item)
      ensures ns.handles[1].spec == FreeSpec(p) && fresh(ns.handles[1].item)
      ensures ns.handles[1].item.deletable && ns.acceptedButtons == {LeftButton}
      ensures segment.handles[0].item.roi == old(segment.handles[0].item.roi) + [(ns, 0)]
      ensures ns.handles[1].item.roi == [(ns, 1)]
    {
      var h1 := segment.handles[0];
      assert h1.item in segment.Items();
      var e;
      ns, e := NewLineSegment(segment.geo, [h1.spec.pos, p], Point(0.0, 0.0), (h1.item, null), true, false);
      assert ns.handles[1].item in ns.Items();
      SetSegmentSettings(ns);
    }

    /**
     * `handleRemoved(segment, handle)`: the segment after `segment` (the first one, when
     * `segment` is the last) takes over `segment`'s first handle, the removed handle forgets
     * that segment, the polyline drops the handle entry at that segment's index, and `segment`
     * leaves the list.
     */
    method HandleRemoved(segment: ROI, handle: Handle) returns (err: Option<PyError>)
      requires Valid()
      modifies this`segments, base`handles, Segs()`handles, SegItems()`roi, handle`roi
      ensures Valid()
      ensures segment !in old(segments) ==>
        err == Some(NameError) && segments == old(segments) && base.handles == old(base.handles)
        && (forall s :: s in old(Segs()) ==> s.handles == old(s.handles))
        && (forall x :: x in old(SegItems()) ==> x.roi == old(x.roi)) && handle.roi == old(handle.roi)
      ensures segment in old(segments) ==>
        var i := FirstIndex(old(segments), segment).value;
        var j := if segment != old(segments)[|old(segments)| - 1] then i + 1 else 0;
        var next := old(segments)[j];
        if |old(segment.handles)| == 0 || |old(next.handles)| == 0 then
          err == Some(IndexError) && segments == old(segments) && base.handles == old(base.handles)
          && (forall s :: s in old(Segs()) ==> s.handles == old(s.handles))
          && (forall x :: x in old(SegItems()) ==> x.roi == old(x.roi)) && handle.roi == old(handle.roi)
        else
          && next.handles == old(next.handles)[0 := old(segment.handles[0])]
          && (forall s :: s in old(Segs()) && s != next ==> s.handles == old(s.handles))
          && (forall x :: x in handle.roi ==> x.0 != next)
          && HandedOver(old(SegItems()), handle, next, old(segment.handles[0].item), old(next.handles[0].item))
          && if j < |old(base.handles)| then
               err.None? && base.handles == RemoveAt(old(base.handles), j) && segments == RemoveAt(old(segments), i)
             else
               err == Some(IndexError) && base.handles == old(base.handles) && segments == old(segments)
    {
      var found := Find(segment);
      if found.None? {
        return Some(NameError);
      }
      var i := found.value;
      err := RemoveFound(i, segment, handle);
    }

    /**
     * The `enumerate` search of `newHandleRequested` and `handleRemoved`: the index of the
     * first segment that is `segment`, if any.
     */
    method Find(segment: ROI) returns (r: Option<nat>)
      ensures r == FirstIndex(segments, segment)
    {
      var i := 0;
      while i < |segments| && segments[i] != segment
        invariant 0 <= i <= |segments|
        invariant segment !in segments[..i]
      {
        assert segments[..i + 1] == segments[..i] + [segments[i]];
        i := i + 1;
      }
      if i == |segments| {
        assert segments[..i] == segments;
        return None;
      }
      return Some(i);
    }

    /** The edits of `handleRemoved` once `segment` has been found at index `i`. */
    method RemoveFound(i: nat, segment: ROI, handle: Handle) returns (err: Option<PyError>)
      requires Valid() && FirstIndex(segments, segment) == Some(i)
      modifies this`segments, base`handles, Segs()`handles, SegItems()`roi, handle`roi
      ensures Valid()
      ensures
        var j := if segment != old(segments)[|old(segments)| - 1] then i + 1 else 0;
        var next := old(segments)[j];
        if |old(segment.handles)| == 0 || |old(next.handles)| == 0 then
          err == Some(IndexError) && segments == old(segments) && base.handles == old(base.handles)
          && (forall s :: s in old(Segs()) ==> s.handles == old(s.handles))
          && (forall x :: x in old(SegItems()) ==> x.roi == old(x.roi)) && handle.roi == old(handle.roi)
        else
          && next.handles == old(next.handles)[0 := old(segment.handles[0])]
          && (forall s :: s in old(Segs()) && s != next ==> s.handles == old(s.handles))
          && (forall x :: x in handle.roi ==> x.0 != next)
          && HandedOver(old(SegItems()), handle, next, old(segment.handles[0].item), old(next.handles[0].item))
          && if j < |old(base.handles)| then
               err.None? && base.handles == RemoveAt(old(base.handles), j) && segments == RemoveAt(old(segments), i)
             else
               err == Some(IndexError) && base.handles == old(base.handles) && segments == old(segments)
    {
      var j := if segment != segments[|segments| - 1] then i + 1 else 0;
      var next := segments[j];
      err := TakeOver(segment, next, handle);
      if err.Some? {
        return;
      }
      err := DropSegment(i, j);
    }

    /** The last edits of `handleRemoved`: the handle entry `j` and the segment `i` leave. */
    method DropSegment(i: nat, j: nat) returns (err: Option<PyError>)
      requires Valid() && i < |segments|
      modifies this`segments, base`handles
      ensures Valid()
      ensures j < |old(base.handles)| ==>
        err.None? && base.handles == RemoveAt(old(base.handles), j) && segments == RemoveAt(old(segments), i)
      ensures j >= |old(base.handles)| ==>
        err == Some(IndexError) && base.handles == old(base.handles) && segments == old(segments)
    {
      if j >= |base.handles| {
        return Some(IndexError);
      }
      base.handles := RemoveAt(base.handles, j);
      segments := RemoveAt(segments, i);
      assert base !in multiset(segments);
      return None;
    }

    /**
     * The hand-over of `handleRemoved`: `next` takes `segment`'s first handle as its entry 0
     * (`replaceHandle(0, ...)`), then `handle` forgets `next`.
     */
    method TakeOver(segment: ROI, next: ROI, handle: Handle) returns (err: Option<PyError>)
      requires segment in segments && next in segments
      modifies next`handles, SegItems()`roi, handle`roi
      ensures |old(segment.handles)| == 0 || |old(next.handles)| == 0 ==>
        && err == Some(IndexError) && next.handles == old(next.handles)
        && (forall x :: x in old(SegItems()) ==> x.roi == old(x.roi)) && handle.roi == old(handle.roi)
      ensures |old(segment.handles)| != 0 && |old(next.handles)| != 0 ==>
        && err.None? && next.handles == old(next.handles)[0 := old(segment.handles[0])]
        && (forall x :: x in handle.roi ==> x.0 != next)
        && HandedOver(old(SegItems()), handle, next, old(segment.handles[0].item), old(next.handles[0].item))
    {
      if |segment.handles| == 0 {
        return Some(IndexError);
      }
      var first := segment.handles[0];
      assert first.item in SegItems();
      ghost var items := SegItems();
      ghost var prev := if |next.handles| == 0 then handle else next.handles[0].item;
      assert next.Items() <= items;
      err := next.ReplaceHandle(0, first);
      if err.Some? {
        return;
      }
      assert forall x :: x in items + {handle} ==> x.roi == AfterTakeover(old(x.roi), next, x == first.item, x == prev);
      ghost var kept := handle.roi;
      handle.DisconnectROI(next);
      DetachedMembers(kept, next);
    }
  }
}
