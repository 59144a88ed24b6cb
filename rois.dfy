/**
 * The ROI item and its handles as mutable objects: state and change tracking, the setters,
 * translation, handle moves, the handle registry and the drag/cancel state machine.
 * Signals are recorded in each object's `events` log instead of being dispatched.
 */
module Rois {
  import opened Wrappers
  import opened Geometry
  import opened Snapping
  import opened Bounds
  import opened RoiState
  import opened HandleRules

  datatype Pen = BasePen | HoverPen
  datatype Button = LeftButton | RightButton | MiddleButton
  datatype DragPhase = DragStart | DragMove | DragFinish

  /**
   * A mouse drag event. For an ROI, `pos` and `downPos` are in the ROI's own coordinates;
   * for a handle they are scene positions.
   */
  datatype DragEvent = DragEvent(phase: DragPhase, button: Button, buttons: set<Button>,
                                 downPos: Point, pos: Point, mods: Modifiers)

  /** Whether an event handler accepted the event, ignored it, or did neither. */
  datatype Reply = Accepted | Ignored | Untouched

  /** One entry of `ROI.handles`: the handle description and the handle item. */
  datatype HandleInfo = HandleInfo(spec: HandleSpec, item: Handle)

  /** The position `stateChanged` gives `h`: from the last entry of `hs` that holds it. */
  function Placement(hs: seq<HandleInfo>, h: Handle, size: Point): (r: Option<Point>)
    ensures r.Some? <==> exists i :: 0 <= i < |hs| && hs[i].item == h
  {
    if |hs| == 0 then None
    else if hs[|hs| - 1].item == h then Some(Mul(hs[|hs| - 1].spec.pos, size))
    else Placement(hs[..|hs| - 1], h, size)
  }

  lemma PlacementStep(hs: seq<HandleInfo>, x: HandleInfo, h: Handle, size: Point)
    ensures Placement(hs + [x], h, size) == if x.item == h then Some(Mul(x.spec.pos, size)) else Placement(hs, h, size)
  {
    assert (hs + [x])[..|hs|] == hs;
  }

  /** The entries `disconnectROI(r)` is meant to keep: every one that does not name `r`, in order. */
  function Detached(s: seq<(ROI, int)>, r: ROI): seq<(ROI, int)>
  {
    if |s| == 0 then [] else (if s[0].0 == r then [] else [s[0]]) + Detached(s[1..], r)
  }

  lemma {:induction false} DetachedAppend(s: seq<(ROI, int)>, x: (ROI, int), r: ROI)
    ensures Detached(s + [x], r) == Detached(s, r) + (if x.0 == r then [] else [x])
  {
    if |s| > 0 {
      assert (s + [x])[1..] == s[1..] + [x];
      DetachedAppend(s[1..], x, r);
    }
  }

  /** After disconnecting, an entry remains exactly when it was there and names another ROI. */
  lemma {:induction false} DetachedMembers(s: seq<(ROI, int)>, r: ROI)
    ensures forall x :: x in Detached(s, r) <==> x in s && x.0 != r
  {
    if |s| > 0 {
      DetachedMembers(s[1..], r);
      assert s == [s[0]] + s[1..];
    }
  }

  /**
   * `Handle.disconnectROI` as written: `enumerate` walks on by index while `pop(i)` shifts the
   * rest of the list left, so the entry following a removed one is never looked at. `i` is
   * the index the loop has reached.
   */
  function EnumeratePop(s: seq<(ROI, int)>, r: ROI, i: nat): seq<(ROI, int)>
    decreases |s| - i
  {
    if i >= |s| then s
    else if s[i].0 == r then EnumeratePop(s[..i] + s[i + 1..], r, i + 1)
    else EnumeratePop(s, r, i + 1)
  }

  /** Two adjacent entries for the same ROI: the loop as written leaves the second one behind. */
  lemma DisconnectAsWrittenKeepsEntry(r: ROI)
    ensures EnumeratePop([(r, 0), (r, 1)], r, 0) == [(r, 1)]
    ensures Detached([(r, 0), (r, 1)], r) == []
  {
    assert [(r, 0), (r, 1)][..0] + [(r, 0), (r, 1)][1..] == [(r, 1)];
    assert [(r, 0), (r, 1)][1..] == [(r, 1)] && [(r, 1)][1..] == [];
    assert Detached([(r, 1)], r) == Detached([], r) == [];
  }

  /** The loop as written is right when no two adjacent entries from `i` on name `r`. */
  lemma {:induction false} EnumeratePopWithoutAdjacent(s: seq<(ROI, int)>, r: ROI, i: nat)
    requires i <= |s|
    requires forall j :: i <= j < |s| - 1 ==> !(s[j].0 == r && s[j + 1].0 == r)
    ensures EnumeratePop(s, r, i) == s[..i] + Detached(s[i..], r)
    decreases |s| - i
  {
    if i == |s| {
      assert s[..i] == s && s[i..] == [];
    } else if s[i].0 == r {
      var s' := s[..i] + s[i + 1..];
      DetachedFrom(s, r, i);
      if i + 1 == |s| {
        assert s' == s[..i];
        assert s[i + 1..] == [];
      } else {
        PopShift(s, i);
        EnumeratePopWithoutAdjacent(s', r, i + 1);
        DetachedFrom(s, r, i + 1);
      }
    } else {
      EnumeratePopWithoutAdjacent(s, r, i + 1);
      assert s[..i + 1] == s[..i] + [s[i]];
      DetachedFrom(s, r, i);
    }
  }

  /** Detached unfolded at position `k` of a suffix. */
  lemma DetachedFrom(s: seq<(ROI, int)>, r: ROI, k: nat)
    requires k < |s|
    ensures Detached(s[k..], r) == (if s[k].0 == r then [] else [s[k]]) + Detached(s[k + 1..], r)
  {
    assert s[k..][1..] == s[k + 1..];
  }

  /** Popping index `i` shifts what follows one place left. */
  lemma PopShift<T>(s: seq<T>, i: nat)
    requires i + 1 < |s|
    ensures var s' := s[..i] + s[i + 1..];
      && |s'| == |s| - 1
      && (forall j :: i <= j < |s'| ==> s'[j] == s[j + 1])
      && s'[..i + 1] == s[..i] + [s[i + 1]]
      && s'[i + 1..] == s[i + 2..]
  {
  }

  /** How many entries of `rs` name `r`. */
  function Occurrences(rs: seq<(ROI, int)>, r: ROI): nat
  {
    if |rs| == 0 then 0 else (if rs[0].0 == r then 1 else 0) + Occurrences(rs[1..], r)
  }

  lemma {:induction false} OccurrencesAppend(rs: seq<(ROI, int)>, x: (ROI, int), r: ROI)
    ensures Occurrences(rs + [x], r) == Occurrences(rs, r) + (if x.0 == r then 1 else 0)
  {
    if |rs| > 0 {
      assert (rs + [x])[1..] == rs[1..] + [x];
      OccurrencesAppend(rs[1..], x, r);
    }
  }

  /** The handle, if any, as a set of objects. */
  function Maybe(item: Handle?): set<Handle>
  {
    if item == null then {} else {item}
  }

  /** The scene position of an item at `pos` whose parent is `parent`. */
  function SceneOf(parent: ROI?, pos: Point): Point
    reads (if parent == null then {} else {parent})`state
  {
    if parent == null then pos else ToParent(parent.geo, parent.state, pos)
  }

  /** What `movePoint` may change of an ROI: its state and its change processing. */
  datatype Progress = Progress(state: State, lastState: Option<State>, freeHandleMoved: bool, events: seq<Event>)

  function ProgressOf(r: ROI): Progress
    reads r
  {
    Progress(r.state, r.lastState, r.freeHandleMoved, r.events)
  }

  /** `r` is where `r.movePoint(pt, p, mods, finish)` takes it from `before`, returning `err`. */
  predicate Forwarded(r: ROI, pt: int, p: Point, mods: Modifiers, finish: bool, err: Option<PyError>, before: Progress)
    reads r, r.Items()
  {
    var k := PyIndex(pt, |r.handles|);
    if k.None? then err == Some(IndexError) && ProgressOf(r) == before
    else forall plan :: plan == PlanMove(r.Config(), r.geo, before.state, r.handles[k.value].spec, p, mods) ==> Followed(r, r.handles[k.value].item, plan, finish, err, before)
  }

  /**
   * `r` is where carrying out `plan` with `finish` takes it from `before`, returning `err`; the
   * dragged handle `item` is where the plan or the processed change puts it.
   */
  predicate Followed(r: ROI, item: Handle, plan: Plan, finish: bool, err: Option<PyError>, before: Progress)
    reads r, item
  {
    && err == (if plan.Raise? then Some(plan.error) else None)
    && r.state == (if plan.Apply? then plan.next else before.state)
    && r.events == before.events + (if plan.Apply? then Signals(before.lastState, r.state, before.freeHandleMoved || plan.freeMoved, finish) else [])
    && r.lastState == (if plan.Apply? then Some(r.state) else before.lastState)
    && r.freeHandleMoved == (if plan.Apply? then false else before.freeHandleMoved || plan.freeMoved)
    && (plan.Apply? && plan.handlePos.Some? ==>
          if Changed(before.lastState, r.state) && item.parent == r then Placement(r.handles, item, r.state.size) == Some(item.pos)
          else item.pos == plan.handlePos.value)
  }

  class ROI {
    const geo: Primitives
    /** `checkPointMove(pt, pos, modifiers)`, which subclasses may override. */
    const moveCheck: (int, Point, Modifiers) -> bool

    var state: State
    var lastState: Option<State>
    var freeHandleMoved: bool
    var mouseHovering: bool
    var currentPen: Pen
    var isMoving: bool
    var preMoveState: Option<State>
    var cursorOffset: Point
    var handles: seq<HandleInfo>
    var events: seq<Event>

    var aspectLocked: bool
    var translatable: bool
    var rotateAllowed: bool
    var invertible: bool
    var maxBounds: Option<Rect>
    var snapSize: Option<real>
    var translateSnap: bool
    var rotateSnap: bool
    var scaleSnap: bool
    var acceptedButtons: set<Button>

    /** A drag in progress always has a state to return to. */
    predicate Valid()
      reads this
    {
      isMoving ==> preMoveState.Some?
    }

    /** The attributes the geometry rules read. */
    function Config(): Settings
      reads this`invertible, this`aspectLocked, this`rotateAllowed, this`maxBounds, this`snapSize, this`translateSnap, this`rotateSnap, this`scaleSnap
    {
      Settings(invertible, aspectLocked, rotateAllowed, maxBounds, snapSize, translateSnap, rotateSnap, scaleSnap)
    }

    /** The handle items in `handles`. */
    function Items(): set<Handle>
      reads this
    {
      set i | 0 <= i < |handles| :: handles[i].item
    }

    /** Every entry of `handles` is known to its item under its own index. */
    predicate Linked()
      reads this, Items()
    {
      forall i :: 0 <= i < |handles| ==> (this, i) in handles[i].item.roi
    }

    /**
     * The effect of one `stateChanged(finish)` that the current call ended with: `before` was
     * emitted first, free handles moved if `freeMoved`, and `moved` is a handle item the call
     * placed before the change was processed.
     */
    twostate predicate Processed(before: seq<Event>, finish: bool, freeMoved: bool, moved: Option<(Handle, Point)>)
      reads this, Items()
    {
      && events == old(events) + before + Signals(old(lastState), state, old(freeHandleMoved) || freeMoved, finish)
      && lastState == Some(state)
      && !freeHandleMoved
      && forall h :: h in Items() && old(allocated(h)) ==>
           if Changed(old(lastState), state) && h.parent == this then Placement(handles, h, state.size) == Some(h.pos)
           else h.pos == if moved.Some? && moved.value.0 == h then moved.value.1 else old(h.pos)
    }

    /** No change was processed: only `before` was emitted, and no handle item moved. */
    twostate predicate Quiet(before: seq<Event>)
      reads this, Items()
    {
      && events == old(events) + before
      && lastState == old(lastState)
      && freeHandleMoved == old(freeHandleMoved)
      && forall h :: h in Items() && old(allocated(h)) ==> h.pos == old(h.pos)
    }

    /**
     * `ROI(pos, size, angle, ...)`: starts from `pos` (0, 0), size (1, 1), angle 0 and applies
     * `setPos`, `setAngle` and `setSize`, each processed and finished.
     */
    constructor (geo: Primitives, moveCheck: (int, Point, Modifiers) -> bool, pos: Point, size: Point,
                 angle: real, invertible: bool, maxBounds: Option<Rect>, snapSize: Option<real>,
                 scaleSnap: bool, translateSnap: bool, rotateSnap: bool, movable: bool)
      ensures Valid() && Linked()
      ensures this.geo == geo && this.moveCheck == moveCheck
      ensures state == State(pos, size, angle) && lastState == Some(state)
      ensures events == [RegionChanged, RegionChangeFinished]
                        + (if angle != 0.0 then [RegionChanged] else []) + [RegionChangeFinished]
                        + (if size != Point(1.0, 1.0) then [RegionChanged] else []) + [RegionChangeFinished]
      ensures handles == [] && !freeHandleMoved && !mouseHovering && currentPen == BasePen
      ensures !isMoving && preMoveState.None? && acceptedButtons == {}
      ensures !aspectLocked && translatable == movable && rotateAllowed
      ensures this.invertible == invertible && this.maxBounds == maxBounds && this.snapSize == snapSize
      ensures this.scaleSnap == scaleSnap && this.translateSnap == translateSnap && this.rotateSnap == rotateSnap
    {
      this.geo := geo;
      this.moveCheck := moveCheck;
      state := State(Point(0.0, 0.0), Point(1.0, 1.0), 0.0);
      lastState := None;
      freeHandleMoved := false;
      mouseHovering := false;
      currentPen := BasePen;
      isMoving := false;
      preMoveState := None;
      cursorOffset := Point(0.0, 0.0);
      handles := [];
      events := [];
      aspectLocked := false;
      translatable := movable;
      rotateAllowed := true;
      this.invertible := invertible;
      this.maxBounds := maxBounds;
      this.snapSize := snapSize;
      this.translateSnap := translateSnap;
      this.rotateSnap := rotateSnap;
      this.scaleSnap := scaleSnap;
      acceptedButtons := {};
      new;
      InitialChanges(pos, size, angle);
    }

    /** The `setPos`, `setAngle`, `setSize` sequence at the end of the constructor. */
    method InitialChanges(pos: Point, size: Point, angle: real)
      requires handles == [] && lastState.None? && !freeHandleMoved && events == []
      requires state == State(Point(0.0, 0.0), Point(1.0, 1.0), 0.0)
      modifies this`state, this`freeHandleMoved, this`lastState, this`events
      ensures state == State(pos, size, angle) && lastState == Some(state) && !freeHandleMoved
      ensures events == [RegionChanged, RegionChangeFinished]
                        + (if angle != 0.0 then [RegionChanged] else []) + [RegionChangeFinished]
                        + (if size != Point(1.0, 1.0) then [RegionChanged] else []) + [RegionChangeFinished]
    {
      assert Items() == {};
      SetPos(pos, true, true);
      assert events == [RegionChanged, RegionChangeFinished] && lastState == Some(state);
      AngleThenSize(angle, size);
    }

    /** `setAngle(angle)` then `setSize(size)`, each processed and finished, on an ROI without handles. */
    method AngleThenSize(angle: real, size: Point)
      requires handles == [] && lastState == Some(state) && !freeHandleMoved
      modifies this`state, this`freeHandleMoved, this`lastState, this`events
      ensures state == old(state).(angle := angle, size := size) && lastState == Some(state) && !freeHandleMoved
      ensures events == old(events)
                        + (if angle != old(state).angle then [RegionChanged] else []) + [RegionChangeFinished]
                        + (if size != old(state).size then [RegionChanged] else []) + [RegionChangeFinished]
    {
      assert Items() == {};
      SetAngle(angle, true, true);
      assert Changed(Some(old(state)), state) <==> angle != old(state).angle;
      ghost var e1 := events;
      assert e1 == old(events) + (if angle != old(state).angle then [RegionChanged] else []) + [RegionChangeFinished];
      ghost var s1 := state;
      SetSize(size, true, true);
      assert Changed(Some(s1), state) <==> size != s1.size;
      assert events == e1 + (if size != s1.size then [RegionChanged] else []) + [RegionChangeFinished];
    }

    /**
     * `stateChanged(finish)`: when the state differs from `lastState` the handle items this
     * ROI is the parent of are put back at their `pos` scaled by the size, and
     * `RegionChanged` is emitted (also when only a free handle moved). Ends with
     * `freeHandleMoved` cleared and `lastState` a copy of the state.
     */
    method StateChanged(finish: bool)
      modifies this`freeHandleMoved, this`lastState, this`events, Items()`pos
      ensures Processed([], finish, false, None)
    {
      ghost var signals := Signals(lastState, state, freeHandleMoved, finish);
      var changed := Changed(lastState, state);
      if changed {
        PlaceHandles();
        events := events + [RegionChanged];
      } else if freeHandleMoved {
        events := events + [RegionChanged];
      }
      ghost var emitted := events;
      assert emitted == old(events) + (if changed || old(freeHandleMoved) then [RegionChanged] else []);
      freeHandleMoved := false;
      lastState := Some(state);
      if finish {
        StateChangeFinished();
      }
      assert events == emitted + (if finish then [RegionChangeFinished] else []);
      assert events == old(events) + signals;
    }

    /** The loop of `stateChanged` that puts each handle item this ROI owns at `pos` times the size. */
    method PlaceHandles()
      modifies Items()`pos
      ensures forall h :: h in Items() ==>
        if h.parent == this then Placement(handles, h, state.size) == Some(h.pos) else h.pos == old(h.pos)
    {
      var i := 0;
      while i < |handles|
        invariant 0 <= i <= |handles|
        invariant forall h :: h in Items() ==>
          if h.parent == this && Placement(handles[..i], h, state.size).Some?
          then Placement(handles[..i], h, state.size) == Some(h.pos) else h.pos == old(h.pos)
      {
        var info := handles[i];
        assert handles[..i + 1] == handles[..i] + [info];
        forall h | h in Items()
          ensures Placement(handles[..i + 1], h, state.size)
                  == if info.item == h then Some(Mul(info.spec.pos, state.size)) else Placement(handles[..i], h, state.size)
        {
          PlacementStep(handles[..i], info, h, state.size);
        }
        if info.item.parent == this {
          info.item.pos := Mul(info.spec.pos, state.size);
        }
        i := i + 1;
      }
      assert handles[..|handles|] == handles;
      forall h | h in Items() && h.parent == this
        ensures Placement(handles, h, state.size).Some?
      {
        var k :| 0 <= k < |handles| && handles[k].item == h;
      }
    }

    /** `stateChangeFinished()`: emits `RegionChangeFinished`. */
    method StateChangeFinished()
      modifies this`events
      ensures events == old(events) + [RegionChangeFinished]
    {
      events := events + [RegionChangeFinished];
    }

    /** `setPos(pos, update, finish)`: only the position changes; `update` processes the change. */
    method SetPos(p: Point, update: bool, finish: bool)
      modifies this`state, this`freeHandleMoved, this`lastState, this`events, Items()`pos
      ensures state == old(state).(pos := p)
      ensures if update then Processed([], finish, false, None) else Quiet([])
    {
      state := state.(pos := p);
      if update {
        StateChanged(finish);
      }
    }

    /** `setSize(size, update, finish)`. */
    method SetSize(size: Point, update: bool, finish: bool)
      modifies this`state, this`freeHandleMoved, this`lastState, this`events, Items()`pos
      ensures state == old(state).(size := size)
      ensures if update then Processed([], finish, false, None) else Quiet([])
    {
      state := state.(size := size);
      if update {
        StateChanged(finish);
      }
    }

    /** `setAngle(angle, update, finish)`. */
    method SetAngle(angle: real, update: bool, finish: bool)
      modifies this`state, this`freeHandleMoved, this`lastState, this`events, Items()`pos
      ensures state == old(state).(angle := angle)
      ensures if update then Processed([], finish, false, None) else Quiet([])
    {
      state := state.(angle := angle);
      if update {
        StateChanged(finish);
      }
    }

    /** `setState(state, update)`: position and size quietly, then the angle with `update`. */
    method SetState(st: State, update: bool)
      modifies this`state, this`freeHandleMoved, this`lastState, this`events, Items()`pos
      ensures state == st
      ensures if update then Processed([], true, false, None) else Quiet([])
    {
      SetPos(st.pos, false, true);
      SetSize(st.size, false, true);
      SetAngle(st.angle, update, true);
    }

    /** `rotate(angle, update, finish)`: turns the ROI by `angle` degrees more. */
    method Rotate(angle: real, update: bool, finish: bool)
      modifies this`state, this`freeHandleMoved, this`lastState, this`events, Items()`pos
      ensures state == old(state).(angle := old(state).angle + angle)
      ensures if update then Processed([], finish, false, None) else Quiet([])
    {
      SetAngle(state.angle + angle, update, finish);
    }

    /**
     * `scale(s, center, update, finish)`: multiplies the size by `s` and moves the ROI so that
     * the point `center` (in units of the size) keeps its place in the parent.
     */
    method Scale(s: Point, center: Point, update: bool, finish: bool)
      modifies this`state, this`freeHandleMoved, this`lastState, this`events, Items()`pos
      ensures state.size == Mul(old(state).size, s) && state.angle == old(state).angle
      ensures ToParent(geo, state, Mul(center, state.size)) == ToParent(geo, old(state), Mul(center, old(state).size))
      ensures if update then Processed([], finish, false, None) else Quiet([])
    {
      var c := ToParent(geo, state, Mul(center, state.size));
      var newSize := Mul(state.size, s);
      var c1 := ToParent(geo, state, Mul(center, newSize));
      var newPos := Add(state.pos, Sub(c, c1));
      SetSize(newSize, false, true);
      SetPos(newPos, update, finish);
    }

    /**
     * `translate(delta, snap=..., update=..., finish=...)`: moves by `delta`, snapped and
     * clamped into `maxBounds` as `TranslatedPos` says; on an exception nothing changes.
     */
    method Translate(delta: Point, snap: SnapArg, update: bool, finish: bool) returns (err: Option<PyError>)
      modifies this`state, this`freeHandleMoved, this`lastState, this`events, Items()`pos
      ensures var r := TranslatedPos(Config(), geo, old(state), delta, snap);
        if r.Failure? then err == Some(r.error) && state == old(state) && Quiet([])
        else err.None? && state == old(state).(pos := r.value) && (if update then Processed([], finish, false, None) else Quiet([]))
    {
      var r := TranslatedPos(Config(), geo, state, delta, snap);
      if r.Failure? {
        return Some(r.error);
      }
      SetPos(r.value, update, finish);
      return None;
    }

    /** `handleMoveStarted()`: remembers the state a cancelled handle drag returns to. */
    method HandleMoveStarted()
      modifies this`preMoveState
      ensures preMoveState == Some(state)
    {
      preMoveState := Some(state);
    }

    /** `checkPointMove(pt, pos, modifiers)`. */
    function CheckPointMove(pt: int, pos: Point, mods: Modifiers): bool
    {
      moveCheck(pt, pos, mods)
    }

    /**
     * `movePoint(pt, pos, modifiers, finish)`: the handle entry `pt` (Python indexing) asks to
     * be at `pos`; `PlanMove` says what happens. An applied plan ends with `stateChanged`; a
     * rejected or failed one changes nothing but maybe `freeHandleMoved`.
     */
    method MovePoint(pt: int, pos: Point, mods: Modifiers, finish: bool) returns (err: Option<PyError>)
      modifies this`state, this`freeHandleMoved, this`lastState, this`events, Items()`pos
      ensures PyIndex(pt, |handles|).None? ==> err == Some(IndexError) && state == old(state) && Quiet([])
      ensures PyIndex(pt, |handles|).Some? ==>
        var info := handles[PyIndex(pt, |handles|).value];
        var plan := PlanMove(Config(), geo, old(state), info.spec, pos, mods);
        if plan.Apply? then
          && err.None? && state == plan.next
          && Processed([], finish, plan.freeMoved, if plan.handlePos.Some? then Some((info.item, plan.handlePos.value)) else None)
        else
          && err == (if plan.Raise? then Some(plan.error) else None) && state == old(state)
          && events == old(events) && lastState == old(lastState)
          && freeHandleMoved == (old(freeHandleMoved) || plan.freeMoved)
          && forall h :: h in Items() ==> h.pos == old(h.pos)
    {
      var k := PyIndex(pt, |handles|);
      if k.None? {
        return Some(IndexError);
      }
      var info := handles[k.value];
      var plan := PlanMove(Config(), geo, state, info.spec, pos, mods);
      if plan.freeMoved {
        freeHandleMoved := true;
      }
      if plan.Raise? {
        return Some(plan.error);
      }
      if plan.Stop? {
        return None;
      }
      ApplyPlan(info.item, plan.next, plan.handlePos, finish);
      return None;
    }

    /** The end of an applied `movePoint`: the handle item is placed, the state set and processed. */
    method ApplyPlan(item: Handle, next: State, handlePos: Option<Point>, finish: bool)
      requires item in Items()
      modifies this`state, this`freeHandleMoved, this`lastState, this`events, Items()`pos
      ensures state == next
      ensures Processed([], finish, false, if handlePos.Some? then Some((item, handlePos.value)) else None)
    {
      if handlePos.Some? {
        item.pos := handlePos.value;
      }
      state := next;
      StateChanged(finish);
    }

    /** `setMouseHover(hover)`: a change of hover switches between the hover pen and the ROI pen. */
    method SetMouseHover(hover: bool)
      modifies this`mouseHovering, this`currentPen
      ensures mouseHovering == hover
      ensures currentPen == if old(mouseHovering) == hover then old(currentPen) else if hover then HoverPen else BasePen
    {
      if mouseHovering == hover {
        return;
      }
      mouseHovering := hover;
      currentPen := if hover then HoverPen else BasePen;
    }

    /**
     * `cancelMove()`: stops the drag and restores the state saved when it started. Without a
     * saved state the attribute lookup fails after `isMoving` is already cleared.
     */
    method CancelMove() returns (err: Option<PyError>)
      modifies this`isMoving, this`state, this`freeHandleMoved, this`lastState, this`events, Items()`pos
      ensures !isMoving && Valid()
      ensures old(preMoveState).None? ==> err == Some(AttributeError) && state == old(state) && Quiet([])
      ensures old(preMoveState).Some? ==> err.None? && state == old(preMoveState).value && Processed([], true, false, None)
    {
      isMoving := false;
      if preMoveState.None? {
        return Some(AttributeError);
      }
      SetState(preMoveState.value, true);
      return None;
    }

    /**
     * `mouseClickEvent(ev)`: a right click during a drag cancels it; another accepted button
     * emits `Clicked`; anything else is ignored.
     */
    method MouseClickEvent(button: Button) returns (reply: Reply)
      requires Valid()
      modifies this`isMoving, this`state, this`freeHandleMoved, this`lastState, this`events, Items()`pos
      ensures Valid()
      ensures button == RightButton && old(isMoving) ==>
        reply == Accepted && !isMoving && state == old(preMoveState).value && Processed([], true, false, None)
      ensures !(button == RightButton && old(isMoving)) ==>
        && state == old(state) && isMoving == old(isMoving)
        && reply == (if button in acceptedButtons then Accepted else Ignored)
        && Quiet(if button in acceptedButtons then [Clicked] else [])
    {
      if button == RightButton && isMoving {
        var err := CancelMove();
        return Accepted;
      } else if button in acceptedButtons {
        events := events + [Clicked];
        return Accepted;
      }
      return Ignored;
    }

    /** A drag that `mouseDragEvent` starts: the left button on a translatable ROI. */
    predicate StartsDrag(ev: DragEvent)
      reads this
    {
      ev.phase == DragStart && ev.button == LeftButton && translatable
    }

    /** The `translate` step of a drag, from a state and the cursor offset the drag keeps. */
    function DragTarget(s: State, offset: Point, ev: DragEvent): Result<Point>
      reads this
    {
      TranslatedPos(Config(), geo, s, Sub(Add(ToParent(geo, s, ev.pos), offset), s.pos),
                    if ev.mods.control then Enabled else Unspecified)
    }

    /**
     * `mouseDragEvent(ev)`: a left-button start on a translatable ROI begins a drag (saving
     * the state and the cursor offset, emitting `RegionChangeStarted`); a finish ends it with
     * `RegionChangeFinished`; in between the ROI follows the cursor through `translate` with
     * `finish=False`.
     */
    method MouseDragEvent(ev: DragEvent) returns (reply: Reply, err: Option<PyError>)
      requires Valid()
      modifies this`isMoving, this`preMoveState, this`cursorOffset
      modifies this`state, this`freeHandleMoved, this`lastState, this`events, Items()`pos
      ensures Valid()
      ensures StartsDrag(ev) ==>
        && reply == Accepted && isMoving && preMoveState == Some(old(state))
        && cursorOffset == Sub(old(state).pos, ToParent(geo, old(state), ev.downPos))
      ensures reply == if StartsDrag(ev) then Accepted
                       else if ev.phase == DragStart && ev.button == LeftButton then Ignored else Untouched
      ensures !StartsDrag(ev) ==> preMoveState == old(preMoveState) && cursorOffset == old(cursorOffset)
      ensures ev.phase == DragFinish ==>
        && err.None? && state == old(state) && isMoving == (old(isMoving) && !translatable)
        && Quiet(if translatable && old(isMoving) then [RegionChangeFinished] else [])
      ensures ev.phase != DragFinish ==>
        var before := if StartsDrag(ev) then [RegionChangeStarted] else [];
        var target := DragTarget(old(state), cursorOffset, ev);
        && isMoving == (old(isMoving) || StartsDrag(ev))
        && if translatable && isMoving && ev.buttons == {LeftButton} then
             if target.Failure? then err == Some(target.error) && state == old(state) && Quiet(before)
             else err.None? && state == old(state).(pos := target.value) && Processed(before, false, false, None)
           else err.None? && state == old(state) && Quiet(before)
    {
      if ev.phase == DragFinish {
        EndDrag();
        return Untouched, None;
      }
      reply := BeginDrag(ev);
      err := DragStep(ev, if StartsDrag(ev) then [RegionChangeStarted] else []);
    }

    /** The `DragFinish` branch of `mouseDragEvent`. */
    method EndDrag()
      requires Valid()
      modifies this`isMoving, this`events
      ensures Valid()
      ensures isMoving == (old(isMoving) && !translatable)
      ensures events == old(events) + (if translatable && old(isMoving) then [RegionChangeFinished] else [])
    {
      if translatable {
        if isMoving {
          StateChangeFinished();
        }
        isMoving := false;
      }
    }

    /**
     * The `DragStart` branch of `mouseDragEvent`, but for its `RegionChangeStarted`, which
     * `DragStep` emits first.
     */
    method BeginDrag(ev: DragEvent) returns (reply: Reply)
      requires Valid()
      modifies this`isMoving, this`preMoveState, this`cursorOffset
      ensures Valid()
      ensures reply == if StartsDrag(ev) then Accepted
                       else if ev.phase == DragStart && ev.button == LeftButton then Ignored else Untouched
      ensures isMoving == (old(isMoving) || StartsDrag(ev))
      ensures StartsDrag(ev) ==>
        preMoveState == Some(state) && cursorOffset == Sub(state.pos, ToParent(geo, state, ev.downPos))
      ensures !StartsDrag(ev) ==> preMoveState == old(preMoveState) && cursorOffset == old(cursorOffset)
    {
      reply := Untouched;
      if ev.phase == DragStart && ev.button == LeftButton {
        if translatable {
          isMoving := true;
          preMoveState := Some(state);
          cursorOffset := Sub(state.pos, ToParent(geo, state, ev.downPos));
          reply := Accepted;
        } else {
          reply := Ignored;
        }
      }
    }

    /** The step of `mouseDragEvent` that emits `before` and makes a moving ROI follow the cursor. */
    method DragStep(ev: DragEvent, before: seq<Event>) returns (err: Option<PyError>)
      modifies this`state, this`freeHandleMoved, this`lastState, this`events, Items()`pos
      ensures
        var target := DragTarget(old(state), cursorOffset, ev);
        if translatable && isMoving && ev.buttons == {LeftButton} then
          if target.Failure? then err == Some(target.error) && state == old(state) && Quiet(before)
          else err.None? && state == old(state).(pos := target.value) && Processed(before, false, false, None)
        else err.None? && state == old(state) && Quiet(before)
    {
      err := None;
      events := events + before;
      if translatable && isMoving && ev.buttons == {LeftButton} {
        var newPos := Add(ToParent(geo, state, ev.pos), cursorOffset);
        err := Translate(Sub(newPos, state.pos), if ev.mods.control then Enabled else Unspecified, true, false);
      }
    }

    /**
     * `addHandle(info)`: without an item a new handle is made, owned by this ROI and placed at
     * `pos` times the size; the handle learns its index, and the entry is appended.
     */
    method AddHandle(spec: HandleSpec, item: Handle?) returns (h: Handle)
      modifies this`handles, Maybe(item)`roi
      ensures handles == old(handles) + [HandleInfo(spec, h)]
      ensures item != null ==> h == item && h.roi == old(item.roi) + [(this, |old(handles)|)]
      ensures item == null ==>
        && fresh(h) && h.typ == spec.kind && h.parent == this && h.pos == Mul(spec.pos, state.size)
        && h.roi == [(this, |old(handles)|)] && !h.deletable && !h.isMoving && h.Valid()
      ensures old(Linked()) ==> Linked()
    {
      if item == null {
        h := new Handle(spec.kind, this, false);
        h.pos := Mul(spec.pos, state.size);
      } else {
        h := item;
      }
      var iid := |handles|;
      h.ConnectROI(this, iid);
      handles := handles + [HandleInfo(spec, h)];
    }

    /** `addTranslateHandle(pos, item, name)`. */
    method AddTranslateHandle(pos: Point, item: Handle?, name: Option<string>) returns (h: Handle)
      modifies this`handles, Maybe(item)`roi
      ensures handles == old(handles) + [HandleInfo(HandleSpec(name, TranslateHandle, pos, None, false, false, false), h)]
      ensures item != null ==> h == item
      ensures item == null ==> fresh(h)
      ensures old(Linked()) ==> Linked()
    {
      h := AddHandle(HandleSpec(name, TranslateHandle, pos, None, false, false, false), item);
    }

    /** `addFreeHandle(pos, item, name)`. */
    method AddFreeHandle(pos: Point, item: Handle?, name: Option<string>) returns (h: Handle)
      modifies this`handles, Maybe(item)`roi
      ensures handles == old(handles) + [HandleInfo(HandleSpec(name, FreeHandle, pos, None, false, false, false), h)]
      ensures item != null ==> h == item && h.roi == old(item.roi) + [(this, |old(handles)|)]
      ensures item == null ==> fresh(h) && h.parent == this && h.pos == Mul(pos, state.size) && h.roi == [(this, |old(handles)|)]
      ensures item == null ==> !h.deletable && h.Valid()
      ensures old(Linked()) ==> Linked()
    {
      h := AddHandle(HandleSpec(name, FreeHandle, pos, None, false, false, false), item);
    }

    /** `addScaleHandle(pos, center, item, name, lockAspect)`: marks the axes the handle cannot scale. */
    method AddScaleHandle(pos: Point, center: Point, item: Handle?, name: Option<string>, lockAspect: bool)
      returns (h: Handle)
      modifies this`handles, Maybe(item)`roi
      ensures |handles| == |old(handles)| + 1 && handles[..|old(handles)|] == old(handles)
      ensures var spec := handles[|old(handles)|].spec;
        && handles[|old(handles)|].item == h && spec.kind == ScaleHandle && spec.pos == pos
        && spec.center == Some(center) && spec.lockAspect == lockAspect && spec.name == name
        && (spec.xoff <==> pos.x == center.x) && (spec.yoff <==> pos.y == center.y)
      ensures item != null ==> h == item
      ensures item == null ==> fresh(h)
      ensures old(Linked()) ==> Linked()
    {
      h := AddHandle(HandleSpec(name, ScaleHandle, pos, Some(center), lockAspect, pos.x == center.x, pos.y == center.y), item);
    }

    /** `addRotateHandle(pos, center, item, name)`. */
    method AddRotateHandle(pos: Point, center: Point, item: Handle?, name: Option<string>) returns (h: Handle)
      modifies this`handles, Maybe(item)`roi
      ensures handles == old(handles) + [HandleInfo(HandleSpec(name, RotateHandle, pos, Some(center), false, false, false), h)]
      ensures item != null ==> h == item
      ensures item == null ==> fresh(h)
      ensures old(Linked()) ==> Linked()
    {
      h := AddHandle(HandleSpec(name, RotateHandle, pos, Some(center), false, false, false), item);
    }

    /** `addScaleRotateHandle(pos, center, item, name)`: the handle must share an x or a y with its centre. */
    method AddScaleRotateHandle(pos: Point, center: Point, item: Handle?, name: Option<string>)
      returns (h: Handle?, err: Option<PyError>)
      modifies this`handles, Maybe(item)`roi
      ensures err.Some? <==> pos.x != center.x && pos.y != center.y
      ensures err.Some? ==> h == null && handles == old(handles) && (item != null ==> item.roi == old(item.roi))
      ensures err.None? ==>
        h != null && handles == old(handles) + [HandleInfo(HandleSpec(name, ScaleRotateHandle, pos, Some(center), false, false, false), h)]
      ensures err.None? && item != null ==> h == item && h.roi == old(item.roi) + [(this, |old(handles)|)]
      ensures err.None? && item == null ==> fresh(h) && h.parent == this && h.roi == [(this, |old(handles)|)] && h.Valid()
      ensures old(Linked()) ==> Linked()
    {
      if pos.x != center.x && pos.y != center.y {
        return null, Some(RaisedException("Scale/rotate handles must have either the same x or y coordinate as their center point."));
      }
      h := AddHandle(HandleSpec(name, ScaleRotateHandle, pos, Some(center), false, false, false), item);
      err := None;
    }

    /** `addRotateFreeHandle(pos, center, item, name)`. */
    method AddRotateFreeHandle(pos: Point, center: Point, item: Handle?, name: Option<string>) returns (h: Handle)
      modifies this`handles, Maybe(item)`roi
      ensures handles == old(handles) + [HandleInfo(HandleSpec(name, RotateFreeHandle, pos, Some(center), false, false, false), h)]
      ensures item != null ==> h == item
      ensures item == null ==> fresh(h)
      ensures old(Linked()) ==> Linked()
    {
      h := AddHandle(HandleSpec(name, RotateFreeHandle, pos, Some(center), false, false, false), item);
    }

    /**
     * `replaceHandle(ind, handle)`: the entry `ind` (Python indexing) is replaced, the old item
     * forgets this ROI and the new item records `(this, ind)` with `ind` as given.
     */
    method ReplaceHandle(ind: int, info: HandleInfo) returns (err: Option<PyError>)
      modifies this`handles, Items()`roi, info.item`roi
      ensures PyIndex(ind, |old(handles)|).None? ==>
        err == Some(IndexError) && handles == old(handles) && info.item.roi == old(info.item.roi)
        && forall x :: x in old(Items()) ==> x.roi == old(x.roi)
      ensures PyIndex(ind, |old(handles)|).Some? ==>
        var k := PyIndex(ind, |old(handles)|).value;
        var prev := old(handles[k].item);
        && err.None? && handles == old(handles)[k := info]
        && (prev != info.item ==> prev.roi == Detached(old(prev.roi), this) && info.item.roi == old(info.item.roi) + [(this, ind)])
        && (prev == info.item ==> info.item.roi == Detached(old(info.item.roi), this) + [(this, ind)])
        && forall x :: x in old(Items()) && x != prev && x != info.item ==> x.roi == old(x.roi)
      ensures
        (&& 0 <= ind < |old(handles)| && old(Linked())
         && forall j :: 0 <= j < |old(handles)| && j != ind ==> old(handles[j].item) != old(handles[ind].item))
        ==> Linked()
    {
      var k := PyIndex(ind, |handles|);
      if k.None? {
        return Some(IndexError);
      }
      var prev := handles[k.value];
      handles := handles[k.value := info];
      prev.item.DisconnectROI(this);
      info.item.ConnectROI(this, ind);
      DetachedMembers(old(prev.item.roi), this);
      return None;
    }
  }

  class Handle {
    const typ: HandleKind
    /** The (roi, index) pairs this handle reports its moves to. */
    var roi: seq<(ROI, int)>
    /** Position in the coordinates of the parent item. */
    var pos: Point
    var parent: ROI?
    var isMoving: bool
    var startPos: Option<Point>
    var cursorOffset: Point
    var deletable: bool
    var acceptedButtons: set<Button>
    var events: seq<Event>

    constructor (typ: HandleKind, parent: ROI?, deletable: bool)
      ensures this.typ == typ && this.parent == parent && this.deletable == deletable
      ensures roi == [] && pos == Point(0.0, 0.0) && !isMoving && startPos.None? && events == []
      ensures acceptedButtons == if deletable then {RightButton} else {}
    {
      this.typ := typ;
      roi := [];
      pos := Point(0.0, 0.0);
      this.parent := parent;
      isMoving := false;
      startPos := None;
      cursorOffset := Point(0.0, 0.0);
      this.deletable := deletable;
      acceptedButtons := if deletable then {RightButton} else {};
      events := [];
    }

    /** A drag in progress always has a start position to go back to. */
    predicate Valid()
      reads this`isMoving, this`startPos
    {
      isMoving ==> startPos.Some?
    }

    /** `scenePos()`: the position mapped through the parent ROI. */
    function ScenePos(): Point
      reads this`pos, this`parent, (if parent == null then {} else {parent})`state
    {
      SceneOf(parent, pos)
    }

    /** The ROIs this handle reports to. */
    function Rois(): set<ROI>
      reads this`roi
    {
      set j | 0 <= j < |roi| :: roi[j].0
    }

    /** The handle items of those ROIs, whose positions a forwarded move may set. */
    function Reach(): set<Handle>
      reads this`roi, Rois()`handles
    {
      set j, k | 0 <= j < |roi| && 0 <= k < |roi[j].0.handles| :: roi[j].0.handles[k].item
    }

    /** Every connected ROI's `checkPointMove` accepts the move. */
    predicate Accepts(p: Point, mods: Modifiers)
      reads this`roi
    {
      forall j :: 0 <= j < |roi| ==> roi[j].0.CheckPointMove(roi[j].1, p, mods)
    }

    /** Nothing any connected ROI keeps changed, and no handle item of theirs moved. */
    twostate predicate RoisUntouched()
      reads this, Rois(), Reach()
    {
      && (forall r :: r in Rois() && old(allocated(r)) ==>
            && r.state == old(r.state) && r.events == old(r.events) && r.lastState == old(r.lastState)
            && r.freeHandleMoved == old(r.freeHandleMoved) && r.preMoveState == old(r.preMoveState))
      && forall h :: h in Reach() && old(allocated(h)) ==> h.pos == old(h.pos)
    }

    /** The ROI of entry `i` and its handle items lie in the frame of `movePoint`. */
    lemma EntryInReach(i: nat)
      requires i < |roi|
      ensures roi[i].0 in Rois() && roi[i].0.Items() <= Reach()
    {
      var r := roi[i].0;
      forall h | h in r.Items()
        ensures h in Reach()
      {
        var k :| 0 <= k < |r.handles| && r.handles[k].item == h;
        assert h == roi[i].0.handles[k].item;
      }
    }

    /** Every ROI not named by the first `n` entries still has the progress `before` gives it. */
    predicate Settled(n: nat, before: map<ROI, Progress>)
      requires n <= |roi|
      reads this`roi, Rois()
    {
      forall r :: r in Rois() && r !in Told(n) ==> r in before && ProgressOf(r) == before[r]
    }

    /** The ROIs named by the first `n` entries. */
    function Told(n: nat): set<ROI>
      requires n <= |roi|
      reads this`roi
    {
      if n == 0 then {} else Told(n - 1) + {roi[n - 1].0}
    }

    /** Nothing `r` keeps about its state and its change processing has changed. */
    static twostate predicate Unchanged(r: ROI)
      reads r
    {
      ProgressOf(r) == old(ProgressOf(r))
    }

    /** What `r.movePoint(pt, p, mods, finish)` did, as its plan for the entry `pt` says. */
    static twostate predicate ForwardedTo(r: ROI, pt: int, p: Point, mods: Modifiers, finish: bool, new err: Option<PyError>)
      reads r, r.Items()
    {
      Forwarded(r, pt, p, mods, finish, err, old(ProgressOf(r)))
    }

    /** The first loop of `movePoint`: asks every connected ROI whether the move is acceptable. */
    method AllAccept(p: Point, mods: Modifiers) returns (ok: bool)
      ensures ok == Accepts(p, mods)
    {
      var i := 0;
      while i < |roi|
        invariant 0 <= i <= |roi|
        invariant forall j :: 0 <= j < i ==> roi[j].0.CheckPointMove(roi[j].1, p, mods)
      {
        if !roi[i].0.CheckPointMove(roi[i].1, p, mods) {
          return false;
        }
        i := i + 1;
      }
      return true;
    }

    /**
     * `movePoint(pos, modifiers, finish)`: when every connected ROI accepts, each is told in
     * turn to move its entry (an exception stops the loop); otherwise no ROI is touched.
     */
    method MovePoint(p: Point, mods: Modifiers, finish: bool) returns (moved: bool, err: Option<PyError>, ghost told: nat)
      modifies Rois()`state, Rois()`freeHandleMoved, Rois()`lastState, Rois()`events, Reach()`pos
      ensures moved == Accepts(p, mods)
      ensures !moved ==> err.None? && RoisUntouched()
      ensures moved && |roi| == 1 ==> ForwardedTo(roi[0].0, roi[0].1, p, mods, finish, err)
      // an exception stops the loop: the ROIs of the entries after the failing one are not touched
      ensures err.Some? ==> 0 < told <= |roi| && forall r :: r in Rois() && r !in Told(told) ==> Unchanged(r)
    {
      moved := AllAccept(p, mods);
      err, told := None, 0;
      if !moved {
        return;
      }
      ghost var before := map r | r in Rois() :: ProgressOf(r);
      assert Settled(0, before);
      err, told := TellAll(p, mods, finish, before);
      assert err.Some? ==> forall r :: r in Rois() && r !in Told(told) ==> Unchanged(r);
    }

    /**
     * The second loop of `movePoint`: each connected ROI in turn is told to move its entry; when
     * one raises, the loop stops after the first `told` entries. The first entry is told here,
     * the remaining ones by `TellFrom`.
     */
    method TellAll(p: Point, mods: Modifiers, finish: bool, ghost before: map<ROI, Progress>) returns (err: Option<PyError>, ghost told: nat)
      requires Settled(0, before)
      modifies Rois()`state, Rois()`freeHandleMoved, Rois()`lastState, Rois()`events, Reach()`pos
      ensures |roi| == 1 ==> roi[0].0 in before && Forwarded(roi[0].0, roi[0].1, p, mods, finish, err, before[roi[0].0])
      ensures err.Some? ==> 0 < told <= |roi| && Settled(told, before)
    {
      err, told := None, 0;
      if |roi| == 0 {
        return;
      }
      var r := roi[0].0;
      EntryInReach(0);
      assert r in before && ProgressOf(r) == before[r];
      err := Tell(r, roi[0].1, p, mods, finish);
      told := 1;
      if err.None? && 1 < |roi| {
        err, told := TellFrom(1, p, mods, finish, before);
      }
    }

    /** The loop of `movePoint` from entry `i` on, the entries before `i` (at least the first) having been told. */
    method TellFrom(i: nat, p: Point, mods: Modifiers, finish: bool, ghost before: map<ROI, Progress>) returns (err: Option<PyError>, ghost told: nat)
      requires 0 < i <= |roi| && Settled(i, before)
      modifies Rois()`state, Rois()`freeHandleMoved, Rois()`lastState, Rois()`events, Reach()`pos
      ensures err.Some? ==> i < told <= |roi| && Settled(told, before)
    {
      err := None;
      var j := i;
      // an exception raised by one call ends the loop
      while j < |roi| && err.None?
        invariant i <= j <= |roi|
        invariant err.Some? ==> i < j
        invariant Settled(j, before)
      {
        err := TellAt(j, p, mods, finish, before);
        j := j + 1;
      }
      told := j;
    }

    /**
     * Step `i` of the second loop of `movePoint`: the ROI of entry `i` is told to move it; every
     * ROI not yet told still has the progress it had in `before`.
     */
    method TellAt(i: nat, p: Point, mods: Modifiers, finish: bool, ghost before: map<ROI, Progress>) returns (e: Option<PyError>)
      requires i < |roi|
      requires Settled(i, before)
      modifies Rois()`state, Rois()`freeHandleMoved, Rois()`lastState, Rois()`events, Reach()`pos
      ensures Settled(i + 1, before)
    {
      var r := roi[i].0;
      EntryInReach(i);
      e := Tell(r, roi[i].1, p, mods, finish);
    }

    /** One step of the second loop of `movePoint`: `r` is told to move its entry `pt`. */
    static method Tell(r: ROI, pt: int, p: Point, mods: Modifiers, finish: bool) returns (e: Option<PyError>)
      modifies r`state, r`freeHandleMoved, r`lastState, r`events, r.Items()`pos
      ensures Forwarded(r, pt, p, mods, finish, e, old(ProgressOf(r)))
    {
      e := r.MovePoint(pt, p, mods, finish);
    }

    /** `n` copies of `RegionChangeFinished`. */
    static function Finished(n: nat): (e: seq<Event>)
      ensures |e| == n && forall k :: 0 <= k < n ==> e[k] == RegionChangeFinished
    {
      seq(n, _ => RegionChangeFinished)
    }

    /** The drag-finish loop: every connected ROI emits `RegionChangeFinished` once per entry. */
    method FinishAll()
      modifies Rois()`events
      ensures forall r :: r in Rois() ==> r.events == old(r.events) + Finished(Occurrences(roi, r))
    {
      var i := 0;
      while i < |roi|
        invariant 0 <= i <= |roi|
        invariant forall r :: r in Rois() ==> r.events == old(r.events) + Finished(Occurrences(roi[..i], r))
      {
        assert roi[..i + 1] == roi[..i] + [roi[i]];
        forall r | r in Rois()
          ensures Occurrences(roi[..i + 1], r) == Occurrences(roi[..i], r) + (if roi[i].0 == r then 1 else 0)
        {
          OccurrencesAppend(roi[..i], roi[i], r);
        }
        assert Finished(Occurrences(roi[..i], roi[i].0) + 1) == Finished(Occurrences(roi[..i], roi[i].0)) + [RegionChangeFinished];
        roi[i].0.StateChangeFinished();
        i := i + 1;
      }
      assert roi[..|roi|] == roi;
    }

    /** The drag-start loop: every connected ROI remembers its state. */
    method StartAll()
      modifies Rois()`preMoveState
      ensures forall r :: r in Rois() ==> r.preMoveState == Some(r.state)
    {
      var i := 0;
      while i < |roi|
        invariant 0 <= i <= |roi|
        invariant forall j :: 0 <= j < i ==> roi[j].0.preMoveState == Some(roi[j].0.state)
      {
        roi[i].0.HandleMoveStarted();
        i := i + 1;
      }
    }

    /**
     * `mouseDragEvent(ev)` on a handle: only the left button counts. A start tells every ROI
     * that a handle move begins and remembers where the handle was; a finish ends the move with
     * `RegionChangeFinished` from every ROI; a drag in progress forwards the cursor position
     * (plus the offset kept from the start) through `movePoint` with `finish=False`.
     */
    method MouseDragEvent(ev: DragEvent) returns (reply: Reply, err: Option<PyError>)
      requires Valid()
      modifies this`isMoving, this`startPos, this`cursorOffset, Rois()`preMoveState
      modifies Rois()`state, Rois()`freeHandleMoved, Rois()`lastState, Rois()`events, Reach()`pos
      ensures Valid()
      ensures reply == if ev.button == LeftButton then Accepted else Untouched
      ensures ev.button != LeftButton ==> err.None? && isMoving == old(isMoving) && RoisUntouched()
      ensures ev.button == LeftButton && ev.phase == DragFinish ==>
        && !isMoving && err.None?
        && forall r :: r in Rois() ==>
             r.state == old(r.state) && r.events == old(r.events) + (if old(isMoving) then Finished(Occurrences(roi, r)) else [])
      ensures ev.button == LeftButton && ev.phase == DragStart ==>
        && isMoving && startPos == Some(old(ScenePos())) && cursorOffset == Sub(old(ScenePos()), ev.downPos)
        && forall r :: r in Rois() ==> r.preMoveState == Some(old(r.state))
      ensures ev.button == LeftButton && ev.phase == DragMove ==>
        isMoving == old(isMoving) && startPos == old(startPos) && cursorOffset == old(cursorOffset)
      ensures ev.button == LeftButton && ev.phase == DragMove && !old(isMoving) ==> err.None? && RoisUntouched()
      // a drag in progress forwards the cursor position plus the kept offset to `movePoint(finish=False)`
      ensures ev.button == LeftButton && ev.phase == DragMove && old(isMoving) && !Accepts(Add(ev.pos, cursorOffset), ev.mods) ==>
        err.None? && RoisUntouched()
      ensures ev.button == LeftButton && ev.phase == DragStart && !Accepts(Add(ev.pos, cursorOffset), ev.mods) ==>
        && err.None? && (forall r :: r in Rois() ==> Unchanged(r))
        && forall h :: h in Reach() && old(allocated(h)) ==> h.pos == old(h.pos)
      ensures ev.button == LeftButton && ev.phase != DragFinish && isMoving && |roi| == 1 && Accepts(Add(ev.pos, cursorOffset), ev.mods) ==>
        ForwardedTo(roi[0].0, roi[0].1, Add(ev.pos, cursorOffset), ev.mods, false, err)
    {
      if ev.button != LeftButton {
        return Untouched, None;
      }
      // a finish leaves `isMoving` false, so only a start or a move reaches `movePoint`
      reply := Accepted;
      if ev.phase == DragFinish {
        EndMove();
        err := None;
      } else if ev.phase == DragStart {
        err := StartMove(ev);
      } else {
        ghost var before := map r | r in Rois() :: ProgressOf(r);
        assert |roi| == 1 ==> roi[0].0 in Rois() && before[roi[0].0] == old(ProgressOf(roi[0].0));
        err := DragOn(ev, before);
      }
    }

    /** The `DragFinish` branch of `mouseDragEvent` for the left button. */
    method EndMove()
      requires Valid()
      modifies this`isMoving, Rois()`events
      ensures Valid() && !isMoving
      ensures forall r :: r in Rois() ==> r.events == old(r.events) + (if old(isMoving) then Finished(Occurrences(roi, r)) else [])
    {
      if isMoving {
        FinishAll();
      }
      isMoving := false;
    }

    /** The `DragStart` branch of `mouseDragEvent` for the left button, with the move that follows it. */
    method StartMove(ev: DragEvent) returns (err: Option<PyError>)
      modifies this`isMoving, this`startPos, this`cursorOffset, Rois()`preMoveState
      modifies Rois()`state, Rois()`freeHandleMoved, Rois()`lastState, Rois()`events, Reach()`pos
      ensures Valid()
      ensures isMoving && startPos == Some(old(ScenePos())) && cursorOffset == Sub(old(ScenePos()), ev.downPos)
      ensures forall r :: r in Rois() ==> r.preMoveState == Some(old(r.state))
      ensures !Accepts(Add(ev.pos, cursorOffset), ev.mods) ==>
        && err.None? && (forall r :: r in Rois() ==> Unchanged(r))
        && forall h :: h in Reach() && old(allocated(h)) ==> h.pos == old(h.pos)
      ensures |roi| == 1 && Accepts(Add(ev.pos, cursorOffset), ev.mods) ==>
        ForwardedTo(roi[0].0, roi[0].1, Add(ev.pos, cursorOffset), ev.mods, false, err)
    {
      ghost var before := map r | r in Rois() :: ProgressOf(r);
      assert |roi| == 1 ==> roi[0].0 in Rois();
      BeginMove(ev);
      err := DragOn(ev, before);
    }

    /** What a left-button `DragStart` does before it forwards the position. */
    method BeginMove(ev: DragEvent)
      modifies this`isMoving, this`startPos, this`cursorOffset, Rois()`preMoveState
      ensures Valid()
      ensures isMoving && startPos == Some(old(ScenePos())) && cursorOffset == Sub(old(ScenePos()), ev.downPos)
      ensures forall r :: r in Rois() ==> r.preMoveState == Some(r.state) && ProgressOf(r) == old(ProgressOf(r))
    {
      StartAll();
      isMoving := true;
      startPos := Some(ScenePos());
      cursorOffset := Sub(ScenePos(), ev.downPos);
    }

    /** The last step of `mouseDragEvent`: while moving, the cursor position is forwarded. */
    method DragOn(ev: DragEvent, ghost before: map<ROI, Progress>) returns (err: Option<PyError>)
      requires forall r :: r in Rois() ==> r in before && ProgressOf(r) == before[r]
      modifies Rois()`state, Rois()`freeHandleMoved, Rois()`lastState, Rois()`events, Reach()`pos
      ensures !isMoving || !Accepts(Add(ev.pos, cursorOffset), ev.mods) ==>
        && err.None? && RoisUntouched() && forall r :: r in Rois() ==> ProgressOf(r) == before[r]
      ensures isMoving && |roi| == 1 && Accepts(Add(ev.pos, cursorOffset), ev.mods) ==>
        roi[0].0 in before && Forwarded(roi[0].0, roi[0].1, Add(ev.pos, cursorOffset), ev.mods, false, err, before[roi[0].0])
    {
      err := None;
      if isMoving {
        var moved;
        ghost var told;
        moved, err, told := MovePoint(Add(ev.pos, cursorOffset), ev.mods, false);
      }
    }

    /**
     * `mouseClickEvent(ev)` on a handle: a right click during a drag stops it and moves the
     * handle back to where the drag started; another accepted button emits `Clicked`.
     */
    method MouseClickEvent(button: Button) returns (reply: Reply, err: Option<PyError>)
      requires Valid()
      modifies this`isMoving, this`events
      modifies Rois()`state, Rois()`freeHandleMoved, Rois()`lastState, Rois()`events, Reach()`pos
      ensures Valid()
      ensures button == RightButton && old(isMoving) ==>
        && reply == Accepted && !isMoving && events == old(events)
        && (!Accepts(old(startPos).value, Modifiers(false, false)) ==> err.None? && RoisUntouched())
      ensures !(button == RightButton && old(isMoving)) ==>
        && err.None? && isMoving == old(isMoving) && RoisUntouched()
        && reply == (if button in acceptedButtons then Accepted else Ignored)
        && events == old(events) + (if button in acceptedButtons then [Clicked] else [])
    {
      err := None;
      if button == RightButton && isMoving {
        isMoving := false;
        var moved;
        ghost var told;
        moved, err, told := MovePoint(startPos.value, Modifiers(false, false), true);
        reply := Accepted;
      } else if button in acceptedButtons {
        events := events + [Clicked];
        reply := Accepted;
      } else {
        reply := Ignored;
      }
    }

    /** `connectROI(roi, i)`: records that this handle is entry `i` of `roi`. */
    method ConnectROI(r: ROI, i: int)
      modifies this`roi
      ensures roi == old(roi) + [(r, i)]
    {
      roi := roi + [(r, i)];
    }

    /** `disconnectROI(roi)`, as intended: drops every entry for `roi`. */
    method DisconnectROI(r: ROI)
      modifies this`roi
      ensures roi == Detached(old(roi), r)
    {
      var entries := roi;
      var kept: seq<(ROI, int)> := [];
      var i := 0;
      while i < |entries|
        invariant 0 <= i <= |entries|
        invariant kept == Detached(entries[..i], r)
      {
        assert entries[..i + 1] == entries[..i] + [entries[i]];
        DetachedAppend(entries[..i], entries[i], r);
        if entries[i].0 != r {
          kept := kept + [entries[i]];
        }
        i := i + 1;
      }
      assert entries[..|entries|] == entries;
      roi := kept;
    }
  }
}
