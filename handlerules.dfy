/**
 * The geometry rules of `ROI.translate` and `ROI.movePoint`, as pure functions from the
 * current state and a requested handle position to what the ROI does next.
 */
module HandleRules {
  import opened Wrappers
  import opened Geometry
  import opened Snapping
  import opened Bounds
  import opened RoiState

  /** The handle types 't', 'f', 's', 'r', 'sr' and 'rf'. */
  datatype HandleKind = TranslateHandle | FreeHandle | ScaleHandle | RotateHandle | ScaleRotateHandle | RotateFreeHandle

  /** The entry `addHandle` keeps in `ROI.handles`, without its 'item'. */
  datatype HandleSpec = HandleSpec(
    name: Option<string>,
    kind: HandleKind,
    pos: Point,              // in units of the ROI size
    center: Option<Point>,   // in units of the ROI size; absent for 't' and 'f'
    lockAspect: bool,
    xoff: bool,
    yoff: bool)

  /** The keyboard modifiers the ROI looks at. */
  datatype Modifiers = Modifiers(control: bool, alt: bool)

  /** The ROI attributes that the geometry rules read. */
  datatype Settings = Settings(
    invertible: bool,
    aspectLocked: bool,
    rotateAllowed: bool,
    maxBounds: Option<Rect>,
    snapSize: Option<real>,
    translateSnap: bool,
    rotateSnap: bool,
    scaleSnap: bool)

  /**
   * What a `movePoint` call does: raise, return early (possibly after setting
   * `freeHandleMoved`), or install a new state, maybe move the handle item, and
   * finish with `stateChanged`.
   */
  datatype Plan =
    | Raise(error: PyError, freeMoved: bool)
    | Stop(freeMoved: bool)
    | Apply(next: State, freeMoved: bool, handlePos: Option<Point>)

  function Coord(p: Point, axis: nat): real { if axis == 0 then p.x else p.y }

  /** `translate`'s choice: an explicit snap argument wins, None falls back to `translateSnap`. */
  function EffectiveSnap(snap: SnapArg, translateSnap: bool): SnapArg
  {
    if snap.Unspecified? then (if translateSnap then Enabled else Disabled) else snap
  }

  /** `translate(delta, snap)`: the position it hands to `setPos`, or the exception it raises. */
  function TranslatedPos(cfg: Settings, g: Primitives, s: State, delta: Point, snap: SnapArg): (r: Result<Point>)
    ensures EffectiveSnap(snap, cfg.translateSnap).Disabled? && cfg.maxBounds.None? ==>
      r == Success(Add(s.pos, delta))
    ensures r.Failure? <==>
      (!EffectiveSnap(snap, cfg.translateSnap).Disabled? &&
       GetSnapPosition(Add(s.pos, delta), EffectiveSnap(snap, cfg.translateSnap), cfg.snapSize).Failure?)
  {
    var moved := Add(s.pos, delta);
    var eff := EffectiveSnap(snap, cfg.translateSnap);
    var snapped :- if eff.Disabled? then Success(moved) else GetSnapPosition(moved, eff, cfg.snapSize);
    match cfg.maxBounds
    case None => Success(snapped)
    case Some(b) => Success(Add(snapped, BoundsOffset(b, StateRect(g, s.(pos := snapped)))))
  }

  /**
   * With `maxBounds` set, an unrotated ROI that fits in the bounds is left inside them by
   * `translate`, whatever the requested move.
   */
  lemma TranslateStaysInBounds(cfg: Settings, g: Primitives, s: State, delta: Point, snap: SnapArg)
    requires cfg.maxBounds.Some? && s.angle == 0.0
    requires 0.0 <= s.size.x <= cfg.maxBounds.value.w && 0.0 <= s.size.y <= cfg.maxBounds.value.h
    requires TranslatedPos(cfg, g, s, delta, snap).Success?
    ensures WithinEdges(cfg.maxBounds.value, StateRect(g, s.(pos := TranslatedPos(cfg, g, s, delta, snap).value)))
  {
    var b := cfg.maxBounds.value;
    var eff := EffectiveSnap(snap, cfg.translateSnap);
    var moved := Add(s.pos, delta);
    var snapped := if eff.Disabled? then moved else GetSnapPosition(moved, eff, cfg.snapSize).value;
    var r := StateRect(g, s.(pos := snapped));
    StateRectUnrotated(g, s.(pos := snapped));
    OffsetClampsFittingRect(b, r);
    var p := Add(snapped, BoundsOffset(b, r));
    assert TranslatedPos(cfg, g, s, delta, snap).value == p;
    StateRectUnrotated(g, s.(pos := p));
    assert StateRect(g, s.(pos := p)) == Shifted(r, BoundsOffset(b, r));
  }

  /** Without `maxBounds`, a snapping translate lands on the grid `getSnapPosition` uses. */
  lemma TranslateSnapsToGrid(cfg: Settings, g: Primitives, s: State, delta: Point, snap: SnapArg)
    requires cfg.maxBounds.None? && !EffectiveSnap(snap, cfg.translateSnap).Disabled?
    requires TranslatedPos(cfg, g, s, delta, snap).Success?
    ensures var eff := EffectiveSnap(snap, cfg.translateSnap);
      && TranslatedPos(cfg, g, s, delta, snap) == GetSnapPosition(Add(s.pos, delta), eff, cfg.snapSize)
      && (Spacing(eff, cfg.snapSize).Some? ==>
            OnGrid(TranslatedPos(cfg, g, s, delta, snap).value, Spacing(eff, cfg.snapSize).value))
  {
  }

  /**
   * With `maxBounds`, a snapped position whose unrotated rectangle is already inside the
   * bounds is kept as snapped, so it stays on the grid.
   */
  lemma TranslateSnappedInside(cfg: Settings, g: Primitives, s: State, delta: Point, snap: SnapArg)
    requires cfg.maxBounds.Some? && s.angle == 0.0 && !EffectiveSnap(snap, cfg.translateSnap).Disabled?
    requires GetSnapPosition(Add(s.pos, delta), EffectiveSnap(snap, cfg.translateSnap), cfg.snapSize).Success?
    requires WithinEdges(cfg.maxBounds.value,
               StateRect(g, s.(pos := GetSnapPosition(Add(s.pos, delta), EffectiveSnap(snap, cfg.translateSnap), cfg.snapSize).value)))
    ensures var eff := EffectiveSnap(snap, cfg.translateSnap);
      && TranslatedPos(cfg, g, s, delta, snap) == GetSnapPosition(Add(s.pos, delta), eff, cfg.snapSize)
      && (Spacing(eff, cfg.snapSize).Some? ==>
            OnGrid(TranslatedPos(cfg, g, s, delta, snap).value, Spacing(eff, cfg.snapSize).value))
  {
    var q := GetSnapPosition(Add(s.pos, delta), EffectiveSnap(snap, cfg.translateSnap), cfg.snapSize).value;
    OffsetZeroInside(cfg.maxBounds.value, StateRect(g, s.(pos := q)));
  }

  /** A move that keeps an unrotated, unsnapped ROI inside its bounds is not corrected. */
  lemma TranslateInsideUncorrected(cfg: Settings, g: Primitives, s: State, delta: Point, snap: SnapArg)
    requires EffectiveSnap(snap, cfg.translateSnap).Disabled? && cfg.maxBounds.Some? && s.angle == 0.0
    requires WithinEdges(cfg.maxBounds.value, StateRect(g, s.(pos := Add(s.pos, delta))))
    ensures TranslatedPos(cfg, g, s, delta, snap) == Success(Add(s.pos, delta))
  {
    OffsetZeroInside(cfg.maxBounds.value, StateRect(g, s.(pos := Add(s.pos, delta))));
  }

  /**
   * The size corrections of a scale handle: a zero component keeps the prev size, a negative
   * one too unless the ROI is invertible, and an aspect-locked ROI takes its width from its height.
   */
  function CorrectedSize(raw: Point, prev: Point, invertible: bool, aspectLocked: bool): (r: Point)
    ensures prev.x != 0.0 && prev.y != 0.0 ==> r.x != 0.0 && r.y != 0.0
    ensures !invertible && prev.x > 0.0 && prev.y > 0.0 ==> r.x > 0.0 && r.y > 0.0
    ensures aspectLocked ==> r.x == r.y
    ensures r.y == (if raw.y == 0.0 || (!invertible && raw.y < 0.0) then prev.y else raw.y)
    ensures !aspectLocked ==> r.x == (if raw.x == 0.0 || (!invertible && raw.x < 0.0) then prev.x else raw.x)
  {
    var w := if raw.x == 0.0 then prev.x else raw.x;
    var h := if raw.y == 0.0 then prev.y else raw.y;
    var w' := if !invertible && w < 0.0 then prev.x else w;
    var h' := if !invertible && h < 0.0 then prev.y else h;
    Point(if aspectLocked then h' else w', h')
  }

  lemma SnapZero(s: real)
    requires s != 0.0
    ensures SnapCoord(0.0, s) == 0.0
  {
    assert 0.0 / s == 0.0;
    assert Round(0.0) == 0;
  }

  /** The handle offset snapped to the grid `snapSize` when scale snapping is on. */
  function SnapOffset(lp: Point, snapSize: Option<real>): (r: Result<Point>)
    ensures r.Failure? <==> snapSize.None? || snapSize == Some(0.0)
    ensures r.Success? ==> (lp.x == 0.0 ==> r.value.x == 0.0) && (lp.y == 0.0 ==> r.value.y == 0.0)
  {
    if snapSize.None? then Failure(TypeError)
    else if snapSize.value == 0.0 then Failure(ZeroDivisionError)
    else
      SnapZero(snapSize.value);
      Success(Point(SnapCoord(lp.x, snapSize.value), SnapCoord(lp.y, snapSize.value)))
  }

  /**
   * The new size a scale handle asks for. `hpos` and `c` are the handle and its centre in
   * units of the size, `lp0`/`lp1` the prev and requested handle positions relative to the
   * centre in ROI coordinates.
   */
  function ScaledSize(cfg: Settings, g: Primitives, spec: HandleSpec, c: Point, prev: Point,
                      lp0: Point, lp1: Point, mods: Modifiers): (r: Result<Point>)
    ensures r.Failure? <==> (cfg.scaleSnap || mods.control) && (cfg.snapSize.None? || cfg.snapSize == Some(0.0))
    ensures r.Failure? ==> r.error == if cfg.snapSize.None? then TypeError else ZeroDivisionError
    ensures r.Success? && prev.x != 0.0 && prev.y != 0.0 ==> r.value.x != 0.0 && r.value.y != 0.0
    ensures r.Success? && !cfg.invertible && prev.x > 0.0 && prev.y > 0.0 ==> r.value.x > 0.0 && r.value.y > 0.0
    ensures r.Success? && cfg.aspectLocked ==> r.value.x == r.value.y
    ensures r.Success? && c.x == spec.pos.x && !spec.lockAspect && !mods.alt && !cfg.aspectLocked ==>
      r.value.x == prev.x
    ensures r.Success? && c.y == spec.pos.y && !spec.lockAspect && !mods.alt ==> r.value.y == prev.y
  {
    // on an axis where the handle and its centre coincide the ROI cannot be scaled
    var locked := Point(if c.x == spec.pos.x then 0.0 else lp1.x, if c.y == spec.pos.y then 0.0 else lp1.y);
    var snapped :- if cfg.scaleSnap || mods.control then SnapOffset(locked, cfg.snapSize) else Success(locked);
    var target := if spec.lockAspect || mods.alt then g.project(snapped, lp0) else snapped;
    var hs := Sub(spec.pos, c);
    var hs' := Point(if hs.x == 0.0 then 1.0 else hs.x, if hs.y == 0.0 then 1.0 else hs.y);
    var raw := Point(target.x / hs'.x, target.y / hs'.y);
    Success(CorrectedSize(raw, prev, cfg.invertible, cfg.aspectLocked))
  }

  /**
   * Where no correction applies, the size a scale handle asks for is the (snapped) requested
   * offset over the handle's offset from the centre, axis by axis.
   */
  lemma ScaledSizeAsRequested(cfg: Settings, g: Primitives, spec: HandleSpec, c: Point, prev: Point,
                              lp0: Point, lp1: Point, mods: Modifiers)
    ensures var r := ScaledSize(cfg, g, spec, c, prev, lp0, lp1, mods);
      var t := if cfg.scaleSnap || mods.control then SnapOffset(lp1, cfg.snapSize) else Success(lp1);
      r.Success? && t.Success? && !spec.lockAspect && !mods.alt && !cfg.aspectLocked && c.x != spec.pos.x
      && (t.value.x / (spec.pos.x - c.x) > 0.0 || (cfg.invertible && t.value.x / (spec.pos.x - c.x) < 0.0))
      ==> r.value.x == t.value.x / (spec.pos.x - c.x)
    ensures var r := ScaledSize(cfg, g, spec, c, prev, lp0, lp1, mods);
      var t := if cfg.scaleSnap || mods.control then SnapOffset(lp1, cfg.snapSize) else Success(lp1);
      r.Success? && t.Success? && !spec.lockAspect && !mods.alt && c.y != spec.pos.y
      && (t.value.y / (spec.pos.y - c.y) > 0.0 || (cfg.invertible && t.value.y / (spec.pos.y - c.y) < 0.0))
      ==> r.value.y == t.value.y / (spec.pos.y - c.y)
  {
  }

  /** The rotation snap applies when `rotateSnap` is set or Control is held. */
  function RotationFor(cfg: Settings, current: real, turn: real, mods: Modifiers): (a: real)
    ensures cfg.rotateSnap || mods.control ==> IsMultiple(a, 15.0) && Abs(a - (current - turn)) <= 7.5
    ensures !(cfg.rotateSnap || mods.control) ==> a == current - turn
  {
    var ang := current - turn;
    if cfg.rotateSnap || mods.control then SnapAngle(ang) else ang
  }

  /** `movePoint` for a scale handle (graphicsItems/ROI.py:492-544). */
  function PlanScale(cfg: Settings, g: Primitives, s: State, spec: HandleSpec, c: Point,
                     lp0: Point, lp1: Point, mods: Modifiers): Plan
  {
    var sized := ScaledSize(cfg, g, spec, c, s.size, lp0, lp1, mods);
    if sized.Failure? then Raise(sized.error, false)
    else
      var newSize := sized.value;
      // move the ROI so that the centre keeps its place
      var cc := Sub(ToParent(g, s, Sub(Mul(c, s.size), Mul(c, newSize))), ToParent(g, s, Point(0.0, 0.0)));
      var next := State(Add(s.pos, cc), newSize, s.angle);
      if !InBounds(cfg.maxBounds, g, next) then Stop(false) else Apply(next, false, None)
  }

  /** `movePoint` for a rotate handle ('r') or a free rotate handle ('rf') (graphicsItems/ROI.py:546-585). */
  function PlanRotate(cfg: Settings, g: Primitives, s: State, spec: HandleSpec, c: Point,
                      lp0: Point, lp1: Point, pos: Point, mods: Modifiers): Plan
  {
    var free := spec.kind == RotateFreeHandle;
    if !cfg.rotateAllowed then Stop(free)
    else if g.length(lp1) == 0.0 || g.length(lp0) == 0.0 then Stop(free)
    else if g.angleTo(lp0, lp1).None? then Raise(TypeError, free)  // `float - None`
    else
      var ang := RotationFor(cfg, s.angle, g.angleTo(lp0, lp1).value, mods);
      var cs := Mul(c, s.size);
      var cc := Sub(ToParent(g, s, cs), Add(g.rotate(ang, cs), s.pos));
      var next := State(Add(s.pos, cc), s.size, ang);
      if !InBounds(cfg.maxBounds, g, next) then Stop(free)
      else Apply(next, free, if free then Some(FromParent(g, next, pos)) else None)
  }

  /** `movePoint` for a scale/rotate handle, which scales along one axis only (graphicsItems/ROI.py:587-626). */
  function PlanScaleRotate(cfg: Settings, g: Primitives, s: State, spec: HandleSpec, c: Point,
                           lp0: Point, lp1: Point, mods: Modifiers): Plan
  {
    var axis: nat := if c.x == spec.pos.x then 1 else 0;
    if g.length(lp1) == 0.0 || g.length(lp0) == 0.0 then Stop(false)
    else if g.angleTo(lp0, lp1).None? then Raise(TypeError, false)  // `float - None`
    else
      var ang := RotationFor(cfg, s.angle, g.angleTo(lp0, lp1).value, mods);
      var hs := Abs(Coord(spec.pos, axis) - Coord(c, axis));
      var len := if hs == 0.0 then Failure(ZeroDivisionError)
                 else if cfg.scaleSnap then SnapBySize(g.length(lp1) / hs, cfg.snapSize)
                 else Success(g.length(lp1) / hs);
      if len.Failure? then Raise(len.error, false)
      else
        var v := if len.value == 0.0 then 1.0 else len.value;
        var newSize := if axis == 0 then Point(v, s.size.y) else Point(s.size.x, v);
        var cc := Sub(ToParent(g, s, Mul(c, s.size)), Add(g.rotate(ang, Mul(c, newSize)), s.pos));
        var next := State(Add(s.pos, cc), newSize, ang);
        if !InBounds(cfg.maxBounds, g, next) then Stop(false) else Apply(next, false, None)
  }

  /** `p0`: where the handle entry currently sits, in parent coordinates. */
  function HandleParentPos(g: Primitives, s: State, spec: HandleSpec): Point
  {
    ToParent(g, s, Mul(spec.pos, s.size))
  }

  /** `lp0`/`lp1`: a parent position relative to the centre `c`, in the ROI's own coordinates. */
  function LocalOffset(g: Primitives, s: State, c: Point, p: Point): Point
  {
    Sub(FromParent(g, s, p), Mul(c, s.size))
  }

  /**
   * `ROI.movePoint` for one handle entry: `pos` is the requested handle position in scene
   * coordinates, which are the ROI's parent coordinates here.
   */
  function PlanMove(cfg: Settings, g: Primitives, s: State, spec: HandleSpec, pos: Point, mods: Modifiers): Plan
  {
    var p0 := HandleParentPos(g, s, spec);
    match spec.kind
    case TranslateHandle =>
      var p := TranslatedPos(cfg, g, s, Sub(pos, p0), if mods.control then Enabled else Unspecified);
      if p.Failure? then Raise(p.error, false) else Apply(s.(pos := p.value), false, None)
    case FreeHandle =>
      Apply(s, true, Some(FromParent(g, s, pos)))
    case _ =>
      if spec.center.None? then
        // without a 'center' entry, 's' and 'sr' fail on the lookup, 'r' and 'rf' on the unbound offsets
        if spec.kind == ScaleHandle || spec.kind == ScaleRotateHandle then Raise(KeyError, false)
        else if !cfg.rotateAllowed then Stop(spec.kind == RotateFreeHandle)
        else Raise(NameError, spec.kind == RotateFreeHandle)
      else
        var c := spec.center.value;
        var lp0 := LocalOffset(g, s, c, p0);
        var lp1 := LocalOffset(g, s, c, pos);
        if spec.kind == ScaleHandle then PlanScale(cfg, g, s, spec, c, lp0, lp1, mods)
        else if spec.kind == ScaleRotateHandle then PlanScaleRotate(cfg, g, s, spec, c, lp0, lp1, mods)
        else PlanRotate(cfg, g, s, spec, c, lp0, lp1, pos, mods)
  }

  /** Scale, rotate and scale/rotate handles only install states that lie inside `maxBounds`. */
  lemma MoveRespectsBounds(cfg: Settings, g: Primitives, s: State, spec: HandleSpec, pos: Point, mods: Modifiers)
    requires spec.kind != TranslateHandle && spec.kind != FreeHandle
    requires PlanMove(cfg, g, s, spec, pos, mods).Apply?
    ensures InBounds(cfg.maxBounds, g, PlanMove(cfg, g, s, spec, pos, mods).next)
  {
  }

  /** A translate handle moves the ROI without resizing or turning it. */
  lemma TranslateHandleKeepsShape(cfg: Settings, g: Primitives, s: State, spec: HandleSpec, pos: Point, mods: Modifiers)
    requires spec.kind == TranslateHandle
    ensures var plan := PlanMove(cfg, g, s, spec, pos, mods);
      plan.Raise? || (plan.Apply? && plan.next.size == s.size && plan.next.angle == s.angle && !plan.freeMoved)
  {
  }

  /** A free handle changes no state; it only moves its own item and flags the move. */
  lemma FreeHandleKeepsState(cfg: Settings, g: Primitives, s: State, spec: HandleSpec, pos: Point, mods: Modifiers)
    requires spec.kind == FreeHandle
    ensures PlanMove(cfg, g, s, spec, pos, mods) == Apply(s, true, Some(FromParent(g, s, pos)))
  {
  }

  /** A rotate handle changes angle and position only; with rotation disallowed it stops at once. */
  lemma RotateHandleRules(cfg: Settings, g: Primitives, s: State, spec: HandleSpec, pos: Point, mods: Modifiers)
    requires spec.kind == RotateHandle || spec.kind == RotateFreeHandle
    ensures var plan := PlanMove(cfg, g, s, spec, pos, mods);
      && (!cfg.rotateAllowed && spec.center.Some? ==> plan == Stop(spec.kind == RotateFreeHandle))
      && (plan.Apply? ==> plan.next.size == s.size && plan.freeMoved == (spec.kind == RotateFreeHandle))
      && (plan.Apply? && (cfg.rotateSnap || mods.control) ==> IsMultiple(plan.next.angle, 15.0))
      && (spec.center.Some? && cfg.rotateAllowed ==>
            var lp0 := LocalOffset(g, s, spec.center.value, HandleParentPos(g, s, spec));
            var lp1 := LocalOffset(g, s, spec.center.value, pos);
            && (g.length(lp1) == 0.0 || g.length(lp0) == 0.0 ==> plan == Stop(spec.kind == RotateFreeHandle))
            && (g.length(lp1) != 0.0 && g.length(lp0) != 0.0 && g.angleTo(lp0, lp1).None? ==>
                  plan == Raise(TypeError, spec.kind == RotateFreeHandle))
            && (plan.Apply? ==>
                  g.angleTo(lp0, lp1).Some? && plan.next.angle == RotationFor(cfg, s.angle, g.angleTo(lp0, lp1).value, mods)))
  {
  }

  /**
   * A scale/rotate handle leaves the other axis alone and never produces a zero size on its
   * scaling axis; with snapping its angle is a multiple of 15 degrees.
   */
  lemma ScaleRotateHandleRules(cfg: Settings, g: Primitives, s: State, spec: HandleSpec, pos: Point, mods: Modifiers)
    requires spec.kind == ScaleRotateHandle && spec.center.Some?
    ensures var plan := PlanMove(cfg, g, s, spec, pos, mods);
      var c := spec.center.value;
      && (plan.Apply? && c.x == spec.pos.x ==> plan.next.size.x == s.size.x && plan.next.size.y != 0.0)
      && (plan.Apply? && c.x != spec.pos.x ==> plan.next.size.y == s.size.y && plan.next.size.x != 0.0)
      && (plan.Apply? && (cfg.rotateSnap || mods.control) ==> IsMultiple(plan.next.angle, 15.0))
      && (plan.Raise? ==> plan.error == ZeroDivisionError || plan.error == TypeError)
      && !(plan.Apply? && plan.freeMoved)
      && var axis: nat := if c.x == spec.pos.x then 1 else 0;
         var lp0 := LocalOffset(g, s, c, HandleParentPos(g, s, spec));
         var lp1 := LocalOffset(g, s, c, pos);
         var hs := Abs(Coord(spec.pos, axis) - Coord(c, axis));
         && (g.length(lp1) == 0.0 || g.length(lp0) == 0.0 ==> plan == Stop(false))
         && (g.length(lp1) != 0.0 && g.length(lp0) != 0.0 && g.angleTo(lp0, lp1).None? ==> plan == Raise(TypeError, false))
         // the scaling axis takes the length ratio, snapped under `scaleSnap`, with 0 replaced by 1
         && (plan.Apply? ==>
               && hs != 0.0
               && var len := if cfg.scaleSnap then SnapBySize(g.length(lp1) / hs, cfg.snapSize) else Success(g.length(lp1) / hs);
                  len.Success? && Coord(plan.next.size, axis) == (if len.value == 0.0 then 1.0 else len.value))
  {
  }

  /** A scale handle keeps the angle and applies the size corrections of `CorrectedSize`. */
  lemma ScaleHandleRules(cfg: Settings, g: Primitives, s: State, spec: HandleSpec, pos: Point, mods: Modifiers)
    requires spec.kind == ScaleHandle && spec.center.Some?
    ensures var plan := PlanMove(cfg, g, s, spec, pos, mods);
      var c := spec.center.value;
      && (plan.Apply? ==> plan.next.angle == s.angle && !plan.freeMoved && plan.handlePos.None?)
      && (plan.Apply? && s.size.x != 0.0 && s.size.y != 0.0 ==> plan.next.size.x != 0.0 && plan.next.size.y != 0.0)
      && (plan.Apply? && !cfg.invertible && s.size.x > 0.0 && s.size.y > 0.0 ==> plan.next.size.x > 0.0 && plan.next.size.y > 0.0)
      && (plan.Apply? && cfg.aspectLocked ==> plan.next.size.x == plan.next.size.y)
      && (plan.Apply? && c.x == spec.pos.x && !spec.lockAspect && !mods.alt && !cfg.aspectLocked ==> plan.next.size.x == s.size.x)
      && (plan.Apply? && c.y == spec.pos.y && !spec.lockAspect && !mods.alt ==> plan.next.size.y == s.size.y)
  {
  }

  /** A rotate handle turns the ROI about its centre: the centre keeps its parent position. */
  lemma RotateKeepsCentre(cfg: Settings, g: Primitives, s: State, spec: HandleSpec, pos: Point, mods: Modifiers)
    requires spec.kind == RotateHandle || spec.kind == RotateFreeHandle
    requires spec.center.Some? && PlanMove(cfg, g, s, spec, pos, mods).Apply?
    ensures var next := PlanMove(cfg, g, s, spec, pos, mods).next;
      ToParent(g, next, Mul(spec.center.value, next.size)) == ToParent(g, s, Mul(spec.center.value, s.size))
  {
  }

  /** A scale/rotate handle keeps the centre, measured in the new size, where it was. */
  lemma ScaleRotateKeepsCentre(cfg: Settings, g: Primitives, s: State, spec: HandleSpec, pos: Point, mods: Modifiers)
    requires spec.kind == ScaleRotateHandle
    requires spec.center.Some? && PlanMove(cfg, g, s, spec, pos, mods).Apply?
    ensures var next := PlanMove(cfg, g, s, spec, pos, mods).next;
      ToParent(g, next, Mul(spec.center.value, next.size)) == ToParent(g, s, Mul(spec.center.value, s.size))
  {
  }

  /** The rotation primitive is linear in the point it turns. */
  ghost predicate LinearRotation(g: Primitives)
  {
    forall a: real, p: Point, q: Point ::
      g.rotate(a, Sub(p, q)) == Sub(g.rotate(a, p), g.rotate(a, q))
  }

  /** With a linear rotation, a scale handle keeps the centre, measured in the new size, in place. */
  lemma ScaleKeepsCentre(cfg: Settings, g: Primitives, s: State, spec: HandleSpec, pos: Point, mods: Modifiers)
    requires LinearRotation(g)
    requires spec.kind == ScaleHandle
    requires spec.center.Some? && PlanMove(cfg, g, s, spec, pos, mods).Apply?
    ensures var next := PlanMove(cfg, g, s, spec, pos, mods).next;
      ToParent(g, next, Mul(spec.center.value, next.size)) == ToParent(g, s, Mul(spec.center.value, s.size))
  {
    var next := PlanMove(cfg, g, s, spec, pos, mods).next;
    var c := spec.center.value;
    var s0, s1 := Mul(c, s.size), Mul(c, next.size);
    var o := Point(0.0, 0.0);
    assert g.rotate(s.angle, Sub(s0, s1)) == Sub(g.rotate(s.angle, s0), g.rotate(s.angle, s1));
    assert g.rotate(s.angle, Sub(o, o)) == Sub(g.rotate(s.angle, o), g.rotate(s.angle, o));
    assert Sub(o, o) == o;
  }
}
