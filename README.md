# ROI bookkeeping and geometry rules

This project models the Qt-independent core of the region-of-interest (ROI) item in pyqtgraph's
`graphicsItems/ROI.py`. The model covers:

- **State and change signal.** The ROI state is position, size and angle. `stateChanged` emits
  `sigRegionChanged`/`sigRegionChangeFinished` and puts handles back in place.
- **Setters.** `setPos`, `setSize`, `setAngle`, `setState`, `rotate` and `scale`, each with its
  `update`/`finish` flags.
- **Translation.** `translate(delta, snap)` first snaps to the grid (`getSnapPosition`), then
  clamps into `maxBounds`.
- **`movePoint`.** The size and angle rules a dragged handle of each type
  (translate 't', free 'f', scale 's', rotate 'r', scale/rotate 'sr', free rotate 'rf') applies.
  A proposal outside `maxBounds` is rejected.
- **Handle registry.** The `add*Handle` family and `replaceHandle`. On the handle side:
  `Handle.connectROI`/`disconnectROI`, and `Handle.movePoint`, which either moves every
  connected ROI or moves none.
- **Drag and cancel.** The drag/cancel state machine of the ROI (`mouseDragEvent`,
  `mouseClickEvent`, `cancelMove`) and of a handle (`Handle.mouseDragEvent`,
  `Handle.mouseClickEvent`).
- **Multi-segment ROIs.** The `MultiLineROI` precondition, `LineSegmentROI` construction, and the
  segment-list edits of `PolyLineROI.newHandleRequested`/`handleRemoved`.

Modelling choices:

- **Signals** are not dispatched. Each ROI and handle appends them to an `events` log:
  `RegionChanged`, `RegionChangeStarted`, `RegionChangeFinished`, `Clicked`.
- **Python exceptions** become `PyError` values that the methods return. The contracts state that
  state is left exactly as the source leaves it on each error path.
- **Coordinates** are exact reals.
- **The item transform** of an ROI is "rotate by the angle, then move to the position". The
  rotation, `Point.angle`, `Point.length` and `Point.proj` are function-valued fields of a
  `Primitives` record, so a trigonometric library is a parameter of the model.
- **Scene coordinates** of an ROI are the coordinates of its parent, so the parent-to-scene
  map is the identity. A handle's scene position still goes through its parent ROI's item
  transform.
- **Python's `round`** rounds to the nearest integer. Ties go upward.

Files:

| File | Contents |
|---|---|
| `wrappers.dfy` | `Option`, `Result`, the Python exceptions, and list indexing/insert/pop as Python does them. |
| `geometry.dfy` | `Point`, `QRectF`, `Abs`, `Round`, and the `Primitives` record. |
| `snapping.dfy` | Grid snapping (`getSnapPosition`, the size snap of scale handles) and the 15-degree angle snap. |
| `bounds.dfy` | `QRectF.normalized`/`contains`, and the `maxBounds` clamp of `translate`. |
| `roistate.dfy` | The state record, `saveState`, which signals `stateChanged` emits, the item transform, and `stateRect`. |
| `handlerules.dfy` | The outcome of `translate` and of `movePoint` for each handle type, as pure functions from the state and the handle, with lemmas about each. |
| `rois.dfy` | The classes `ROI` and `Handle`: fields the source mutates, their methods and loops. It also holds the `disconnectROI` finding. |
| `polyline.dfy` | `MultiLineROI`, `LineSegmentROI` and `PolyLineROI`. |

## Model

| member | source | states |
|---|---|---|
| Wrappers.PyIndex | graphicsItems/ROI.py:305-307 | A list index resolves exactly when -n <= i < n; a negative index counts from the end. |
| Wrappers.PyInsert | graphicsItems/ROI.py:1464-1469 | `list.insert(i, x)` puts x at i, keeping the elements before and after in order, and appends when i is past the end; the multiset grows by x. |
| Wrappers.RemoveAt | graphicsItems/ROI.py:1486-1488 | `list.pop(i)` removes exactly the element at i; everything else keeps its order. |
| Wrappers.FirstIndex | graphicsItems/ROI.py:1459-1460 | The enumerate-and-break search finds an index exactly when the element is present, and it is the first such index. |
| Geometry.Round | graphicsItems/ROI.py:686-691 | `round(x)` is within half a unit of x. |
| Geometry.RoundOfInteger | graphicsItems/ROI.py:686-691 | Rounding an integer gives that integer. |
| Geometry.RoundIsNearest | graphicsItems/ROI.py:686-691 | No integer is closer to x than round(x). |
| Snapping.SnapCoord | graphicsItems/ROI.py:690-691 | `round(v / s) * s` is a multiple of s. |
| Snapping.SnapCoordNearest | graphicsItems/ROI.py:690-691 | The snapped coordinate is at least as close to v as every multiple of s. |
| Snapping.SnapCoordClose | graphicsItems/ROI.py:690-691 | The snapped coordinate is within half a grid step of v. |
| Snapping.SnapCoordOfMultiple | graphicsItems/ROI.py:690-691 | A multiple of s snaps to itself. |
| Snapping.SnapCoordIdempotent | graphicsItems/ROI.py:690-691 | Snapping twice gives the same coordinate as snapping once. |
| Snapping.CloserIndexCloserMultiple | graphicsItems/ROI.py:690-691 | A multiple whose index is nearer to v/s is nearer to v. |
| Snapping.DistanceToMultiple | graphicsItems/ROI.py:690-691 | The distance from v to k*s is abs(k - v/s) * abs(s). |
| Snapping.GetSnapPosition | graphicsItems/ROI.py:678-691 | snap=False raises TypeError. With no spacing (snap None/True and no `snapSize`), pos comes back unchanged. A zero spacing raises ZeroDivisionError. Otherwise each coordinate lies on the grid. |
| Snapping.SnapPositionNearest | graphicsItems/ROI.py:678-691 | Each coordinate of a snapped position is within half a step of the request, and no grid point on that axis is closer. |
| Snapping.SnapPositionIdempotent | graphicsItems/ROI.py:678-691 | Snapping an already snapped position with the same arguments returns it unchanged. |
| Snapping.SnapBySize | graphicsItems/ROI.py:500-502 | The scale-handle snap raises TypeError without `snapSize` and ZeroDivisionError for zero; otherwise it is a multiple of `snapSize` within half a step. |
| Snapping.SnapAngle | graphicsItems/ROI.py:560-561 | The snapped angle is a multiple of 15 degrees within 7.5 degrees of the request. |
| Snapping.SnapAngleIdempotent | graphicsItems/ROI.py:599-601 | The angle snap is idempotent. |
| Bounds.Normalized | graphicsItems/ROI.py:538-541 | The normalised rectangle has non-negative extent and the same edges, swapped where the extent was negative. |
| Bounds.BoundsOffset | graphicsItems/ROI.py:221-233 | Left edge past the bound: the left edge is moved onto it. Otherwise, right edge past the bound: the right edge is moved onto it. Otherwise no x correction. The same holds for top, then bottom. |
| Bounds.OffsetZeroInside | graphicsItems/ROI.py:221-233 | A rectangle whose edges already lie within the bounds gets a zero correction. |
| Bounds.OffsetClampsFittingRect | graphicsItems/ROI.py:221-233 | A rectangle no larger than the bounds lies within them after the correction, and a second correction is zero. |
| Bounds.ContainedMeansNoOffset | graphicsItems/ROI.py:221-233 | A rectangle that `QRectF.contains` accepts needs no correction. |
| RoiState.SaveRestoreRoundTrip | graphicsItems/ROI.py:88-106 | Restoring a saved state gives back the state; saving a restored one gives back the saved form. |
| RoiState.ChangedIsInequality | graphicsItems/ROI.py:636-643 | The key-by-key comparison in `stateChanged` is inequality of whole states. |
| RoiState.Signals | graphicsItems/ROI.py:630-664 | `RegionChanged` is emitted exactly when there is no last state, some key differs, or a free handle moved. `RegionChangeFinished` is emitted exactly when finish is set, and comes last. Nothing else is emitted. |
| RoiState.Min4 | graphicsItems/ROI.py:669-675 | The least of four values. |
| RoiState.Max4 | graphicsItems/ROI.py:669-675 | The greatest of four values. |
| RoiState.MapRect | graphicsItems/ROI.py:669-675 | Angle 0 leaves the rectangle unchanged. Otherwise the result has non-negative extent, contains the four rotated corners, and is the tightest such box: each edge is the least or greatest corner coordinate. |
| RoiState.StateRectUnrotated | graphicsItems/ROI.py:669-675 | An unrotated ROI occupies exactly (pos, size). |
| HandleRules.TranslatedPos | graphicsItems/ROI.py:186-240 | Without snap and bounds the target is pos + delta. It fails exactly when the snap raises. |
| HandleRules.TranslateSnapsToGrid | graphicsItems/ROI.py:214-218 | Without `maxBounds`, a snapped translate goes to `getSnapPosition(pos + delta)`, which lies on the grid whenever a spacing applies. |
| HandleRules.TranslateSnappedInside | graphicsItems/ROI.py:214-233 | With `maxBounds`, a snapped position whose unrotated rectangle is already inside the bounds is kept as snapped, and so it stays on the grid. |
| HandleRules.TranslateStaysInBounds | graphicsItems/ROI.py:214-233 | An unrotated ROI that fits in `maxBounds` ends inside them after `translate`. |
| HandleRules.TranslateInsideUncorrected | graphicsItems/ROI.py:221-233 | An unsnapped move that stays inside the bounds is applied as given. |
| HandleRules.CorrectedSize | graphicsItems/ROI.py:517-528 | A zero component, or a negative one when not invertible, keeps the old size. With `aspectLocked`, width equals height. A non-zero (positive) old size stays non-zero (positive). |
| HandleRules.SnapZero | graphicsItems/ROI.py:494-502 | A zeroed handle offset stays zero under the grid snap. |
| HandleRules.SnapOffset | graphicsItems/ROI.py:494-502 | The snapped handle offset fails exactly without `snapSize` or with zero. A zeroed axis stays zero. |
| HandleRules.ScaledSize | graphicsItems/ROI.py:494-528 | The new scale-handle size fails exactly when snapping is on and `snapSize` is missing or zero. It keeps the size corrections. On a locked axis (the handle shares that coordinate with its centre) the old size is kept. |
| HandleRules.ScaledSizeAsRequested | graphicsItems/ROI.py:494-528 | On a free axis with no aspect lock and no Alt, a requested component that is positive (or negative on an invertible ROI) is used as given. That component is the snapped handle offset divided by the handle's offset from its centre. |
| HandleRules.RotationFor | graphicsItems/ROI.py:556-561 | With `rotateSnap` or Control, the new angle is a multiple of 15 within 7.5 of the raw angle. Otherwise it is the raw angle. |
| HandleRules.MoveRespectsBounds | graphicsItems/ROI.py:538-541 | Scale, rotate and scale/rotate handles only ever install a state inside `maxBounds`. |
| HandleRules.TranslateHandleKeepsShape | graphicsItems/ROI.py:482-486 | A translate handle changes neither size nor angle. |
| HandleRules.FreeHandleKeepsState | graphicsItems/ROI.py:488-491 | A free handle leaves the state alone, moves its own item to the mapped position, and flags `freeHandleMoved`. |
| HandleRules.RotateHandleRules | graphicsItems/ROI.py:546-585 | A rotate handle keeps the size and stops at once when rotation is not allowed. A zero-length offset stops the move. An undefined `angleTo` raises TypeError. An applied move takes the angle from `RotationFor`, so with snap it is a multiple of 15. Only 'rf' flags a free move. |
| HandleRules.ScaleRotateHandleRules | graphicsItems/ROI.py:587-626 | A scale/rotate handle scales one axis only. A zero-length offset stops the move, and an undefined `angleTo` raises TypeError. The scaling axis becomes exactly the length ratio, snapped under `scaleSnap`, with 0 replaced by 1. With snap its angle is a multiple of 15. Its errors are ZeroDivisionError or TypeError. |
| HandleRules.ScaleHandleRules | graphicsItems/ROI.py:492-544 | A scale handle keeps the angle and applies the zero, negative, aspect and locked-axis corrections. |
| HandleRules.RotateKeepsCentre | graphicsItems/ROI.py:563-570 | The rotation centre keeps its parent position. |
| HandleRules.ScaleRotateKeepsCentre | graphicsItems/ROI.py:611-617 | The centre, measured in the new size, keeps its parent position. |
| HandleRules.ScaleKeepsCentre | graphicsItems/ROI.py:530-537 | When the rotation is linear, a scale handle keeps its centre in place. |
| Rois.Placement | graphicsItems/ROI.py:647-650 | A handle gets a position from `stateChanged` exactly when some entry holds it. |
| Rois.DetachedMembers | graphicsItems/ROI.py:968-971 | After disconnecting r, an entry remains exactly when it was there and names another ROI. |
| Rois.DisconnectAsWrittenKeepsEntry | graphicsItems/ROI.py:968-971 | Two adjacent entries for the same ROI: the loop as written keeps the second one. |
| Rois.EnumeratePopWithoutAdjacent | graphicsItems/ROI.py:968-971 | Without two adjacent entries for r, the loop as written drops exactly the entries for r. |
| Rois.OccurrencesAppend | graphicsItems/ROI.py:1058-1061 | Counting entries for an ROI is additive under append. |
| Rois.ROI.constructor | graphicsItems/ROI.py:49-83 | Starts from (0,0), (1,1), 0 and applies setPos, setAngle, setSize. The log is RegionChanged and Finished for the position, then each of angle and size: Changed only if different from the default, then Finished. The settings are as given. |
| Rois.ROI.InitialChanges | graphicsItems/ROI.py:69-71 | The three setter calls leave the given state as processed and emit the stated log. |
| Rois.ROI.AngleThenSize | graphicsItems/ROI.py:70-71 | setAngle then setSize each emit RegionChanged only when their key changes, followed by Finished. |
| Rois.ROI.StateChanged | graphicsItems/ROI.py:630-664 | Emits exactly `Signals(lastState, state, freeHandleMoved, finish)`. It clears `freeHandleMoved` and sets `lastState` to the state. On a change the owned handles are placed at pos times size; no other handle moves. |
| Rois.ROI.PlaceHandles | graphicsItems/ROI.py:647-650 | Every handle this ROI is parent of sits at its entry's pos times the size; others stay put. |
| Rois.ROI.StateChangeFinished | graphicsItems/ROI.py:666-667 | Appends exactly one `RegionChangeFinished`. |
| Rois.ROI.SetPos | graphicsItems/ROI.py:130-147 | Only `pos` changes. With update the change is processed with the given finish; without, nothing is emitted and nothing else changes. |
| Rois.ROI.SetSize | graphicsItems/ROI.py:149-157 | Only `size` changes; update/finish as for setPos. |
| Rois.ROI.SetAngle | graphicsItems/ROI.py:159-169 | Only `angle` changes; update/finish as for setPos. |
| Rois.ROI.SetState | graphicsItems/ROI.py:103-106 | The state becomes the given one. It is processed and finished once when update is set, and quiet otherwise. |
| Rois.ROI.Rotate | graphicsItems/ROI.py:242-243 | The angle grows by the given amount. |
| Rois.ROI.Scale | graphicsItems/ROI.py:171-183 | The size is multiplied componentwise, the angle is kept, and the given centre keeps its parent position. |
| Rois.ROI.Translate | graphicsItems/ROI.py:186-240 | When the snap raises, the error is returned and nothing changes. Otherwise the position becomes `TranslatedPos`, processed as `update`/`finish` say. |
| Rois.ROI.HandleMoveStarted | graphicsItems/ROI.py:245-246 | `preMoveState` becomes the current state. |
| Rois.ROI.MovePoint | graphicsItems/ROI.py:461-628 | An out-of-range index raises IndexError with no change. Otherwise the plan for the entry's handle type is applied. An applied plan sets the state and ends with `stateChanged(finish)`. A rejected or failing plan leaves state, log and handle positions unchanged and only may flag `freeHandleMoved`. |
| Rois.ROI.ApplyPlan | graphicsItems/ROI.py:543-628 | Places the handle item, sets the planned state and processes the change. |
| Rois.ROI.SetMouseHover | graphicsItems/ROI.py:360-369 | Hovering becomes the given flag. The pen switches only when the flag changes. |
| Rois.ROI.CancelMove | graphicsItems/ROI.py:414-416 | Always stops the drag. It restores `preMoveState` (processed and finished), or raises AttributeError with no other change when there is none. |
| Rois.ROI.MouseClickEvent | graphicsItems/ROI.py:401-409 | A right click during a drag is accepted and cancels the move back to the saved state. Another accepted button emits `Clicked`. Anything else is ignored. |
| Rois.ROI.MouseDragEvent | graphicsItems/ROI.py:372-399 | A left start on a translatable ROI is accepted; it saves the state and the cursor offset, and emits `RegionChangeStarted`. A left start on one that is not translatable is ignored. A finish emits `RegionChangeFinished` when a drag was on. While moving with only the left button held, the ROI translates (finish=False) to the cursor. |
| Rois.ROI.EndDrag | graphicsItems/ROI.py:389-394 | A translatable ROI stops moving, with one `RegionChangeFinished` if it was moving. |
| Rois.ROI.BeginDrag | graphicsItems/ROI.py:373-387 | The start phase's reply, moving flag, saved state and cursor offset. |
| Rois.ROI.DragStep | graphicsItems/ROI.py:396-399 | The follow-the-cursor translate and its error case. |
| Rois.ROI.AddHandle | graphicsItems/ROI.py:283-303 | Exactly one entry is appended. Its index is the old length, and the handle records (roi, index). Without an item a fresh handle owned by the ROI is made at pos times size. The back-reference invariant is kept. |
| Rois.ROI.AddTranslateHandle | graphicsItems/ROI.py:248-250 | Appends a translate entry at pos. |
| Rois.ROI.AddFreeHandle | graphicsItems/ROI.py:252-254 | Appends a free entry at pos and links its item. |
| Rois.ROI.AddScaleHandle | graphicsItems/ROI.py:256-264 | Appends a scale entry. An axis is locked exactly when pos and centre share that coordinate. |
| Rois.ROI.AddRotateHandle | graphicsItems/ROI.py:266-269 | Appends a rotate entry with its centre. |
| Rois.ROI.AddScaleRotateHandle | graphicsItems/ROI.py:271-276 | Raises, changing nothing, exactly when pos and centre share neither x nor y. Otherwise appends a scale/rotate entry. |
| Rois.ROI.AddRotateFreeHandle | graphicsItems/ROI.py:278-281 | Appends a free-rotate entry. |
| Rois.ROI.ReplaceHandle | graphicsItems/ROI.py:305-309 | A bad index raises IndexError with no change. Otherwise the entry is replaced, the old item forgets this ROI, and the new one records (roi, ind). |
| Rois.Handle.constructor | graphicsItems/ROI.py:939-962 | A handle starts unconnected and not moving; a deletable one takes right clicks. |
| Rois.Handle.AllAccept | graphicsItems/ROI.py:1075-1077 | True exactly when every connected ROI's `checkPointMove` accepts. |
| Rois.Handle.MovePoint | graphicsItems/ROI.py:1074-1081 | Moves happen exactly when every ROI accepts. Otherwise no ROI's state, log or handle position changes. With a single connected ROI, that ROI's state, `lastState`, `freeHandleMoved` and log end where its own `movePoint` takes them, and so does the dragged handle's position. When a call raises, the ROIs of the later entries are untouched. |
| Rois.Handle.TellAll | graphicsItems/ROI.py:1080-1081 | Tells each entry's ROI in turn, the first one directly and the rest through `TellFrom`. A single entry's ROI ends where its `movePoint` takes it. After an exception, every ROI not yet told keeps its progress. |
| Rois.Handle.TellFrom | graphicsItems/ROI.py:1080-1081 | The same loop from entry i on; it stops at the first exception, leaving the untold ROIs as they were. |
| Rois.Handle.TellAt | graphicsItems/ROI.py:1081 | One step of the loop: once entry i's ROI has been told, every ROI not among the first i+1 entries still has its progress from before the loop. |
| Rois.Handle.Tell | graphicsItems/ROI.py:1081 | `r.movePoint(pt, pos, modifiers, finish)` takes the ROI to the state, `lastState`, `freeHandleMoved` and log its plan says, and the dragged handle to the plan's or the processed change's position, or raises the plan's error. |
| Rois.Handle.Finished | graphicsItems/ROI.py:1058-1061 | n copies of `RegionChangeFinished`. |
| Rois.Handle.FinishAll | graphicsItems/ROI.py:1058-1061 | Each connected ROI emits `RegionChangeFinished` once per entry that names it. |
| Rois.Handle.StartAll | graphicsItems/ROI.py:1063-1065 | Every connected ROI saves its state. |
| Rois.Handle.MouseDragEvent | graphicsItems/ROI.py:1047-1072 | Only the left button is accepted. A start saves every ROI's state, the start position and the cursor offset. A finish stops the move with Finished from each ROI. A move without a drag changes nothing. A start or move forwards the cursor position plus the offset to `movePoint(finish=False)`. If an ROI refuses, nothing moves. With a single ROI, that ROI ends where its `movePoint` takes it. |
| Rois.Handle.EndMove | graphicsItems/ROI.py:1058-1062 | The drag stops; if one was on, each ROI emits Finished once per entry. |
| Rois.Handle.StartMove | graphicsItems/ROI.py:1063-1072 | Saves every ROI's state, the start position and the cursor offset, then forwards the first move as `MouseDragEvent` does. |
| Rois.Handle.BeginMove | graphicsItems/ROI.py:1063-1068 | The moving flag, start position, cursor offset and saved states are set; no ROI's progress changes. |
| Rois.Handle.DragOn | graphicsItems/ROI.py:1070-1072 | Without a drag, or when an ROI refuses, nothing changes. Otherwise a single ROI ends where its `movePoint` takes it. |
| Rois.Handle.MouseClickEvent | graphicsItems/ROI.py:1007-1022 | A right click during a drag stops it and moves back to the start (all or nothing). Another accepted button emits `Clicked`. |
| Rois.Handle.ConnectROI | graphicsItems/ROI.py:964-966 | Appends exactly (roi, i). |
| Rois.Handle.DisconnectROI | graphicsItems/ROI.py:968-971 | Drops every entry for the ROI and keeps the rest in order. |
| PolyLine.MultiLineCheck | graphicsItems/ROI.py:1233-1238 | Fewer than two points raise; two or more pass. |
| PolyLine.NewLineSegment | graphicsItems/ROI.py:1520-1534 | More than two positions raise. Otherwise an unrotated segment of size (1,1) has one free entry per position, reusing the given items, and its items record it. |
| PolyLine.AddFreeHandles | graphicsItems/ROI.py:1528-1529 | One free entry per position, given items first, each linked back. |
| PolyLine.PolyLineROI.SetSegmentSettings | graphicsItems/ROI.py:1433-1439 | The segment takes left clicks; each of its handles becomes deletable and takes left and right clicks. |
| PolyLine.PolyLineROI.SetMouseHover | graphicsItems/ROI.py:1441-1447 | A hover change is passed on to every segment; no change, no effect. |
| PolyLine.PolyLineROI.NewHandleRequested | graphicsItems/ROI.py:1449-1469 | No event and no pos raises. Fewer than two handles raises IndexError. An unknown segment raises NameError. On success a new segment from the first handle to a fresh deletable handle at p is inserted before the segment, the segment's first entry becomes the new handle, the new handle is inserted into the polyline's handles after index i, and the back-references are updated. |
| PolyLine.PolyLineROI.InsertSegment | graphicsItems/ROI.py:1462-1469 | The list edits once the segment is found at i. |
| PolyLine.PolyLineROI.SetFirstHandle | graphicsItems/ROI.py:1467 | `replaceHandle(0, ...)` on the segment. |
| PolyLine.PolyLineROI.SplitSegment | graphicsItems/ROI.py:1462-1463 | The new two-handle segment, with segment settings applied. |
| PolyLine.PolyLineROI.HandleRemoved | graphicsItems/ROI.py:1472-1489 | An unknown segment raises NameError and changes nothing. The next segment (or the first, after the last) takes over the removed segment's first handle; no other segment's handles change. Each item's back-references are updated as `replaceHandle` does, and the removed handle forgets that segment. The polyline drops the entry at that index and the segment, or raises IndexError where the source would. |
| PolyLine.PolyLineROI.Find | graphicsItems/ROI.py:1474-1475 | Returns exactly the first index of the segment. |
| PolyLine.PolyLineROI.RemoveFound | graphicsItems/ROI.py:1477-1488 | The edits of `handleRemoved` once the segment is found, with the same frame and back-reference facts. |
| PolyLine.PolyLineROI.TakeOver | graphicsItems/ROI.py:1479-1482 | `replaceHandle(0, ...)` on the next segment, then the removed handle forgets it. An empty handle list raises IndexError and changes nothing. The back-references are updated as stated by `HandedOver`. |
| PolyLine.PolyLineROI.DropSegment | graphicsItems/ROI.py:1484-1486 | The handle entry j and the segment i leave the lists, or IndexError leaves both unchanged. |

## Left out

- Painting, shapes, bounding rectangles, pens other than the hover switch, context menus, `hoverEvent`, `Handle.buildPath`/`generateShape`: drawing only.
- Array extraction (`getArraySlice`, `getArrayRegion`, `EllipseROI`, `affineSlice`) and `getGlobalTransform`/`applyGlobalTransform`: numerics and a transform class outside this model.
- Qt's fuzzy floating-point comparison and float rounding: coordinates are exact reals.
- The tie rule of Python's `round`: `Round` rounds ties upward, and no property depends on how ties go.
- Scene coordinates are taken to be the coordinates of an ROI's parent, so only the parent-to-scene map (`mapSceneToParent` and its inverse) is the identity. A handle's `mapToScene`/`scenePos` goes through its parent ROI's item transform (`SceneOf`). Transforms above the ROI's parent are not modelled.
- `ReplaceHandle`, `HandleRemoved` and `NewHandleRequested` disconnect through the corrected `Rois.Handle.DisconnectROI`. The source calls the loop as written, which can keep an entry when two adjacent entries name the same ROI (see Findings).
- The overrides `PolygonROI.movePoint`, `PolyLineROI.movePoint`, `LineSegmentROI.movePoint` and `SpiralROI.movePoint` (graphicsItems/ROI.py:1360, :1429, :1589, :1712): the model has no subclassing. `checkPointMove` is a function field given to the constructor.
- `setSelected`, `setZValue`, `setPen`, the real signal/slot wiring, `setParentROI`/`parentROI`, `Handle.close` and removal from the scene.
- `LineSegmentROI.setAcceptsHandles` is modelled only by the accepted mouse buttons it sets.
- `PolyLineROI.__init__`: a polyline is built from already constructed segments.
- `MultiLineROI` line construction beyond its point-count precondition: it drives handles through Qt transforms.
- PolyLine.NewLineSegment: builds the underlying ROI with the default keyword arguments; other `**args` are not passed through.
- Rois.Handle.MovePoint: when every ROI accepts, it states each ROI's resulting state only for a handle with a single connected ROI. With several entries it states that an exception leaves the later ROIs untouched, but not the composed result of the calls. The single-ROI result covers the ROI's state, `lastState`, `freeHandleMoved`, log and the dragged handle's position. It does not state the positions of the ROI's other handle items; `Rois.ROI.MovePoint` states those.
- Rois.Handle.TellAll: the composed result of telling several entries is not stated, only the single-entry result and the untouched later ROIs after an exception. Handles with several entries are mostly polyline vertices, each in two `LineSegmentROI`s and in the `PolyLineROI` (graphicsItems/ROI.py:1405-1424). Those classes override `movePoint`, and the overrides are not modelled, so a composed result would not describe the source's moves.
- Rois.Handle.DragOn: states the forwarded move's result only for a single entry, for the reason given for `Rois.Handle.TellAll`.
- Rois.Handle.StartMove: states the forwarded first move's result only for a single entry, for the reason given for `Rois.Handle.TellAll`.
- Rois.Handle.MouseDragEvent: states the forwarded move's result only for a single entry, for the reason given for `Rois.Handle.TellAll`.
- Rois.ROI.MouseDragEvent: `RegionChangeStarted` is appended at the start of the follow-the-cursor step, emitted in the same order as the source.
- Rois.Handle.MouseClickEvent: after a right-click cancel it states only the all-or-nothing outcome of the move back, not each ROI's new state.
- `acq4/util/Canvas/items/ScanCanvasItem.py` and `lib/util/pyqtgraph/examples/GLshaders.py` are not part of this model: file and UI wrappers and a demo script.

## Findings

| source | as written | input that shows it | evidently intended | confidence | as-written member | corrected member |
|---|---|---|---|---|---|---|
| graphicsItems/ROI.py:968-971 | `disconnectROI` pops entries while enumerating the same list, so the entry after each removed one is skipped | a handle whose `roi` list is [(r, 0), (r, 1)], disconnected from r, keeps (r, 1) | every entry for r is removed | not executed | Rois.DisconnectAsWrittenKeepsEntry | Rois.Handle.DisconnectROI |
