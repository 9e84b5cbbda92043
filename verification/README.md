# Plywood compositor core in Dafny

Plywood is a scrolling, tiling Wayland compositor written in Swift on top of
wlroots. This project models its core and proves properties about it:

- **The stage** (`StageEngine`, with its arithmetic in `Layout`). Views sit in
  rows. Only row 0 is ever used. A new view goes to the end of the focused row,
  one spacing (24) after the last view, or at the padding (56) in an empty row.
  Removing a view closes the gap it leaves. When the first view is removed,
  the new first view is pulled back to the padding if needed. The focused
  column steps back when a view other than the first is removed while the
  focus is on or past the last column. `moveLeft`/`moveRight`
  step the focused column within the row. `updateCrossAxis` centres every view
  of the focused row vertically and gives it nine tenths of the output height.
  `findView` hit-tests the focused row's views in order.
- **The cursor** (`PointerCursor`). It has a mode: passthrough, an interactive
  move, or an interactive resize. A move or resize starts only for the view
  with keyboard focus. A resize follows the cursor along each axis whose edge
  is dragged. In passthrough mode, pointer motion is routed to the surface
  under the cursor. A press focuses the view under the pointer. A release
  returns the cursor to passthrough.
- **The XDG view** (`XdgView`). It keeps the last area it asked for
  (`cachedArea`). It tracks whether it is mapped. It implements the
  keyboard-focus handover between surfaces, and hit-testing relative to its
  position.
- **The output layout** (`Outputs`). It stores the effective resolution of
  every output by name. The combined resolution is the component-wise minimum
  over all stored outputs.
- **The compositor state** (`Compositor`):
  - the scheduler tick, which feeds elapsed wall-clock time to the animation
    scheduler, using −1 as "no time recorded yet";
  - the seat capabilities advertised when an input device appears;
  - the creation of views for new XDG toplevels.
- **Helpers**:
  - `Geometry`: points, areas, `lerp`, `+`, `−`, and the Double→Int32
    truncation;
  - `ArrayExtensions`: `removeAnyObject`;
  - `Protocol`: the wlroots collaborators, meaning the client surface and a
    seat that records every notification it is sent.

Positions are reals and sizes are unbounded integers. The wall clock, the
cursor device's reported position and the client's hit-test are parameters of
the model. Calls into wlroots that the core only issues are recorded:

- notifications to the seat go into `Seat.log`;
- a requested size goes into `Surface.pendingSize`;
- the stage hooks `reflowView` and `updateOutputMode` are counted
  (`View.reflowRequests`, `OutputLayout.stageUpdates`);
- the scheduler steps are recorded in `State.steps`.

The model follows the code:

- A resize does not clamp the requested size to at least 1. When a top or
  left edge drives the size below 1, only the position is moved
  (Sources/Plywood/PlywoodCursor.swift:85-87, 96-98).
- Nothing is animated. The stage assigns positions directly
  (Sources/Plywood/PlywoodStage.swift:28, 33, 74, 179).
- The focused column of each row is a plain `Int` index, with no scroll amount
  (Sources/Plywood/PlywoodStage.swift:7).
- The `unmappedXDGViews` list only grows. The map handler never takes a view off it
  (Sources/Plywood/Plywood.swift:112-120).

## Model

| member | source | states |
|---|---|---|
| `Geometry.WithX` | Sources/Plywood/SwiftWLR+Tweenable.swift:9-12 | setting `x` changes only the x component |
| `Geometry.WithY` | Sources/Plywood/SwiftWLR+Tweenable.swift:14-17 | setting `y` changes only the y component |
| `Geometry.Add` | Sources/Plywood/SwiftWLR+Tweenable.swift:34-36 | `+` is commutative, and adding a point leaves the other unchanged exactly when the added point is the origin |
| `Geometry.Sub` | Sources/Plywood/SwiftWLR+Tweenable.swift:38-40 | `a − b` is the translation that takes `b` to `a`, and it is the origin exactly when `a == b` |
| `Geometry.AddSubCancel` | Sources/Plywood/SwiftWLR+Tweenable.swift:34-40 | with component-wise `+` and `−`, `(a + b) − b == a` and `(a − b) + b == a` |
| `Geometry.SubTranslationInvariant` | Sources/Plywood/SwiftWLR+Tweenable.swift:38-40 | a difference of points does not change when both are moved by the same amount |
| `Geometry.Lerp` | Sources/Plywood/SwiftWLR+Tweenable.swift:19-24 | `lerp(0, end)` is the start point, `lerp(1, end)` is `end`, and interpolating towards the start point stays there |
| `Geometry.LerpStepsCompose` | Sources/Plywood/SwiftWLR+Tweenable.swift:19-24 | the displacement of `lerp` is additive in `t`, so interpolated points move along one line |
| `Geometry.Trunc` | Sources/Plywood/PlywoodCursor.swift:83 | `Int32(d)` truncates toward zero: the result has the sign of `d` and lies within 1 of it, on the zero side |
| `Geometry.TruncOfInt` | Sources/Plywood/PlywoodCursor.swift:83 | truncation is exact on whole numbers |
| `ArrayExtensions.RemoveAt` | Sources/Plywood/Array+Extensions.swift:9 | `remove(at:)` drops exactly the element at the index; the elements before it stay, and the later ones keep their order |
| `ArrayExtensions.RemoveAtDistinct` | Sources/Plywood/PlywoodStage.swift:66 | removing from a row of distinct views leaves distinct views, and the removed one is gone |
| `ArrayExtensions.FirstIndex` | Sources/Plywood/Array+Extensions.swift:6 | `firstIndex(where: ===)` is absent exactly when the object is not in the array; otherwise it is its first occurrence |
| `ArrayExtensions.RemoveAnyObject` | Sources/Plywood/Array+Extensions.swift:5-13 | returns true iff the object occurs; then exactly its first occurrence is removed and the length drops by one, the others keeping their order and multiplicities; otherwise the array is unchanged |
| `ArrayExtensions.LaterOccurrenceStays` | Sources/Plywood/Array+Extensions.swift:6-9 | after the first occurrence is removed, a later occurrence of the same object stays |
| `XdgView.View.constructor` | Sources/Plywood/PlywoodXDGView.swift:35-45 | a new view is at the origin, unmapped, with `cachedArea` set to the client's current area |
| `XdgView.View.SetArea` | Sources/Plywood/PlywoodXDGView.swift:16-19 | the `area` setter records the value in `cachedArea` and asks the surface for exactly that size; the getter's value is not changed by it |
| `XdgView.View.CurrentArea` | Sources/Plywood/PlywoodXDGView.swift:15 | the `area` getter is the client's current geometry area, not the remembered `cachedArea` |
| `XdgView.View.Focus` | Sources/Plywood/PlywoodXDGView.swift:113-129 | no-op when this surface already has keyboard focus; otherwise the previous surface is deactivated, this one is activated and receives keyboard-enter, and it then holds keyboard focus |
| `XdgView.View.OnMap` | Sources/Plywood/PlywoodXDGView.swift:51-61 | the view becomes mapped; a reflow is requested and `cachedArea` updated exactly when the current area differs from `cachedArea`; then the view is focused |
| `XdgView.View.OnUnmap` | Sources/Plywood/PlywoodXDGView.swift:63-65 | only the mapped flag is cleared |
| `XdgView.View.FindSurface` | Sources/Plywood/PlywoodXDGView.swift:71-78 | the surface tree is queried at the point taken relative to the view's position |
| `XdgView.FindSurfaceFollowsView` | Sources/Plywood/PlywoodXDGView.swift:71-78 | hit-testing moves with the view: a view displaced by `d` answers a query displaced by `d` as the original does |
| `XdgView.FocusIsIdempotent` | Sources/Plywood/PlywoodXDGView.swift:113-119 | focusing twice sends at most one keyboard-enter and leaves the view focused |
| `Layout.InsertKeepsPacked` | Sources/Plywood/PlywoodStage.swift:26-34 | appending at `NextX` keeps a row packed: padding first, then each view one width and spacing after the previous one |
| `Layout.PackedIncreasing` | Sources/Plywood/PlywoodStage.swift:26-34 | in a packed row with non-negative widths, views lie strictly left to right, at least one spacing apart |
| `Layout.RemoveGap` | Sources/Plywood/PlywoodStage.swift:55-64 | the shift after a removal is the removed width plus spacing, except that removing the first of several views shrinks it exactly enough that the new first view lands on the padding when it would otherwise land left of it; without that correction the shift is exactly the width plus spacing |
| `Layout.ReflowAfterRemove` | Sources/Plywood/PlywoodStage.swift:55-75 | after a removal, earlier views keep their x, every later view moves left by the same gap, and a new first view lands at `max(second.x − (width + spacing), padding)` |
| `Layout.RemoveKeepsPacked` | Sources/Plywood/PlywoodStage.swift:55-75 | removing any view from a packed row leaves a packed row |
| `Layout.FocusAfterRemove` | Sources/Plywood/PlywoodStage.swift:68-70 | the focused column goes back by one exactly when the removed index is not 0 and the focus was at or past the old last column |
| `Layout.FocusStaysInRange` | Sources/Plywood/PlywoodStage.swift:68-70 | after removing a non-first view, an in-range focus stays in range of the shorter row |
| `Layout.FocusCanLeaveRangeWhenFirstRemoved` | Sources/Plywood/PlywoodStage.swift:68-70 | removing the first of two views with focus 1 leaves focus 1 in a row of one view |
| `Layout.StepLeft` | Sources/Plywood/PlywoodStage.swift:90-92 | `moveLeft` decrements a positive focus and keeps focus 0 |
| `Layout.StepRight` | Sources/Plywood/PlywoodStage.swift:100-102 | `moveRight` increments the focus only below the last column |
| `Layout.StepsStayInRange` | Sources/Plywood/PlywoodStage.swift:85-103 | both steps keep an in-range focus in range, and repeating a step at its bound changes nothing |
| `Layout.StepRightThenLeft` | Sources/Plywood/PlywoodStage.swift:85-103 | below the last column, a step right followed by a step left returns to the same column |
| `Layout.CrossHeight` | Sources/Plywood/PlywoodStage.swift:177 | for a non-negative height, the cross-axis height is `⌊9·height/10⌋`, between 0 and the height |
| `Layout.CenterY` | Sources/Plywood/PlywoodStage.swift:179 | the vertical margin is one twentieth of the height |
| `Layout.CenteredMarginsEqual` | Sources/Plywood/PlywoodStage.swift:177-179 | the margins above and below a view of nine tenths of the height are equal |
| `Layout.Locate` | Sources/Plywood/PlywoodStage.swift:48-52 | finds the first row holding the view, and the view's first index in it; absent exactly when no row holds the view |
| `Layout.RemoveFromRows` | Sources/Plywood/PlywoodStage.swift:48-77 | rows are unchanged when no row holds the view; otherwise the first row holding it becomes that row with its first occurrence removed, order kept, and no other row changes |
| `StageEngine.HitTest` | Sources/Plywood/PlywoodStage.swift:141-151 | absent exactly when no view of the row is hit; otherwise it is the first hit view in row order, with that view's surface answer |
| `StageEngine.Stage.constructor` | Sources/Plywood/PlywoodStage.swift:5-15 | a new stage has no rows, no offsets and height 0 |
| `StageEngine.Stage.Insert` | Sources/Plywood/PlywoodStage.swift:17-41 | creates row 0 with focus 0 when there are no rows, appends the view to the focused row at `NextX`, leaves other rows alone, and centres it for the recorded height |
| `StageEngine.Stage.CenterView` | Sources/Plywood/PlywoodStage.swift:172-181 | for height 0 nothing changes; otherwise x and width are kept, y becomes the margin and nine tenths of the height is requested |
| `StageEngine.Stage.Remove` | Sources/Plywood/PlywoodStage.swift:43-79 | rows become `RemoveFromRows`; without a match nothing changes; with one, that row's x positions become `ReflowAfterRemove`, its focus `FocusAfterRemove`, and views of other rows keep their positions; no y changes |
| `StageEngine.Stage.RemoveAtRow` | Sources/Plywood/PlywoodStage.swift:53-76 | the body of the match in `remove`: the row loses the index, the reflow and focus step above apply, and everything else stays put |
| `StageEngine.XsOfRemoveAt` | Sources/Plywood/PlywoodStage.swift:65 | removing the view at an index from a row removes exactly that entry from the row's x positions, and the other entries keep their order |
| `StageEngine.Stage.EndOfRow` | Sources/Plywood/PlywoodStage.swift:26-34 | the x a new view gets is `NextX` of the row: the padding in an empty row, else the last view's x plus its width and the spacing |
| `StageEngine.Stage.GapAfterRemove` | Sources/Plywood/PlywoodStage.swift:55-64 | the offset computed in `remove` is `RemoveGap` of the row's positions and widths |
| `StageEngine.Stage.DropAt` | Sources/Plywood/PlywoodStage.swift:66-70 | the row loses exactly that column, its focus takes `FocusAfterRemove`, other rows and offsets stay, and no view is added to the stage |
| `StageEngine.Stage.ShiftLeft` | Sources/Plywood/PlywoodStage.swift:73-75 | every view from the index on moves left by the offset, and only in x |
| `StageEngine.Stage.MoveLeft` | Sources/Plywood/PlywoodStage.swift:85-93 | without offsets nothing changes; otherwise only the focused row's focus takes `StepLeft` |
| `StageEngine.Stage.MoveRight` | Sources/Plywood/PlywoodStage.swift:95-103 | without offsets or rows nothing changes; otherwise only the focused row's focus takes `StepRight` |
| `StageEngine.Stage.FindView` | Sources/Plywood/PlywoodStage.swift:132-152 | the loop computes `HitTest` of the focused row, so it returns a view of that row or none; other rows are never consulted |
| `StageEngine.Stage.UpdateCrossAxis` | Sources/Plywood/PlywoodStage.swift:155-170 | the stage stays well formed; the height is recorded; a repeated or zero height moves nothing; otherwise every view of the focused row is centred for it, and views of other rows are untouched |
| `StageEngine.OnViewDestroyed` | Sources/Plywood/PlywoodXDGView.swift:67-69 | destroying a view removes it from the stage, with the same effect as `Remove`: focus offsets, x reflow of its row, other views unmoved, no y changes |
| `PointerCursor.ResizeAxis` | Sources/Plywood/PlywoodCursor.swift:81-101 | with the near edge dragged, the size shrinks by the truncated cursor delta and the position follows the cursor, shifted by the size when it drops below 1; the far edge grows the size only when the near edge is not dragged; with neither, position and grabbed size are kept |
| `PointerCursor.NearEdgeAnchorsFarEdge` | Sources/Plywood/PlywoodCursor.swift:81-87 | dragging the near edge by whole pixels keeps the far edge (position + size) fixed while the size stays at least 1 |
| `PointerCursor.FarEdgeAnchorsNearEdge` | Sources/Plywood/PlywoodCursor.swift:88-90 | dragging the far edge keeps the position and grows the size with the cursor |
| `PointerCursor.ResizeDoesNotClamp` | Sources/Plywood/PlywoodCursor.swift:83-87 | the size is not clamped: a top edge dragged 5 pixels down over a 3 pixel window asks for height −2 |
| `PointerCursor.ResizeGeometry` | Sources/Plywood/PlywoodCursor.swift:77-104 | the axes are resized independently; the new area is exactly the pair of `ResizeAxis` sizes; an axis with neither of its edges keeps the view's coordinate and the grabbed size |
| `PointerCursor.Cursor.constructor` | Sources/Plywood/PlywoodCursor.swift:12 | a new cursor is in passthrough mode |
| `PointerCursor.Cursor.BeginMove` | Sources/Plywood/PlywoodCursor.swift:35-46 | the mode is unchanged unless the view's surface has keyboard focus; then it is a move grabbing the cursor's offset from the view |
| `PointerCursor.Cursor.BeginResize` | Sources/Plywood/PlywoodCursor.swift:48-60 | the mode is unchanged unless the view's surface has keyboard focus; then it is a resize grabbing cursor + geometry position, the geometry's area and the edges |
| `PointerCursor.Cursor.ProcessViewMove` | Sources/Plywood/PlywoodCursor.swift:62-69 | moving is switched off: the cursor and the view in move mode are left unchanged |
| `PointerCursor.Cursor.ProcessViewResize` | Sources/Plywood/PlywoodCursor.swift:71-105 | in resize mode the view gets the position of `ResizeGeometry` and its surface is asked for its size; in any other mode nothing changes |
| `PointerCursor.Cursor.ProcessMotion` | Sources/Plywood/PlywoodCursor.swift:107-141 | in move or resize mode there is no hit-test and the seat hears nothing; in passthrough, over no view the image is reset and pointer focus cleared, over a view the pointer enters its surface and also moves when that surface already had pointer focus |
| `PointerCursor.Cursor.OnMotion` | Sources/Plywood/PlywoodCursor.swift:143-151 | the cursor takes the device's new position; in resize mode the view gets `ResizeGeometry`'s position and its surface is asked for that area; outside passthrough the image, the pointer focus and the seat log stay as they were |
| `PointerCursor.Cursor.FocusViewUnderPointer` | Sources/Plywood/PlywoodCursor.swift:162-166 | the first view hit under the pointer is focused and its surface activated; over no view nothing changes; no activation flag changes except on the newly focused surface and the previously focused ones |
| `PointerCursor.Cursor.OnButton` | Sources/Plywood/PlywoodCursor.swift:153-167 | the button is always forwarded to the seat first; a release returns to passthrough and changes no activation; a press keeps the mode and focuses the first hit view, leaving every other activation flag as it was except on the previously focused surfaces |
| `PointerCursor.Cursor.OnAxis` | Sources/Plywood/PlywoodCursor.swift:169-175 | scrolling is forwarded to the seat in every mode |
| `PointerCursor.Cursor.OnFrame` | Sources/Plywood/PlywoodCursor.swift:177-179 | a pointer frame is forwarded to the seat in every mode |
| `Outputs.CombinedIsUnique` | Sources/Plywood/PlywoodOutputLayout.swift:32-42 | the combined resolution of a set of outputs is determined by them |
| `Outputs.SingleOutputCombined` | Sources/Plywood/PlywoodOutputLayout.swift:32-42 | with a single output, the combined resolution is exactly its resolution |
| `Outputs.CombinedOfNewOutput` | Sources/Plywood/PlywoodOutputLayout.swift:31-42 | for a new output name, recomputing over every entry equals lowering the old combined resolution by the new one |
| `Outputs.OutputLayout.constructor` | Sources/Plywood/PlywoodOutputLayout.swift:7-8 | a new layout has no resolutions and a combined resolution of 0 × 0 |
| `Outputs.OutputLayout.ComputeResolution` | Sources/Plywood/PlywoodOutputLayout.swift:27-43 | stores the resolution under the output's name, leaving other entries alone; the combined width and height are each the minimum over all entries and each attained by one; the same resolution again leaves the combined resolution unchanged |
| `Outputs.OutputLayout.Insert` | Sources/Plywood/PlywoodOutputLayout.swift:18-25 | listens to the output's mode changes and computes the resolution with it; entries are only added or overwritten |
| `Outputs.OutputLayout.OnMode` | Sources/Plywood/PlywoodOutputLayout.swift:47-52 | recomputes the resolution with the output, then notifies the stage once |
| `Compositor.NextTick` | Sources/Plywood/Plywood.swift:70-86 | a stopped scheduler takes no step and forgets the last time; the first tick steps by 0; later ticks step by the time since the last; a started tick records `now` |
| `Compositor.StepsTelescopeFrom` | Sources/Plywood/Plywood.swift:78-85 | from a recorded time, the steps of consecutive ticks add up to the last tick's time minus the recorded one |
| `Compositor.StepsTelescope` | Sources/Plywood/Plywood.swift:78-85 | over consecutive started ticks, the steps add up to the last tick's time minus the first's |
| `Compositor.RestartStepsByZero` | Sources/Plywood/Plywood.swift:71-82 | after a tick of the stopped scheduler, the first started tick steps by 0 |
| `Compositor.SeatCapabilities` | Sources/Plywood/Plywood.swift:103-109 | the pointer capability is always advertised, and the keyboard capability exactly when a keyboard is known |
| `Compositor.KeyboardCapabilityIffKeyboardSeen` | Sources/Plywood/Plywood.swift:95-109 | after a sequence of new devices, the keyboard capability is advertised exactly when a keyboard was already known or one of the devices was a keyboard |
| `Compositor.State.constructor` | Sources/Plywood/Plywood.swift:23-66 | a new state has no recorded scheduler time, no devices and no unmapped views |
| `Compositor.State.SchedulerNextTick` | Sources/Plywood/Plywood.swift:70-86 | the tick does what `NextTick` says: it leaves its last time and hands the scheduler its step, if any |
| `Compositor.State.OnNewInput` | Sources/Plywood/Plywood.swift:95-110 | a pointer is attached and a keyboard remembered; then the seat advertises `SeatCapabilities` of the keyboards |
| `Compositor.State.OnNewXdgSurface` | Sources/Plywood/Plywood.swift:112-120 | a non-toplevel surface is ignored; a toplevel yields exactly one new unmapped view of that surface, appended to the unmapped views |

## Left out

- Rendering is not part of this model: `PlywoodStage.render`, `PlywoodXDGView.render`, `forEachSurface` and the Skia and GL code. This includes the `updateCrossAxis` call that `render` makes when the recorded height is 0 (PlywoodStage.swift:111-113).
- `PlywoodStage.focus(_:)` has an empty body. There is nothing to model.
- The stage and the cursor do not animate anything. The animation scheduler is external (TweenKit), so the model only records the time steps it is handed (`State.steps`). Its `started` flag is a field the scheduler itself switches.
- `distanceTo` is not part of this model. It needs `sqrt`.
- Keyboard handling, XKB and the seat wrapper are not part of this model. The seat is only its keyboard focus, pointer focus, capabilities and a log of the notifications the core sends it. `Seat.ClearFocus` clears the pointer focus only.
- wlroots calls are not modelled beyond their effect on this state: `automaticallyAdd`, `cursor.attach`, event listeners, and the cursor manager (the image is kept as its name). The position that `cursor.move` produces is a parameter of `OnMotion`. The client's hit-test is a function stored in the surface. The client's geometry never changes in the model.
- `surfaceArea` (PlywoodXDGView.swift:22-24) is not used by the core and is not modelled.
- Coordinates are Doubles in the source and reals here. The vertical margin is modelled as exactly `height/20`, which Double only approximates. The cross-axis height is modelled as `⌊9·height/10⌋`. That formula agrees with the Double product for non-negative heights.
- Geometry.Trunc: sizes are Int32 in the source and unbounded integers here. The overflow traps of Int32 arithmetic (PlywoodCursor.swift:83, 89, 94, 100) and of `Int32(d)` on an out-of-range Double are not modelled.
- Compositor.StepsTelescope: assumes no tick happens at wall-clock time exactly −1. The source would read such a time as "no time recorded".
- StageEngine.Stage.Insert: requires a view that is not already on the stage. The shipped code never calls `insert`. The only call is in the out-of-date `PlywoodState.swift:84`, and it passes a view that was just created.
- `PlywoodState.swift` is an out-of-date copy of the state class and is not modelled. `main.swift`, `Package.swift`, `PlywoodSettings.swift` and `PlywoodView.swift` are not modelled either; the settings appear as the constants 56, 24 and 9/10.
- The stage hooks `reflowView` and `updateOutputMode` are called but not defined in the stage the code ships. The model only counts their calls.
- The logger calls are not modelled.
