/**
 * The pointer (`PlywoodCursor`): the interaction mode, interactive resize,
 * and the routing of pointer events to the seat.
 */
module PointerCursor {
  import opened Options
  import opened Geometry
  import opened Protocol
  import opened XdgView
  import opened StageEngine

  /** The edges a resize drags (`WLREdges`, a bit set). */
  datatype Edges = Edges(top: bool, bottom: bool, left: bool, right: bool)

  /** The interaction mode: passthrough, or a move or resize of one view. */
  datatype Mode =
    | Passthrough
    | Move(view: View, grab: Point)
    | Resize(view: View, grab: Point, area: Area, edges: Edges)

  /** A position and a size along one axis. */
  datatype AxisGeometry = AxisGeometry(position: real, size: int)

  /**
   * One axis of `processViewResize`. With the near edge (top or left)
   * dragged, the position follows the cursor and the size shrinks by the
   * truncated cursor delta; a size below 1 shifts the position by that size,
   * and the size itself is not clamped. The far edge (bottom or right) only
   * counts when the near edge is not dragged, and grows the size. With
   * neither edge, the current position and the grabbed size are kept.
   */
  function ResizeAxis(current: real, grab: real, cursor: real, size: int, near: bool, far: bool): (r: AxisGeometry)
    ensures near ==> r.size == size - Trunc(cursor - grab)
    ensures near ==> r.position == cursor + (if r.size < 1 then r.size as real else 0.0)
    ensures !near && far ==> r == AxisGeometry(current, size + Trunc(cursor - grab))
    ensures !near && !far ==> r == AxisGeometry(current, size)
  {
    var delta := cursor - grab;
    if near then
      var newSize := size - Trunc(delta);
      var newPosition := grab + delta;
      AxisGeometry(if newSize < 1 then newPosition + newSize as real else newPosition, newSize)
    else if far then
      AxisGeometry(current, size + Trunc(delta))
    else
      AxisGeometry(current, size)
  }

  /**
   * Dragging the near edge keeps the far edge where it is: for any two
   * cursor positions a whole number of pixels from the grab point that leave
   * a size of at least 1, position + size is the same.
   */
  lemma NearEdgeAnchorsFarEdge(current: real, grab: real, c1: real, c2: real, size: int, far: bool)
    requires (c1 - grab).Floor as real == c1 - grab && (c2 - grab).Floor as real == c2 - grab
    requires ResizeAxis(current, grab, c1, size, true, far).size >= 1
    requires ResizeAxis(current, grab, c2, size, true, far).size >= 1
    ensures var r1, r2 := ResizeAxis(current, grab, c1, size, true, far), ResizeAxis(current, grab, c2, size, true, far);
      r1.position + r1.size as real == r2.position + r2.size as real
  {
    TruncOfInt((c1 - grab).Floor);
    TruncOfInt((c2 - grab).Floor);
  }

  /** Dragging only the far edge keeps the near edge where it is and grows the size with the cursor. */
  lemma FarEdgeAnchorsNearEdge(current: real, grab: real, c1: real, c2: real, size: int)
    requires c1 <= c2
    ensures var r1, r2 := ResizeAxis(current, grab, c1, size, false, true), ResizeAxis(current, grab, c2, size, false, true);
      r1.position == r2.position == current && r1.size <= r2.size
  {
  }

  /** The size is not clamped: dragging the top edge 5 pixels down over a 3 pixel window asks for -2. */
  lemma ResizeDoesNotClamp()
    ensures ResizeAxis(0.0, 0.0, 5.0, 3, true, false) == AxisGeometry(3.0, -2)
  {
  }

  /**
   * The geometry `processViewResize` gives a view at position `current`
   * being resized from grab point `grab` and initial area `area`, with the
   * cursor at `cursor`. The axes are computed independently.
   */
  function ResizeGeometry(current: Point, grab: Point, area: Area, edges: Edges, cursor: Point): (r: GeometryBox)
    ensures !edges.left && !edges.right ==> r.position.x == current.x && r.area.width == area.width
    ensures !edges.top && !edges.bottom ==> r.position.y == current.y && r.area.height == area.height
    ensures r.position.y == ResizeAxis(current.y, grab.y, cursor.y, area.height, edges.top, edges.bottom).position
    ensures r.position.x == ResizeAxis(current.x, grab.x, cursor.x, area.width, edges.left, edges.right).position
    ensures r.area == Area(ResizeAxis(current.x, grab.x, cursor.x, area.width, edges.left, edges.right).size,
                           ResizeAxis(current.y, grab.y, cursor.y, area.height, edges.top, edges.bottom).size)
  {
    var vertical := ResizeAxis(current.y, grab.y, cursor.y, area.height, edges.top, edges.bottom);
    var horizontal := ResizeAxis(current.x, grab.x, cursor.x, area.width, edges.left, edges.right);
    GeometryBox(Point(horizontal.position, vertical.position), Area(horizontal.size, vertical.size))
  }

  /** The view a mode resizes, as a frame. */
  function ResizedViews(m: Mode): set<View>
  {
    if m.Resize? then {m.view} else {}
  }

  /** The surface a mode resizes, as a frame. */
  function ResizedSurfaces(m: Mode): set<Surface>
  {
    if m.Resize? then {m.view.surface} else {}
  }

  /** The xcursor image shown when the pointer is over no view. */
  const DefaultImage: string := "left_ptr"

  class Cursor {
    var mode: Mode
    /** The pointer position in layout coordinates, as the cursor device reports it. */
    var position: Point
    /** The xcursor image last set by the core. */
    var image: string
    const stage: Stage
    const seat: Seat

    constructor (stage: Stage, seat: Seat)
      ensures this.stage == stage && this.seat == seat
      ensures mode == Passthrough && position == Point(0.0, 0.0) && image == ""
    {
      this.stage := stage;
      this.seat := seat;
      mode := Passthrough;
      position := Point(0.0, 0.0);
      image := "";
    }

    /** `beginMove`: only the view with keyboard focus may start a move; it grabs the cursor's offset from the view. */
    method BeginMove(view: View)
      modifies this`mode
      ensures view.surface != seat.keyboardFocus ==> mode == old(mode)
      ensures view.surface == seat.keyboardFocus ==> mode == Move(view, Sub(position, view.position))
    {
      if view.surface != seat.keyboardFocus {
        return;
      }
      var grabInitialPosition := Sub(position, view.position);
      mode := Move(view, grabInitialPosition);
    }

    /** `beginResize`: only the view with keyboard focus may start a resize; it grabs its geometry and the edges. */
    method BeginResize(view: View, edges: Edges)
      modifies this`mode
      ensures view.surface != seat.keyboardFocus ==> mode == old(mode)
      ensures view.surface == seat.keyboardFocus ==>
        mode == Resize(view, Add(position, view.surface.geometry.position), view.surface.geometry.area, edges)
    {
      if view.surface != seat.keyboardFocus {
        return;
      }
      var geometryBox := view.surface.geometry;
      var grabInitialPosition := Add(position, geometryBox.position);
      mode := Resize(view, grabInitialPosition, geometryBox.area, edges);
    }

    /** `processViewMove`: moving is switched off, so nothing happens. */
    method ProcessViewMove(m: Mode, time: nat)
      ensures unchanged(this)
      ensures m.Move? ==> unchanged(m.view)
    {
    }

    /** `processViewResize`: in resize mode, the view gets the position and asks for the size of `ResizeGeometry`. */
    method ProcessViewResize(m: Mode, time: nat)
      modifies ResizedViews(m)`position, ResizedSurfaces(m)`pendingSize
      ensures m.Resize? ==>
        var g := ResizeGeometry(old(m.view.position), m.grab, m.area, m.edges, position);
        m.view.position == g.position && m.view.surface.pendingSize == g.area
    {
      if !m.Resize? {
        return;
      }
      var Resize(view, initialGrabPosition, area, edges) := m;
      var g := ResizeGeometry(view.position, initialGrabPosition, area, edges, position);
      view.position := g.position;
      view.surface.pendingSize := g.area;
    }

    /**
     * `processMotion`: a move or resize in progress gets the motion and no
     * hit-test happens. In passthrough, the stage is hit-tested: over no
     * view the default image is set and the pointer focus cleared; over a
     * view the pointer enters the hit surface, and also moves when that
     * surface already had pointer focus.
     */
    method ProcessMotion(time: nat)
      modifies this`image, seat`pointerFocus, seat`log, ResizedViews(mode)`position, ResizedSurfaces(mode)`pendingSize
      ensures !old(mode).Passthrough? ==>
        image == old(image) && seat.log == old(seat.log) && seat.pointerFocus == old(seat.pointerFocus)
      ensures old(mode).Resize? ==>
        var g := ResizeGeometry(old(mode.view.position), mode.grab, mode.area, mode.edges, position);
        mode.view.position == g.position && mode.view.surface.pendingSize == g.area
      ensures old(mode).Passthrough? ==> PassthroughMotion(old(HitTest(stage.FocusedRow(), position)),
        old(image), old(seat.pointerFocus), old(seat.log), time)
    {
      match mode {
        case Passthrough =>
        case Move(_, _) =>
          ProcessViewMove(mode, time);
          return;
        case Resize(_, _, _, _) =>
          ProcessViewResize(mode, time);
          return;
      }
      var result := stage.FindView(position);
      if result.None? {
        image := DefaultImage;
      }
      if result.Some? {
        var surface := result.value.surface;
        var coordinates := result.value.coordinates;
        var focusChanged := seat.pointerFocus != surface;
        seat.NotifyPointerEnter(surface, coordinates);
        if !focusChanged {
          seat.NotifyPointerMove(coordinates, time);
        }
      } else {
        seat.ClearFocus();
      }
    }

    /** What passthrough motion leaves behind, given the hit and the image, pointer focus and log before it. */
    ghost predicate PassthroughMotion(hit: Option<StageHit>, image0: string, focus0: Surface?, log0: seq<SeatEvent>, time: nat)
      reads this, seat
    {
      match hit
      case None =>
        image == DefaultImage && seat.pointerFocus == null && seat.log == log0 + [PointerFocusCleared]
      case Some(h) =>
        && image == image0
        && seat.pointerFocus == h.surface
        && seat.log == log0 + [PointerEnter(h.surface, h.coordinates)]
          + (if focus0 == h.surface then [PointerMove(h.coordinates, time)] else [])
    }

    /** `onMotion` / `onAbsoluteMotion`: the cursor device has moved to `to`; the motion is then processed. */
    method OnMotion(to: Point, time: nat)
      modifies this`position, this`image, seat`pointerFocus, seat`log, ResizedViews(mode)`position, ResizedSurfaces(mode)`pendingSize
      ensures position == to
      ensures old(mode).Passthrough? ==> PassthroughMotion(old(HitTest(stage.FocusedRow(), to)),
        old(image), old(seat.pointerFocus), old(seat.log), time)
      ensures !old(mode).Passthrough? ==>
        image == old(image) && seat.log == old(seat.log) && seat.pointerFocus == old(seat.pointerFocus)
      ensures old(mode).Resize? ==>
        var g := ResizeGeometry(old(mode.view.position), mode.grab, mode.area, mode.edges, to);
        mode.view.position == g.position && mode.view.surface.pendingSize == g.area
    {
      ghost var hit := HitTest(stage.FocusedRow(), to);
      position := to;
      assert HitTest(stage.FocusedRow(), position) == hit;
      ProcessMotion(time);
    }

    /**
     * The press half of `onButton`: the view under the pointer, if any, gets
     * keyboard focus; over no view nothing changes.
     */
    method FocusViewUnderPointer()
      modifies seat`keyboardFocus, seat`log, stage.FocusedSurfaces()`activated, seat.KeyboardFocusFrame()`activated
      ensures old(HitTest(stage.FocusedRow(), position)).None? ==>
        && seat.keyboardFocus == old(seat.keyboardFocus) && seat.log == old(seat.log)
        && (forall s :: s in stage.FocusedSurfaces() ==> s.activated == old(s.activated))
        && (forall s :: s in old(seat.KeyboardFocusFrame()) ==> s.activated == old(s.activated))
      ensures old(HitTest(stage.FocusedRow(), position)).Some? ==>
        var v := old(HitTest(stage.FocusedRow(), position)).value.view;
        && v.FocusApplied(seat, old(seat.keyboardFocus), old(seat.log), old(v.surface.activated))
        && forall s :: s in stage.FocusedSurfaces() && s != v.surface && s !in old(seat.KeyboardFocusFrame()) ==>
          s.activated == old(s.activated)
    {
      var result := stage.FindView(position);
      if result.None? {
        return;
      }
      var view := result.value.view;
      assert view.surface in stage.FocusedSurfaces();
      view.Focus(seat);
    }

    /**
     * `onButton`: the button is always forwarded to the seat first. A release
     * ends any move or resize and focuses nothing; a press focuses the view
     * under the pointer, if any, and keeps the mode.
     */
    method OnButton(button: nat, state: ButtonState, time: nat)
      modifies this`mode, seat`keyboardFocus, seat`log, stage.FocusedSurfaces()`activated, seat.KeyboardFocusFrame()`activated
      ensures |seat.log| > |old(seat.log)| && seat.log[..|old(seat.log)| + 1] == old(seat.log) + [PointerButton(button, state, time)]
      ensures state == Released ==> mode == Passthrough
      ensures state == Pressed ==> mode == old(mode)
      ensures state == Released || old(HitTest(stage.FocusedRow(), position)).None? ==>
        && seat.keyboardFocus == old(seat.keyboardFocus)
        && seat.log == old(seat.log) + [PointerButton(button, state, time)]
        && (forall s :: s in stage.FocusedSurfaces() ==> s.activated == old(s.activated))
        && (forall s :: s in old(seat.KeyboardFocusFrame()) ==> s.activated == old(s.activated))
      ensures state == Pressed && old(HitTest(stage.FocusedRow(), position)).Some? ==>
        var v := old(HitTest(stage.FocusedRow(), position)).value.view;
        && v.FocusApplied(seat, old(seat.keyboardFocus), old(seat.log) + [PointerButton(button, state, time)], old(v.surface.activated))
        && forall s :: s in stage.FocusedSurfaces() && s != v.surface && s !in old(seat.KeyboardFocusFrame()) ==>
          s.activated == old(s.activated)
    {
      ghost var hit := HitTest(stage.FocusedRow(), position);
      seat.NotifyPointerButton(button, state, time);
      if state == Released {
        mode := Passthrough;
        return;
      }
      assert HitTest(stage.FocusedRow(), position) == hit;
      assert seat.KeyboardFocusFrame() == old(seat.KeyboardFocusFrame());
      ghost var logged := seat.log;
      FocusViewUnderPointer();
      assert seat.log[..|logged|] == logged;
    }

    /** `onAxis`: scrolling is forwarded to the seat in every mode. */
    method OnAxis(event: AxisEvent, time: nat)
      modifies seat`log
      ensures seat.log == old(seat.log) + [PointerAxis(event, time)]
    {
      seat.NotifyPointerAxis(event, time);
    }

    /** `onFrame`: the end of a pointer event group is forwarded to the seat in every mode. */
    method OnFrame()
      modifies seat`log
      ensures seat.log == old(seat.log) + [PointerFrame]
    {
      seat.NotifyPointerFrame();
    }
  }
}
