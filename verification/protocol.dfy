/**
 * The compositor-protocol collaborators the core talks to, reduced to the
 * state the core reads and the notifications it issues: a surface (an XDG
 * surface with its wlr_surface) and the seat. Their wire-level behaviour is
 * not part of this model.
 */
module Protocol {
  import opened Options
  import opened Geometry

  /** The role an XDG surface was created with. */
  datatype Role = TopLevel | Popup | NoRole

  /** The client-chosen window geometry (`geometryBox`). */
  datatype GeometryBox = GeometryBox(position: Point, area: Area)

  /** A resolved (sub-)surface and the point in its local coordinates. */
  datatype SurfaceHit = SurfaceHit(surface: Surface, coordinates: Point)

  datatype ButtonState = Pressed | Released

  /** The payload of a scroll event, forwarded as is. */
  datatype AxisEvent = AxisEvent(delta: real, discreteDelta: int, source: nat, orientation: nat)

  /** Notifications the core sends to the seat, in the order sent. */
  datatype SeatEvent =
    | PointerEnter(surface: Surface, at: Point)
    | PointerMove(at: Point, time: nat)
    | PointerButton(button: nat, state: ButtonState, time: nat)
    | PointerAxis(axis: AxisEvent, time: nat)
    | PointerFrame
    | PointerFocusCleared
    | KeyboardEnter(surface: Surface)

  datatype Capability = PointerCapability | KeyboardCapability

  /**
   * A client surface. `geometry` and `hitTest` are owned by the client and
   * the protocol library (`findSurface(at:)` of the surface tree is given as
   * a function value); the core writes `activated` and, through `setSize`,
   * `pendingSize`.
   */
  class Surface {
    const role: Role
    var geometry: GeometryBox
    var activated: bool
    var pendingSize: Area
    var hitTest: Point -> Option<SurfaceHit>

    constructor (role: Role, geometry: GeometryBox, hitTest: Point -> Option<SurfaceHit>)
      ensures this.role == role && this.geometry == geometry && this.hitTest == hitTest
      ensures !activated && pendingSize == geometry.area
    {
      this.role := role;
      this.geometry := geometry;
      this.hitTest := hitTest;
      activated := false;
      pendingSize := geometry.area;
    }
  }

  /** The seat: keyboard and pointer focus, capabilities and the notification log. */
  class Seat {
    var keyboardFocus: Surface?
    var pointerFocus: Surface?
    var capabilities: set<Capability>
    var log: seq<SeatEvent>

    constructor ()
      ensures keyboardFocus == null && pointerFocus == null
      ensures capabilities == {} && log == []
    {
      keyboardFocus, pointerFocus := null, null;
      capabilities, log := {}, [];
    }

    /** The surface holding keyboard focus, as a frame. */
    function KeyboardFocusFrame(): set<Surface>
      reads this
    {
      if keyboardFocus == null then {} else {keyboardFocus}
    }

    method NotifyPointerEnter(s: Surface, at: Point)
      modifies this`pointerFocus, this`log
      ensures pointerFocus == s && log == old(log) + [PointerEnter(s, at)]
    {
      pointerFocus := s;
      log := log + [PointerEnter(s, at)];
    }

    method NotifyPointerMove(at: Point, time: nat)
      modifies this`log
      ensures log == old(log) + [PointerMove(at, time)]
    {
      log := log + [PointerMove(at, time)];
    }

    method NotifyPointerButton(button: nat, state: ButtonState, time: nat)
      modifies this`log
      ensures log == old(log) + [PointerButton(button, state, time)]
    {
      log := log + [PointerButton(button, state, time)];
    }

    method NotifyPointerAxis(axis: AxisEvent, time: nat)
      modifies this`log
      ensures log == old(log) + [PointerAxis(axis, time)]
    {
      log := log + [PointerAxis(axis, time)];
    }

    method NotifyPointerFrame()
      modifies this`log
      ensures log == old(log) + [PointerFrame]
    {
      log := log + [PointerFrame];
    }

    /** Clears the pointer focus. */
    method ClearFocus()
      modifies this`pointerFocus, this`log
      ensures pointerFocus == null && log == old(log) + [PointerFocusCleared]
    {
      pointerFocus := null;
      log := log + [PointerFocusCleared];
    }

    method NotifyKeyboardEnter(s: Surface)
      modifies this`keyboardFocus, this`log
      ensures keyboardFocus == s && log == old(log) + [KeyboardEnter(s)]
    {
      keyboardFocus := s;
      log := log + [KeyboardEnter(s)];
    }
  }
}
