/**
 * A toplevel window of the XDG shell (`PlywoodXDGView`): its stage position,
 * the area it asks its client for, its mapped flag and the focus protocol.
 */
module XdgView {
  import opened Options
  import opened Geometry
  import opened Protocol

  class View {
    const surface: Surface
    var position: Point
    /** The last area set through the `area` setter, to detect real changes. */
    var cachedArea: Area
    var isMapped: bool
    /** How many times this view asked the stage to reflow it (`stage.reflowView`). */
    var reflowRequests: nat

    constructor (surface: Surface)
      ensures this.surface == surface && position == Point(0.0, 0.0)
      ensures cachedArea == surface.geometry.area
      ensures !isMapped && reflowRequests == 0
    {
      this.surface := surface;
      position := Point(0.0, 0.0);
      cachedArea := surface.geometry.area;
      isMapped := false;
      reflowRequests := 0;
    }

    /** The `area` getter: the client's current window geometry. */
    function CurrentArea(): (a: Area)
      reads surface
      ensures a == surface.geometry.area
    {
      surface.geometry.area
    }

    /**
     * The `area` setter: remembers the value and asks the client for exactly
     * that size. The client's geometry changes only when it answers, so
     * `CurrentArea()` is not affected.
     */
    method SetArea(val: Area)
      modifies this`cachedArea, surface`pendingSize
      ensures cachedArea == val && surface.pendingSize == val
      ensures CurrentArea() == old(CurrentArea())
    {
      cachedArea := val;
      surface.pendingSize := val;
    }

    /**
     * What `Focus` guarantees, given the keyboard focus, the seat log and this
     * surface's activation from before the call.
     */
    ghost predicate FocusApplied(seat: Seat, previous: Surface?, previousLog: seq<SeatEvent>, wasActive: bool)
      reads this, surface, seat, previous
    {
      if previous == surface then
        seat.keyboardFocus == surface && seat.log == previousLog && surface.activated == wasActive
      else
        seat.keyboardFocus == surface && seat.log == previousLog + [KeyboardEnter(surface)]
        && surface.activated
        && (previous != null ==> !previous.activated)
    }

    /**
     * `focus`: nothing happens when this surface already has keyboard focus.
     * Otherwise the previously focused surface is deactivated, this one is
     * activated and the seat is told that the keyboard entered it.
     */
    method Focus(seat: Seat)
      modifies seat`keyboardFocus, seat`log, surface`activated, seat.KeyboardFocusFrame()`activated
      ensures FocusApplied(seat, old(seat.keyboardFocus), old(seat.log), old(surface.activated))
    {
      var previous := seat.keyboardFocus;
      if previous == surface {
        return;
      }
      if previous != null {
        previous.activated := false;
      }
      surface.activated := true;
      seat.NotifyKeyboardEnter(surface);
    }

    /**
     * `onMap`: marks the view mapped; when the client's area differs from the
     * cached one, caches it and asks for a reflow; then focuses the view.
     */
    method OnMap(seat: Seat)
      modifies this`isMapped, this`cachedArea, this`reflowRequests
      modifies seat`keyboardFocus, seat`log, surface`activated, seat.KeyboardFocusFrame()`activated
      ensures isMapped
      ensures old(CurrentArea()) != old(cachedArea) ==>
        cachedArea == CurrentArea() && reflowRequests == old(reflowRequests) + 1
      ensures old(CurrentArea()) == old(cachedArea) ==>
        cachedArea == old(cachedArea) && reflowRequests == old(reflowRequests)
      ensures FocusApplied(seat, old(seat.keyboardFocus), old(seat.log), old(surface.activated))
    {
      isMapped := true;
      var area := CurrentArea();
      if area != cachedArea {
        cachedArea := area;
        reflowRequests := reflowRequests + 1;
      }
      Focus(seat);
    }

    /** `onUnmap`: only the mapped flag changes. */
    method OnUnmap()
      modifies this`isMapped
      ensures !isMapped
    {
      isMapped := false;
    }

    /**
     * `findSurface(at:)`: the surface tree is queried at the point taken
     * relative to the view's position.
     */
    function FindSurface(p: Point): (r: Option<SurfaceHit>)
      reads this, surface
      ensures r == surface.hitTest(Point(p.x - position.x, p.y - position.y))
    {
      surface.hitTest(Sub(p, position))
    }
  }

  /**
   * Hit-testing follows the view: a view displaced by `d` answers a query
   * displaced by `d` exactly as the original answers the original query.
   */
  lemma FindSurfaceFollowsView(v: View, w: View, p: Point, d: Point)
    requires w.surface == v.surface && w.position == Add(v.position, d)
    ensures w.FindSurface(Add(p, d)) == v.FindSurface(p)
  {
    SubTranslationInvariant(p, v.position, d);
  }

  /** Focusing twice in a row sends one keyboard-enter at most: the second call changes nothing. */
  method FocusIsIdempotent(v: View, seat: Seat)
    modifies seat`keyboardFocus, seat`log, v.surface`activated, seat.KeyboardFocusFrame()`activated
    ensures seat.keyboardFocus == v.surface
    ensures old(seat.keyboardFocus) != v.surface ==> v.surface.activated
    ensures seat.log == old(seat.log) + (if old(seat.keyboardFocus) == v.surface then [] else [KeyboardEnter(v.surface)])
  {
    v.Focus(seat);
    ghost var afterFirst := seat.log;
    v.Focus(seat);
    assert seat.log == afterFirst;
  }
}
