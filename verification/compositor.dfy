/**
 * The compositor state (`PlywoodState`): the scheduler tick that feeds
 * elapsed time to the animation scheduler, input devices and the seat's
 * capabilities, and the views created for new XDG toplevels.
 */
module Compositor {
  import opened Options
  import opened Protocol
  import opened XdgView

  /** The value of the last-tick time while no tick has been recorded. */
  const NoTime: real := -1.0

  /** What one scheduler tick does: the time step it takes, if any, and the last-tick time it leaves. */
  datatype TickOutcome = TickOutcome(step: Option<real>, lastTime: real)

  /**
   * `schedulerNextTick` at wall-clock time `now`: a stopped scheduler takes no
   * step and forgets the last time; the first tick of a started scheduler
   * takes a zero step; every later one steps by the time since the last.
   */
  function NextTick(started: bool, lastTime: real, now: real): (r: TickOutcome)
    ensures !started ==> r == TickOutcome(None, NoTime)
    ensures started ==> r.lastTime == now && r.step.Some?
    ensures started && lastTime == NoTime ==> r.step == Some(0.0)
    ensures started && lastTime != NoTime ==> r.step.value + lastTime == now
  {
    if !started then
      TickOutcome(None, NoTime)
    else if lastTime == NoTime then
      TickOutcome(Some(0.0), now)
    else
      TickOutcome(Some(now - lastTime), now)
  }

  /** The steps taken by consecutive ticks of a started scheduler at times `nows`, from last-tick time `lastTime`. */
  function StepsOf(lastTime: real, nows: seq<real>): (r: seq<real>)
    ensures |r| == |nows|
    decreases |nows|
  {
    if nows == [] then []
    else
      var t := NextTick(true, lastTime, nows[0]);
      [t.step.value] + StepsOf(t.lastTime, nows[1..])
  }

  function Sum(xs: seq<real>): real
  {
    if xs == [] then 0.0 else xs[0] + Sum(xs[1..])
  }

  /** From a recorded time, the steps of consecutive ticks add up to the last time minus the recorded one. */
  lemma {:induction false} StepsTelescopeFrom(lastTime: real, nows: seq<real>)
    requires lastTime != NoTime && |nows| > 0
    requires forall i :: 0 <= i < |nows| ==> nows[i] != NoTime
    ensures Sum(StepsOf(lastTime, nows)) == nows[|nows| - 1] - lastTime
    decreases |nows|
  {
    if |nows| > 1 {
      StepsTelescopeFrom(nows[0], nows[1..]);
    }
  }

  /**
   * Over consecutive ticks of a started scheduler, beginning with no recorded
   * time, the steps add up to the last tick's time minus the first's.
   */
  lemma {:induction false} StepsTelescope(nows: seq<real>)
    requires |nows| > 0
    requires forall i :: 0 <= i < |nows| ==> nows[i] != NoTime
    ensures Sum(StepsOf(NoTime, nows)) == nows[|nows| - 1] - nows[0]
  {
    if |nows| > 1 {
      StepsTelescopeFrom(nows[0], nows[1..]);
    }
  }

  /** After a tick of the stopped scheduler, the first tick once it is started again steps by zero. */
  lemma RestartStepsByZero(lastTime: real, stoppedAt: real, now: real)
    ensures NextTick(true, NextTick(false, lastTime, stoppedAt).lastTime, now).step == Some(0.0)
  {
  }

  /** An input device announced by the backend. */
  datatype InputDevice = PointerDevice(id: nat) | KeyboardDevice(id: nat)

  /** The seat capabilities `onNewInput` advertises, given the keyboards known so far. */
  function SeatCapabilities(keyboards: seq<nat>): (r: set<Capability>)
    ensures PointerCapability in r
    ensures KeyboardCapability in r <==> keyboards != []
    ensures r <= {PointerCapability, KeyboardCapability}
  {
    {PointerCapability} + (if keyboards != [] then {KeyboardCapability} else {})
  }

  /** The keyboards known after the devices `devices` are announced in order. */
  function KeyboardsAfter(keyboards: seq<nat>, devices: seq<InputDevice>): (r: seq<nat>)
    ensures |r| >= |keyboards|
    decreases |devices|
  {
    if devices == [] then keyboards
    else
      var known := if devices[0].KeyboardDevice? then keyboards + [devices[0].id] else keyboards;
      KeyboardsAfter(known, devices[1..])
  }

  /** Starting with no keyboards, the keyboard capability is advertised exactly when some announced device was a keyboard. */
  lemma {:induction false} KeyboardCapabilityIffKeyboardSeen(keyboards: seq<nat>, devices: seq<InputDevice>)
    ensures KeyboardCapability in SeatCapabilities(KeyboardsAfter(keyboards, devices)) <==>
      keyboards != [] || exists i :: 0 <= i < |devices| && devices[i].KeyboardDevice?
    decreases |devices|
  {
    if devices != [] {
      var known := if devices[0].KeyboardDevice? then keyboards + [devices[0].id] else keyboards;
      KeyboardCapabilityIffKeyboardSeen(known, devices[1..]);
      if exists i :: 0 <= i < |devices[1..]| && devices[1..][i].KeyboardDevice? {
        var i :| 0 <= i < |devices[1..]| && devices[1..][i].KeyboardDevice?;
        assert devices[i + 1].KeyboardDevice?;
      }
      if exists i :: 0 <= i < |devices| && devices[i].KeyboardDevice? {
        var i :| 0 <= i < |devices| && devices[i].KeyboardDevice?;
        if i > 0 {
          assert devices[1..][i - 1].KeyboardDevice?;
        }
      }
    }
  }

  class State {
    /** Whether the animation scheduler is running; the scheduler itself switches this. */
    var schedulerStarted: bool
    var schedulerLastTime: real
    /** The time steps handed to the scheduler, oldest first. */
    var steps: seq<real>
    var keyboards: seq<nat>
    /** The pointers attached to the cursor, oldest first. */
    var pointers: seq<nat>
    /** Views of toplevels that exist but have not been mapped yet. */
    var unmappedViews: seq<View>
    const seat: Seat

    constructor (seat: Seat)
      ensures this.seat == seat && !schedulerStarted && schedulerLastTime == NoTime
      ensures steps == [] && keyboards == [] && pointers == [] && unmappedViews == []
    {
      this.seat := seat;
      schedulerStarted := false;
      schedulerLastTime := NoTime;
      steps, keyboards, pointers, unmappedViews := [], [], [], [];
    }

    /** `schedulerNextTick`, with the wall-clock time `now` passed in. */
    method SchedulerNextTick(now: real)
      modifies this`schedulerLastTime, this`steps
      ensures var t := NextTick(schedulerStarted, old(schedulerLastTime), now);
        schedulerLastTime == t.lastTime && steps == old(steps) + (if t.step.Some? then [t.step.value] else [])
    {
      if !schedulerStarted {
        schedulerLastTime := NoTime;
        return;
      }
      var seconds := now;
      if schedulerLastTime == NoTime {
        schedulerLastTime := seconds;
        steps := steps + [0.0];
        return;
      }
      steps := steps + [seconds - schedulerLastTime];
      schedulerLastTime := seconds;
    }

    /**
     * `onNewInput`: a pointer is attached to the cursor, a keyboard is
     * remembered; then the seat advertises the pointer capability, and the
     * keyboard capability when a keyboard is known.
     */
    method OnNewInput(device: InputDevice)
      modifies this`keyboards, this`pointers, seat`capabilities
      ensures device.PointerDevice? ==> pointers == old(pointers) + [device.id] && keyboards == old(keyboards)
      ensures device.KeyboardDevice? ==> keyboards == old(keyboards) + [device.id] && pointers == old(pointers)
      ensures keyboards == KeyboardsAfter(old(keyboards), [device])
      ensures seat.capabilities == SeatCapabilities(keyboards)
    {
      match device {
        case PointerDevice(id) =>
          pointers := pointers + [id];
        case KeyboardDevice(id) =>
          keyboards := keyboards + [id];
      }
      var capabilities := {PointerCapability};
      if keyboards != [] {
        capabilities := capabilities + {KeyboardCapability};
      }
      seat.capabilities := capabilities;
    }

    /** `onNewXDGSurface`: only a toplevel gets a view, kept with the unmapped views. */
    method OnNewXdgSurface(surface: Surface)
      modifies this`unmappedViews
      ensures surface.role != TopLevel ==> unmappedViews == old(unmappedViews)
      ensures surface.role == TopLevel ==>
        && |unmappedViews| == |old(unmappedViews)| + 1
        && unmappedViews[..|old(unmappedViews)|] == old(unmappedViews)
        && var view := unmappedViews[|old(unmappedViews)|];
           fresh(view) && view.surface == surface && !view.isMapped
    {
      if surface.role != TopLevel {
        return;
      }
      var view := new View(surface);
      unmappedViews := unmappedViews + [view];
    }
  }
}
