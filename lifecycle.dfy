/**
  The life of one clock: `init`, `tick`, `nextTick`, `stop`, `start` and the
  timer that calls `tick` back.  The host's timer queue is modelled by the
  set of handles armed for this clock and a counter giving fresh handles;
  the presence of an element with the clock's id in the document is a flag
  the host may clear and set again, since `stillHere` looks the id up anew
  at every tick; every render is recorded as the frame it drew.

  The transitions are first given as functions on a `ClockState` value, so
  that properties of whole runs can be proved by induction; the class
  `Clock` then carries that state in fields, and each of its methods is
  specified by the corresponding transition.
 */
module Lifecycle {
  import opened Wrappers
  import opened Face

  /** The skin name `init` always selects. */
  const SKIN_ID: string := "fuse"

  /** The delay `init` sets between ticks, in milliseconds (not modelled further). */
  const TICK_DELAY: nat := 100

  datatype ClockState = ClockState(
    active: bool,
    tickTimeout: Option<nat>,
    armed: set<nat>,
    nextHandle: nat,
    canvasPresent: bool,
    frames: seq<Frame>)

  /** The state `init` sets up before its first tick. */
  function Initial(canvasPresent: bool): ClockState {
    ClockState(true, None, {}, 0, canvasPresent, [])
  }

  /**
    The clock's timer discipline: handles come from the counter, at most one
    timer is armed and it is the one `tickTimeout` names, and a stopped clock
    has none.
   */
  predicate Valid(s: ClockState) {
    && (forall h :: h in s.armed ==> h < s.nextHandle)
    && (s.armed == {} || (s.tickTimeout.Some? && s.armed == {s.tickTimeout.value}))
    && (!s.active ==> s.armed == {})
  }

  /**
    `nextTick`: arm a fresh timer and store its handle, overwriting the old
    handle without clearing its timer.
   */
  function NextTickStep(s: ClockState): (r: ClockState)
    ensures r.armed == s.armed + {s.nextHandle}
    ensures s.nextHandle !in s.armed ==> |r.armed| == |s.armed| + 1
    ensures r.tickTimeout == Some(s.nextHandle) && r.tickTimeout.value in r.armed
    ensures r.nextHandle == s.nextHandle + 1
    ensures r.active == s.active && r.canvasPresent == s.canvasPresent && r.frames == s.frames
  {
    s.(tickTimeout := Some(s.nextHandle), armed := s.armed + {s.nextHandle}, nextHandle := s.nextHandle + 1)
  }

  /**
    `tick`: when the canvas is still there and the clock is active, render
    once and then arm the next timer; a render that throws leaves no timer.
    Otherwise nothing changes.
   */
  function TickStep(s: ClockState, config: Config, skinId: string, t: Instant): (r: ClockState)
    ensures s.active && s.canvasPresent ==> r.frames == s.frames + [FrameOf(config, skinId, t)]
    ensures !(s.active && s.canvasPresent) ==> r == s
    ensures r.active == s.active && r.canvasPresent == s.canvasPresent
    ensures if s.active && s.canvasPresent && FrameOf(config, skinId, t).fault.None?
      then r.armed == s.armed + {s.nextHandle} && r.tickTimeout == Some(s.nextHandle) && r.nextHandle == s.nextHandle + 1
      else r.armed == s.armed && r.tickTimeout == s.tickTimeout && r.nextHandle == s.nextHandle
  {
    if s.canvasPresent && s.active then
      var f := FrameOf(config, skinId, t);
      var drawn := s.(frames := s.frames + [f]);
      if f.fault.None? then NextTickStep(drawn) else drawn
    else
      s
  }

  /** `stop`: deactivate and clear the timer whose handle is stored. */
  function StopStep(s: ClockState): (r: ClockState)
    ensures !r.active && r.frames == s.frames && r.armed <= s.armed
    ensures r.canvasPresent == s.canvasPresent && r.tickTimeout == s.tickTimeout && r.nextHandle == s.nextHandle
    ensures Valid(s) ==> Valid(r) && r.armed == {}
  {
    s.(active := false, armed := if s.tickTimeout.Some? then s.armed - {s.tickTimeout.value} else s.armed)
  }

  /** `start`: only an inactive clock is activated, and it ticks at once. */
  function StartStep(s: ClockState, config: Config, skinId: string, t: Instant): (r: ClockState)
    ensures s.active ==> r == s
    ensures r.active
  {
    if !s.active then TickStep(s.(active := true), config, skinId, t) else s
  }

  /** The host runs an armed timer: it is no longer armed, and the clock ticks. */
  function FireStep(s: ClockState, handle: nat, config: Config, skinId: string, t: Instant): (r: ClockState)
    requires handle in s.armed
    ensures r.active == s.active
  {
    TickStep(s.(armed := s.armed - {handle}), config, skinId, t)
  }

  /** The host removes the canvas element from the document. */
  function VanishStep(s: ClockState): (r: ClockState)
    ensures !r.canvasPresent
    ensures r.active == s.active && r.armed == s.armed && r.frames == s.frames
    ensures r.tickTimeout == s.tickTimeout && r.nextHandle == s.nextHandle
  {
    s.(canvasPresent := false)
  }

  /** The host puts an element with the clock's id (back) into the document. */
  function RestoreStep(s: ClockState): (r: ClockState)
    ensures r.canvasPresent
    ensures r.active == s.active && r.armed == s.armed && r.frames == s.frames
    ensures r.tickTimeout == s.tickTimeout && r.nextHandle == s.nextHandle
  {
    s.(canvasPresent := true)
  }

  /**
    What can happen to a clock: its timer fires, a caller invokes one of its
    methods, or its canvas leaves or re-enters the document.
   */
  datatype Event =
    | TimerFired(handle: nat, at: Instant)
    | CallTick(at: Instant)
    | CallStart(at: Instant)
    | CallStop
    | CanvasRemoved
    | CanvasRestored

  /** One event; a timer that is not armed does not fire. */
  function Step(s: ClockState, e: Event, config: Config): ClockState {
    match e
    case TimerFired(h, t) => if h in s.armed then FireStep(s, h, config, SKIN_ID, t) else s
    case CallTick(t) => TickStep(s, config, SKIN_ID, t)
    case CallStart(t) => StartStep(s, config, SKIN_ID, t)
    case CallStop => StopStep(s)
    case CanvasRemoved => VanishStep(s)
    case CanvasRestored => RestoreStep(s)
  }

  function Run(s: ClockState, events: seq<Event>, config: Config): ClockState
    decreases |events|
  {
    if events == [] then s else Run(Step(s, events[0], config), events[1..], config)
  }

  /** Every event except an outside call of `tick` keeps the timer discipline. */
  lemma StepKeepsValid(s: ClockState, e: Event, config: Config)
    requires Valid(s) && !e.CallTick?
    ensures Valid(Step(s, e, config))
  {
    match e
    case TimerFired(h, t) =>
      if h in s.armed {
        assert s.armed - {h} == {};
      }
    case CallStart(t) =>
    case CallStop =>
    case CanvasRemoved =>
    case CanvasRestored =>
  }

  /**
    A clock driven only by its own timer, `start`, `stop` and the loss of
    its canvas never has more than one timer armed.
   */
  lemma {:induction false} RunKeepsValid(s: ClockState, events: seq<Event>, config: Config)
    requires Valid(s)
    requires forall i :: 0 <= i < |events| ==> !events[i].CallTick?
    ensures Valid(Run(s, events, config))
    decreases |events|
  {
    if events != [] {
      StepKeepsValid(s, events[0], config);
      RunKeepsValid(Step(s, events[0], config), events[1..], config);
    }
  }

  /**
    `nextTick` does not clear the handle it overwrites: an outside call of
    `tick` while a timer is armed leaves two timers armed, and `stop` then
    clears only the newer one.
   */
  lemma CallTickWhilePending(s: ClockState, config: Config, t: Instant)
    requires Valid(s) && s.active && s.canvasPresent && s.armed != {}
    requires FrameOf(config, SKIN_ID, t).fault.None?
    ensures |Step(s, CallTick(t), config).armed| == 2
    ensures !Valid(Step(s, CallTick(t), config))
    ensures StopStep(Step(s, CallTick(t), config)).armed == s.armed
  {
    var r := Step(s, CallTick(t), config);
    assert s.armed == {s.tickTimeout.value};
    assert s.nextHandle !in s.armed;
    assert r.armed == {s.tickTimeout.value, s.nextHandle};
  }

  /**
    After `stop`, nothing is drawn again until `start` is called, whatever
    timers fire (even ones an outside `tick` left behind) and whatever
    other calls arrive.
   */
  lemma {:induction false} StoppedStaysSilent(s: ClockState, events: seq<Event>, config: Config)
    requires !s.active
    requires forall i :: 0 <= i < |events| ==> !events[i].CallStart?
    ensures Run(s, events, config).frames == s.frames
    ensures !Run(s, events, config).active
    decreases |events|
  {
    if events != [] {
      StoppedStaysSilent(Step(s, events[0], config), events[1..], config);
    }
  }

  /** Calling `stop` twice is the same as calling it once. */
  lemma StopIdempotent(s: ClockState)
    ensures StopStep(StopStep(s)) == StopStep(s)
  {
  }

  /**
    `start` on a stopped clock whose canvas is present draws exactly one
    frame at once and, unless that render throws, arms exactly one timer.
   */
  lemma StartRendersOnce(s: ClockState, config: Config, t: Instant)
    requires Valid(s) && !s.active && s.canvasPresent
    ensures var r := StartStep(s, config, SKIN_ID, t);
      && r.active
      && r.frames == s.frames + [FrameOf(config, SKIN_ID, t)]
      && (FrameOf(config, SKIN_ID, t).fault.None? ==> r.armed == {s.nextHandle} && Valid(r))
      && (FrameOf(config, SKIN_ID, t).fault.Some? ==> r.armed == {})
  {
  }

  /**
    While its canvas stays gone a clock draws nothing: every tick is dropped,
    whatever else happens.
   */
  lemma {:induction false} VanishedStaysDormant(s: ClockState, events: seq<Event>, config: Config)
    requires !s.canvasPresent
    requires forall i :: 0 <= i < |events| ==> !events[i].CanvasRestored?
    ensures Run(s, events, config).frames == s.frames
    ensures !Run(s, events, config).canvasPresent
    decreases |events|
  {
    if events != [] {
      VanishedStaysDormant(Step(s, events[0], config), events[1..], config);
    }
  }

  /**
    When the pending timer of an active clock fires after its canvas has
    gone, no timer is left armed and the clock stays active, so a later
    `start` does nothing.
   */
  lemma DormantAfterVanish(s: ClockState, h: nat, config: Config, t: Instant, later: Instant)
    requires Valid(s) && s.active && !s.canvasPresent && h in s.armed
    ensures var r := FireStep(s, h, config, SKIN_ID, t);
      r.armed == {} && r.active && r.frames == s.frames && StartStep(r, config, SKIN_ID, later) == r
  {
    assert s.armed == {h};
  }

  /**
    The redraw loop: when the pending timer of a running clock fires, the
    clock draws one frame of the given time and, unless that render throws,
    arms exactly one fresh timer; it stays active either way.
   */
  lemma TimerKeepsClockRunning(s: ClockState, h: nat, config: Config, t: Instant)
    requires Valid(s) && s.active && s.canvasPresent && h in s.armed
    ensures var r := FireStep(s, h, config, SKIN_ID, t);
      && r.active && r.canvasPresent
      && r.frames == s.frames + [FrameOf(config, SKIN_ID, t)]
      && (FrameOf(config, SKIN_ID, t).fault.None? ==>
            r.armed == {s.nextHandle} && r.tickTimeout == Some(s.nextHandle) && Valid(r))
      && (FrameOf(config, SKIN_ID, t).fault.Some? ==> r.armed == {})
  {
    assert s.armed == {h};
  }

  /** An active clock with no timer armed: its tick was dropped, and `start` does nothing. */
  predicate Stalled(s: ClockState) {
    s.active && s.armed == {}
  }

  /**
    The canvas vanishing just long enough for the pending timer to fire
    stalls the clock: once the canvas is back, the clock is active and
    present but has no timer and has drawn nothing.
   */
  lemma BriefVanishStalls(s: ClockState, h: nat, config: Config, t: Instant)
    requires Valid(s) && s.active && s.canvasPresent && h in s.armed
    ensures var r := Run(s, [CanvasRemoved, TimerFired(h, t), CanvasRestored], config);
      Stalled(r) && r.canvasPresent && r.frames == s.frames
  {
    var s1 := VanishStep(s);
    assert s.armed == {h};
    var s2 := FireStep(s1, h, config, SKIN_ID, t);
    assert s2.armed == {};
    assert Run(s, [CanvasRemoved, TimerFired(h, t), CanvasRestored], config)
        == Run(s2, [CanvasRestored], config);
  }

  /**
    A stalled clock stays silent and stalled under its own timers, `start`
    and the canvas coming and going, even while its canvas is present.
   */
  lemma {:induction false} StalledStaysSilent(s: ClockState, events: seq<Event>, config: Config)
    requires Stalled(s)
    requires forall i :: 0 <= i < |events| ==> !events[i].CallTick? && !events[i].CallStop?
    ensures Run(s, events, config).frames == s.frames
    ensures Stalled(Run(s, events, config))
    decreases |events|
  {
    if events != [] {
      StalledStaysSilent(Step(s, events[0], config), events[1..], config);
    }
  }

  /**
    Only an outside call revives a stalled clock whose canvas is present:
    `tick` draws at once, and so does `stop` followed by `start`; either
    way the timer discipline holds afterwards.
   */
  lemma StalledRevival(s: ClockState, config: Config, t: Instant)
    requires Valid(s) && Stalled(s) && s.canvasPresent
    ensures Step(s, CallTick(t), config).frames == s.frames + [FrameOf(config, SKIN_ID, t)]
    ensures Valid(Step(s, CallTick(t), config))
    ensures Run(s, [CallStop, CallStart(t)], config).frames == s.frames + [FrameOf(config, SKIN_ID, t)]
    ensures Valid(Run(s, [CallStop, CallStart(t)], config))
  {
    var stopped := StopStep(s);
    var started := StartStep(stopped, config, SKIN_ID, t);
    assert [CallStop, CallStart(t)][1..] == [CallStart(t)] && [CallStart(t)][1..] == [];
    assert Run(stopped, [CallStart(t)], config) == Run(started, [], config);
    assert Run(s, [CallStop, CallStart(t)], config) == Run(stopped, [CallStart(t)], config);
    StartRendersOnce(stopped, config, t);
  }

  /** The process-wide table of clocks, by canvas id (`CoolClock.config.clockTracker`). */
  class Tracker {
    var clocks: map<string, Clock>

    constructor ()
      ensures clocks == map[]
    {
      clocks := map[];
    }
  }

  class Clock {
    const canvasId: string
    const skinId: string
    const tickDelay: nat
    var active: bool
    var tickTimeout: Option<nat>
    /** Timers the host holds for this clock, not yet run or cleared. */
    var armed: set<nat>
    /** The handle the host will give the next timer. */
    var nextHandle: nat
    /** Whether `document.getElementById(canvasId)` finds the canvas. */
    var canvasPresent: bool
    /** What each render has drawn, oldest first. */
    var frames: seq<Frame>

    function State(): ClockState
      reads this
    {
      ClockState(active, tickTimeout, armed, nextHandle, canvasPresent, frames)
    }

    /**
      `init`: select the "fuse" skin and a 100 ms delay, register in the
      tracker under the canvas id (replacing any clock already there),
      activate with no timer, and tick once.
     */
    constructor (canvasId: string, tracker: Tracker, canvasPresent: bool, config: Config, now: Instant)
      requires canvasPresent
      modifies tracker
      ensures this.canvasId == canvasId && skinId == SKIN_ID && tickDelay == TICK_DELAY
      ensures tracker.clocks == old(tracker.clocks)[canvasId := this]
      ensures State() == TickStep(Initial(canvasPresent), config, SKIN_ID, now)
      ensures Valid(State())
    {
      this.canvasId := canvasId;
      skinId := SKIN_ID;
      tickDelay := TICK_DELAY;
      active := true;
      tickTimeout := None;
      armed := {};
      nextHandle := 0;
      this.canvasPresent := canvasPresent;
      frames := [];
      new;
      tracker.clocks := tracker.clocks[canvasId := this];
      Tick(config, now);
    }

    /** `stillHere`: the canvas element is still in the document. */
    predicate StillHere()
      reads this
    {
      canvasPresent
    }

    /** `refreshDisplay`: render the given time and record the frame. */
    method RefreshDisplay(config: Config, now: Instant) returns (f: Frame)
      modifies this
      ensures f == FrameOf(config, skinId, now)
      ensures frames == old(frames) + [f]
      ensures active == old(active) && tickTimeout == old(tickTimeout) && armed == old(armed)
      ensures nextHandle == old(nextHandle) && canvasPresent == old(canvasPresent)
    {
      f := Render(config, skinId, now);
      frames := frames + [f];
    }

    /** `nextTick`: arm a fresh timer and overwrite `tickTimeout` with its handle. */
    method NextTick()
      modifies this
      ensures State() == NextTickStep(old(State()))
    {
      var handle := nextHandle;
      nextHandle := nextHandle + 1;
      armed := armed + {handle};
      tickTimeout := Some(handle);
    }

    /**
      `tick`, entered from `init`, `start` or the clock's own timer, that is,
      with no timer armed.
     */
    method Tick(config: Config, now: Instant)
      requires Valid(State()) && armed == {}
      modifies this
      ensures State() == TickStep(old(State()), config, skinId, now)
      ensures Valid(State())
    {
      if StillHere() && active {
        var f := RefreshDisplay(config, now);
        if f.fault.None? {
          NextTick();
        }
      }
    }

    /** `stop`: deactivate and clear the stored timer. */
    method Stop()
      modifies this
      ensures State() == StopStep(old(State()))
    {
      active := false;
      if tickTimeout.Some? {
        armed := armed - {tickTimeout.value};
      }
    }

    /** `start`: a stopped clock is activated and ticks at once. */
    method Start(config: Config, now: Instant)
      requires Valid(State())
      modifies this
      ensures State() == StartStep(old(State()), config, skinId, now)
      ensures Valid(State())
    {
      if !active {
        active := true;
        Tick(config, now);
      }
    }

    /** The host runs the armed timer `handle`, whose callback ticks this clock. */
    method TimerFired(handle: nat, config: Config, now: Instant)
      requires Valid(State()) && handle in armed
      modifies this
      ensures State() == FireStep(old(State()), handle, config, skinId, now)
      ensures Valid(State())
    {
      armed := armed - {handle};
      Tick(config, now);
    }

    /** The host removes the canvas element from the document. */
    method RemoveCanvas()
      modifies this
      ensures State() == VanishStep(old(State()))
    {
      canvasPresent := false;
    }

    /** The host puts an element with the clock's id into the document. */
    method RestoreCanvas()
      modifies this
      ensures State() == RestoreStep(old(State()))
    {
      canvasPresent := true;
    }
  }
}
