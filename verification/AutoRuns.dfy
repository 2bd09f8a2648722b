/** A saved preset, loaded by releasing its button and flown by the running firmware. */
module AutoRuns {
  import opened MathLib
  import opened MotionProfile
  import opened Control
  import opened ControlRuns
  import opened Measured
  import opened Preset
  import opened PresetRuns
  import opened Output
  import opened Firmware
  import opened FirmwareRuns
  import Can
  import Filter

  /** The link does not decide the control mode: the firmware is not a slave, or is operated locally. */
  predicate OnItsOwn(f: State, i: Inputs) {
    f.mode != Can.Slave || i.useLocal
  }

  predicate JoysticksAtRest(b: Board, i: Inputs) {
    !TakenOver(b, Controls(NOTHING, b.scaling, i.readings))
  }

  lemma SenseOnItsOwn(b: Board, f: State, i: Inputs, now: nat)
    requires b.setup.lib.pi > 0.0 && OnItsOwn(f, i)
    ensures var g := Sense(b, f, i, now);
            && g.crane == f.crane && g.mode == f.mode && g.canAddr == f.canAddr
            && (TakenOver(b, g.measured) <==> !JoysticksAtRest(b, i))
  {
    hide Can.Clocked, ScaleInput, YawAngle, Unwrap, Filter.Next, Joystick;
  }

  /** What the axes are given in a pass. */
  function PitchInput(m: Measurement): Input {
    Input(m.pitch, 0.0)
  }

  function YawInput(m: Measurement): Input {
    Input(m.yaw, 0.0)
  }

  /** An axis that is under way or idle, with no new move pending. */
  predicate Flying(c: Crane) {
    c.mode == Auto && !c.updown.start && !c.leftright.start
  }

  lemma FollowAtRest(b: Board, f: State)
    requires b.setup.lib.pi > 0.0 && Ready(f.crane) && !TakenOver(b, f.measured)
    ensures var g := FollowMove(b, f);
            && g.crane == ClockAxes(b.setup, f.crane, f.measured)
            && g.mode == f.mode && g.canAddr == f.canAddr && g.measured == f.measured
  {
    hide ClockAxes, NextPitch, NextYaw, TakenOver;
  }

  lemma AutoPass(b: Board, f: State, i: Inputs, now: nat)
    requires b.setup.lib.pi > 0.0 && Ready(f.crane) && Quiet(i, f.canAddr) && OnItsOwn(f, i) && JoysticksAtRest(b, i)
    requires f.crane.mode == Auto
    ensures var g := Pass(b, f, i, now);
            && g.crane == ClockAxes(b.setup, f.crane, g.measured)
            && g.mode == f.mode && g.canAddr == f.canAddr
  {
    hide UpdateControl, FollowMove, ClockAxes, JoysticksAtRest, TakenOver, Pass, Sense;
    QuietPass(b, f, i, now);
    SenseOnItsOwn(b, f, i, now);
    var g := Sense(b, f, i, now);
    FollowAtRest(b, g);
    AutoControl(b, g);
  }

  lemma AutoControl(b: Board, f: State)
    requires b.setup.lib.pi > 0.0 && Ready(f.crane) && f.crane.mode == Auto
    ensures UpdateControl(b, f) == FollowMove(b, f)
  {
    hide FollowMove;
  }

  /** CAN traffic of any kind, and passes in which nobody touches a button, the address or a joystick. */
  predicate HandsOff(b: Board, mode: Can.Mode, addr: int, e: FirmwareRuns.Event) {
    e.Passed? ==> Quiet(e.i, addr) && (mode != Can.Slave || e.i.useLocal) && JoysticksAtRest(b, e.i)
  }

  predicate AllHandsOff(b: Board, mode: Can.Mode, addr: int, events: seq<FirmwareRuns.Event>) {
    forall e :: e in events ==> HandsOff(b, mode, addr, e)
  }

  lemma HandsOffTail(b: Board, mode: Can.Mode, addr: int, events: seq<FirmwareRuns.Event>)
    requires AllHandsOff(b, mode, addr, events)
    ensures forall e :: e in events ==> Possible(e)
    ensures events != [] ==> HandsOff(b, mode, addr, events[0]) && AllHandsOff(b, mode, addr, events[1..])
  {
    forall e | e in events
      ensures Possible(e)
    {
      assert HandsOff(b, mode, addr, e);
    }
  }

  /** What is measured in the passes of a run. */
  function Seen(b: Board, f: State, events: seq<FirmwareRuns.Event>): seq<Measurement>
    requires b.setup.lib.pi > 0.0 && Ready(f.crane) && forall e :: e in events ==> Possible(e)
    decreases |events|
  {
    if events == [] then []
    else
      StepReady(b, f, events[0]);
      var g := Step(b, f, events[0]);
      (if events[0].Passed? then [g.measured] else []) + Seen(b, g, events[1..])
  }

  function Pitches(ms: seq<Measurement>): (r: seq<Input>)
    ensures |r| == |ms|
    decreases |ms|
  {
    if ms == [] then [] else [PitchInput(ms[0])] + Pitches(ms[1..])
  }

  function Yaws(ms: seq<Measurement>): (r: seq<Input>)
    ensures |r| == |ms|
    decreases |ms|
  {
    if ms == [] then [] else [YawInput(ms[0])] + Yaws(ms[1..])
  }

  lemma FlyingClock(s: Setup, c: Crane, m: Measurement)
    requires s.lib.pi > 0.0 && Ready(c) && Flying(c)
    ensures Flying(ClockAxes(s, c, m))
  {
    hide Clock;
    StartNotRaised(s.lib, s.updown, SetInput(c.updown, PitchInput(m)));
    StartNotRaised(s.lib, s.leftright, SetInput(c.leftright, YawInput(m)));
  }

  /** `d` is what `c` becomes when both axes are ticked with these measurements. */
  ghost predicate Flown(s: Setup, c: Crane, ms: seq<Measurement>, d: Crane)
    requires s.lib.pi > 0.0 && Flying(c)
  {
    && Flying(d) && d.presets == c.presets
    && d.updown == Ticks(s.lib, s.updown, c.updown, Pitches(ms))
    && d.leftright == Ticks(s.lib, s.leftright, c.leftright, Yaws(ms))
  }

  lemma FlownStep(s: Setup, c: Crane, m: Measurement, ms: seq<Measurement>, d: Crane)
    requires s.lib.pi > 0.0 && Ready(c) && Flying(c) && Flying(ClockAxes(s, c, m)) && Flown(s, ClockAxes(s, c, m), ms, d)
    ensures Flown(s, c, [m] + ms, d)
  {
    assert ([m] + ms)[1..] == ms;
    TicksFirst(s.lib, s.updown, c.updown, PitchInput(m), Pitches(ms));
    TicksFirst(s.lib, s.leftright, c.leftright, YawInput(m), Yaws(ms));
    hide Clock, Ticks;
  }

  lemma TicksFirst(lib: Libm, conf: Conf, x: Axis, first: Input, rest: seq<Input>)
    requires lib.pi > 0.0 && !x.start
    ensures !Clock(lib, conf, SetInput(x, first)).start
    ensures Ticks(lib, conf, x, [first] + rest) == Ticks(lib, conf, Clock(lib, conf, SetInput(x, first)), rest)
  {
    StartNotRaised(lib, conf, SetInput(x, first));
    assert ([first] + rest)[1..] == rest;
    hide Clock;
  }

  /** As long as nobody interferes, the firmware ticks both axes once a pass with what it measures. */
  lemma {:induction false} AutoRun(b: Board, f: State, events: seq<FirmwareRuns.Event>)
    requires b.setup.lib.pi > 0.0 && Ready(f.crane) && Flying(f.crane) && AllHandsOff(b, f.mode, f.canAddr, events)
    ensures forall e :: e in events ==> Possible(e)
    ensures Flown(b.setup, f.crane, Seen(b, f, events), Run(b, f, events).crane)
    decreases |events|
  {
    HandsOffTail(b, f.mode, f.canAddr, events);
    if events != [] {
      var e := events[0];
      var g := Step(b, f, e);
      StepReady(b, f, e);
      hide Pass, ClockAxes, Flown, Ready, Quiet, JoysticksAtRest, AllHandsOff;
      if e.Passed? {
        AutoPass(b, f, e.i, e.now);
        FlyingClock(b.setup, f.crane, g.measured);
        AutoRun(b, g, events[1..]);
        FlownStep(b.setup, f.crane, g.measured, Seen(b, g, events[1..]), Run(b, g, events[1..]).crane);
      } else {
        AutoRun(b, g, events[1..]);
        assert Seen(b, f, events) == Seen(b, g, events[1..]);
      }
    } else {
      NothingFlown(b.setup, f.crane);
    }
  }

  lemma NothingFlown(s: Setup, c: Crane)
    requires s.lib.pi > 0.0 && Flying(c)
    ensures Flown(s, c, [], c)
  {
  }

  // ----- releasing a preset button

  /** Button `k` is released after a short press; nothing else happens. */
  predicate Released(i: Inputs, addr: int, k: nat) {
    && i.Valid() && i.canAddr == addr && k < PRESET_COUNT
    && !i.switches[k].longPressed && !i.switches[k].pressed && i.switches[k].toggled
    && forall j :: 0 <= j < PRESET_COUNT && j != k ==>
         !i.switches[j].longPressed && (i.switches[j].pressed || !i.switches[j].toggled)
  }

  lemma {:induction false} OneReleased(s: Setup, c: Crane, m: Measurement, i: Inputs, addr: int, k: nat, j: nat)
    requires s.lib.pi > 0.0 && Ready(c) && Rated(m) && Released(i, addr, k) && j <= PRESET_COUNT
    ensures Operate(s, c, m, i.switches, j) == if j <= k then c else Load(s, c, m, k)
    decreases j
  {
    hide Load;
    if j > 0 {
      OneReleased(s, c, m, i, addr, k, j - 1);
    }
  }

  /** The crane just after the preset was loaded, and before the control stage of the same pass. */
  function Loaded(b: Board, f: State, i: Inputs, now: nat, k: nat): Crane
    requires b.setup.lib.pi > 0.0 && Ready(f.crane) && k < PRESET_COUNT
  {
    SenseReady(b, f, i, now);
    var g := Sense(b, f, i, now);
    Load(b.setup, g.crane, g.measured, k)
  }

  lemma ReleasePass(b: Board, f: State, i: Inputs, now: nat, k: nat)
    requires b.setup.lib.pi > 0.0 && Ready(f.crane) && Released(i, f.canAddr, k) && OnItsOwn(f, i) && JoysticksAtRest(b, i)
    requires Loaded(b, f, i, now, k).mode == Auto
    ensures Ready(Loaded(b, f, i, now, k))
    ensures var g := Pass(b, f, i, now);
            && g.crane == ClockAxes(b.setup, Loaded(b, f, i, now, k), g.measured)
            && g.mode == f.mode && g.canAddr == f.canAddr
            && g.measured == Sense(b, f, i, now).measured
  {
    SenseReady(b, f, i, now);
    SenseOnItsOwn(b, f, i, now);
    var g := Sense(b, f, i, now);
    assert i.Valid() && i.canAddr == f.canAddr && k < PRESET_COUNT;
    hide Sense, UpdateControl, FollowMove, ClockAxes, JoysticksAtRest, TakenOver, Load, Operate, Rated, Ready, Released;
    OneReleased(b.setup, g.crane, g.measured, i, f.canAddr, k, PRESET_COUNT);
    LoadReady(b.setup, g.crane, g.measured, k);
    var h := g.(crane := Load(b.setup, g.crane, g.measured, k));
    assert UpdateState(b, g, i) == h;
    AutoControl(b, h);
    FollowAtRest(b, h);
  }

  /** `passes` passes after the axes of `d` set off, those of `end` are still on their own; each profile
      completes some time, and from then until the axis has settled its set point is the goal, at rest. */
  ghost predicate FlownTo(s: Setup, d: Crane, end: Crane, passes: nat, pitch: real, yaw: real) {
    && Flying(end)
    && (exists n: nat :: FinishesAt(d.updown, n)) && (exists n: nat :: FinishesAt(d.leftright, n))
    && (forall n: nat :: FinishesAt(d.updown, n) && n <= passes <= n + s.updown.settlingTime
          ==> end.updown.target == Pva(pitch, 0.0, 0.0))
    && (forall n: nat :: FinishesAt(d.leftright, n) && n <= passes <= n + s.leftright.settlingTime
          ==> end.leftright.target == Pva(yaw, 0.0, 0.0))
  }

  /** From a saved position to the set point of both axes: a preset was saved at `m1`, home has not been
      moved since, the firmware is anywhere when its button is released, and nobody interferes. After
      the pass in which the profile of an axis completes, and until it has settled, its set point is the
      position that was saved, at rest. */
  lemma SavedPresetIsFlownTo(b: Board, c1: Crane, m1: Measurement, f: State, i: Inputs, now: nat, k: nat, events: seq<FirmwareRuns.Event>)
    requires b.Valid() && c1.Valid() && Ready(f.crane) && 0 < k < PRESET_COUNT
    requires f.crane.presets[k] == Save(c1.presets, m1, k)[k]
    requires f.crane.presets[HOME] == c1.presets[HOME] && f.crane.presets[HOME].valid
    requires Released(i, f.canAddr, k) && OnItsOwn(f, i) && JoysticksAtRest(b, i)
    requires AllHandsOff(b, f.mode, f.canAddr, events)
    ensures Ready(Pass(b, f, i, now).crane) && forall e :: e in events ==> Possible(e)
    ensures var d := Loaded(b, f, i, now, k);
            var g := Pass(b, f, i, now);
            var end := Run(b, g, events).crane;
            var passes := 1 + |Seen(b, g, events)|;
            FlownTo(b.setup, d, end, passes, m1.pitch, NormalizeAngle(b.setup.lib.pi, m1.yaw))
  {
    var s := b.setup;
    SenseReady(b, f, i, now);
    SenseOnItsOwn(b, f, i, now);
    var sensed := Sense(b, f, i, now);
    var d := Loaded(b, f, i, now, k);
    assert d == Load(s, sensed.crane, sensed.measured, k) && i.Valid();
    hide Sense, Load, Save, Pass, ClockAxes, Flown, Ready, Released, OnItsOwn, JoysticksAtRest, AllHandsOff, Flying,
      HeadsFor, FinishesAt, FlownTo, NormalizeAngle, Rated, Run, Seen, SetPreset, Loaded;
    LoadedFlies(b, c1, m1, sensed.crane, sensed.measured, k);
    FlightRuns(b, f, i, now, k, events);
    var g := Pass(b, f, i, now);
    FlightEnds(s, d, [g.measured] + Seen(b, g, events), Run(b, g, events).crane, m1.pitch, NormalizeAngle(s.lib.pi, m1.yaw));
  }

  /** Releasing the button of a preset that sets both axes off, and hands off: from then on they are ticked
      once a pass, beginning with the pass of the release. */
  lemma FlightRuns(b: Board, f: State, i: Inputs, now: nat, k: nat, events: seq<FirmwareRuns.Event>)
    requires b.setup.lib.pi > 0.0 && Ready(f.crane) && Released(i, f.canAddr, k) && OnItsOwn(f, i) && JoysticksAtRest(b, i)
    requires AllHandsOff(b, f.mode, f.canAddr, events) && Flying(Loaded(b, f, i, now, k))
    ensures i.Valid() && Ready(Pass(b, f, i, now).crane) && forall e :: e in events ==> Possible(e)
    ensures var g := Pass(b, f, i, now);
            Flown(b.setup, Loaded(b, f, i, now, k), [g.measured] + Seen(b, g, events), Run(b, g, events).crane)
  {
    var d := Loaded(b, f, i, now, k);
    assert d.mode == Auto && i.Valid();
    hide Sense, Load, Pass, ClockAxes, Flown, Ready, Released, OnItsOwn, JoysticksAtRest, AllHandsOff, Flying,
      Rated, Run, Seen, Loaded;
    ReleasePass(b, f, i, now, k);
    var g := Pass(b, f, i, now);
    FlyingClock(b.setup, d, g.measured);
    StepReady(b, f, Passed(i, now));
    HandsOffTail(b, g.mode, g.canAddr, events);
    AutoRun(b, g, events);
    FlownStep(b.setup, d, g.measured, Seen(b, g, events), Run(b, g, events).crane);
  }

  /** Loading the saved preset starts both axes on their way to the saved position. */
  lemma LoadedFlies(b: Board, c1: Crane, m1: Measurement, c: Crane, m: Measurement, k: nat)
    requires b.Valid() && c1.Valid() && Ready(c) && Rated(m) && 0 < k < PRESET_COUNT
    requires c.presets[k] == Save(c1.presets, m1, k)[k] && c.presets[HOME] == c1.presets[HOME] && c.presets[HOME].valid
    ensures var d := Load(b.setup, c, m, k);
            && Flying(d)
            && HeadsFor(b.setup.lib, b.setup.updown, d.updown, m1.pitch)
            && HeadsFor(b.setup.lib, b.setup.leftright, d.leftright, NormalizeAngle(b.setup.lib.pi, m1.yaw))
  {
    SavedPresetIsReached(b.setup, c1, m1, c, m, k);
    LoadedPreset(b.setup, c, m, k);
    hide Load, HeadsFor, NormalizeAngle, TargetPitch, TargetYaw, Timebases;
  }

  lemma FlightEnds(s: Setup, d: Crane, ms: seq<Measurement>, end: Crane, pitch: real, yaw: real)
    requires s.lib.pi > 0.0 && Flying(d) && Flown(s, d, ms, end)
    requires HeadsFor(s.lib, s.updown, d.updown, pitch) && HeadsFor(s.lib, s.leftright, d.leftright, yaw)
    ensures FlownTo(s, d, end, |ms|, pitch, yaw)
  {
    hide Ticks, FinishesAt, JustStarted;
  }

  // ----- releasing the home button

  /** Home has been loaded and its axes ticked once: they are on their way to it. */
  ghost predicate HomeFlies(s: Setup, d: Crane, home: Preset, m: Measurement)
    requires s.lib.pi > 0.0
  {
    && Flying(d)
    && HeadsFor(s.lib, s.updown, d.updown, home.pitch)
    && HeadsFor(s.lib, s.leftright, d.leftright, NormalizeAngle(s.lib.pi, HomeYaw(s.lib.pi, home.yaw, m.yaw)))
    && 2.0 * Abs(d.leftright.plan.totalDistance) <= s.lib.pi
  }

  lemma HomeSetsOff(s: Setup, c: Crane, m: Measurement)
    requires s.Valid() && Ready(c) && Rated(m) && c.presets[HOME].valid
    ensures Load(s, c, m, HOME).mode == Auto && Ready(Load(s, c, m, HOME))
    ensures HomeFlies(s, ClockAxes(s, Load(s, c, m, HOME), m), c.presets[HOME], m)
  {
    HomeIsLoaded(s, c, m);
    LoadReady(s, c, m, HOME);
    HomeIsReached(s, c, m);
    hide Load, Clock, NormalizeAngle, HomeYaw, HeadsFor;
    HeadsForStarted(s.lib, s.updown, HomeStarted(s, c, m).0, c.presets[HOME].pitch);
    HeadsForStarted(s.lib, s.leftright, HomeStarted(s, c, m).1, NormalizeAngle(s.lib.pi, HomeYaw(s.lib.pi, c.presets[HOME].yaw, m.yaw)));
  }

  lemma HeadsForStarted(lib: Libm, conf: Conf, x: Axis, goal: real)
    requires lib.pi > 0.0 && HeadsFor(lib, conf, x, goal)
    ensures !x.start
  {
    hide Ticks;
  }

  lemma HomeArrives(s: Setup, d: Crane, home: Preset, m: Measurement, ms: seq<Measurement>, end: Crane)
    requires s.lib.pi > 0.0 && HomeFlies(s, d, home, m) && Flown(s, d, ms, end)
    ensures FlownTo(s, d, end, |ms|, home.pitch, NormalizeAngle(s.lib.pi, HomeYaw(s.lib.pi, home.yaw, m.yaw)))
  {
    hide HeadsFor, FinishesAt, Flown, NormalizeAngle, HomeYaw;
    FlightEnds(s, d, ms, end, home.pitch, NormalizeAngle(s.lib.pi, HomeYaw(s.lib.pi, home.yaw, m.yaw)));
  }

  /** From the home button to the set point of both axes, wherever the firmware is when the button is
      released: after the pass in which the profile of an axis completes, and until it has settled, its
      set point is home's pitch, at rest, and home's yaw or the direction opposite to it, whichever was
      no more than a quarter turn away when the button was released. */
  lemma HomeIsFlownTo(b: Board, f: State, i: Inputs, now: nat, events: seq<FirmwareRuns.Event>)
    requires b.Valid() && Ready(f.crane) && f.crane.presets[HOME].valid
    requires Released(i, f.canAddr, HOME) && OnItsOwn(f, i) && JoysticksAtRest(b, i)
    requires AllHandsOff(b, f.mode, f.canAddr, events)
    ensures Ready(Pass(b, f, i, now).crane) && forall e :: e in events ==> Possible(e)
    ensures var g := Pass(b, f, i, now);
            var home := f.crane.presets[HOME];
            var end := Run(b, g, events).crane;
            var passes := |Seen(b, g, events)|;
            && 2.0 * Abs(g.crane.leftright.plan.totalDistance) <= b.setup.lib.pi
            && FlownTo(b.setup, g.crane, end, passes, home.pitch,
                       NormalizeAngle(b.setup.lib.pi, HomeYaw(b.setup.lib.pi, home.yaw, g.measured.yaw)))
  {
    var s := b.setup;
    assert i.Valid();
    SenseReady(b, f, i, now);
    SenseOnItsOwn(b, f, i, now);
    var sensed := Sense(b, f, i, now);
    assert Loaded(b, f, i, now, HOME) == Load(s, sensed.crane, sensed.measured, HOME);
    hide Sense, Load, Pass, ClockAxes, Flown, Ready, Released, OnItsOwn, JoysticksAtRest, AllHandsOff,
      HeadsFor, FinishesAt, FlownTo, NormalizeAngle, HomeYaw, Rated, Run, Seen, Loaded, Abs;
    HomeSetsOff(s, sensed.crane, sensed.measured);
    ReleasePass(b, f, i, now, HOME);
    var g := Pass(b, f, i, now);
    StepReady(b, f, Passed(i, now));
    HandsOffTail(b, g.mode, g.canAddr, events);
    AutoRun(b, g, events);
    HomeArrives(s, g.crane, f.crane.presets[HOME], g.measured, Seen(b, g, events), Run(b, g, events).crane);
  }

  // ----- from the button held to the button released

  /** The control stage touches neither presets nor measurements. */
  lemma ControlKeepsPresets(b: Board, f: State)
    requires b.setup.lib.pi > 0.0 && Ready(f.crane)
    ensures var g := UpdateControl(b, f); g.crane.presets == f.crane.presets && g.measured == f.measured
  {
    hide Clock, NextPitch, NextYaw, TakenOver;
  }

  /** A pass leaves in the presets what the buttons make of them, and the measurements as it took them. */
  lemma PassPresets(b: Board, f: State, i: Inputs, now: nat)
    requires b.setup.lib.pi > 0.0 && Ready(f.crane) && i.Valid()
    ensures var (g, s) := (Pass(b, f, i, now), Sense(b, f, i, now));
            && s.crane.presets == f.crane.presets && s.crane.Valid() && Rated(s.measured) && g.measured == s.measured
            && g.crane.presets == Operate(b.setup, s.crane, s.measured, i.switches, PRESET_COUNT).presets
  {
    SenseReady(b, f, i, now);
    var s := Sense(b, f, i, now);
    UpdateStateReady(b, s, i);
    ControlKeepsPresets(b, UpdateState(b, s, i));
    assert s.crane.presets == f.crane.presets by { hide Measure; }
    hide Sense, UpdateControl, Operate, Rated;
  }

  /** Neither the button of the preset nor that of home is held. */
  predicate Spared(e: FirmwareRuns.Event, k: nat)
    requires k < PRESET_COUNT
  {
    e.Passed? ==> e.i.Valid() && !e.i.switches[k].longPressed && !e.i.switches[HOME].longPressed
  }

  predicate AllSpared(events: seq<FirmwareRuns.Event>, k: nat)
    requires k < PRESET_COUNT
  {
    forall e :: e in events ==> Spared(e, k)
  }

  lemma SparedTail(events: seq<FirmwareRuns.Event>, k: nat)
    requires k < PRESET_COUNT && AllSpared(events, k)
    ensures forall e :: e in events ==> Possible(e)
    ensures events != [] ==> Spared(events[0], k) && AllSpared(events[1..], k)
  {
    forall e | e in events
      ensures Possible(e)
    {
      assert Spared(e, k);
    }
  }

  lemma PassSpares(b: Board, f: State, i: Inputs, now: nat, k: nat)
    requires b.setup.lib.pi > 0.0 && Ready(f.crane) && k < PRESET_COUNT && Spared(Passed(i, now), k)
    ensures var g := Pass(b, f, i, now).crane.presets;
            |g| == PRESET_COUNT && g[k] == f.crane.presets[k] && g[HOME] == f.crane.presets[HOME]
  {
    assert i.Valid();
    var s := Sense(b, f, i, now);
    PassPresets(b, f, i, now);
    hide Sense, Pass, Operate, Rated;
    PresetAfterPass(b.setup, s.crane, s.measured, i.switches, PRESET_COUNT, k);
    PresetAfterPass(b.setup, s.crane, s.measured, i.switches, PRESET_COUNT, HOME);
  }

  /** What is saved survives every run in which neither that button nor home's is held, whatever else happens. */
  lemma {:induction false} PresetSurvives(b: Board, f: State, events: seq<FirmwareRuns.Event>, k: nat)
    requires b.setup.lib.pi > 0.0 && Ready(f.crane) && k < PRESET_COUNT && AllSpared(events, k)
    ensures forall e :: e in events ==> Possible(e)
    ensures var g := Run(b, f, events).crane;
            Ready(g) && g.presets[k] == f.crane.presets[k] && g.presets[HOME] == f.crane.presets[HOME]
    decreases |events|
  {
    SparedTail(events, k);
    if events != [] {
      var e := events[0];
      assert |f.crane.presets| == PRESET_COUNT;
      StepReady(b, f, e);
      if e.Passed? {
        PassSpares(b, f, e.i, e.now, k);
      }
      hide Pass, AllSpared;
      PresetSurvives(b, Step(b, f, e), events[1..], k);
    }
  }

  /** Button `k` is held, and home is saved already or in the same pass. */
  predicate Saves(f: State, i: Inputs, k: nat)
    requires |f.crane.presets| == PRESET_COUNT
  {
    && i.Valid() && 0 < k < PRESET_COUNT && i.switches[k].longPressed
    && (i.switches[HOME].longPressed || f.crane.presets[HOME].valid)
  }

  lemma SavingPass(b: Board, f: State, i: Inputs, now: nat, k: nat)
    requires b.setup.lib.pi > 0.0 && Ready(f.crane) && Saves(f, i, k)
    ensures var g := Pass(b, f, i, now);
            && |g.crane.presets| == PRESET_COUNT && g.crane.presets[HOME].valid
            && g.crane.presets[k] == Save(g.crane.presets, g.measured, k)[k]
  {
    var s := Sense(b, f, i, now);
    PassPresets(b, f, i, now);
    hide Sense, Pass, Operate, Rated;
    PresetAfterPass(b.setup, s.crane, s.measured, i.switches, PRESET_COUNT, k);
    PresetAfterPass(b.setup, s.crane, s.measured, i.switches, PRESET_COUNT, HOME);
  }

  /** The whole story in the running firmware: a button is held, and what the crane measures in that pass is
      where it wants to get back to. After any run in which neither that button nor home's is held, the
      button is released, and nobody interferes: after the pass in which the profile of an axis completes,
      and until it has settled, its set point is that position, at rest. */
  lemma HeldThenFlownTo(b: Board, f: State, i0: Inputs, t0: nat, before: seq<FirmwareRuns.Event>,
                        i: Inputs, now: nat, k: nat, events: seq<FirmwareRuns.Event>)
    requires b.Valid() && Ready(f.crane) && Saves(f, i0, k) && AllSpared(before, k)
    ensures Ready(Pass(b, f, i0, t0).crane) && forall e :: e in before ==> Possible(e)
    ensures var m := Pass(b, f, i0, t0).measured;
            var h := Run(b, Pass(b, f, i0, t0), before);
            && Ready(h.crane)
            && (Released(i, h.canAddr, k) && OnItsOwn(h, i) && JoysticksAtRest(b, i) && AllHandsOff(b, h.mode, h.canAddr, events) ==>
                  && i.Valid() && Ready(Pass(b, h, i, now).crane) && (forall e :: e in events ==> Possible(e))
                  && FlownTo(b.setup, Loaded(b, h, i, now, k), Run(b, Pass(b, h, i, now), events).crane,
                             1 + |Seen(b, Pass(b, h, i, now), events)|, m.pitch, NormalizeAngle(b.setup.lib.pi, m.yaw)))
  {
    var g := Pass(b, f, i0, t0);
    PassReady(b, f, i0, t0);
    SavingPass(b, f, i0, t0, k);
    assert g.crane.Valid();
    PresetSurvives(b, g, before, k);
    var h := Run(b, g, before);
    hide Pass, Run, Ready, Released, OnItsOwn, JoysticksAtRest, AllHandsOff, Save, Loaded, Seen, FlownTo, NormalizeAngle, AllSpared;
    if Released(i, h.canAddr, k) && OnItsOwn(h, i) && JoysticksAtRest(b, i) && AllHandsOff(b, h.mode, h.canAddr, events) {
      ReleasedIsValid(i, h.canAddr, k);
      SavedPresetIsFlownTo(b, g.crane, g.measured, h, i, now, k, events);
    }
  }

  lemma ReleasedIsValid(i: Inputs, addr: int, k: nat)
    requires Released(i, addr, k)
    ensures i.Valid()
  {
  }
}
