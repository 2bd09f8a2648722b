/** Whole runs of the firmware: CAN writes and passes of the control loop in any interleaving. */
module FirmwareRuns {
  import opened MathLib
  import opened Control
  import opened ControlRuns
  import opened Measured
  import opened Preset
  import opened Output
  import opened Firmware
  import Can
  import Filter

  datatype Event = Wrote(o: Can.Object, value: int, now: nat) | Passed(i: Inputs, now: nat)

  predicate Possible(e: Event) {
    e.Passed? ==> e.i.Valid()
  }

  function Step(b: Board, f: State, e: Event): State
    requires b.setup.lib.pi > 0.0 && Ready(f.crane) && Possible(e)
  {
    match e
    case Wrote(o, value, now) => f.(link := Can.Written(f.link, o, value, now))
    case Passed(i, now) => Pass(b, f, i, now)
  }

  /** Nothing that can happen leaves a move pending that could not be planned, so every pass can run. */
  lemma StepReady(b: Board, f: State, e: Event)
    requires b.setup.lib.pi > 0.0 && Ready(f.crane) && Possible(e)
    ensures Ready(Step(b, f, e).crane)
  {
    hide Pass, Ready;
    if e.Passed? {
      PassReady(b, f, e.i, e.now);
    }
  }

  function Run(b: Board, f: State, events: seq<Event>): State
    requires b.setup.lib.pi > 0.0 && Ready(f.crane) && forall e :: e in events ==> Possible(e)
    decreases |events|
  {
    if events == [] then f
    else
      StepReady(b, f, events[0]);
      Run(b, Step(b, f, events[0]), events[1..])
  }

  // ----- safety of every run

  ghost predicate SoundCrane(s: Setup, c: Crane) {
    Ready(c) && Sound(s.updown, c.updown) && Sound(s.leftright, c.leftright)
  }

  predicate InUnit(x: real) {
    -1.0 <= x <= 1.0
  }

  predicate SoundRemote(r: Can.Remote) {
    -1000 <= r.pitch <= 1000 && -1000 <= r.yaw <= 1000
  }

  /** Both axes are sound and can run, the outputs are in [-1, 1], the demands received over the bus and the
      yaw counter are within their ranges. */
  ghost predicate SoundState(b: Board, f: State) {
    && SoundCrane(b.setup, f.crane)
    && InUnit(f.pitchOut) && InUnit(f.yawOut)
    && SoundRemote(f.link.remote)
    && -TICKS_PER_PI <= f.yaw.ticks <= TICKS_PER_PI
  }

  ghost predicate Configured(b: Board) {
    b.Valid() && b.setup.updown.integralMax >= 0.0 && b.setup.leftright.integralMax >= 0.0
  }

  lemma RequestedSound(conf: Conf, x: Axis, pos: real, target: real, limits: Limits)
    requires Sound(conf, x)
    ensures Sound(conf, Requested(x, pos, target, limits))
  {
  }

  lemma LoadSound(s: Setup, c: Crane, m: Measurement, k: nat)
    requires s.Valid() && s.updown.integralMax >= 0.0 && s.leftright.integralMax >= 0.0
    requires SoundCrane(s, c) && k < PRESET_COUNT && Rated(m)
    ensures SoundCrane(s, Load(s, c, m, k))
  {
    LoadReady(s, c, m, k);
    if CanLoad(c, k) && k != HOME {
      RatedLimits(m);
      var a := Aimed(s, c, m, k);
      hide Sound, Clock, NormalizeAngle, Timebases, UpDownLimits, LeftRightLimits, RemainingTime;
      RequestedSound(s.updown, c.updown, m.pitch, TargetPitch(c, k), UpDownLimits(m));
      RequestedSound(s.leftright, c.leftright, m.yaw, TargetYaw(s.lib.pi, c, k), LeftRightLimits(m));
      ClockSound(s.lib, s.updown, a.updown);
      ClockSound(s.lib, s.leftright, a.leftright);
      var (u, l) := (Clock(s.lib, s.updown, a.updown), Clock(s.lib, s.leftright, a.leftright));
      var t := Timebases(RemainingTime(u), RemainingTime(l));
      TimebaseSound(s.updown, u, t.0);
      TimebaseSound(s.leftright, l, t.1);
    }
  }

  lemma TimebaseSound(conf: Conf, x: Axis, timebase: real)
    requires Sound(conf, x)
    ensures Sound(conf, SetTimebase(x, timebase))
  {
  }

  lemma {:induction false} OperateSound(s: Setup, c: Crane, m: Measurement, sw: seq<Switch>, k: nat)
    requires s.Valid() && s.updown.integralMax >= 0.0 && s.leftright.integralMax >= 0.0
    requires SoundCrane(s, c) && Rated(m) && |sw| == PRESET_COUNT && k <= PRESET_COUNT
    ensures SoundCrane(s, Operate(s, c, m, sw, k))
    decreases k
  {
    hide Load, Sound;
    if k > 0 {
      OperateSound(s, c, m, sw, k - 1);
      LoadSound(s, Operate(s, c, m, sw, k - 1), m, k - 1);
    }
  }

  lemma ConstrainShrinks(x: real, speed: real)
    requires speed >= 0.0
    ensures Damped(x, Constrain(x, -speed, speed))
  {
  }

  /** One step of either channel ends between the old output and the demand, or closer to zero. */
  lemma NextNearDemand(stops: EndStops, measured: real, out: real, demand: real, rates: Rates)
    requires Sensible(rates)
    ensures var slewed := Slew(out, Constrain(demand, -1.0, 1.0), rates.acc);
            && Damped(slewed, NextPitch(stops, measured, out, demand, rates))
            && Damped(slewed, NextYaw(out, demand, rates))
  {
    var slewed := Slew(out, Constrain(demand, -1.0, 1.0), rates.acc);
    hide Slew, LimitPitch;
    EndStopDamps(stops, measured, slewed, rates.speed);
    ConstrainShrinks(LimitPitch(stops, measured, slewed, rates.speed), rates.speed);
    ConstrainShrinks(slewed, rates.speed);
  }

  lemma NextInUnit(stops: EndStops, measured: real, out: real, demand: real, rates: Rates)
    requires Sensible(rates) && InUnit(out)
    ensures InUnit(NextPitch(stops, measured, out, demand, rates)) && InUnit(NextYaw(out, demand, rates))
  {
    NextNearDemand(stops, measured, out, demand, rates);
    SlewBetween(out, Constrain(demand, -1.0, 1.0), rates.acc);
    hide Slew, NextPitch, NextYaw;
  }

  lemma DriveSound(b: Board, f: State, pitch: real, yaw: real, p: Rates, y: Rates)
    requires SoundState(b, f) && Sensible(p) && Sensible(y)
    ensures SoundState(b, Drive(b, f, pitch, yaw, p, y))
  {
    hide NextPitch, NextYaw, SoundCrane;
    NextInUnit(b.stops, f.measured.pitch, f.pitchOut, pitch, p);
    NextInUnit(b.stops, f.measured.pitch, f.yawOut, yaw, y);
  }

  lemma FollowSound(b: Board, f: State)
    requires Configured(b) && SoundState(b, f)
    ensures SoundState(b, FollowMove(b, f))
  {
    var (s, c, m) := (b.setup, f.crane, f.measured);
    ClockStartable(s.lib, s.updown, SetInput(c.updown, Input(m.pitch, 0.0)));
    ClockStartable(s.lib, s.leftright, SetInput(c.leftright, Input(m.yaw, 0.0)));
    ClockSound(s.lib, s.updown, SetInput(c.updown, Input(m.pitch, 0.0)));
    ClockSound(s.lib, s.leftright, SetInput(c.leftright, Input(m.yaw, 0.0)));
    StoppedSound(s.updown);
    StoppedSound(s.leftright);
    hide Sound, Clock, Drive, TakenOver;
    var d := ClockAxes(s, c, m);
    DriveSound(b, f.(crane := d), -d.updown.output, -d.leftright.output, Rates(1.0, 8.0), Rates(1.0, 4.0));
    DriveKeepsRest(b, f.(crane := d), -d.updown.output, -d.leftright.output, Rates(1.0, 8.0), Rates(1.0, 4.0));
  }

  lemma DriveKeepsRest(b: Board, f: State, pitch: real, yaw: real, p: Rates, y: Rates)
    ensures var g := Drive(b, f, pitch, yaw, p, y); g == f.(pitchOut := g.pitchOut, yawOut := g.yawOut)
  {
  }

  lemma ControlSound(b: Board, f: State)
    requires Configured(b) && SoundState(b, f)
    requires f.measured.pitchSpeed >= 0.0 && f.measured.pitchAcc >= 0.0 && f.measured.yawSpeed >= 0.0 && f.measured.yawAcc >= 0.0
    ensures SoundState(b, UpdateControl(b, f))
  {
    hide Drive, FollowMove, SoundCrane;
    var m := f.measured;
    match f.crane.mode {
      case NoMotion => DriveSound(b, f, 0.0, 0.0, Rates(0.0, 1.0), Rates(0.0, 1.0));
      case Remote =>
        DriveSound(b, f, f.link.remote.pitch as real * 0.001, f.link.remote.yaw as real * 0.001, Rates(1.0, 4.0), Rates(1.0, 4.0));
      case Manual =>
        DriveSound(b, f, m.joyPitch, m.joyYaw, Rates(m.pitchSpeed, m.pitchAcc), Rates(m.yawSpeed, m.yawAcc));
      case Auto => FollowSound(b, f);
    }
  }

  lemma ModeKeepsSound(s: Setup, c: Crane, mode: ControlMode)
    requires SoundCrane(s, c)
    ensures SoundCrane(s, c.(mode := mode))
  {
  }

  lemma SenseSound(b: Board, f: State, i: Inputs, now: nat)
    requires Configured(b) && SoundState(b, f)
    ensures SoundState(b, Sense(b, f, i, now))
    ensures var m := Sense(b, f, i, now).measured;
            Rated(m) && m.pitchSpeed >= 0.0 && m.pitchAcc >= 0.0 && m.yawSpeed >= 0.0 && m.yawAcc >= 0.0
  {
    var link := Can.Clocked(f.mode, f.link, now);
    var mode := CheckLinkState(f.mode, i.useLocal, link.timedOut, f.crane.mode);
    ModeKeepsSound(b.setup, f.crane, mode);
    MeasuredIsRated(b, f.(link := link, crane := f.crane.(mode := mode)), i.readings);
    WrappedStaysInHalfTurn(f.yaw.ticks + Delta(f.yaw.prev, i.readings.yaw));
    hide SoundCrane, Rated, Controls, YawAngle, Wrapped, Filter.Next, ScaleInput;
  }

  lemma UpdateStateSound(b: Board, f: State, i: Inputs)
    requires Configured(b) && SoundState(b, f) && Rated(f.measured) && i.Valid()
    ensures SoundState(b, UpdateState(b, f, i)) && UpdateState(b, f, i).measured == f.measured
  {
    OperateSound(b.setup, f.crane, f.measured, i.switches, PRESET_COUNT);
    ModeKeepsSound(b.setup, Operate(b.setup, f.crane, f.measured, i.switches, PRESET_COUNT), Remote);
    hide SoundCrane, Operate, Rated;
  }

  lemma StepSound(b: Board, f: State, e: Event)
    requires Configured(b) && SoundState(b, f) && Possible(e)
    ensures SoundState(b, Step(b, f, e))
  {
    assert Ready(f.crane);
    hide UpdateControl, UpdateState, Sense, SoundCrane, Rated, Ready;
    if e.Passed? {
      SenseReady(b, f, e.i, e.now);
      UpdateStateReady(b, Sense(b, f, e.i, e.now), e.i);
      SenseSound(b, f, e.i, e.now);
      UpdateStateSound(b, Sense(b, f, e.i, e.now), e.i);
      ControlSound(b, UpdateState(b, Sense(b, f, e.i, e.now), e.i));
    }
  }

  /** Whatever arrives on the bus and whatever is read, the state stays sound. */
  lemma {:induction false} RunKeepsSound(b: Board, f: State, events: seq<Event>)
    requires Configured(b) && SoundState(b, f) && forall e :: e in events ==> Possible(e)
    ensures SoundState(b, Run(b, f, events))
    decreases |events|
  {
    if events != [] {
      StepReady(b, f, events[0]);
      StepSound(b, f, events[0]);
      hide SoundState, Step, Ready;
      assert Ready(Step(b, f, events[0]).crane);
      RunKeepsSound(b, Step(b, f, events[0]), events[1..]);
    }
  }

  lemma StartSound(b: Board, start: nat)
    requires Configured(b)
    ensures SoundState(b, Start(start))
  {
  }

  /** From start-up on, every pass can run and every state is sound, whatever arrives and is read. */
  lemma RunSafe(b: Board, start: nat, events: seq<Event>)
    requires Configured(b) && forall e :: e in events ==> Possible(e)
    ensures Ready(Start(start).crane) && SoundState(b, Run(b, Start(start), events))
  {
    StartSound(b, start);
    assert Ready(Start(start).crane);
    hide *;
    RunKeepsSound(b, Start(start), events);
  }

  // ----- what a pass does to the link

  /** What a pass does to the link is what the clock does; the address switch decides the mode, and keeps it as
      long as it is not turned. */
  lemma PassLink(b: Board, f: State, i: Inputs, now: nat)
    requires b.setup.lib.pi > 0.0 && Ready(f.crane) && i.Valid()
    ensures var g := Pass(b, f, i, now);
            && g.link == Can.Clocked(f.mode, f.link, now) && g.canAddr == i.canAddr
            && g.mode == if i.canAddr == f.canAddr then f.mode else if i.canAddr == 1 then Can.Master else Can.Slave
  {
    SenseReady(b, f, i, now);
    var s := Sense(b, f, i, now);
    assert s.link == Can.Clocked(f.mode, f.link, now) && s.mode == f.mode && s.canAddr == f.canAddr by { hide Controls, Can.Clocked; }
    UpdateStateReady(b, s, i);
    ControlKeepsLink(b, UpdateState(b, s, i));
    hide Sense, UpdateControl, Operate, Rated, Can.Clocked;
  }

  lemma ControlKeepsLink(b: Board, f: State)
    requires b.setup.lib.pi > 0.0 && Ready(f.crane)
    ensures var g := UpdateControl(b, f); g.link == f.link && g.mode == f.mode && g.canAddr == f.canAddr
  {
    hide Clock, NextPitch, NextYaw, TakenOver;
  }

  // ----- passes in which nobody presses a button

  /** No long press, no release, and the address switch untouched. */
  predicate Quiet(i: Inputs, addr: int) {
    && i.Valid() && i.canAddr == addr
    && forall k :: 0 <= k < PRESET_COUNT ==>
         !i.switches[k].longPressed && (i.switches[k].pressed || !i.switches[k].toggled)
  }

  lemma {:induction false} NothingPressed(s: Setup, c: Crane, m: Measurement, i: Inputs, addr: int, k: nat)
    requires s.lib.pi > 0.0 && Ready(c) && Rated(m) && Quiet(i, addr) && k <= PRESET_COUNT
    ensures Operate(s, c, m, i.switches, k) == c
    decreases k
  {
    hide Load;
    if k > 0 {
      NothingPressed(s, c, m, i, addr, k - 1);
    }
  }

  lemma QuietPass(b: Board, f: State, i: Inputs, now: nat)
    requires b.setup.lib.pi > 0.0 && Ready(f.crane) && Quiet(i, f.canAddr)
    ensures var g := Sense(b, f, i, now);
            Ready(g.crane) && Rated(g.measured) && Pass(b, f, i, now) == UpdateControl(b, g)
  {
    hide UpdateControl, Operate, Rated, Controls, Can.Clocked, Filter.Next, YawAngle, Unwrap, ScaleInput;
    SenseReady(b, f, i, now);
    var g := Sense(b, f, i, now);
    NothingPressed(b.setup, g.crane, g.measured, i, f.canAddr, PRESET_COUNT);
  }

  // ----- stale demands on a slave

  predicate ObeysLink(f: State) {
    f.mode == Can.Slave && f.crane.mode in {Remote, NoMotion}
  }

  /** Without speed there is no output, whatever it was. */
  lemma NoSpeedNoOutput(stops: EndStops, measured: real, out: real, demand: real, acc: real)
    ensures NextPitch(stops, measured, out, demand, Rates(0.0, acc)) == 0.0
    ensures NextYaw(out, demand, Rates(0.0, acc)) == 0.0
  {
    hide LimitPitch, Slew;
  }

  /** A pass of a slave on which no button is used: stopped if a demand is too old, driven by the received
      demands otherwise; nothing else of the crane is touched. */
  lemma SlavePass(b: Board, f: State, i: Inputs, now: nat)
    requires b.setup.lib.pi > 0.0 && Ready(f.crane) && ObeysLink(f) && Quiet(i, f.canAddr) && !i.useLocal
    ensures var g := Pass(b, f, i, now);
            var down := Can.Finding(Can.Slave, f.link, now) == Can.Down;
            && g.mode == f.mode && g.canAddr == f.canAddr && g.link == Can.Clocked(Can.Slave, f.link, now)
            && g.crane == f.crane.(mode := if down then NoMotion else Remote)
            && (down ==> g.pitchOut == 0.0 && g.yawOut == 0.0)
            && (!down ==>
                 && g.pitchOut == NextPitch(b.stops, g.measured.pitch, f.pitchOut, f.link.remote.pitch as real * 0.001, Rates(1.0, 4.0))
                 && g.yawOut == NextYaw(f.yawOut, f.link.remote.yaw as real * 0.001, Rates(1.0, 4.0)))
  {
    QuietPass(b, f, i, now);
    var g := Sense(b, f, i, now);
    NoSpeedNoOutput(b.stops, g.measured.pitch, g.pitchOut, 0.0, 1.0);
    NoSpeedNoOutput(b.stops, g.measured.pitch, g.yawOut, 0.0, 1.0);
    hide Pass, NextPitch, NextYaw, Controls, YawAngle, Filter.Next, ScaleInput, Unwrap, Rated, Ready, FollowMove;
  }

  // ----- how a slave comes to obey the link

  /** A unit that finds itself with the address of a slave obeys the link after that pass, whatever else
      happens in it. */
  lemma NewSlaveObeys(b: Board, f: State, i: Inputs, now: nat)
    requires b.setup.lib.pi > 0.0 && Ready(f.crane) && i.Valid() && i.canAddr != f.canAddr && i.canAddr != MASTER_ADDRESS
    ensures ObeysLink(Pass(b, f, i, now)) && Pass(b, f, i, now).canAddr == i.canAddr
  {
    SenseReady(b, f, i, now);
    UpdateStateReady(b, Sense(b, f, i, now), i);
    hide Operate, Sense, NextPitch, NextYaw, Ready, Rated, FollowMove;
  }

  /** A unit that finds itself with address 1 is a master after that pass, and goes on being controlled the way
      it was, unless a button or, in an automatic move, a joystick says otherwise. */
  lemma NewMasterGoesOn(b: Board, f: State, i: Inputs, now: nat)
    requires b.setup.lib.pi > 0.0 && Ready(f.crane) && f.mode != Can.Slave && f.canAddr != 1 && Quiet(i, 1)
    ensures var g := Pass(b, f, i, now);
            && g.mode == Can.Master && g.canAddr == 1 && g.crane.presets == f.crane.presets
            && (g.crane.mode == f.crane.mode || (f.crane.mode == Auto && g.crane.mode == Manual))
            && (f.crane.mode != Auto ==> g.crane == f.crane)
  {
    SenseReady(b, f, i, now);
    var s := Sense(b, f, i, now);
    assert s.crane == f.crane && s.canAddr == f.canAddr by { hide Controls, Can.Clocked; }
    hide Sense, Operate, NextPitch, NextYaw, Ready, Rated, Clock, TakenOver;
    UpdateStateReady(b, s, i);
    NothingPressed(b.setup, s.crane, s.measured, i, 1, PRESET_COUNT);
  }

  /** What `fb_check_link_state` and the control stage make of the control mode when no button is used. */
  lemma QuietSlaveMode(b: Board, f: State, i: Inputs, now: nat)
    requires b.setup.lib.pi > 0.0 && Ready(f.crane) && f.mode == Can.Slave && Quiet(i, f.canAddr) && !i.useLocal
    ensures var (g, c) := (Pass(b, f, i, now), f.crane.mode);
            && g.mode == Can.Slave && g.canAddr == f.canAddr
            && if Can.Finding(Can.Slave, f.link, now) != Can.Down then g.crane.mode == Remote
               else if c == Remote || c == NoMotion then g.crane.mode == NoMotion
               else if c == Manual then g.crane.mode == Manual
               else g.crane.mode == Auto || g.crane.mode == Manual
  {
    QuietPass(b, f, i, now);
    hide Pass, NextPitch, NextYaw, Controls, YawAngle, Filter.Next, ScaleInput, Unwrap, Rated, Ready, ClockAxes, TakenOver, Quiet;
  }

  /** A pass that finds the demands fresh makes any slave obey the link; one that finds them too old stops
      it exactly if it obeyed already, and not while it flies a preset or is steered by hand. */
  lemma ObeysIff(b: Board, f: State, i: Inputs, now: nat)
    requires b.setup.lib.pi > 0.0 && Ready(f.crane) && f.mode == Can.Slave && Quiet(i, f.canAddr) && !i.useLocal
    ensures Can.Finding(Can.Slave, f.link, now) != Can.Down ==> Pass(b, f, i, now).crane.mode == Remote
    ensures Can.Finding(Can.Slave, f.link, now) == Can.Down ==>
              (Pass(b, f, i, now).crane.mode == NoMotion <==> ObeysLink(f))
  {
    hide Pass, Ready, Quiet;
    QuietSlaveMode(b, f, i, now);
  }

  /** Anything may arrive, and nobody touches the crane. */
  predicate Attended(addr: int, e: Event) {
    e.Passed? ==> Quiet(e.i, addr) && !e.i.useLocal
  }

  predicate OnlyTheLink(addr: int, events: seq<Event>) {
    forall e :: e in events ==> Attended(addr, e)
  }

  lemma LinkTail(addr: int, events: seq<Event>)
    requires OnlyTheLink(addr, events)
    ensures forall e :: e in events ==> Possible(e)
    ensures events != [] ==> Attended(addr, events[0]) && OnlyTheLink(addr, events[1..])
  {
    forall e | e in events
      ensures Possible(e)
    {
      assert Attended(addr, e);
    }
  }

  lemma ObeysStep(b: Board, f: State, e: Event)
    requires b.setup.lib.pi > 0.0 && Ready(f.crane) && ObeysLink(f) && Attended(f.canAddr, e) && Possible(e)
    ensures ObeysLink(Step(b, f, e)) && Step(b, f, e).canAddr == f.canAddr
  {
    hide Pass, Ready, Quiet;
    if e.Passed? {
      QuietSlaveMode(b, f, e.i, e.now);
    }
  }

  lemma {:induction false} ObeysRun(b: Board, f: State, events: seq<Event>)
    requires b.setup.lib.pi > 0.0 && Ready(f.crane) && ObeysLink(f) && OnlyTheLink(f.canAddr, events)
    ensures forall e :: e in events ==> Possible(e)
    ensures var g := Run(b, f, events); ObeysLink(g) && g.canAddr == f.canAddr && Ready(g.crane)
    decreases |events|
  {
    LinkTail(f.canAddr, events);
    if events != [] {
      hide Step, Ready, ObeysLink, OnlyTheLink, Attended;
      StepReady(b, f, events[0]);
      ObeysStep(b, f, events[0]);
      ObeysRun(b, Step(b, f, events[0]), events[1..]);
    }
  }

  /** When a pass last found the deadline over, and how many passes there were since. */
  datatype Since = Since(expiry: nat, passes: nat)

  /** The deadline is 50 ms after the pass that last found it over. */
  function Tally(s: Since, e: Event): Since {
    match e
    case Wrote(_, _, _) => s
    case Passed(_, now) => if now >= s.expiry + Can.REMOTE_TIMEOUT then Since(now, 0) else s.(passes := s.passes + 1)
  }

  function TallyAll(s: Since, events: seq<Event>): Since
    decreases |events|
  {
    if events == [] then s else TallyAll(Tally(s, events[0]), events[1..])
  }

  /** Demands that never change again: both deadlines were re-armed at `expiry`, when the output was zero,
      and `j` passes have driven towards the stale demands since. The link is reported down, and the crane
      stopped, just by the pass that re-armed them. */
  ghost predicate Stale(f: State, pitch: int, yaw: int, expiry: nat, j: nat) {
    && ObeysLink(f) && Ready(f.crane) && SoundRemote(f.link.remote)
    && (f.link.timedOut <==> j == 0)
    && f.crane.mode == (if j == 0 then NoMotion else Remote)
    && f.link.remote == Can.Remote(pitch, yaw, expiry + Can.REMOTE_TIMEOUT, expiry + Can.REMOTE_TIMEOUT)
    && Abs(f.pitchOut) <= Reach(4.0, j)
    && f.yawOut == Line(0.0, yaw as real * 0.001, Reach(4.0, j))
  }

  lemma NextPitchGrowth(stops: EndStops, measured: real, out: real, demand: real, j: nat)
    requires Abs(out) <= Reach(4.0, j)
    ensures Abs(NextPitch(stops, measured, out, demand, Rates(1.0, 4.0))) <= Reach(4.0, j + 1)
  {
    NextNearDemand(stops, measured, out, demand, Rates(1.0, 4.0));
    SlewBetween(out, Constrain(demand, -1.0, 1.0), 4.0);
    ReachGrows(4.0, j);
    hide Slew, NextPitch, NextYaw, Reach;
  }

  lemma NextYawOnLine(demand: int, j: nat)
    requires -1000 <= demand <= 1000
    ensures var d := demand as real * 0.001;
            NextYaw(Line(0.0, d, Reach(4.0, j)), d, Rates(1.0, 4.0)) == Line(0.0, d, Reach(4.0, j + 1))
  {
    var d := demand as real * 0.001;
    ReachGrows(4.0, j);
    ReachGrows(4.0, j + 1);
    SlewAlongLine(0.0, d, 4.0, Reach(4.0, j));
    LineBetween(0.0, d, Reach(4.0, j + 1), 1.0);
    hide Slew, Line, Reach;
  }

  lemma LineStart(demand: real)
    ensures Reach(4.0, 0) == 0.0 && Line(0.0, demand, Reach(4.0, 0)) == 0.0
  {
    ReachGrows(4.0, 0);
    hide Reach;
  }

  lemma ModeKeepsReady(c: Crane, mode: ControlMode)
    requires Ready(c)
    ensures Ready(c.(mode := mode))
  {
  }

  lemma ExpiryStops(b: Board, f: State, i: Inputs, now: nat)
    requires b.setup.lib.pi > 0.0 && Ready(f.crane) && ObeysLink(f) && Quiet(i, f.canAddr) && !i.useLocal
    requires SoundRemote(f.link.remote) && Can.Finding(Can.Slave, f.link, now) == Can.Down
    ensures Stale(Pass(b, f, i, now), f.link.remote.pitch, f.link.remote.yaw, now, 0)
    ensures Pass(b, f, i, now).canAddr == f.canAddr
  {
    hide Pass, Line, Reach, NextPitch, NextYaw, Ready, Quiet;
    SlavePass(b, f, i, now);
    LineStart(f.link.remote.yaw as real * 0.001);
    ModeKeepsReady(f.crane, NoMotion);
  }

  lemma StalePass(b: Board, f: State, i: Inputs, now: nat, pitch: int, yaw: int, expiry: nat, j: nat)
    requires b.setup.lib.pi > 0.0 && Stale(f, pitch, yaw, expiry, j) && Quiet(i, f.canAddr) && !i.useLocal
    requires now < expiry + Can.REMOTE_TIMEOUT
    ensures Stale(Pass(b, f, i, now), pitch, yaw, expiry, j + 1) && Pass(b, f, i, now).canAddr == f.canAddr
  {
    assert i.Valid();
    hide Pass, Line, Reach, NextPitch, NextYaw, Stale, Ready, Quiet;
    StaleWaits(f, pitch, yaw, expiry, j, now);
    SlavePass(b, f, i, now);
    StaleDriven(b, f, Pass(b, f, i, now), pitch, yaw, expiry, j);
  }

  lemma StaleWaits(f: State, pitch: int, yaw: int, expiry: nat, j: nat, now: nat)
    requires Stale(f, pitch, yaw, expiry, j) && now < expiry + Can.REMOTE_TIMEOUT
    ensures Ready(f.crane) && ObeysLink(f)
    ensures Can.Finding(Can.Slave, f.link, now) != Can.Down && Can.Clocked(Can.Slave, f.link, now) == f.link.(timedOut := false)
  {
    hide Ready, Reach, Line;
  }

  /** `g` is `f` after a pass that found the link up: both outputs are one step nearer to the demands. */
  predicate Driven(b: Board, f: State, g: State) {
    && g.mode == f.mode && g.canAddr == f.canAddr && g.link == f.link.(timedOut := false)
    && g.crane == f.crane.(mode := Remote)
    && g.pitchOut == NextPitch(b.stops, g.measured.pitch, f.pitchOut, f.link.remote.pitch as real * 0.001, Rates(1.0, 4.0))
    && g.yawOut == NextYaw(f.yawOut, f.link.remote.yaw as real * 0.001, Rates(1.0, 4.0))
  }

  lemma StaleDriven(b: Board, f: State, g: State, pitch: int, yaw: int, expiry: nat, j: nat)
    requires Stale(f, pitch, yaw, expiry, j) && Driven(b, f, g)
    ensures Stale(g, pitch, yaw, expiry, j + 1)
  {
    hide Line, Reach, NextPitch, NextYaw, Ready;
    NextPitchGrowth(b.stops, g.measured.pitch, f.pitchOut, pitch as real * 0.001, j);
    NextYawOnLine(yaw, j);
    ModeKeepsReady(f.crane, Remote);
  }

  /** Nothing comes over the bus that is a demand, and nobody touches the crane. */
  predicate Untouched(addr: int, e: Event) {
    match e
    case Wrote(o, _, _) => o != Can.PitchDemand && o != Can.YawDemand
    case Passed(i, _) => Quiet(i, addr) && !i.useLocal
  }

  predicate DemandsStopped(addr: int, events: seq<Event>) {
    forall e :: e in events ==> Untouched(addr, e)
  }

  lemma StoppedTail(addr: int, events: seq<Event>)
    requires DemandsStopped(addr, events)
    ensures forall e :: e in events ==> Possible(e)
    ensures events != [] ==> Untouched(addr, events[0]) && DemandsStopped(addr, events[1..])
  {
    forall e | e in events
      ensures Possible(e)
    {
      assert Untouched(addr, e);
    }
  }

  /** Passes are at least `gap` microseconds apart, counted from a pass at `last`. */
  predicate Spaced(gap: nat, last: nat, events: seq<Event>)
    decreases |events|
  {
    events == [] ||
    if events[0].Passed? then events[0].now >= last + gap && Spaced(gap, events[0].now, events[1..])
    else Spaced(gap, last, events[1..])
  }

  lemma StaleWrite(b: Board, f: State, e: Event, pitch: int, yaw: int, expiry: nat, j: nat)
    requires b.setup.lib.pi > 0.0 && Stale(f, pitch, yaw, expiry, j) && e.Wrote? && e.o != Can.PitchDemand && e.o != Can.YawDemand
    ensures Stale(Step(b, f, e), pitch, yaw, expiry, j) && Step(b, f, e).canAddr == f.canAddr
  {
    hide Line, Reach;
  }

  lemma OneMoreGap(j: nat, gap: nat)
    ensures (j + 1) * gap == j * gap + gap
  {
  }

  lemma {:induction false} StaleRun(b: Board, f: State, events: seq<Event>, pitch: int, yaw: int, expiry: nat, j: nat, last: nat, gap: nat)
    requires b.setup.lib.pi > 0.0 && Stale(f, pitch, yaw, expiry, j)
    requires DemandsStopped(f.canAddr, events) && Spaced(gap, last, events)
    requires expiry + j * gap <= last < expiry + Can.REMOTE_TIMEOUT
    ensures forall e :: e in events ==> Possible(e)
    ensures var s := TallyAll(Since(expiry, j), events);
            Stale(Run(b, f, events), pitch, yaw, s.expiry, s.passes) && s.passes * gap < Can.REMOTE_TIMEOUT
    decreases |events|
  {
    StoppedTail(f.canAddr, events);
    StaleIsReady(f, pitch, yaw, expiry, j);
    hide Stale, Pass, Quiet, Ready, DemandsStopped, Line, Reach;
    if events != [] {
      var e := events[0];
      var g := Step(b, f, e);
      StepReady(b, f, e);
      if e.Wrote? {
        StaleWrite(b, f, e, pitch, yaw, expiry, j);
        StaleRun(b, g, events[1..], pitch, yaw, expiry, j, last, gap);
      } else if e.now < expiry + Can.REMOTE_TIMEOUT {
        StalePass(b, f, e.i, e.now, pitch, yaw, expiry, j);
        OneMoreGap(j, gap);
        StaleRun(b, g, events[1..], pitch, yaw, expiry, j + 1, e.now, gap);
      } else {
        StaleExpires(b, f, e.i, e.now, pitch, yaw, expiry, j);
        StaleRun(b, g, events[1..], pitch, yaw, e.now, 0, e.now, gap);
      }
    }
  }

  lemma StaleExpires(b: Board, f: State, i: Inputs, now: nat, pitch: int, yaw: int, expiry: nat, j: nat)
    requires b.setup.lib.pi > 0.0 && Stale(f, pitch, yaw, expiry, j) && Quiet(i, f.canAddr) && !i.useLocal
    requires now >= expiry + Can.REMOTE_TIMEOUT
    ensures Stale(Pass(b, f, i, now), pitch, yaw, now, 0) && Pass(b, f, i, now).canAddr == f.canAddr
  {
    hide Pass, Line, Reach;
    ExpiryStops(b, f, i, now);
  }

  lemma {:induction false} RealProduct(j: nat, gap: nat)
    ensures (j * gap) as real == j as real * gap as real
    decreases j
  {
    if j > 0 {
      RealProduct(j - 1, gap);
      assert j * gap == (j - 1) * gap + gap;
      assert j as real * gap as real == (j - 1) as real * gap as real + gap as real;
    }
  }

  function TimesGap(x: real, gap: nat): real {
    x * gap as real
  }

  lemma ReachTimesGap(j: nat, gap: nat)
    ensures TimesGap(Reach(4.0, j), gap) == 0.004 * (j as real * gap as real)
  {
  }

  lemma ReachInPeriod(j: nat, gap: nat)
    requires j * gap < Can.REMOTE_TIMEOUT
    ensures TimesGap(Reach(4.0, j), gap) < 200.0
  {
    RealProduct(j, gap);
    ReachTimesGap(j, gap);
    hide Reach, TimesGap;
  }

  lemma TimesGapOrdered(x: real, r: real, gap: nat)
    requires x <= r
    ensures TimesGap(x, gap) <= TimesGap(r, gap)
  {
    assert (r - x) * gap as real >= 0.0;
  }

  lemma LineWithin(demand: real, distance: real)
    requires distance >= 0.0
    ensures Abs(Line(0.0, demand, distance)) <= distance
  {
  }

  lemma StaleBounded(f: State, pitch: int, yaw: int, expiry: nat, j: nat, gap: nat)
    requires Stale(f, pitch, yaw, expiry, j) && j * gap < Can.REMOTE_TIMEOUT
    ensures TimesGap(Abs(f.pitchOut), gap) < 200.0 && TimesGap(Abs(f.yawOut), gap) < 200.0
  {
    hide Reach, Line, Abs, TimesGap;
    var r := Reach(4.0, j);
    ReachInPeriod(j, gap);
    ReachGrows(4.0, j);
    LineWithin(yaw as real * 0.001, r);
    TimesGapOrdered(Abs(f.yawOut), r, gap);
    TimesGapOrdered(Abs(f.pitchOut), r, gap);
  }

  lemma StaleIsReady(f: State, pitch: int, yaw: int, expiry: nat, j: nat)
    requires Stale(f, pitch, yaw, expiry, j)
    ensures Ready(f.crane)
  {
    hide Ready, Reach, Line;
  }

  lemma LineLeavesZero(yaw: int, j: nat)
    ensures Line(0.0, yaw as real * 0.001, Reach(4.0, j)) == 0.0 <==> j == 0 || yaw == 0
  {
    assert yaw > 0 ==> yaw as real * 0.001 > 0.0;
    assert yaw < 0 ==> yaw as real * 0.001 < 0.0;
    assert j > 0 ==> Reach(4.0, j) > 0.0;
    assert Reach(4.0, 0) == 0.0;
    hide Reach;
  }

  /** What a slave does `s.passes` passes after it last stopped, about demands that are never renewed. */
  ghost predicate Sawtooth(g: State, yaw: int, s: Since) {
    && (g.link.timedOut <==> s.passes == 0)
    && g.crane.mode == (if s.passes == 0 then NoMotion else Remote)
    && g.yawOut == Line(0.0, yaw as real * 0.001, Reach(4.0, s.passes))
    && (g.yawOut == 0.0 <==> s.passes == 0 || yaw == 0)
    && Abs(g.pitchOut) <= Reach(4.0, s.passes)
    && (s.passes == 0 ==> g.pitchOut == 0.0)
  }

  lemma StaleIsSawtooth(g: State, pitch: int, yaw: int, s: Since)
    requires Stale(g, pitch, yaw, s.expiry, s.passes)
    ensures Sawtooth(g, yaw, s)
  {
    LineLeavesZero(yaw, s.passes);
    LineStart(0.0);
    hide Reach, Line, Ready;
  }

  /** Once the demands have stopped and a pass has found one too old, the output is a sawtooth. It is zero
      after exactly the passes that find the deadline over, and each of those re-arms it. After every other
      pass the link is up and yaw is on the straight line at 4 * acc towards the stale demand, away from
      zero unless that is the demand; pitch goes no further than that line. With passes at least `gap`
      microseconds apart both stay below 200 / gap: 0.2 at the nominal 1 ms. */
  lemma StaleDemandIsContained(b: Board, f: State, i: Inputs, now: nat, events: seq<Event>, gap: nat)
    requires b.setup.lib.pi > 0.0 && Ready(f.crane) && ObeysLink(f) && SoundRemote(f.link.remote)
    requires Quiet(i, f.canAddr) && !i.useLocal && Can.Finding(Can.Slave, f.link, now) == Can.Down
    requires DemandsStopped(f.canAddr, events) && Spaced(gap, now, events)
    ensures Ready(Pass(b, f, i, now).crane) && forall e :: e in events ==> Possible(e)
    ensures var (g, s) := (Run(b, Pass(b, f, i, now), events), TallyAll(Since(now, 0), events));
            && Sawtooth(g, f.link.remote.yaw, s) && s.passes * gap < Can.REMOTE_TIMEOUT
            && g.link.remote == f.link.remote.(pitchTimeout := s.expiry + Can.REMOTE_TIMEOUT, yawTimeout := s.expiry + Can.REMOTE_TIMEOUT)
            && TimesGap(Abs(g.pitchOut), gap) < 200.0 && TimesGap(Abs(g.yawOut), gap) < 200.0
  {
    assert i.Valid();
    var (pitch, yaw) := (f.link.remote.pitch, f.link.remote.yaw);
    hide Pass, Reach, Line, Run, Quiet, Ready, Abs, Spaced, DemandsStopped, TimesGap, TallyAll, Sawtooth;
    ExpiryStops(b, f, i, now);
    var g := Pass(b, f, i, now);
    StaleIsReady(g, pitch, yaw, now, 0);
    StaleRun(b, g, events, pitch, yaw, now, 0, now, gap);
    var s := TallyAll(Since(now, 0), events);
    StaleIsSawtooth(Run(b, g, events), pitch, yaw, s);
    StaleBounded(Run(b, g, events), pitch, yaw, s.expiry, s.passes, gap);
  }

  /** A unit is started and addressed as a slave, and obeys the link from then on. */
  lemma SlaveFromStart(b: Board, start: nat, i: Inputs, now: nat, events: seq<Event>)
    requires Configured(b) && i.Valid() && i.canAddr != Start(start).canAddr && i.canAddr != MASTER_ADDRESS
    requires OnlyTheLink(i.canAddr, events)
    ensures Ready(Start(start).crane) && forall e :: e in [Passed(i, now)] + events ==> Possible(e)
    ensures var f := Run(b, Start(start), [Passed(i, now)] + events);
            Ready(f.crane) && ObeysLink(f) && SoundState(b, f) && f.canAddr == i.canAddr
  {
    var s := Start(start);
    assert ([Passed(i, now)] + events)[1..] == events;
    StartSound(b, start);
    assert Ready(s.crane) && b.setup.lib.pi > 0.0;
    LinkTail(i.canAddr, events);
    hide Pass, Ready, SoundState, ObeysLink, OnlyTheLink, Attended, Start, Configured;
    NewSlaveObeys(b, s, i, now);
    StepReady(b, s, Passed(i, now));
    ObeysRun(b, Pass(b, s, i, now), events);
    RunSafe(b, start, [Passed(i, now)] + events);
  }

  /** The sawtooth, from start-up: a unit is started and addressed as a slave, anything arrives over the bus
      for any time, a pass finds a demand too old, and from then on none is renewed. */
  lemma StaleFromStart(b: Board, start: nat, i0: Inputs, t0: nat, before: seq<Event>, i: Inputs, now: nat, events: seq<Event>, gap: nat)
    requires Configured(b) && i0.Valid() && i0.canAddr != Start(start).canAddr && i0.canAddr != MASTER_ADDRESS
    requires OnlyTheLink(i0.canAddr, before) && Quiet(i, i0.canAddr) && !i.useLocal
    requires DemandsStopped(i0.canAddr, events) && Spaced(gap, now, events)
    ensures Ready(Start(start).crane) && forall e :: e in [Passed(i0, t0)] + before ==> Possible(e)
    ensures var f := Run(b, Start(start), [Passed(i0, t0)] + before);
            && Ready(f.crane) && i.Valid() && Ready(Pass(b, f, i, now).crane) && forall e :: e in events ==> Possible(e)
    ensures var f := Run(b, Start(start), [Passed(i0, t0)] + before);
            var (g, s) := (Run(b, Pass(b, f, i, now), events), TallyAll(Since(now, 0), events));
            Can.Finding(Can.Slave, f.link, now) == Can.Down ==>
              && Sawtooth(g, f.link.remote.yaw, s) && s.passes * gap < Can.REMOTE_TIMEOUT
              && TimesGap(Abs(g.pitchOut), gap) < 200.0 && TimesGap(Abs(g.yawOut), gap) < 200.0
  {
    assert i.Valid() && b.setup.lib.pi > 0.0;
    hide Pass, Run, Ready, ObeysLink, OnlyTheLink, Quiet, Start, Sawtooth, TallyAll, TimesGap, Abs, Spaced, DemandsStopped, SoundCrane, Configured;
    SlaveFromStart(b, start, i0, t0, before);
    StoppedTail(i0.canAddr, events);
    var f := Run(b, Start(start), [Passed(i0, t0)] + before);
    PassReady(b, f, i, now);
    if Can.Finding(Can.Slave, f.link, now) == Can.Down {
      StaleDemandIsContained(b, f, i, now, events, gap);
    }
  }

  // ----- the object

  method Happen(fb: Fb, e: Event)
    requires fb.Valid() && Ready(fb.presets.Current()) && Possible(e)
    modifies fb.Repr()
    ensures fb.Valid() && Ready(fb.presets.Current()) && fb.Current() == Step(fb.board, old(fb.Current()), e)
  {
    hide Pass, Ready, Can.Written;
    match e {
      case Wrote(o, value, now) => fb.link.Write(o, value, now);
      case Passed(i, now) => var _ := fb.Update(i, now);
    }
  }

  /** The events happening to a unit, from its start. */
  method Serve(board: Board, start: nat, events: seq<Event>) returns (fb: Fb)
    requires Configured(board) && forall e :: e in events ==> Possible(e)
    ensures fb.Valid() && fb.board == board && Ready(Start(start).crane)
    ensures fb.Current() == Run(board, Start(start), events) && SoundState(board, fb.Current())
  {
    fb := new Fb(board, start);
    ghost var s := fb.Current();
    assert s == Start(start);
    RunSafe(board, start, events);
    hide Start, SoundState, Ready, Run, Step;
    var n := 0;
    while n < |events|
      invariant n <= |events| && fb.Valid() && fb.board == board && fresh(fb.Repr())
      invariant Ready(fb.Current().crane) && Run(board, fb.Current(), events[n..]) == Run(board, Start(start), events)
    {
      RunFirst(board, fb.Current(), events[n..]);
      assert events[n..][0] == events[n] && events[n..][1..] == events[n + 1..];
      Happen(fb, events[n]);
      n := n + 1;
    }
    RunNothing(board, fb.Current());
    assert events[n..] == [];
  }

  lemma RunFirst(b: Board, f: State, events: seq<Event>)
    requires b.setup.lib.pi > 0.0 && Ready(f.crane) && (forall e :: e in events ==> Possible(e)) && events != []
    ensures Ready(Step(b, f, events[0]).crane)
    ensures Run(b, f, events) == Run(b, Step(b, f, events[0]), events[1..])
  {
    StepReady(b, f, events[0]);
    hide Step, Ready;
  }

  lemma RunNothing(b: Board, f: State)
    requires b.setup.lib.pi > 0.0 && Ready(f.crane)
    ensures Run(b, f, []) == f
  {
  }
}
