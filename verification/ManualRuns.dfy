/** Where the joysticks and the axes drive the motors: manual and automatic control, from raw readings. */
module ManualRuns {
  import opened MathLib
  import opened Control
  import opened ControlRuns
  import opened Measured
  import opened Preset
  import opened Output
  import opened Firmware
  import opened FirmwareRuns
  import opened AutoRuns
  import Can
  import Filter

  // ----- what is read of each channel

  function PitchStick(b: Board, r: Readings): real {
    Joystick(Direction(r.enc1Aux1, r.enc2Aux1), r.joyPitch as real, b.scaling.joyPitch, b.scaling.deadbandPitch)
  }

  function YawStick(b: Board, r: Readings): real {
    Joystick(Direction(r.enc1Aux2, r.enc2Aux2), r.joyYaw as real, b.scaling.joyYaw, b.scaling.deadbandYaw)
  }

  /** The rates the knobs of a channel give. */
  function PitchKnobs(b: Board, r: Readings): Rates {
    Rates(ScaleInput(r.pitchSpeed as real, b.scaling.pitchSpeed), ScaleInput(r.pitchAcc as real, b.scaling.pitchAcc))
  }

  function YawKnobs(b: Board, r: Readings): Rates {
    Rates(ScaleInput(r.yawSpeed as real, b.scaling.yawSpeed), ScaleInput(r.yawAcc as real, b.scaling.yawAcc))
  }

  lemma KnobsPositive(b: Board, r: Readings)
    ensures PitchKnobs(b, r).speed > 0.0 && PitchKnobs(b, r).acc > 0.0 && YawKnobs(b, r).speed > 0.0 && YawKnobs(b, r).acc > 0.0
  {
    hide ScaleInput;
    KnobsNeverZero(b.scaling, r.pitchSpeed);
    KnobsNeverZero(b.scaling, r.pitchAcc);
    KnobsNeverZero(b.scaling, r.yawSpeed);
    KnobsNeverZero(b.scaling, r.yawAcc);
  }

  /** What a pass measures of the controls, and that it measures nothing else of the crane. */
  lemma SenseControls(b: Board, f: State, i: Inputs, now: nat)
    requires b.setup.lib.pi > 0.0 && OnItsOwn(f, i)
    ensures var (g, r) := (Sense(b, f, i, now), i.readings);
            && g.measured.joyPitch == PitchStick(b, r) && g.measured.joyYaw == YawStick(b, r)
            && Rates(g.measured.pitchSpeed, g.measured.pitchAcc) == PitchKnobs(b, r)
            && Rates(g.measured.yawSpeed, g.measured.yawAcc) == YawKnobs(b, r)
            && g.measured.vmot == ScaleInput(r.vmot as real, b.scaling.vmot)
            && g == f.(link := g.link, yaw := g.yaw, pfilt := g.pfilt, measured := g.measured)
  {
    hide Can.Clocked, ScaleInput, YawAngle, Unwrap, Filter.Next, Joystick;
  }

  // ----- by hand

  /** Both channels are driven one tick towards their own joysticks, at the rates of their own knobs. */
  predicate Steered(b: Board, f: State, g: State, r: Readings) {
    && g.crane == f.crane && g.mode == f.mode && g.canAddr == f.canAddr
    && g.pitchOut == NextPitch(b.stops, g.measured.pitch, f.pitchOut, PitchStick(b, r), PitchKnobs(b, r))
    && g.yawOut == NextYaw(f.yawOut, YawStick(b, r), YawKnobs(b, r))
  }

  lemma ManualPass(b: Board, f: State, i: Inputs, now: nat)
    requires b.setup.lib.pi > 0.0 && Ready(f.crane) && Quiet(i, f.canAddr) && OnItsOwn(f, i) && f.crane.mode == Manual
    ensures i.Valid() && Steered(b, f, Pass(b, f, i, now), i.readings)
  {
    QuietPass(b, f, i, now);
    SenseControls(b, f, i, now);
    hide Sense, Pass, NextPitch, NextYaw, Ready, Rated, FollowMove, PitchStick, YawStick, PitchKnobs, YawKnobs, Quiet;
  }

  /** The same sticks, switches and knobs; the positions may be anything. */
  predicate SameControls(q: Readings, r: Readings) {
    q == r.(pitch := q.pitch, yaw := q.yaw, vmot := q.vmot)
  }

  /** CAN traffic of any kind, and passes in which no button is used and the controls are held as in `r`. */
  predicate Held(mode: Can.Mode, addr: int, r: Readings, e: FirmwareRuns.Event) {
    e.Passed? ==> Quiet(e.i, addr) && (mode != Can.Slave || e.i.useLocal) && SameControls(e.i.readings, r)
  }

  predicate AllHeld(mode: Can.Mode, addr: int, r: Readings, events: seq<FirmwareRuns.Event>) {
    forall e :: e in events ==> Held(mode, addr, r, e)
  }

  lemma HeldTail(mode: Can.Mode, addr: int, r: Readings, events: seq<FirmwareRuns.Event>)
    requires AllHeld(mode, addr, r, events)
    ensures forall e :: e in events ==> Possible(e)
    ensures events != [] ==> Held(mode, addr, r, events[0]) && AllHeld(mode, addr, r, events[1..])
  {
    forall e | e in events
      ensures Possible(e)
    {
      assert Held(mode, addr, r, e);
    }
  }

  predicate AllMidTravel(stops: EndStops, ms: seq<Measurement>) {
    forall m :: m in ms ==> MidTravel(stops, m.pitch)
  }

  /** An output that was `out` when it began to follow a demand, `j` ticks ago. */
  predicate OnLine(now: real, out: real, demand: real, rates: Rates, j: nat) {
    -rates.speed <= out <= rates.speed && now == Line(out, Reachable(demand, rates.speed), Reach(rates.acc, j))
  }

  lemma LineGoesOn(stops: EndStops, measured: real, now: real, out: real, demand: real, rates: Rates, j: nat)
    requires rates.acc > 0.0 && rates.speed > 0.0 && OnLine(now, out, demand, rates, j)
    ensures OnLine(NextYaw(now, demand, rates), out, demand, rates, j + 1)
    ensures MidTravel(stops, measured) ==> OnLine(NextPitch(stops, measured, now, demand, rates), out, demand, rates, j + 1)
  {
    ReachGrows(rates.acc, j);
    hide Line, Reach, Reachable, NextYaw, NextPitch, MidTravel;
    NextOnLine(stops, measured, out, demand, rates, Reach(rates.acc, j));
  }

  lemma SameSticks(b: Board, q: Readings, r: Readings)
    requires SameControls(q, r)
    ensures PitchStick(b, q) == PitchStick(b, r) && YawStick(b, q) == YawStick(b, r)
    ensures PitchKnobs(b, q) == PitchKnobs(b, r) && YawKnobs(b, q) == YawKnobs(b, r)
  {
    hide Joystick, ScaleInput;
  }

  /** Both lines go on for one more pass. */
  lemma SteeredOn(b: Board, f: State, g: State, q: Readings, r: Readings, pitch: real, yaw: real, j: nat, k: nat)
    requires Steered(b, f, g, q) && SameControls(q, r)
    ensures OnLine(f.yawOut, yaw, YawStick(b, r), YawKnobs(b, r), j)
        ==> OnLine(g.yawOut, yaw, YawStick(b, r), YawKnobs(b, r), j + 1)
    ensures OnLine(f.pitchOut, pitch, PitchStick(b, r), PitchKnobs(b, r), k) && MidTravel(b.stops, g.measured.pitch)
        ==> OnLine(g.pitchOut, pitch, PitchStick(b, r), PitchKnobs(b, r), k + 1)
  {
    SameSticks(b, q, r);
    KnobsPositive(b, r);
    hide OnLine, PitchStick, YawStick, PitchKnobs, YawKnobs, NextPitch, NextYaw, MidTravel;
    if OnLine(f.yawOut, yaw, YawStick(b, r), YawKnobs(b, r), j) {
      LineGoesOn(b.stops, g.measured.pitch, f.yawOut, yaw, YawStick(b, r), YawKnobs(b, r), j);
    }
    if OnLine(f.pitchOut, pitch, PitchStick(b, r), PitchKnobs(b, r), k) {
      LineGoesOn(b.stops, g.measured.pitch, f.pitchOut, pitch, PitchStick(b, r), PitchKnobs(b, r), k);
    }
  }

  lemma {:induction false} SteeredRun(b: Board, f: State, events: seq<FirmwareRuns.Event>, r: Readings, pitch: real, yaw: real, j: nat)
    requires b.setup.lib.pi > 0.0 && Ready(f.crane) && f.crane.mode == Manual && AllHeld(f.mode, f.canAddr, r, events)
    ensures forall e :: e in events ==> Possible(e)
    ensures var (g, ms) := (Run(b, f, events), Seen(b, f, events));
            && g.crane == f.crane
            && (OnLine(f.yawOut, yaw, YawStick(b, r), YawKnobs(b, r), j) ==>
                  OnLine(g.yawOut, yaw, YawStick(b, r), YawKnobs(b, r), j + |ms|))
            && (OnLine(f.pitchOut, pitch, PitchStick(b, r), PitchKnobs(b, r), j) && AllMidTravel(b.stops, ms) ==>
                  OnLine(g.pitchOut, pitch, PitchStick(b, r), PitchKnobs(b, r), j + |ms|))
    decreases |events|
  {
    HeldTail(f.mode, f.canAddr, r, events);
    hide Pass, AllHeld, Ready, OnLine, PitchStick, YawStick, PitchKnobs, YawKnobs, Steered, Quiet, SameControls, MidTravel;
    if events != [] {
      var e := events[0];
      StepReady(b, f, e);
      var g := Step(b, f, e);
      if e.Passed? {
        ManualPass(b, f, e.i, e.now);
        SteeredKeeps(b, f, g, e.i.readings);
        SteeredOn(b, f, g, e.i.readings, r, pitch, yaw, j, j);
        SteeredRun(b, g, events[1..], r, pitch, yaw, j + 1);
        FirstSeen(b.stops, g.measured, Seen(b, g, events[1..]));
      } else {
        SteeredRun(b, g, events[1..], r, pitch, yaw, j);
        assert Seen(b, f, events) == Seen(b, g, events[1..]);
      }
    }
  }

  lemma SteeredKeeps(b: Board, f: State, g: State, r: Readings)
    requires Steered(b, f, g, r)
    ensures g.crane == f.crane && g.mode == f.mode && g.canAddr == f.canAddr
  {
    hide NextPitch, NextYaw, PitchStick, YawStick, PitchKnobs, YawKnobs;
  }

  lemma FirstSeen(stops: EndStops, m: Measurement, ms: seq<Measurement>)
    ensures AllMidTravel(stops, [m] + ms) ==> MidTravel(stops, m.pitch) && AllMidTravel(stops, ms)
  {
    hide MidTravel;
    if AllMidTravel(stops, [m] + ms) {
      assert m in [m] + ms;
      forall n | n in ms
        ensures MidTravel(stops, n.pitch)
      {
        assert n in [m] + ms;
      }
    }
  }

  lemma LineBegins(out: real, demand: real, rates: Rates)
    requires rates.speed >= 0.0 && -rates.speed <= out <= rates.speed
    ensures OnLine(out, out, demand, rates, 0)
  {
  }

  /** Steered by hand with the controls held, each output goes in a straight line from where it was towards
      its own joystick, at its own knob's acceleration, as far as its own knob's speed; on pitch outside the
      slow zones. What the other channel's stick and knobs say does not matter, nor does anything on the bus. */
  lemma ManualRun(b: Board, f: State, events: seq<FirmwareRuns.Event>, r: Readings)
    requires b.setup.lib.pi > 0.0 && Ready(f.crane) && f.crane.mode == Manual && AllHeld(f.mode, f.canAddr, r, events)
    ensures forall e :: e in events ==> Possible(e)
    ensures var (g, ms) := (Run(b, f, events), Seen(b, f, events));
            var (p, y) := (PitchKnobs(b, r), YawKnobs(b, r));
            && g.crane == f.crane
            && (Abs(f.yawOut) <= y.speed ==>
                  g.yawOut == Line(f.yawOut, Reachable(YawStick(b, r), y.speed), Reach(y.acc, |ms|)))
            && (Abs(f.pitchOut) <= p.speed && AllMidTravel(b.stops, ms) ==>
                  g.pitchOut == Line(f.pitchOut, Reachable(PitchStick(b, r), p.speed), Reach(p.acc, |ms|)))
  {
    hide AllHeld, Ready, Run, Seen, Line, Reach, Reachable, PitchStick, YawStick, PitchKnobs, YawKnobs, AllMidTravel;
    var (p, y) := (PitchKnobs(b, r), YawKnobs(b, r));
    SteeredRun(b, f, events, r, f.pitchOut, f.yawOut, 0);
    if Abs(f.yawOut) <= y.speed {
      LineBegins(f.yawOut, YawStick(b, r), y);
    }
    if Abs(f.pitchOut) <= p.speed {
      LineBegins(f.pitchOut, PitchStick(b, r), p);
    }
  }

  // ----- automatically

  lemma AutoControls(b: Board, f: State, i: Inputs, now: nat)
    requires b.setup.lib.pi > 0.0 && Ready(f.crane) && Quiet(i, f.canAddr) && OnItsOwn(f, i) && f.crane.mode == Auto
    ensures i.Valid()
    ensures var g := Pass(b, f, i, now);
            var c := ClockAxes(b.setup, f.crane, g.measured);
            && g.pitchOut == NextPitch(b.stops, g.measured.pitch, f.pitchOut, -c.updown.output, Rates(1.0, 8.0))
            && g.yawOut == NextYaw(f.yawOut, -c.leftright.output, Rates(1.0, 4.0))
            && g.crane == if Abs(PitchStick(b, i.readings)) > b.scaling.deadbandPitch || Abs(YawStick(b, i.readings)) > b.scaling.deadbandYaw
                          then c.(updown := STOPPED, leftright := STOPPED, mode := Manual) else c
  {
    assert i.Valid();
    hide Sense, Pass, NextPitch, NextYaw, Ready, Rated, ClockAxes, PitchStick, YawStick, PitchKnobs, YawKnobs, Quiet, UpdateControl, OnItsOwn;
    QuietPass(b, f, i, now);
    SenseControls(b, f, i, now);
    AutoStage(b, Sense(b, f, i, now));
  }

  lemma AutoStage(b: Board, f: State)
    requires b.setup.lib.pi > 0.0 && Ready(f.crane) && f.crane.mode == Auto
    ensures var g := UpdateControl(b, f);
            var c := ClockAxes(b.setup, f.crane, f.measured);
            && g.measured == f.measured
            && g.pitchOut == NextPitch(b.stops, f.measured.pitch, f.pitchOut, -c.updown.output, Rates(1.0, 8.0))
            && g.yawOut == NextYaw(f.yawOut, -c.leftright.output, Rates(1.0, 4.0))
            && g.crane == if Abs(f.measured.joyPitch) > b.scaling.deadbandPitch || Abs(f.measured.joyYaw) > b.scaling.deadbandYaw
                          then c.(updown := STOPPED, leftright := STOPPED, mode := Manual) else c
  {
    hide NextPitch, NextYaw, Ready, ClockAxes, Abs;
  }

  /** In an automatic move each output slews towards the negated output of its own axis: yaw by 0.004 a pass,
      and pitch, outside the slow zones, by 0.008. The move ends, and both axes with it, in the pass in which
      either stick is beyond its own deadband. */
  lemma AutoDrives(b: Board, f: State, i: Inputs, now: nat)
    requires Configured(b) && SoundState(b, f) && Ready(f.crane)
    requires Quiet(i, f.canAddr) && OnItsOwn(f, i) && f.crane.mode == Auto
    ensures i.Valid()
    ensures var g := Pass(b, f, i, now);
            var c := ClockAxes(b.setup, f.crane, g.measured);
            var touched := Abs(PitchStick(b, i.readings)) > b.scaling.deadbandPitch || Abs(YawStick(b, i.readings)) > b.scaling.deadbandYaw;
            && g.yawOut == Line(f.yawOut, -c.leftright.output, 0.004)
            && (MidTravel(b.stops, g.measured.pitch) ==> g.pitchOut == Line(f.pitchOut, -c.updown.output, 0.008))
            && g.crane.mode == (if touched then Manual else Auto)
            && (touched ==> g.crane.updown == STOPPED && g.crane.leftright == STOPPED)
            && (!touched ==> g.crane.updown == c.updown && g.crane.leftright == c.leftright)
  {
    AutoControls(b, f, i, now);
    var g := Pass(b, f, i, now);
    AxesStaySound(b, f, g.measured);
    hide Pass, NextPitch, NextYaw, Ready, SoundState, Configured, PitchStick, YawStick, Quiet, Line, MidTravel, OnItsOwn;
    var c := ClockAxes(b.setup, f.crane, g.measured);
    assert c.mode == Auto;
    hide ClockAxes;
    OneTick(b.stops, g.measured.pitch, f.pitchOut, -c.updown.output, 8.0);
    OneTick(b.stops, g.measured.pitch, f.yawOut, -c.leftright.output, 4.0);
  }

  lemma AxesStaySound(b: Board, f: State, m: Measurement)
    requires Configured(b) && SoundState(b, f) && Ready(f.crane)
    ensures var c := ClockAxes(b.setup, f.crane, m); InUnit(c.updown.output) && InUnit(c.leftright.output)
    ensures InUnit(f.pitchOut) && InUnit(f.yawOut)
  {
    ClockSound(b.setup.lib, b.setup.updown, SetInput(f.crane.updown, Input(m.pitch, 0.0)));
    ClockSound(b.setup.lib, b.setup.leftright, SetInput(f.crane.leftright, Input(m.yaw, 0.0)));
    hide Clock;
  }

  lemma OneTick(stops: EndStops, measured: real, out: real, demand: real, acc: real)
    requires InUnit(out) && InUnit(demand) && acc > 0.0
    ensures NextYaw(out, demand, Rates(1.0, acc)) == Line(out, demand, acc * 0.001)
    ensures MidTravel(stops, measured) ==> NextPitch(stops, measured, out, demand, Rates(1.0, acc)) == Line(out, demand, acc * 0.001)
  {
    NextOnLine(stops, measured, out, demand, Rates(1.0, acc), 0.0);
    assert Reachable(demand, 1.0) == demand && Line(out, demand, 0.0) == out;
    hide NextYaw, NextPitch, MidTravel;
  }
}
