/** One pass of the control loop, from the CAN watchdog to the motor outputs. */
module Firmware {
  import opened MathLib
  import opened Control
  import opened Measured
  import opened Preset
  import opened Output
  import Can
  import Filter

  const MASTER_ADDRESS: int := 1

  /** What is configured. */
  datatype Board = Board(setup: Setup, stops: EndStops, scaling: Scaling) {
    ghost predicate Valid() {
      setup.Valid()
    }
  }

  /** What is read in one pass. */
  datatype Inputs = Inputs(readings: Readings, switches: seq<Switch>, canAddr: int, useLocal: bool) {
    predicate Valid() {
      |switches| == PRESET_COUNT
    }
  }

  datatype State = State(
    link: Can.Link, yaw: Yaw, pfilt: Filter.History, measured: Measurement,
    crane: Crane, mode: Can.Mode, canAddr: int, pitchOut: real, yawOut: real)

  /** A pending move has limits to plan with. */
  predicate Startable(x: Axis) {
    x.start ==> x.limits.AllSet()
  }

  predicate Ready(c: Crane) {
    |c.presets| == PRESET_COUNT && Startable(c.updown) && Startable(c.leftright)
  }

  // ----- the stages of a pass

  /** `fb_check_link_state`. */
  function CheckLinkState(mode: Can.Mode, useLocal: bool, timedOut: bool, control: ControlMode): ControlMode {
    if mode == Can.Slave && !useLocal then
      if !timedOut then Remote else if control == Remote then NoMotion else control
    else control
  }

  function Measure(b: Board, f: State, r: Readings): State
    requires b.setup.lib.pi > 0.0
  {
    var master := f.mode == Can.Master;
    var slave := f.link.slave;
    var pfilt := if master then Filter.Next(Filter.PITCH, f.pfilt, slave.pitch as real / 1000.0) else f.pfilt;
    var yaw := if master then f.yaw else Unwrap(f.yaw, r.yaw);
    f.(pfilt := pfilt, yaw := yaw,
       measured := Controls(f.measured, b.scaling, r).(
         pitch := if master then pfilt.out0 else ScaleInput(r.pitch as real, b.scaling.pitch),
         yaw := if master then slave.yaw as real / 1000.0 else YawAngle(b.setup.lib.pi, yaw.ticks)))
  }

  lemma MeasuredIsRated(b: Board, f: State, r: Readings)
    requires b.setup.lib.pi > 0.0
    ensures Rated(Measure(b, f, r).measured)
    ensures var m := Measure(b, f, r).measured; m.pitchSpeed >= 0.0 && m.pitchAcc >= 0.0 && m.yawSpeed >= 0.0 && m.yawAcc >= 0.0
  {
    hide ScaleInput, Joystick;
    KnobsNeverZero(b.scaling, r.pitchAcc);
    KnobsNeverZero(b.scaling, r.pitchSpeed);
    KnobsNeverZero(b.scaling, r.yawAcc);
    KnobsNeverZero(b.scaling, r.yawSpeed);
  }

  /** `_fb_check_mode`: the address switch decides who is master; a new slave obeys the link. */
  function CheckMode(f: State, addr: int): State {
    if f.canAddr == addr then f
    else if addr == MASTER_ADDRESS then f.(mode := Can.Master, canAddr := addr)
    else f.(mode := Can.Slave, canAddr := addr, crane := f.crane.(mode := Remote))
  }

  function Drive(b: Board, f: State, pitch: real, yaw: real, pitchRates: Rates, yawRates: Rates): State {
    f.(pitchOut := NextPitch(b.stops, f.measured.pitch, f.pitchOut, pitch, pitchRates),
       yawOut := NextYaw(f.yawOut, yaw, yawRates))
  }

  /** The joystick is moved during an automatic move. */
  predicate TakenOver(b: Board, m: Measurement) {
    Abs(m.joyPitch) > b.scaling.deadbandPitch || Abs(m.joyYaw) > b.scaling.deadbandYaw
  }

  function ClockAxes(s: Setup, c: Crane, m: Measurement): Crane
    requires s.lib.pi > 0.0 && Ready(c)
  {
    c.(updown := Clock(s.lib, s.updown, SetInput(c.updown, Input(m.pitch, 0.0))),
       leftright := Clock(s.lib, s.leftright, SetInput(c.leftright, Input(m.yaw, 0.0))))
  }

  function FollowMove(b: Board, f: State): State
    requires b.setup.lib.pi > 0.0 && Ready(f.crane)
  {
    var c := ClockAxes(b.setup, f.crane, f.measured);
    var g := Drive(b, f.(crane := c), -c.updown.output, -c.leftright.output, Rates(1.0, 8.0), Rates(1.0, 4.0));
    if TakenOver(b, f.measured) then g.(crane := c.(updown := STOPPED, leftright := STOPPED, mode := Manual)) else g
  }

  /** `_fb_update_control`. */
  function UpdateControl(b: Board, f: State): State
    requires b.setup.lib.pi > 0.0 && Ready(f.crane)
  {
    var m := f.measured;
    match f.crane.mode
    case NoMotion => Drive(b, f, 0.0, 0.0, Rates(0.0, 1.0), Rates(0.0, 1.0))
    case Remote =>
      Drive(b, f, f.link.remote.pitch as real * 0.001, f.link.remote.yaw as real * 0.001, Rates(1.0, 4.0), Rates(1.0, 4.0))
    case Manual =>
      Drive(b, f, m.joyPitch, m.joyYaw, Rates(m.pitchSpeed, m.pitchAcc), Rates(m.yawSpeed, m.yawAcc))
    case Auto => FollowMove(b, f)
  }

  // ----- pending moves can always be planned

  lemma ClockStartable(lib: Libm, conf: Conf, x: Axis)
    requires lib.pi > 0.0 && Startable(x)
    ensures Startable(Clock(lib, conf, x))
  {
    AdvanceKeepsRequest(lib, conf, NoteCompletion(conf, x));
    hide Advance, InUnits;
  }

  lemma LoadReady(s: Setup, c: Crane, m: Measurement, k: nat)
    requires s.lib.pi > 0.0 && Ready(c) && k < PRESET_COUNT && Rated(m)
    ensures Ready(Load(s, c, m, k))
  {
    hide Clock, NormalizeAngle, HomeYaw, Timebases;
    RatedLimits(m);
    if CanLoad(c, k) && k != HOME {
      var a := Aimed(s, c, m, k);
      ClockStartable(s.lib, s.updown, a.updown);
      ClockStartable(s.lib, s.leftright, a.leftright);
    }
  }

  lemma {:induction false} OperateReady(s: Setup, c: Crane, m: Measurement, sw: seq<Switch>, k: nat)
    requires s.lib.pi > 0.0 && Ready(c) && Rated(m) && |sw| == PRESET_COUNT && k <= PRESET_COUNT
    ensures Ready(Operate(s, c, m, sw, k))
    decreases k
  {
    hide Load;
    if k > 0 {
      OperateReady(s, c, m, sw, k - 1);
      LoadReady(s, Operate(s, c, m, sw, k - 1), m, k - 1);
    }
  }

  // ----- one pass

  /** The pass up to and including the measurements. */
  function Sense(b: Board, f: State, i: Inputs, now: nat): State
    requires b.setup.lib.pi > 0.0
  {
    var link := Can.Clocked(f.mode, f.link, now);
    Measure(b, f.(link := link, crane := f.crane.(mode := CheckLinkState(f.mode, i.useLocal, link.timedOut, f.crane.mode))),
            i.readings)
  }

  /** `_fb_update_state` in the operational state. */
  function UpdateState(b: Board, f: State, i: Inputs): State
    requires b.setup.lib.pi > 0.0 && Ready(f.crane) && Rated(f.measured) && i.Valid()
  {
    CheckMode(f.(crane := Operate(b.setup, f.crane, f.measured, i.switches, PRESET_COUNT)), i.canAddr)
  }

  lemma SenseReady(b: Board, f: State, i: Inputs, now: nat)
    requires b.setup.lib.pi > 0.0 && Ready(f.crane)
    ensures var g := Sense(b, f, i, now); Ready(g.crane) && Rated(g.measured)
  {
    var link := Can.Clocked(f.mode, f.link, now);
    var mode := CheckLinkState(f.mode, i.useLocal, link.timedOut, f.crane.mode);
    MeasuredIsRated(b, f.(link := link, crane := f.crane.(mode := mode)), i.readings);
    hide Rated, Controls, Can.Clocked;
  }

  lemma UpdateStateReady(b: Board, f: State, i: Inputs)
    requires b.setup.lib.pi > 0.0 && Ready(f.crane) && Rated(f.measured) && i.Valid()
    ensures Ready(UpdateState(b, f, i).crane)
  {
    OperateReady(b.setup, f.crane, f.measured, i.switches, PRESET_COUNT);
    hide Operate;
  }

  /** `_fb_update`. */
  function Pass(b: Board, f: State, i: Inputs, now: nat): State
    requires b.setup.lib.pi > 0.0 && Ready(f.crane) && i.Valid()
  {
    SenseReady(b, f, i, now);
    var g := Sense(b, f, i, now);
    UpdateStateReady(b, g, i);
    UpdateControl(b, UpdateState(b, g, i))
  }

  /** What the pitch and yaw motors are driven with. */
  datatype Motors = Motors(pitch: Bridge, yaw: Bridge)

  function MotorsOf(f: State): Motors {
    Motors(BridgeOf(f.pitchOut), BridgeOf(f.yawOut))
  }

  /** Each motor sees the output of its own channel, cut to what the bridges can give. */
  lemma MotorsFollow(f: State)
    ensures MotorsOf(f).pitch.a - MotorsOf(f).pitch.b == Constrain(f.pitchOut, -0.92, 0.92)
    ensures MotorsOf(f).yaw.a - MotorsOf(f).yaw.b == Constrain(f.yawOut, -0.92, 0.92)
  {
  }

  /** What `fb_init` leaves, at time `now`. */
  function Start(now: nat): State {
    State(Can.Initial(now), YAW_AT_START, Filter.REST, NOTHING,
          Crane(seq(PRESET_COUNT, i => UNSET), STOPPED, STOPPED, Manual), Can.Undefined, 0, 0.0, 0.0)
  }

  lemma ControlReady(b: Board, f: State)
    requires b.setup.lib.pi > 0.0 && Ready(f.crane)
    ensures Ready(UpdateControl(b, f).crane)
  {
    hide Clock, NextPitch, NextYaw, TakenOver;
    ClockStartable(b.setup.lib, b.setup.updown, SetInput(f.crane.updown, Input(f.measured.pitch, 0.0)));
    ClockStartable(b.setup.lib, b.setup.leftright, SetInput(f.crane.leftright, Input(f.measured.yaw, 0.0)));
  }

  /** A pass never leaves a move pending that could not be planned, so the next pass can run. */
  lemma PassReady(b: Board, f: State, i: Inputs, now: nat)
    requires b.setup.lib.pi > 0.0 && Ready(f.crane) && i.Valid()
    ensures Ready(Pass(b, f, i, now).crane)
  {
    hide UpdateControl, UpdateState, Sense, Ready, Rated;
    SenseReady(b, f, i, now);
    UpdateStateReady(b, Sense(b, f, i, now), i);
    ControlReady(b, UpdateState(b, Sense(b, f, i, now), i));
  }

  class Fb {
    const board: Board
    const link: Can.CanLink
    const sensors: Sensors
    const presets: Presets
    const output: MotorOutput
    var mode: Can.Mode
    var canAddr: int

    ghost predicate Valid()
      reads this, sensors, presets
    {
      && board.Valid() && presets.Valid() && sensors.Valid()
      && presets.setup == board.setup && sensors.pi == board.setup.lib.pi && sensors.scaling == board.scaling
      && output.stops == board.stops
      && sensors.pfilt != presets.updown.errFilt && sensors.pfilt != presets.leftright.errFilt
    }

    ghost function Repr(): set<object> {
      presets.Repr() + {this, link, sensors, sensors.pfilt, output}
    }

    ghost function Current(): State
      reads Repr()
    {
      State(link.Current(), sensors.Tracked(), sensors.pfilt.Current(), sensors.measured,
            presets.Current(), mode, canAddr, output.pitch, output.yaw)
    }

    constructor (board: Board, start: nat)
      requires board.Valid()
      ensures Valid() && this.board == board && fresh(Repr())
      ensures Current() == Start(start) && Ready(presets.Current())
    {
      this.board := board;
      link := new Can.CanLink(start);
      sensors := new Sensors(board.setup.lib.pi, board.scaling);
      presets := new Presets(board.setup);
      output := new MotorOutput(board.stops);
      mode, canAddr := Can.Undefined, 0;
    }

    method DoSense(i: Inputs, now: nat)
      requires Valid()
      modifies link, sensors, sensors.pfilt, presets`mode
      ensures Valid() && Current() == Sense(board, old(Current()), i, now)
    {
      hide Can.Clocked, Controls, YawAngle, ScaleInput, Unwrap, Filter.Next;
      link.Clock(mode, now);
      if mode == Can.Slave && !i.useLocal {
        if link.timedOut {
          if presets.mode == Remote {
            presets.mode := NoMotion;
          }
        } else {
          presets.mode := Remote;
        }
      }
      sensors.Update(mode == Can.Master, link.slave.pitch, link.slave.yaw, i.readings);
    }

    method DoUpdateState(i: Inputs)
      requires Valid() && i.Valid() && Rated(sensors.measured) && Ready(presets.Current())
      modifies presets.Repr(), this
      ensures Valid() && Current() == UpdateState(board, old(Current()), i)
    {
      hide Operate, Rated, Ready;
      presets.Operational(sensors.measured, i.switches);
      DoCheckMode(i.canAddr);
    }

    method DoCheckMode(addr: int)
      requires Valid()
      modifies presets`mode, this
      ensures Valid() && Current() == CheckMode(old(Current()), addr)
    {
      if canAddr != addr {
        if addr == MASTER_ADDRESS {
          mode := Can.Master;
        } else {
          mode := Can.Slave;
          presets.mode := Remote;
        }
        canAddr := addr;
      }
    }

    method DoClockAxes()
      requires Valid() && Ready(presets.Current())
      modifies presets.Repr() - {presets}
      ensures Valid() && presets.Current() == ClockAxes(board.setup, old(presets.Current()), sensors.measured)
    {
      hide Clock;
      presets.SetInputs(sensors.measured.pitch, sensors.measured.yaw);
      presets.ClockBoth();
    }

    method TakeOver()
      requires Valid()
      modifies presets.Repr()
      ensures Valid()
      ensures presets.Current() == old(presets.Current()).(updown := STOPPED, leftright := STOPPED, mode := Manual)
    {
      presets.ResetBoth();
      presets.mode := Manual;
    }

    method DoDrive(pitch: real, yaw: real, pitchRates: Rates, yawRates: Rates)
      requires Valid()
      modifies output
      ensures Valid() && Current() == Drive(board, old(Current()), pitch, yaw, pitchRates, yawRates)
    {
      hide NextPitch, NextYaw;
      output.Drive(sensors.measured.pitch, pitch, yaw, pitchRates, yawRates);
    }

    method DoFollowMove()
      requires Valid() && Ready(presets.Current())
      modifies presets.Repr(), output
      ensures Valid() && Current() == FollowMove(board, old(Current()))
    {
      hide ClockAxes, Drive, Ready, TakenOver;
      ghost var before := Current();
      DoClockAxes();
      assert Current() == before.(crane := ClockAxes(board.setup, before.crane, before.measured));
      DoDrive(-presets.updown.output, -presets.leftright.output, Rates(1.0, 8.0), Rates(1.0, 4.0));
      var over := IsTakenOver();
      if over {
        TakeOver();
      }
    }

    method IsTakenOver() returns (over: bool)
      requires Valid()
      ensures over == TakenOver(board, sensors.measured)
    {
      var m := sensors.measured;
      over := Abs(m.joyPitch) > board.scaling.deadbandPitch || Abs(m.joyYaw) > board.scaling.deadbandYaw;
    }

    method DoUpdateControl()
      requires Valid() && Ready(presets.Current())
      modifies presets.Repr(), output
      ensures Valid() && Current() == UpdateControl(board, old(Current()))
    {
      hide FollowMove, Drive;
      var m := sensors.measured;
      match presets.mode {
        case NoMotion =>
          DoDrive(0.0, 0.0, Rates(0.0, 1.0), Rates(0.0, 1.0));
        case Remote =>
          DoDrive(link.remote.pitch as real * 0.001, link.remote.yaw as real * 0.001, Rates(1.0, 4.0), Rates(1.0, 4.0));
        case Manual =>
          DoDrive(m.joyPitch, m.joyYaw, Rates(m.pitchSpeed, m.pitchAcc), Rates(m.yawSpeed, m.yawAcc));
        case Auto =>
          DoFollowMove();
      }
    }

    /** `_fb_update_motors`. */
    method DriveMotors() returns (motors: Motors)
      ensures motors == MotorsOf(Current())
    {
      motors := Motors(BridgeOf(output.pitch), BridgeOf(output.yaw));
    }

    method Update(i: Inputs, now: nat) returns (motors: Motors)
      requires Valid() && i.Valid() && Ready(presets.Current())
      modifies Repr()
      ensures Valid() && Current() == Pass(board, old(Current()), i, now) && Ready(presets.Current())
      ensures motors == MotorsOf(Current())
    {
      hide Sense, UpdateState, UpdateControl, Rated, Ready;
      ghost var before := Current();
      SenseReady(board, before, i, now);
      DoSense(i, now);
      ghost var sensed := Current();
      UpdateStateReady(board, sensed, i);
      DoUpdateState(i);
      DoUpdateControl();
      motors := DriveMotors();
      PassReady(board, before, i, now);
    }
  }
}
