/** One controlled axis: idle, moving along a planned profile, settling, and idle again. */
module Control {
  import opened MathLib
  import opened MotionProfile
  import Filter

  /** Seconds per control tick. */
  const DT: real := 0.001

  const OUTPUT_LIMIT: real := 1.0

  /** The configuration of an axis; `radians` says that positions are angles. */
  datatype Conf = Conf(
    radians: bool, settlingTime: nat,
    kff: real, kp: real, ki: real, kd: real,
    integralMax: real, errorFilter: Filter.Coefficients)

  datatype Input = Input(pos: real, vel: real)

  datatype Limits = Limits(acc: real, vel: real, dec: real) {
    predicate AllSet() {
      acc != 0.0 && vel != 0.0 && dec != 0.0
    }
  }

  /** All fields of `struct fb_control`. */
  datatype Axis = Axis(
    time: real, plan: Profile, target: Pva, input: Input, limits: Limits, errors: Filter.History,
    integral: real, error: real, newTarget: real, startPos: real,
    start: bool, moving: bool, settling: bool,
    output: real, settleTime: nat, timebase: real)

  const STOPPED := Axis(0.0, ZERO, Pva(0.0, 0.0, 0.0), Input(0.0, 0.0), Limits(0.0, 0.0, 0.0), Filter.REST,
                        0.0, 0.0, 0.0, 0.0, false, false, false, 0.0, 0, 1.0)

  function SetInput(x: Axis, input: Input): Axis {
    x.(input := input)
  }

  function SetLimits(x: Axis, limits: Limits): Axis {
    x.(limits := limits)
  }

  function SetTarget(x: Axis, pos: real): Axis {
    x.(newTarget := pos, start := true, moving := false, settling := false)
  }

  function SetTimebase(x: Axis, timebase: real): Axis {
    x.(timebase := Abs(timebase))
  }

  function RemainingTime(x: Axis): real {
    x.plan.totalTime - x.time
  }

  /** A difference or sum of positions in the units of the axis. */
  function InUnits(lib: Libm, conf: Conf, pos: real): real
    requires lib.pi > 0.0
  {
    if conf.radians then NormalizeAngle(lib.pi, pos) else pos
  }

  /** Feed-forward and the three terms of the error. */
  function ControlAction(conf: Conf, vel: real, err: real, integral: real, previous: real): real {
    conf.kff * vel + conf.kp * err + conf.ki * integral + conf.kd * ((err - previous) / DT)
  }

  /** `_fb_control_run`: follows the profile and computes the control output. */
  function Regulate(lib: Libm, conf: Conf, x: Axis): Axis
    requires lib.pi > 0.0
  {
    var (plan, pva) := Sampled(x.plan, x.time, x.target);
    var target := pva.(pos := InUnits(lib, conf, pva.pos + x.startPos));
    var errors := Filter.Next(conf.errorFilter, x.errors, InUnits(lib, conf, target.pos - x.input.pos));
    var err := errors.out0;
    var integral := Constrain(x.integral + err, -conf.integralMax, conf.integralMax);
    var output := ControlAction(conf, target.vel, err, integral, x.error);
    x.(plan := plan, target := target, errors := errors, integral := integral, error := err,
       output := Constrain(output, -OUTPUT_LIMIT, OUTPUT_LIMIT))
  }

  /** A completed move turns into settling. */
  function NoteCompletion(conf: Conf, x: Axis): Axis {
    if x.moving && x.plan.phase == Completed
    then x.(moving := false, settling := true, settleTime := conf.settlingTime)
    else x
  }

  function Advance(lib: Libm, conf: Conf, x: Axis): Axis
    requires lib.pi > 0.0
  {
    if x.moving then
      Regulate(lib, conf, x.(time := x.time + DT * x.timebase))
    else if x.settling then
      if x.settleTime > 0 then Regulate(lib, conf, x.(time := x.time + DT, settleTime := x.settleTime - 1))
      else x.(settling := false, output := 0.0, integral := 0.0, time := 0.0, timebase := 1.0)
    else
      x.(output := 0.0, integral := 0.0, error := 0.0, time := 0.0, timebase := 1.0)
  }

  lemma InitLimited(limits: Limits)
    requires limits.AllSet()
    ensures Limited(Init(limits.acc, limits.vel, limits.dec))
  {
  }

  /** Plans the pending move from where the axis is and starts it. */
  function Begin(lib: Libm, conf: Conf, x: Axis): Axis
    requires lib.pi > 0.0 && x.limits.AllSet()
  {
    var diff := InUnits(lib, conf, x.newTarget - x.input.pos);
    var plan := PlanWith(lib, Init(x.limits.acc, x.limits.vel, x.limits.dec), Move(0.0, x.input.vel, diff, 0.0));
    x.(plan := plan, startPos := x.input.pos, start := false, moving := true,
       integral := 0.0, error := 0.0, time := 0.0, timebase := 1.0)
  }

  predicate IsIdle(x: Axis) {
    !x.moving && !x.settling
  }

  /** The part of a tick that decides whether a pending move starts. */
  function StartIfPending(lib: Libm, conf: Conf, x: Axis): Axis
    requires lib.pi > 0.0 && (x.start ==> x.limits.AllSet())
  {
    if IsIdle(x) && x.start then Begin(lib, conf, x) else x
  }

  /** `fb_control_clock`. */
  function Clock(lib: Libm, conf: Conf, x: Axis): Axis
    requires lib.pi > 0.0 && (x.start ==> x.limits.AllSet())
  {
    StartIfPending(lib, conf, Advance(lib, conf, NoteCompletion(conf, x)))
  }

  /** What a tick does not touch before it decides to start a move. */
  lemma AdvanceKeepsRequest(lib: Libm, conf: Conf, x: Axis)
    requires lib.pi > 0.0
    ensures var y := Advance(lib, conf, x);
            y.start == x.start && y.limits == x.limits && y.input == x.input && y.newTarget == x.newTarget
  {
  }

  class FbControl {
    const lib: Libm
    const conf: Conf
    const trajectory: Trajectory
    const errFilt: Filter.FilterState
    var time: real
    var target: Pva
    var input: Input
    var limits: Limits
    var integral: real
    var error: real
    var newTarget: real
    var startPos: real
    var start: bool
    var moving: bool
    var settling: bool
    var output: real
    var settleTime: nat
    var timebase: real

    ghost predicate Valid() {
      lib.Valid() && errFilt.conf == conf.errorFilter
    }

    function Current(): Axis
      reads this, trajectory, errFilt
    {
      Axis(time, trajectory.profile, target, input, limits, errFilt.Current(), integral, error, newTarget, startPos,
           start, moving, settling, output, settleTime, timebase)
    }

    constructor (lib: Libm, conf: Conf)
      requires lib.Valid()
      ensures Valid() && this.lib == lib && this.conf == conf && Current() == STOPPED
      ensures fresh(trajectory) && fresh(errFilt)
    {
      this.lib := lib;
      this.conf := conf;
      trajectory := new Trajectory();
      errFilt := new Filter.FilterState(conf.errorFilter);
      time, target, input, limits := 0.0, Pva(0.0, 0.0, 0.0), Input(0.0, 0.0), Limits(0.0, 0.0, 0.0);
      integral, error, newTarget, startPos := 0.0, 0.0, 0.0, 0.0;
      start, moving, settling, output, settleTime, timebase := false, false, false, 0.0, 0, 1.0;
    }

    method DoSetInput(pos: real, vel: real)
      modifies this`input
      ensures Current() == SetInput(old(Current()), Input(pos, vel))
    {
      input := Input(pos, vel);
    }

    method DoSetLimits(acc: real, speed: real, dec: real)
      modifies this`limits
      ensures Current() == SetLimits(old(Current()), Limits(acc, speed, dec))
    {
      limits := Limits(acc, speed, dec);
    }

    method DoSetTarget(pos: real)
      modifies this
      ensures Current() == SetTarget(old(Current()), pos)
    {
      newTarget := pos;
      start := true;
      moving := false;
      settling := false;
    }

    method DoSetTimebase(value: real)
      modifies this`timebase
      ensures Current() == SetTimebase(old(Current()), value)
    {
      timebase := Abs(value);
    }

    method GetRemainingTime() returns (t: real)
      ensures t == RemainingTime(Current())
    {
      var total := trajectory.TraversalTime();
      t := total - time;
    }

    /** `_fb_control_run`. */
    method Run()
      requires Valid()
      modifies this, trajectory, errFilt
      ensures Current() == Regulate(lib, conf, old(Current()))
    {
      hide ControlAction, NormalizeAngle, Constrain, Filter.Next, Sampled;
      var result, pva := trajectory.GetPva(time, target);
      var err := 0.0;
      if conf.radians {
        target := pva.(pos := NormalizeAngle(lib.pi, pva.pos + startPos));
        err := NormalizeAngle(lib.pi, target.pos - input.pos);
      } else {
        target := pva.(pos := pva.pos + startPos);
        err := target.pos - input.pos;
      }
      err := errFilt.Update(err);
      integral := Constrain(integral + err, -conf.integralMax, conf.integralMax);
      var co := ControlAction(conf, target.vel, err, integral, error);
      output := Constrain(co, -OUTPUT_LIMIT, OUTPUT_LIMIT);
      error := err;
    }

    /** `fb_control_clock`. */
    method DoClock()
      requires Valid() && (start ==> limits.AllSet())
      modifies this, trajectory, errFilt
      ensures Current() == Clock(lib, conf, old(Current()))
    {
      hide Regulate, Begin;
      var completed := trajectory.IsCompleted();
      if moving && completed {
        moving := false;
        settling := true;
        settleTime := conf.settlingTime;
      }
      assert Current() == NoteCompletion(conf, old(Current()));
      ghost var noted := Current();
      Step();
      AdvanceKeepsRequest(lib, conf, noted);
      if !moving && !settling && start {
        StartMove();
      }
    }

    method Step()
      requires Valid()
      modifies this, trajectory, errFilt
      ensures Current() == Advance(lib, conf, old(Current()))
    {
      hide Regulate;
      if moving {
        time := time + DT * timebase;
        assert Current() == old(Current()).(time := time);
        Run();
      } else if settling {
        time := time + DT;
        if settleTime > 0 {
          settleTime := settleTime - 1;
          assert Current() == old(Current()).(time := time, settleTime := settleTime);
          Run();
        } else {
          settling := false;
          output := 0.0;
          integral := 0.0;
          time := 0.0;
          timebase := 1.0;
        }
      } else {
        output := 0.0;
        ZeroProgress();
      }
    }

    method StartMove()
      requires Valid() && limits.AllSet()
      modifies this, trajectory
      ensures Current() == Begin(lib, conf, old(Current()))
    {
      hide PlanWith, Init, NormalizeAngle;
      assert Limited(Init(limits.acc, limits.vel, limits.dec)) by { InitLimited(limits); }
      trajectory.InitLimits(limits.acc, limits.vel, limits.dec);
      var diff := newTarget - input.pos;
      if conf.radians {
        diff := NormalizeAngle(lib.pi, diff);
      }
      trajectory.PlanMove(lib, 0.0, input.vel, diff, 0.0);
      ZeroProgress();
      startPos := input.pos;
      start := false;
      moving := true;
    }

    method ZeroProgress()
      modifies this
      ensures Current() == old(Current()).(integral := 0.0, error := 0.0, time := 0.0, timebase := 1.0)
    {
      integral := 0.0;
      error := 0.0;
      time := 0.0;
      timebase := 1.0;
    }

    /** `fb_control_reset`: everything but the configuration is forgotten. */
    method Reset()
      requires Valid()
      modifies this, trajectory, errFilt
      ensures Current() == STOPPED
    {
      trajectory.Forget();
      errFilt.Reset();
      ClearRequest();
      ClearProgress();
    }

    method ClearRequest()
      modifies this
      ensures Current() == old(Current()).(target := Pva(0.0, 0.0, 0.0), input := Input(0.0, 0.0),
                                           limits := Limits(0.0, 0.0, 0.0), newTarget := 0.0, start := false)
    {
      target, input, limits := Pva(0.0, 0.0, 0.0), Input(0.0, 0.0), Limits(0.0, 0.0, 0.0);
      newTarget := 0.0;
      start := false;
    }

    method ClearProgress()
      modifies this
      ensures Current() == old(Current()).(time := 0.0, integral := 0.0, error := 0.0, startPos := 0.0, moving := false,
                                           settling := false, output := 0.0, settleTime := 0, timebase := 1.0)
    {
      ZeroProgress();
      startPos := 0.0;
      moving, settling := false, false;
      output, settleTime := 0.0, 0;
    }
  }
}
