/** How fast a loaded preset is flown, and how hard it accelerates, in what the knobs say. */
module PresetPace {
  import opened MathLib
  import opened MotionProfile
  import opened Control
  import opened ControlRuns
  import opened ControlLaw
  import opened Measured
  import opened Preset
  import opened PresetRuns
  import opened Output
  import opened Firmware
  import opened FirmwareRuns
  import opened AutoRuns
  import opened ManualRuns

  /** The speed of the profile never passes `speed`, and changes by at most `acc` per second; the speed is
      reached when the move is long enough for it. */
  ghost predicate Paced(p: Profile, acc: real, speed: real) {
    && (forall t: real, u: real :: 0.0 <= t <= u ==> Within(SampleAt(p, t), SampleAt(p, u), u - t, acc, speed))
    && (acc * Abs(p.totalDistance) > speed * speed ==> Abs(SampleAt(p, p.t1).vel) == speed)
  }

  predicate Within(x: Sample, y: Sample, dt: real, acc: real, speed: real) {
    Abs(x.vel) <= speed && Abs(y.vel - x.vel) <= acc * dt
  }

  // ----- one move from rest to rest

  lemma MovesWithin(p: Profile, t: real, u: real)
    requires Forward(p) && Slowest(p) == 0.0 && p.acc == p.dec && 0.0 <= t <= u
    ensures Within(SampleAt(p, t), SampleAt(p, u), u - t, p.acc, p.vmax)
  {
    assert p.sign == 1.0 || p.sign == -1.0;
    hide *;
    SamplingIsSmooth(p, t, u);
    MovingWithin(p, u - t, SampleAt(p, t), SampleAt(p, u));
  }

  lemma MovingWithin(p: Profile, dt: real, x: Sample, y: Sample)
    requires Moves(p, dt, x.pos, x.vel, y.pos, y.vel) && Legal(p, x.vel)
    requires Slowest(p) == 0.0 && p.acc == p.dec && (p.sign == 1.0 || p.sign == -1.0)
    ensures Within(x, y, dt, p.acc, p.vmax)
  {
    assert Max(p.acc, p.dec) == p.acc;
    hide Slowest, Max;
  }

  /** With equal accelerations a move from rest to rest needs acc * distance beyond the square of the speed. */
  lemma LongIsFast(p: Profile, m: Move)
    requires Limited(p) && p.acc == p.dec && m.vstart == 0.0 && m.vend == 0.0 && p.acc * Abs(m.Distance()) > p.vmax * p.vmax
    ensures Fast(p, m)
  {
    var (a, l, vv) := (p.acc, Abs(m.Distance()), p.vmax * p.vmax);
    assert EnergyOf(p, m) == 2.0 * a * (a * l);
    assert (p.acc + p.dec) * vv == 2.0 * a * vv;
    MulMonotone(2.0 * a, vv, a * l);
    if 2.0 * a * vv >= 2.0 * a * (a * l) {
      MulMonotone(2.0 * a, a * l, vv);
    }
  }

  lemma LastPhaseTakesTime(p: Profile)
    requires Forward(p) && p.v3 == 0.0 && p.v2 == p.sign * p.vmax
    ensures p.t3 > 0.0
  {
    assert p.v2 - p.v3 == p.sign * p.dec * p.t3 && p.v2 != 0.0;
    assert p.t3 == 0.0 ==> p.sign * p.dec * p.t3 == 0.0;
    hide Covers;
  }

  lemma RestToRestPaced(lib: Libm, limits: Limits, dist: real)
    requires lib.Valid() && limits.AllSet() && limits.acc == limits.dec
    ensures Limited(Init(limits.acc, limits.vel, limits.dec))
    ensures var p := PlanWith(lib, Init(limits.acc, limits.vel, limits.dec), Move(0.0, 0.0, dist, 0.0));
            p.totalDistance == dist && Paced(p, Abs(limits.acc), Abs(limits.vel))
  {
    InitLimited(limits);
    var (q, m) := (Init(limits.acc, limits.vel, limits.dec), Move(0.0, 0.0, dist, 0.0));
    assert q.acc == q.dec == Abs(limits.acc) && q.vmax == Abs(limits.vel) && m.Distance() == dist;
    LibraryRoot(lib, q, m);
    PlanPaced(q, m, lib.sqrt(Radicand(m.Sign() * q.acc, m.Sign() * q.dec, m)));
    hide Paced, Plan, Radicand;
  }

  lemma PlanPaced(q: Profile, m: Move, root: real)
    requires Limited(q) && IsRoot(q, m, root) && q.acc == q.dec && m.vstart == 0.0 && m.vend == 0.0
    ensures var p := Plan(q, m, root); p.totalDistance == m.Distance() && Paced(p, q.acc, q.vmax)
  {
    var p := Plan(q, m, root);
    PlanCovers(q, m, root);
    hide *;
    PlanKeepsLimits(q, m, root);
    RestToRestIsForward(q, m, root);
    if q.acc * Abs(m.Distance()) > q.vmax * q.vmax {
      PeakPaced(q, m, root);
    }
    ForwardPaced(p);
  }

  lemma PlanCovers(q: Profile, m: Move, root: real)
    requires Limited(q) && IsRoot(q, m, root) && m.vend == 0.0
    ensures var p := Plan(q, m, root); p.totalDistance == m.Distance() && p.v3 == 0.0
  {
    PlanReachesTarget(q, m, root);
    hide Plan, Radicand;
  }

  lemma PeakPaced(q: Profile, m: Move, root: real)
    requires Limited(q) && IsRoot(q, m, root) && q.acc == q.dec && m.vstart == 0.0 && m.vend == 0.0
    requires q.acc * Abs(m.Distance()) > q.vmax * q.vmax
    ensures var p := Plan(q, m, root); Abs(SampleAt(p, p.t1).vel) == q.vmax
  {
    var p := Plan(q, m, root);
    assert q.vmax > 0.0;
    SignValue(m);
    PlanCovers(q, m, root);
    hide *;
    PlanKeepsLimits(q, m, root);
    RestToRestIsForward(q, m, root);
    LongIsFast(q, m);
    FastReachesLimit(q, m, root);
    LastPhaseTakesTime(p);
    PeakIsSampled(p);
    SizeOfLimit(p.sign, q.vmax);
  }

  lemma ForwardPaced(p: Profile)
    requires Forward(p) && Slowest(p) == 0.0 && p.acc == p.dec
    requires p.acc * Abs(p.totalDistance) > p.vmax * p.vmax ==> Abs(SampleAt(p, p.t1).vel) == p.vmax
    ensures Paced(p, p.acc, p.vmax)
  {
    hide Forward, Slowest, SampleAt, Within, Abs;
    forall t: real, u: real | 0.0 <= t <= u
      ensures Within(SampleAt(p, t), SampleAt(p, u), u - t, p.acc, p.vmax)
    {
      MovesWithin(p, t, u);
    }
  }

  lemma SizeOfLimit(sign: real, vmax: real)
    requires (sign == 1.0 || sign == -1.0) && vmax > 0.0
    ensures Abs(sign * vmax) == vmax
  {
  }

  lemma PlanKeepsLimits(q: Profile, m: Move, root: real)
    requires Limited(q)
    ensures var p := Plan(q, m, root); p.acc == q.acc && p.dec == q.dec && p.vmax == q.vmax && p.sign == m.Sign()
  {
    SignedLimits(q, m);
    hide Times;
  }

  // ----- a request

  lemma RequestPlans(lib: Libm, conf: Conf, x: Axis, pos: real, target: real, limits: Limits)
    requires lib.Valid() && limits.AllSet()
    ensures Limited(Init(limits.acc, limits.vel, limits.dec))
    ensures Clock(lib, conf, Requested(x, pos, target, limits)).plan
         == PlanWith(lib, Init(limits.acc, limits.vel, limits.dec), Move(0.0, 0.0, InUnits(lib, conf, target - pos), 0.0))
  {
    InitLimited(limits);
    hide PlanWith, InUnits, Regulate;
  }

  lemma RequestPaced(lib: Libm, conf: Conf, x: Axis, pos: real, target: real, limits: Limits)
    requires lib.Valid() && limits.AllSet() && limits.acc == limits.dec
    ensures var p := Clock(lib, conf, Requested(x, pos, target, limits)).plan;
            p.totalDistance == InUnits(lib, conf, target - pos) && Paced(p, Abs(limits.acc), Abs(limits.vel))
  {
    RequestPlans(lib, conf, x, pos, target, limits);
    hide Clock, Paced, PlanWith, InUnits;
    RestToRestPaced(lib, limits, InUnits(lib, conf, target - pos));
  }

  /** Each limit of a request is used for what it is for: at any time the set point of the started move
      accelerates at the first, is no faster than the second, and brakes at the third. */
  lemma RequestKeepsLimits(lib: Libm, conf: Conf, x: Axis, pos: real, target: real, limits: Limits, t: real)
    requires lib.Valid() && limits.AllSet() && t >= 0.0
    ensures var s := SampleAt(Clock(lib, conf, Requested(x, pos, target, limits)).plan, t);
            && (s.phase == Accelerating ==> Abs(s.acc) == Abs(limits.acc))
            && Abs(s.vel) <= Abs(limits.vel)
            && (s.phase == Decelerating ==> Abs(s.acc) == Abs(limits.dec))
  {
    RequestPlans(lib, conf, x, pos, target, limits);
    var (q, m) := (Init(limits.acc, limits.vel, limits.dec), Move(0.0, 0.0, InUnits(lib, conf, target - pos), 0.0));
    assert q.acc == Abs(limits.acc) && q.vmax == Abs(limits.vel) && q.dec == Abs(limits.dec);
    LibraryRoot(lib, q, m);
    var root := lib.sqrt(Radicand(m.Sign() * q.acc, m.Sign() * q.dec, m));
    assert PlanWith(lib, q, m) == Plan(q, m, root);
    hide *;
    PlanUsesLimits(q, m, root, t);
  }

  lemma PlanUsesLimits(q: Profile, m: Move, root: real, t: real)
    requires Limited(q) && IsRoot(q, m, root) && m.vstart == 0.0 && m.vend == 0.0 && t >= 0.0
    ensures var s := SampleAt(Plan(q, m, root), t);
            && (s.phase == Accelerating ==> Abs(s.acc) == q.acc)
            && Abs(s.vel) <= q.vmax
            && (s.phase == Decelerating ==> Abs(s.acc) == q.dec)
  {
    assert q.acc > 0.0 && q.dec > 0.0;
    SignValue(m);
    hide *;
    var p := Plan(q, m, root);
    PlanKeepsLimits(q, m, root);
    RestToRestIsForward(q, m, root);
    AccelerationIsSlope(p, t, t);
    SamplingIsSmooth(p, t, t);
    SpeedOfLegal(p, SampleAt(p, t).vel);
    SizeOfProduct(p.sign, p.acc);
    SizeOfProduct(p.sign, p.dec);
  }

  lemma SpeedOfLegal(p: Profile, v: real)
    requires Legal(p, v) && Slowest(p) == 0.0 && (p.sign == 1.0 || p.sign == -1.0)
    ensures Abs(v) <= p.vmax
  {
    hide Slowest;
  }

  lemma SizeOfProduct(sign: real, limit: real)
    requires (sign == 1.0 || sign == -1.0) && limit > 0.0
    ensures Abs(sign * limit) == Abs(-(sign * limit)) == limit
  {
  }

  /** A preset is flown at nine tenths of the speed of the pitch knob and half the acceleration of the pitch
      knob, and on yaw at half the speed and six tenths of the acceleration of the yaw knobs. */
  lemma PresetPaced(s: Setup, c: Crane, m: Measurement, k: nat)
    requires s.Valid() && c.Valid() && 0 < k < PRESET_COUNT && Rated(m) && CanLoad(c, k)
    ensures var d := Load(s, c, m, k);
            && Paced(d.updown.plan, 0.5 * Abs(m.pitchAcc), 0.9 * Abs(m.pitchSpeed))
            && Paced(d.leftright.plan, 0.6 * Abs(m.yawAcc), 0.5 * Abs(m.yawSpeed))
  {
    RatedLimits(m);
    PresetPlans(s, c, m, k);
    Scaled(m.pitchAcc, 0.5);
    Scaled(m.pitchSpeed, 0.9);
    Scaled(m.yawAcc, 0.6);
    Scaled(m.yawSpeed, 0.5);
    hide Load, Clock, Paced, TargetPitch, TargetYaw, Abs;
    RequestPaced(s.lib, s.updown, c.updown, m.pitch, TargetPitch(c, k), UpDownLimits(m));
    RequestPaced(s.lib, s.leftright, c.leftright, m.yaw, TargetYaw(s.lib.pi, c, k), LeftRightLimits(m));
  }

  lemma Scaled(x: real, factor: real)
    requires factor > 0.0
    ensures Abs(x * factor) == factor * Abs(x)
  {
  }

  lemma PresetPlans(s: Setup, c: Crane, m: Measurement, k: nat)
    requires s.Valid() && c.Valid() && 0 < k < PRESET_COUNT && Rated(m) && CanLoad(c, k)
    ensures UpDownLimits(m).AllSet() && LeftRightLimits(m).AllSet()
    ensures Load(s, c, m, k).updown.plan == Clock(s.lib, s.updown, Requested(c.updown, m.pitch, TargetPitch(c, k), UpDownLimits(m))).plan
    ensures Load(s, c, m, k).leftright.plan
         == Clock(s.lib, s.leftright, Requested(c.leftright, m.yaw, TargetYaw(s.lib.pi, c, k), LeftRightLimits(m))).plan
  {
    RatedLimits(m);
    hide Clock, TargetPitch, TargetYaw, Timebases, UpDownLimits, LeftRightLimits, Requested;
  }

  /** Home is flown at fixed rates, whatever the knobs say. */
  lemma HomePaced(s: Setup, c: Crane, m: Measurement)
    requires s.Valid() && c.Valid() && Rated(m) && c.presets[HOME].valid
    ensures Paced(HomeStarted(s, c, m).0.plan, 0.5, 0.9) && Paced(HomeStarted(s, c, m).1.plan, 0.6, 0.5)
  {
    HomeIsLoaded(s, c, m);
    var y := HomeYaw(s.lib.pi, c.presets[HOME].yaw, m.yaw);
    hide Clock, Paced, HomeYaw, Load;
    RequestPaced(s.lib, s.updown, c.updown, m.pitch, c.presets[HOME].pitch, Limits(0.5, 0.9, 0.5));
    RequestPaced(s.lib, s.leftright, c.leftright, m.yaw, y, Limits(0.6, 0.5, 0.6));
  }

  // ----- in the running firmware

  /** What the knobs read when the button is released is the pace of the flight, each axis its own. */
  lemma ReleasedPaced(b: Board, f: State, i: Inputs, now: nat, k: nat)
    requires b.Valid() && Ready(f.crane) && OnItsOwn(f, i) && 0 < k < PRESET_COUNT && CanLoad(f.crane, k)
    ensures var d := Loaded(b, f, i, now, k);
            var (p, y) := (PitchKnobs(b, i.readings), YawKnobs(b, i.readings));
            Paced(d.updown.plan, 0.5 * p.acc, 0.9 * p.speed) && Paced(d.leftright.plan, 0.6 * y.acc, 0.5 * y.speed)
  {
    SenseReady(b, f, i, now);
    SenseControls(b, f, i, now);
    KnobsPositive(b, i.readings);
    var g := Sense(b, f, i, now);
    assert Loaded(b, f, i, now, k) == Load(b.setup, g.crane, g.measured, k);
    hide Sense, Load, Paced, Loaded, PitchKnobs, YawKnobs, Rated, Ready, CanLoad;
    PresetPaced(b.setup, g.crane, g.measured, k);
  }

  /** And the set point of an axis keeps that pace in every tick, until it has settled. */
  lemma FlightPaced(lib: Libm, conf: Conf, x: Axis, n: nat, inputs: seq<Input>, acc: real, speed: real)
    requires lib.pi > 0.0 && JustStarted(x) && x.timebase > 0.0 && ControlRuns.Timed(x.plan) && Paced(x.plan, acc, speed)
    requires FinishesAt(x, n) && 1 <= |inputs| <= n + conf.settlingTime
    ensures Abs(Ticks(lib, conf, x, inputs).target.vel) <= speed
  {
    TimedCompletes(x.plan);
    SetPointIsSample(lib, conf, x, n, inputs);
    var t := Ticks(lib, conf, x, inputs).time;
    assert x.plan.totalTime >= 0.0 && t >= 0.0;
    hide Ticks, SampleAt, InUnits;
    assert Within(SampleAt(x.plan, t), SampleAt(x.plan, t), t - t, acc, speed);
  }
}
