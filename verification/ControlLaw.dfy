/** What an axis puts out for a given error: in which direction, and exactly how much. */
module ControlLaw {
  import opened MathLib
  import opened MotionProfile
  import opened Control
  import opened ControlRuns
  import Filter

  /** In the next tick the axis travels, or settles for at least one more tick. */
  predicate UnderControl(conf: Conf, x: Axis) {
    && !x.start && x.plan.planned
    && if x.moving then x.plan.phase != Completed || (conf.settlingTime > 0) else x.settling && x.settleTime > 0
  }

  /** How far the measured position is below the set point; an angle is compared the shorter way round. */
  function Below(lib: Libm, conf: Conf, y: Axis): real
    requires lib.pi > 0.0
  {
    if conf.radians then NormalizeAngle(lib.pi, y.target.pos - y.input.pos) else y.target.pos - y.input.pos
  }

  predicate GainsNonNegative(conf: Conf) {
    conf.kp >= 0.0 && conf.ki >= 0.0 && conf.kd >= 0.0 && conf.errorFilter.b0 >= 0.0
  }

  predicate Proportional(conf: Conf) {
    conf.kp > 0.0 && conf.errorFilter.b0 > 0.0
  }

  predicate Unlimited(y: Axis) {
    Abs(y.output) < OUTPUT_LIMIT
  }

  /** The axis as a tick finds it, just before it is regulated. */
  function InTick(conf: Conf, x: Axis): Axis
    requires UnderControl(conf, x)
  {
    if x.moving && x.plan.phase == Completed then
      x.(moving := false, settling := true, settleTime := conf.settlingTime - 1, time := x.time + DT)
    else if x.moving then x.(time := x.time + DT * x.timebase)
    else x.(time := x.time + DT, settleTime := x.settleTime - 1)
  }

  lemma ClockRegulates(lib: Libm, conf: Conf, x: Axis)
    requires lib.pi > 0.0 && UnderControl(conf, x)
    ensures Clock(lib, conf, x) == Regulate(lib, conf, InTick(conf, x))
  {
    hide Sampled, NormalizeAngle, Filter.Next, Constrain, ControlAction;
  }

  // ----- direction

  lemma ActionGrows(conf: Conf, vel: real, e: real, f: real, s: real, t: real, previous: real)
    requires conf.kp >= 0.0 && conf.ki >= 0.0 && conf.kd >= 0.0 && e >= f && s >= t
    ensures ControlAction(conf, vel, e, s, previous) >= ControlAction(conf, vel, f, t, previous)
    ensures conf.kp > 0.0 && e > f ==> ControlAction(conf, vel, e, s, previous) > ControlAction(conf, vel, f, t, previous)
  {
    SlopeGrows(e, f, previous);
    var (p, q) := ((e - previous) / DT, (f - previous) / DT);
    ScaledDifference(conf.kp, e, f);
    ScaledDifference(conf.ki, s, t);
    ScaledDifference(conf.kd, p, q);
    ActionIsSum(conf, vel, e, s, previous, p);
    ActionIsSum(conf, vel, f, t, previous, q);
    hide ControlAction;
  }

  lemma SlopeGrows(e: real, f: real, previous: real)
    requires e >= f
    ensures (e - previous) / DT >= (f - previous) / DT
  {
  }

  lemma ActionIsSum(conf: Conf, vel: real, e: real, s: real, previous: real, slope: real)
    requires slope == (e - previous) / DT
    ensures ControlAction(conf, vel, e, s, previous) == conf.kff * vel + conf.kp * e + conf.ki * s + conf.kd * slope
  {
  }

  lemma ScaledDifference(k: real, x: real, y: real)
    requires k >= 0.0 && x >= y
    ensures k * x >= k * y && (k > 0.0 && x > y ==> k * x > k * y)
  {
    assert k * (x - y) >= 0.0;
    if k > 0.0 && x > y {
      assert k * (x - y) > 0.0;
    }
  }

  lemma ConstrainGrows(x: real, y: real, bound: real)
    requires x >= y && bound >= 0.0
    ensures Constrain(x, -bound, bound) >= Constrain(y, -bound, bound)
    ensures x > y && -bound < Constrain(x, -bound, bound) < bound && -bound < Constrain(y, -bound, bound) < bound
        ==> Constrain(x, -bound, bound) > Constrain(y, -bound, bound)
  {
  }

  lemma FilteredGrows(c: Filter.Coefficients, h: Filter.History, x: real, y: real)
    requires c.b0 >= 0.0 && x >= y
    ensures Filter.Next(c, h, x).out0 >= Filter.Next(c, h, y).out0
    ensures c.b0 > 0.0 && x > y ==> Filter.Next(c, h, x).out0 > Filter.Next(c, h, y).out0
  {
    ScaledDifference(c.b0, x, y);
  }

  lemma RegulatedFields(lib: Libm, conf: Conf, x: Axis)
    requires lib.pi > 0.0
    ensures var y := Regulate(lib, conf, x);
            && y.input == x.input && y.errors == Filter.Next(conf.errorFilter, x.errors, Below(lib, conf, y))
            && y.error == y.errors.out0
            && y.integral == Constrain(x.integral + y.error, -conf.integralMax, conf.integralMax)
            && y.output == Constrain(ControlAction(conf, y.target.vel, y.error, y.integral, x.error), -OUTPUT_LIMIT, OUTPUT_LIMIT)
  {
    hide Sampled, NormalizeAngle, Filter.Next, Constrain, ControlAction;
  }

  lemma InputKeepsTarget(lib: Libm, conf: Conf, x: Axis, i: Input)
    requires lib.pi > 0.0
    ensures Regulate(lib, conf, SetInput(x, i)).target == Regulate(lib, conf, x).target
  {
    hide Sampled, NormalizeAngle, Filter.Next, Constrain, ControlAction;
  }

  lemma RegulateDirection(lib: Libm, conf: Conf, x: Axis, i: Input, j: Input)
    requires lib.pi > 0.0 && conf.integralMax >= 0.0 && GainsNonNegative(conf)
    ensures var (u, w) := (Regulate(lib, conf, SetInput(x, i)), Regulate(lib, conf, SetInput(x, j)));
            && u.target == w.target
            && (Below(lib, conf, u) >= Below(lib, conf, w) ==> u.output >= w.output)
            && (Below(lib, conf, u) > Below(lib, conf, w) && Proportional(conf) && Unlimited(u) && Unlimited(w) ==>
                u.output > w.output)
  {
    var (u, w) := (Regulate(lib, conf, SetInput(x, i)), Regulate(lib, conf, SetInput(x, j)));
    InputKeepsTarget(lib, conf, x, i);
    InputKeepsTarget(lib, conf, x, j);
    RegulatedFields(lib, conf, SetInput(x, i));
    RegulatedFields(lib, conf, SetInput(x, j));
    hide Regulate, Below, Filter.Next, ControlAction, Constrain;
    assert u.target == w.target;
    if Below(lib, conf, u) >= Below(lib, conf, w) {
      FilteredGrows(conf.errorFilter, x.errors, Below(lib, conf, u), Below(lib, conf, w));
      ConstrainGrows(x.integral + u.error, x.integral + w.error, conf.integralMax);
      ActionGrows(conf, u.target.vel, u.error, w.error, u.integral, w.integral, x.error);
      ConstrainGrows(ControlAction(conf, u.target.vel, u.error, u.integral, x.error),
                     ControlAction(conf, w.target.vel, w.error, w.integral, x.error), OUTPUT_LIMIT);
    }
  }

  /** The control loop pushes back: of two measurements of the same axis in the same tick, the one that is
      further below the set point gets no smaller an output, and a larger one unless it is limited. */
  lemma FurtherBelowDrivesMore(lib: Libm, conf: Conf, x: Axis, i: Input, j: Input)
    requires lib.pi > 0.0 && conf.integralMax >= 0.0 && GainsNonNegative(conf) && UnderControl(conf, x)
    ensures var (u, w) := (Clock(lib, conf, SetInput(x, i)), Clock(lib, conf, SetInput(x, j)));
            && u.target == w.target && u.input == i && w.input == j
            && (Below(lib, conf, u) >= Below(lib, conf, w) ==> u.output >= w.output)
            && (Below(lib, conf, u) > Below(lib, conf, w) && Proportional(conf) && Unlimited(u) && Unlimited(w) ==>
                u.output > w.output)
  {
    hide Clock, Below, Regulate, GainsNonNegative;
    ClockRegulates(lib, conf, SetInput(x, i));
    ClockRegulates(lib, conf, SetInput(x, j));
    var t := InTick(conf, x);
    assert InTick(conf, SetInput(x, i)) == SetInput(t, i) && InTick(conf, SetInput(x, j)) == SetInput(t, j);
    RegulatedFields(lib, conf, SetInput(t, i));
    RegulatedFields(lib, conf, SetInput(t, j));
    RegulateDirection(lib, conf, t, i, j);
  }

  // ----- how much

  /** The default error filter of both axes lets the error through. */
  const THROUGH := Filter.Coefficients(0.0, 0.0, 1.0, 0.0)

  /** With it, what the gains act on is how far the axis is below its set point. */
  lemma ErrorIsDistance(lib: Libm, conf: Conf, x: Axis)
    requires lib.pi > 0.0 && UnderControl(conf, x) && conf.errorFilter == THROUGH
    ensures var y := Clock(lib, conf, x); y.error == Below(lib, conf, y) && y.input == x.input
  {
    hide Clock, Below, Regulate;
    ClockRegulates(lib, conf, x);
    RegulatedFields(lib, conf, InTick(conf, x));
  }

  /** The filtered error is `e` after each of the ticks. */
  ghost predicate ConstantError(lib: Libm, conf: Conf, x: Axis, inputs: seq<Input>, e: real)
    requires lib.pi > 0.0 && !x.start
  {
    forall k :: 1 <= k <= |inputs| ==> Ticks(lib, conf, x, inputs[..k]).error == e
  }

  lemma AfterTicksUnderControl(conf: Conf, x: Axis, n: nat, k: nat, y: Axis)
    requires n >= 1 && AfterTicks(conf, x, n, k, y) && k < n + conf.settlingTime && x.plan.planned
    ensures UnderControl(conf, y)
  {
  }

  /** `k` errors of `e`. */
  function Sum(k: nat, e: real): real {
    k as real * e
  }

  lemma SumGrows(k: nat, e: real)
    requires k > 0
    ensures Sum(k, e) == Sum(k - 1, e) + e
  {
    assert k as real == (k - 1) as real + 1.0;
  }

  lemma SmallerSum(k: nat, e: real, bound: real)
    requires k > 0 && Abs(Sum(k, e)) <= bound
    ensures Abs(Sum(k - 1, e)) <= bound
  {
    SumGrows(k, e);
    if e >= 0.0 {
      assert Sum(k - 1, e) >= 0.0;
    } else {
      assert Sum(k - 1, e) <= 0.0;
    }
  }

  /** What the control law gives in the k-th tick of a constant error `e`, at a set point of velocity `vel`. */
  function Response(conf: Conf, vel: real, e: real, k: nat): real
    requires k > 0
  {
    conf.kff * vel + conf.kp * e + conf.ki * Sum(k, e) + (if k == 1 then conf.kd * e / DT else 0.0)
  }

  lemma ActionIsResponse(conf: Conf, vel: real, e: real, k: nat)
    requires k > 0
    ensures ControlAction(conf, vel, e, Sum(k, e), if k == 1 then 0.0 else e) == Response(conf, vel, e, k)
  {
    if k == 1 {
      assert conf.kd * (e / DT) == conf.kd * e / DT;
    } else {
      assert (e - e) / DT == 0.0;
    }
  }

  /** One more tick of a constant error. */
  lemma ResponseTick(lib: Libm, conf: Conf, x: Axis, k: nat, e: real)
    requires lib.pi > 0.0 && UnderControl(conf, x) && k > 0
    requires x.integral == Sum(k - 1, e) && x.error == (if k == 1 then 0.0 else e)
    requires Clock(lib, conf, x).error == e && Abs(Sum(k, e)) <= conf.integralMax
    ensures var y := Clock(lib, conf, x);
            y.integral == Sum(k, e) && y.output == Constrain(Response(conf, y.target.vel, e, k), -1.0, 1.0)
  {
    var y := Clock(lib, conf, x);
    ClockRegulates(lib, conf, x);
    hide Clock, Regulate, Response, ControlAction, Below, Sum, Filter.Next;
    RegulatedFields(lib, conf, InTick(conf, x));
    SumGrows(k, e);
    ActionIsResponse(conf, y.target.vel, e, k);
  }

  /** From a fresh start, as long as the integral does not reach its limit, the k-th tick of a constant error
      `e` puts out the feed-forward of the set point's velocity, kp * e, ki * e for every tick so far, and
      kd * e / DT in the first tick only; no more than full scale. */
  lemma {:induction false} StepResponse(lib: Libm, conf: Conf, x: Axis, n: nat, inputs: seq<Input>, e: real)
    requires lib.pi > 0.0 && JustStarted(x) && x.timebase > 0.0 && x.integral == 0.0 && x.error == 0.0
    requires IsFinalTick(CompletionTime(x.plan), DT * x.timebase, n) && |inputs| <= n + conf.settlingTime
    requires ConstantError(lib, conf, x, inputs, e) && Abs(Sum(|inputs|, e)) <= conf.integralMax
    ensures var y := Ticks(lib, conf, x, inputs);
            && y.integral == Sum(|inputs|, e) && y.error == (if inputs == [] then 0.0 else e)
            && (inputs != [] ==> y.output == Constrain(Response(conf, y.target.vel, e, |inputs|), -1.0, 1.0))
    decreases |inputs|
  {
    assert !x.start;
    hide Ticks, Clock, Response, ConstantError, IsFinalTick, CompletionTime, JustStarted;
    if inputs == [] {
      NothingSummed(lib, conf, x, e);
    } else {
      ConstantBefore(lib, conf, x, inputs, e);
      SmallerSum(|inputs|, e, conf.integralMax);
      assert inputs[..|inputs|] == inputs;
      hide Sum;
      StepResponse(lib, conf, x, n, inputs[..|inputs| - 1], e);
      var z := LastTick(lib, conf, x, n, inputs);
      ResponseTick(lib, conf, z, |inputs|, e);
    }
  }

  lemma NothingSummed(lib: Libm, conf: Conf, x: Axis, e: real)
    requires lib.pi > 0.0 && JustStarted(x)
    ensures !x.start && Ticks(lib, conf, x, []) == x && Sum(0, e) == 0.0
  {
    hide Clock;
  }

  /** The axis that the last tick finds, under control, with the input it finds. */
  lemma LastTick(lib: Libm, conf: Conf, x: Axis, n: nat, inputs: seq<Input>) returns (z: Axis)
    requires lib.pi > 0.0 && JustStarted(x) && x.timebase > 0.0
    requires IsFinalTick(CompletionTime(x.plan), DT * x.timebase, n) && 1 <= |inputs| <= n + conf.settlingTime
    ensures UnderControl(conf, z) && SamePlan(z.plan, x.plan) && z.startPos == x.startPos
    ensures z == SetInput(Ticks(lib, conf, x, inputs[..|inputs| - 1]), inputs[|inputs| - 1])
    ensures Ticks(lib, conf, x, inputs) == Clock(lib, conf, z)
  {
    var (first, last) := (inputs[..|inputs| - 1], inputs[|inputs| - 1]);
    assert inputs == first + [last];
    hide Ticks, IsFinalTick, Clock, CompletionTime;
    FinalTickPositive(CompletionTime(x.plan), DT * x.timebase, n);
    MoveTerminates(lib, conf, x, n, first);
    var y := Ticks(lib, conf, x, first);
    AfterTicksUnderControl(conf, x, n, |first|, y);
    TicksSplit(lib, conf, x, first, last);
    z := SetInput(y, last);
  }

  lemma ConstantBefore(lib: Libm, conf: Conf, x: Axis, inputs: seq<Input>, e: real)
    requires lib.pi > 0.0 && !x.start && inputs != [] && ConstantError(lib, conf, x, inputs, e)
    ensures ConstantError(lib, conf, x, inputs[..|inputs| - 1], e) && Ticks(lib, conf, x, inputs[..|inputs|]).error == e
  {
    hide Ticks;
    var first := inputs[..|inputs| - 1];
    forall k | 1 <= k <= |first|
      ensures Ticks(lib, conf, x, first[..k]).error == e
    {
      assert first[..k] == inputs[..k];
    }
  }

  // ----- the set point on the way

  /** In every tick under control the set point is the sample of the plan at the axis's time. */
  lemma SetPointIsSample(lib: Libm, conf: Conf, x: Axis, n: nat, inputs: seq<Input>)
    requires lib.pi > 0.0 && JustStarted(x) && x.timebase > 0.0
    requires IsFinalTick(CompletionTime(x.plan), DT * x.timebase, n) && 1 <= |inputs| <= n + conf.settlingTime
    ensures var (y, s) := (Ticks(lib, conf, x, inputs), SampleAt(x.plan, Ticks(lib, conf, x, inputs).time));
            && (CompletionTime(x.plan) >= 0.0 ==> y.time >= 0.0)
            && (|inputs| <= n ==> y.time == |inputs| as real * (DT * x.timebase))
            && y.target == Pva(InUnits(lib, conf, s.pos + x.startPos), s.vel, s.acc)
  {
    hide Ticks, IsFinalTick, Clock, CompletionTime, SampleAt, InUnits, Regulate;
    FinalTickPositive(CompletionTime(x.plan), DT * x.timebase, n);
    MoveTerminates(lib, conf, x, n, inputs);
    TimeRuns(conf, x, n, |inputs|, Ticks(lib, conf, x, inputs));
    var z := LastTick(lib, conf, x, n, inputs);
    ClockRegulates(lib, conf, z);
    RegulateSamples(lib, conf, InTick(conf, z), x.plan);
  }

  /** What is left of `total` after `k` of `n` steps; it is used up exactly after the last. */
  predicate LeftAfter(left: real, total: real, step: real, n: nat, k: nat) {
    left == total - k as real * step && (left <= 0.0 <==> k == n)
  }

  /** While an axis travels its remaining time runs down by its timebase in every tick, and is used up exactly
      when its plan completes. */
  lemma RemainingRunsDown(lib: Libm, conf: Conf, x: Axis, n: nat, inputs: seq<Input>)
    requires lib.pi > 0.0 && JustStarted(x) && x.timebase > 0.0 && ControlRuns.Timed(x.plan)
    requires IsFinalTick(CompletionTime(x.plan), DT * x.timebase, n) && 1 <= |inputs| <= n
    ensures LeftAfter(RemainingTime(Ticks(lib, conf, x, inputs)), RemainingTime(x), DT * x.timebase, n, |inputs|)
  {
    assert x.time == 0.0 && !x.start;
    TimedCompletes(x.plan);
    hide *;
    MoveTerminates(lib, conf, x, n, inputs);
    TimeLeft(conf, x, n, |inputs|, Ticks(lib, conf, x, inputs));
  }

  lemma TimeLeft(conf: Conf, x: Axis, n: nat, k: nat, y: Axis)
    requires 1 <= k <= n && AfterTicks(conf, x, n, k, y) && x.time == 0.0 && x.timebase > 0.0
    requires IsFinalTick(x.plan.totalTime, DT * x.timebase, n)
    ensures LeftAfter(RemainingTime(y), RemainingTime(x), DT * x.timebase, n, k)
  {
    var step := DT * x.timebase;
    hide IsFinalTick, CompletionTime;
    StepsLeft(x.plan.totalTime, step, n, k);
  }

  lemma StepsLeft(total: real, step: real, n: nat, k: nat)
    requires step > 0.0 && IsFinalTick(total, step, n) && 1 <= k <= n
    ensures LeftAfter(total - k as real * step, total, step, n, k)
  {
    if k < n {
      FewerSteps(k as real, (n - 1) as real, step);
    }
  }

  lemma FewerSteps(a: real, b: real, step: real)
    requires a <= b && step > 0.0
    ensures a * step <= b * step
  {
    assert (b - a) * step >= 0.0;
    assert b * step == a * step + (b - a) * step;
  }

  lemma TimeRuns(conf: Conf, x: Axis, n: nat, k: nat, y: Axis)
    requires n >= 1 && AfterTicks(conf, x, n, k, y) && k <= n + conf.settlingTime && x.timebase > 0.0
    ensures CompletionTime(x.plan) >= 0.0 ==> y.time >= 0.0
    ensures k <= n ==> y.time == k as real * (DT * x.timebase)
  {
    assert k as real * (DT * x.timebase) >= 0.0;
    hide CompletionTime;
  }

  lemma RegulateSamples(lib: Libm, conf: Conf, x: Axis, plan: Profile)
    requires lib.pi > 0.0 && x.plan.planned && SamePlan(x.plan, plan)
    ensures var (y, s) := (Regulate(lib, conf, x), SampleAt(plan, x.time));
            y.target == Pva(InUnits(lib, conf, s.pos + x.startPos), s.vel, s.acc) && y.time == x.time
  {
    SamplePhaseless(x.plan, plan, x.time);
    hide SampleAt, InUnits, Filter.Next, ControlAction, Constrain;
  }

  lemma SamplePhaseless(p: Profile, q: Profile, t: real)
    requires SamePlan(p, q)
    ensures SampleAt(p, t) == SampleAt(q, t)
  {
    assert p == q.(phase := p.phase);
    hide *;
    PhaseIsNotRead(q, p.phase, t);
  }

  lemma PhaseIsNotRead(p: Profile, phase: Phase, t: real)
    ensures SampleAt(p.(phase := phase), t) == SampleAt(p, t)
  {
  }
}
