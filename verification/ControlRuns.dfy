/** What holds over whole runs of a controlled axis. */
module ControlRuns {
  import opened MathLib
  import opened MotionProfile
  import opened Control
  import Filter

  // ----- every run, with any requests in between

  /** Everything that can happen to an axis. */
  datatype Event =
    | TargetSet(pos: real)
    | LimitsSet(limits: Limits)
    | TimebaseSet(timebase: real)
    | Tick(input: Input)
    | ResetRequested

  /** A tick needs limits that are set when it has to plan a move. */
  predicate Allowed(x: Axis, e: Event) {
    e.Tick? && x.start ==> x.limits.AllSet()
  }

  function Apply(lib: Libm, conf: Conf, x: Axis, e: Event): Axis
    requires lib.pi > 0.0 && Allowed(x, e)
  {
    match e
    case TargetSet(pos) => SetTarget(x, pos)
    case LimitsSet(limits) => SetLimits(x, limits)
    case TimebaseSet(timebase) => SetTimebase(x, timebase)
    case Tick(input) => Clock(lib, conf, SetInput(x, input))
    case ResetRequested => STOPPED
  }

  /** `y` is reached from `x` through `events`, every tick with limits it can plan with. */
  ghost predicate Reaches(lib: Libm, conf: Conf, x: Axis, events: seq<Event>, y: Axis)
    requires lib.pi > 0.0
    decreases |events|
  {
    if events == [] then y == x
    else Allowed(x, events[0]) && Reaches(lib, conf, Apply(lib, conf, x, events[0]), events[1..], y)
  }

  /** Moving and settling exclude each other and a pending start excludes both; an axis in motion has a
      plan; the integral and the output stay within their limits and time does not run backwards. */
  ghost predicate Sound(conf: Conf, x: Axis) {
    && !(x.moving && x.settling)
    && (x.start ==> IsIdle(x))
    && (!IsIdle(x) ==> x.plan.planned)
    && -conf.integralMax <= x.integral <= conf.integralMax
    && -OUTPUT_LIMIT <= x.output <= OUTPUT_LIMIT
    && x.timebase >= 0.0 && x.time >= 0.0
  }

  lemma RegulateSound(lib: Libm, conf: Conf, x: Axis)
    requires lib.pi > 0.0 && conf.integralMax >= 0.0 && Sound(conf, x)
    ensures Sound(conf, Regulate(lib, conf, x))
    ensures var y := Regulate(lib, conf, x); y.moving == x.moving && y.settling == x.settling && y.start == x.start
  {
    hide SampleAt, NormalizeAngle, Filter.Next;
  }

  lemma AdvanceSound(lib: Libm, conf: Conf, x: Axis)
    requires lib.pi > 0.0 && conf.integralMax >= 0.0 && Sound(conf, x)
    ensures Sound(conf, Advance(lib, conf, x))
    ensures IsIdle(Advance(lib, conf, x)) ==> Advance(lib, conf, x).output == 0.0
  {
    hide Regulate;
    if x.moving {
      assert DT * x.timebase >= 0.0;
      RegulateSound(lib, conf, x.(time := x.time + DT * x.timebase));
    } else if x.settling && x.settleTime > 0 {
      RegulateSound(lib, conf, x.(time := x.time + DT, settleTime := x.settleTime - 1));
    }
  }

  /** One tick keeps the invariant, leaves no start pending, and an axis that is idle afterwards has
      zero output. */
  lemma ClockSound(lib: Libm, conf: Conf, x: Axis)
    requires lib.pi > 0.0 && conf.integralMax >= 0.0 && Sound(conf, x) && (x.start ==> x.limits.AllSet())
    ensures var y := Clock(lib, conf, x); Sound(conf, y) && !y.start && (IsIdle(y) ==> y.output == 0.0)
  {
    var noted := NoteCompletion(conf, x);
    AdvanceSound(lib, conf, noted);
    AdvanceKeepsRequest(lib, conf, noted);
    if noted.start {
      StartStaysPending(lib, conf, noted);
    }
    hide Advance, PlanWith, InUnits;
  }

  lemma StartStaysPending(lib: Libm, conf: Conf, x: Axis)
    requires lib.pi > 0.0 && Sound(conf, x) && x.start
    ensures IsIdle(Advance(lib, conf, x))
  {
  }

  /** The invariant holds on every run from a stopped axis, whatever is requested between the ticks. */
  lemma {:induction false} RunSound(lib: Libm, conf: Conf, x: Axis, events: seq<Event>, y: Axis)
    requires lib.pi > 0.0 && conf.integralMax >= 0.0 && Sound(conf, x) && Reaches(lib, conf, x, events, y)
    ensures Sound(conf, y)
    decreases |events|
  {
    if events != [] {
      hide Clock;
      match events[0] {
        case Tick(input) => ClockSound(lib, conf, SetInput(x, input));
        case _ =>
      }
      RunSound(lib, conf, Apply(lib, conf, x, events[0]), events[1..], y);
    }
  }

  lemma StoppedSound(conf: Conf)
    requires conf.integralMax >= 0.0
    ensures Sound(conf, STOPPED)
  {
  }

  // ----- one move, from its start to idle

  function Ticks(lib: Libm, conf: Conf, x: Axis, inputs: seq<Input>): Axis
    requires lib.pi > 0.0 && !x.start
    decreases |inputs|
  {
    if inputs == [] then x
    else
      StartNotRaised(lib, conf, SetInput(x, inputs[0]));
      Ticks(lib, conf, Clock(lib, conf, SetInput(x, inputs[0])), inputs[1..])
  }

  lemma StartNotRaised(lib: Libm, conf: Conf, x: Axis)
    requires lib.pi > 0.0 && !x.start
    ensures !Clock(lib, conf, x).start
  {
    AdvanceKeepsRequest(lib, conf, NoteCompletion(conf, x));
    hide Advance;
  }

  /** The time from which on every sample of the profile is completed, whatever the signs of its durations. */
  function CompletionTime(p: Profile): real {
    Max(Max(p.t1, p.t1 + p.t2), p.totalTime)
  }

  /** Durations that are not negative. */
  predicate Timed(p: Profile) {
    p.planned && p.t1 >= 0.0 && p.t2 >= 0.0 && p.t3 >= 0.0 && p.totalTime == p.t1 + p.t2 + p.t3
  }

  lemma TimedCompletes(p: Profile)
    requires Timed(p)
    ensures CompletionTime(p) == p.totalTime
  {
  }

  /** The two profiles differ in nothing but the phase. */
  predicate SamePlan(p: Profile, q: Profile) {
    p == q.(phase := p.phase)
  }

  /** An axis that just started a move. */
  predicate JustStarted(x: Axis) {
    x.moving && !x.settling && !x.start && x.time == 0.0 && x.plan.planned && x.plan.phase != Completed
  }

  /** `n` is the first tick, counted from 1, at which n * step reaches the total. */
  predicate IsFinalTick(total: real, step: real, n: nat) {
    n >= 1 && n as real * step >= total && (n == 1 || (n - 1) as real * step < total)
  }

  lemma FinalTickPositive(total: real, step: real, n: nat)
    requires IsFinalTick(total, step, n)
    ensures n >= 1
  {
  }

  lemma FinalTickExists(total: real, step: real) returns (n: nat)
    requires step > 0.0
    ensures IsFinalTick(total, step, n)
  {
    if total <= step {
      n := 1;
    } else {
      var q := total / step;
      QuotientTimesDivisor(total, step);
      assert q > 1.0 by { MulMonotone(step, 1.0, q); }
      n := if q.Floor as real == q then q.Floor else q.Floor + 1;
      MulMonotone(step, q, n as real);
      MulMonotone(step, (n - 1) as real, q);
    }
  }

  lemma FinalTickUnique(total: real, step: real, m: nat, n: nat)
    requires step > 0.0 && IsFinalTick(total, step, m) && IsFinalTick(total, step, n)
    ensures m == n
  {
    EarlierIsShort(total, step, m, n);
    EarlierIsShort(total, step, n, m);
  }

  lemma EarlierIsShort(total: real, step: real, m: nat, n: nat)
    requires step > 0.0 && IsFinalTick(total, step, n)
    ensures 0 < m < n ==> m as real * step < total
  {
    if 0 < m < n {
      MulMonotone(step, m as real, (n - 1) as real);
      assert m as real * step == step * m as real;
    }
  }

  /** Where a move stands after `k` ticks, when the profile completes in tick `n`: travelling up to
      tick n, settling for the next settlingTime ticks, then idle with zero output. */
  ghost predicate AfterTicks(conf: Conf, x: Axis, n: nat, k: nat, y: Axis)
    requires n >= 1
  {
    && !y.start && SamePlan(y.plan, x.plan) && y.startPos == x.startPos && y.newTarget == x.newTarget
    && (if k <= n then
          && y.moving && !y.settling && y.timebase == x.timebase
          && y.time == k as real * (DT * x.timebase)
          && (y.plan.phase == Completed <==> k == n)
        else if k <= n + conf.settlingTime then
          !y.moving && y.settling && y.settleTime == n + conf.settlingTime - k && y.time >= CompletionTime(x.plan)
        else
          IsIdle(y) && y.output == 0.0)
  }

  lemma RegulateKeeps(lib: Libm, conf: Conf, x: Axis)
    requires lib.pi > 0.0 && x.plan.planned
    ensures var y := Regulate(lib, conf, x);
            && SamePlan(y.plan, x.plan) && (y.plan.phase == Completed <==> x.time >= CompletionTime(x.plan))
            && y == x.(plan := y.plan, target := y.target, errors := y.errors, integral := y.integral,
                       error := y.error, output := y.output)
  {
    hide NormalizeAngle, Filter.Next, Constrain;
    CompletedByTime(x.plan, x.time);
  }

  lemma CompletedByTime(p: Profile, t: real)
    ensures SampleAt(p, t).phase == Completed <==> t >= CompletionTime(p)
  {
  }

  lemma OneMoreTick(lib: Libm, conf: Conf, x: Axis, n: nat, k: nat, y: Axis, input: Input)
    requires lib.pi > 0.0 && JustStarted(x) && x.timebase > 0.0
    requires IsFinalTick(CompletionTime(x.plan), DT * x.timebase, n)
    requires k <= n + conf.settlingTime && AfterTicks(conf, x, n, k, y)
    ensures AfterTicks(conf, x, n, k + 1, Clock(lib, conf, SetInput(y, input)))
  {
    var step := DT * x.timebase;
    var z := SetInput(y, input);
    SamePlanCompletes(y.plan, x.plan);
    hide Regulate, NormalizeAngle, PlanWith, CompletionTime;
    if k < n {
      var w := z.(time := z.time + DT * z.timebase);
      TimeOfTick(step, k, n, CompletionTime(x.plan));
      RegulateKeeps(lib, conf, w);
    } else if k < n + conf.settlingTime {
      var s := NoteCompletion(conf, z);
      CompletedInTime(x, n, k, y);
      RegulateKeeps(lib, conf, s.(time := s.time + DT, settleTime := s.settleTime - 1));
    }
  }

  lemma SamePlanCompletes(p: Profile, q: Profile)
    ensures SamePlan(p, q) ==> CompletionTime(p) == CompletionTime(q)
  {
  }

  lemma CompletedInTime(x: Axis, n: nat, k: nat, y: Axis)
    requires IsFinalTick(CompletionTime(x.plan), DT * x.timebase, n) && k >= n
    requires if k == n then y.time == n as real * (DT * x.timebase) else y.time >= CompletionTime(x.plan)
    ensures y.time >= CompletionTime(x.plan)
  {
  }

  lemma TimeOfTick(step: real, k: nat, n: nat, total: real)
    requires step > 0.0 && IsFinalTick(total, step, n) && k < n
    ensures k as real * step + step == (k + 1) as real * step
    ensures (k + 1) as real * step >= total <==> k + 1 == n
  {
    assert (k + 1) as real == k as real + 1.0;
    if k + 1 < n {
      MulMonotone(step, (k + 1) as real, (n - 1) as real);
    }
  }

  lemma {:induction false} TicksFrom(lib: Libm, conf: Conf, x: Axis, n: nat, k: nat, y: Axis, inputs: seq<Input>)
    requires lib.pi > 0.0 && JustStarted(x) && x.timebase > 0.0
    requires IsFinalTick(CompletionTime(x.plan), DT * x.timebase, n)
    requires AfterTicks(conf, x, n, k, y) && k + |inputs| <= n + conf.settlingTime + 1
    ensures AfterTicks(conf, x, n, k + |inputs|, Ticks(lib, conf, y, inputs))
    decreases |inputs|
  {
    if inputs != [] {
      hide Clock, AfterTicks;
      assert !y.start by { NotPending(conf, x, n, k, y); }
      StartNotRaised(lib, conf, SetInput(y, inputs[0]));
      OneMoreTick(lib, conf, x, n, k, y, inputs[0]);
      TicksFrom(lib, conf, x, n, k + 1, Clock(lib, conf, SetInput(y, inputs[0])), inputs[1..]);
    }
  }

  lemma NotPending(conf: Conf, x: Axis, n: nat, k: nat, y: Axis)
    requires n >= 1 && AfterTicks(conf, x, n, k, y)
    ensures !y.start
  {
  }

  /** Every move terminates, and when is known exactly: whatever the measurements are, it travels until
      the first tick n at which n * DT * timebase reaches the completion time, settles for settlingTime
      ticks, and is idle with zero output one tick later. */
  lemma MoveTerminates(lib: Libm, conf: Conf, x: Axis, n: nat, inputs: seq<Input>)
    requires lib.pi > 0.0 && JustStarted(x) && x.timebase > 0.0
    requires IsFinalTick(CompletionTime(x.plan), DT * x.timebase, n) && |inputs| <= n + conf.settlingTime + 1
    ensures AfterTicks(conf, x, n, |inputs|, Ticks(lib, conf, x, inputs))
    ensures |inputs| == n + conf.settlingTime + 1
        ==> IsIdle(Ticks(lib, conf, x, inputs)) && Ticks(lib, conf, x, inputs).output == 0.0
  {
    assert 0 as real * (DT * x.timebase) == 0.0;
    TicksFrom(lib, conf, x, n, 0, x, inputs);
  }

  // ----- where a move ends

  /** The set point an axis is led to. */
  function Goal(lib: Libm, conf: Conf, x: Axis): real
    requires lib.pi > 0.0
  {
    InUnits(lib, conf, x.plan.startPosition + x.plan.totalDistance + x.startPos)
  }

  lemma RegulateAtEnd(lib: Libm, conf: Conf, x: Axis)
    requires lib.pi > 0.0 && x.plan.planned && x.time >= CompletionTime(x.plan) && x.plan.v3 == 0.0
    ensures Regulate(lib, conf, x).target.pos == Goal(lib, conf, x)
    ensures Regulate(lib, conf, x).target.vel == 0.0 && Regulate(lib, conf, x).target.acc == 0.0
  {
    hide NormalizeAngle, Filter.Next, Constrain;
    assert SampleAt(x.plan, x.time) == Sample(x.plan.startPosition + x.plan.totalDistance, 0.0, 0.0, Completed) by {
      assert x.plan.v3 * (x.time - x.plan.totalTime) == 0.0;
    }
  }

  /** From the tick that completes the profile to the last tick of settling, the set point is the goal
      of the move, at rest. */
  lemma SetPointIsGoal(lib: Libm, conf: Conf, x: Axis, n: nat, k: nat, y: Axis, input: Input)
    requires lib.pi > 0.0 && JustStarted(x) && x.timebase > 0.0 && x.plan.v3 == 0.0
    requires IsFinalTick(CompletionTime(x.plan), DT * x.timebase, n)
    requires n - 1 <= k < n + conf.settlingTime && AfterTicks(conf, x, n, k, y)
    ensures var z := Clock(lib, conf, SetInput(y, input));
            z.target == Pva(Goal(lib, conf, x), 0.0, 0.0)
  {
    var step := DT * x.timebase;
    var z := SetInput(y, input);
    hide Regulate, InUnits, PlanWith, SampleAt;
    if k < n {
      TimeOfTick(step, k, n, CompletionTime(x.plan));
      RegulateAtEnd(lib, conf, z.(time := z.time + DT * z.timebase));
    } else {
      var s := NoteCompletion(conf, z);
      CompletedInTime(x, n, k, y);
      RegulateAtEnd(lib, conf, s.(time := s.time + DT, settleTime := s.settleTime - 1));
    }
  }

  /** The same over a whole run: after between n and n + settlingTime ticks the axis holds its goal. */
  lemma MoveArrives(lib: Libm, conf: Conf, x: Axis, n: nat, inputs: seq<Input>)
    requires lib.pi > 0.0 && JustStarted(x) && x.timebase > 0.0 && x.plan.v3 == 0.0
    requires IsFinalTick(CompletionTime(x.plan), DT * x.timebase, n) && n <= |inputs| <= n + conf.settlingTime
    ensures Ticks(lib, conf, x, inputs).target == Pva(Goal(lib, conf, x), 0.0, 0.0)
  {
    hide Clock, AfterTicks, Goal, Ticks, IsFinalTick, SetInput;
    assert n >= 1 by { FinalTickPositive(CompletionTime(x.plan), DT * x.timebase, n); }
    var (first, last) := (inputs[..|inputs| - 1], inputs[|inputs| - 1]);
    assert inputs == first + [last];
    MoveTerminates(lib, conf, x, n, first);
    TicksSplit(lib, conf, x, first, last);
    SetPointIsGoal(lib, conf, x, n, |first|, Ticks(lib, conf, x, first), last);
  }

  lemma {:induction false} TicksSplit(lib: Libm, conf: Conf, x: Axis, first: seq<Input>, last: Input)
    requires lib.pi > 0.0 && !x.start
    ensures !Ticks(lib, conf, x, first).start
    ensures Ticks(lib, conf, x, first + [last]) == Clock(lib, conf, SetInput(Ticks(lib, conf, x, first), last))
    decreases |first|
  {
    hide Clock;
    if first == [] {
      assert first + [last] == [last] && [last][1..] == [];
      StartNotRaised(lib, conf, SetInput(x, last));
      var y := Clock(lib, conf, SetInput(x, last));
      assert Ticks(lib, conf, y, []) == y;
    } else {
      StartNotRaised(lib, conf, SetInput(x, first[0]));
      assert (first + [last])[0] == first[0] && (first + [last])[1..] == first[1..] + [last];
      TicksSplit(lib, conf, Clock(lib, conf, SetInput(x, first[0])), first[1..], last);
    }
  }

  /** The move an axis with a pending start asks the planner for. */
  function Pending(lib: Libm, conf: Conf, x: Axis): Move
    requires lib.pi > 0.0
  {
    Move(0.0, x.input.vel, InUnits(lib, conf, x.newTarget - x.input.pos), 0.0)
  }

  /** A move starts from any measured velocity, ends at rest, and its goal is the target it was given. It
      is over at its traversal time when it is feasible, that is, when its durations are not negative. */
  lemma BeginStarts(lib: Libm, conf: Conf, x: Axis)
    requires lib.Valid() && x.limits.AllSet() && IsIdle(x) && x.start
    ensures var y := Begin(lib, conf, x);
            var feasible := Feasible(Init(x.limits.acc, x.limits.vel, x.limits.dec), Pending(lib, conf, x));
            && JustStarted(y) && y.timebase == 1.0 && y.plan.v3 == 0.0 && y.integral == 0.0 && y.error == 0.0
            && (Timed(y.plan) <==> feasible)
            && (feasible ==> CompletionTime(y.plan) == y.plan.totalTime)
            && y.plan.totalDistance == InUnits(lib, conf, x.newTarget - x.input.pos)
            && Goal(lib, conf, y) == InUnits(lib, conf, InUnits(lib, conf, x.newTarget - x.input.pos) + x.input.pos)
  {
    var p := Init(x.limits.acc, x.limits.vel, x.limits.dec);
    var m := Pending(lib, conf, x);
    InitLimited(x.limits);
    LibraryRoot(lib, p, m);
    hide Radicand, Times, NormalizeAngle, Feasible;
    var root := lib.sqrt(Radicand(m.Sign() * p.acc, m.Sign() * p.dec, m));
    PlanReachesTarget(p, m, root);
    DurationsNonNegative(p, m, root);
  }

  /** From rest every move is feasible. */
  lemma BeginAtRest(lib: Libm, conf: Conf, x: Axis)
    requires lib.Valid() && x.limits.AllSet() && x.input.vel == 0.0 && IsIdle(x) && x.start
    ensures var y := Begin(lib, conf, x);
            && JustStarted(y) && Timed(y.plan) && y.timebase == 1.0 && y.plan.v3 == 0.0 && y.integral == 0.0 && y.error == 0.0
            && y.plan.totalDistance == InUnits(lib, conf, x.newTarget - x.input.pos)
            && Goal(lib, conf, y) == InUnits(lib, conf, InUnits(lib, conf, x.newTarget - x.input.pos) + x.input.pos)
  {
    InitLimited(x.limits);
    RestToRestFeasible(Init(x.limits.acc, x.limits.vel, x.limits.dec), Pending(lib, conf, x));
    hide Begin, Feasible, Goal, InUnits, JustStarted, Timed;
    BeginStarts(lib, conf, x);
  }
}
