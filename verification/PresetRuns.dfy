/** Where a loaded preset takes the crane, and when both axes get there. */
module PresetRuns {
  import opened MathLib
  import opened MotionProfile
  import opened Control
  import opened ControlRuns
  import opened Measured
  import opened Preset

  // ----- one axis

  /** The axis completes its profile in tick `n`. */
  predicate FinishesAt(x: Axis, n: nat) {
    IsFinalTick(CompletionTime(x.plan), DT * x.timebase, n)
  }

  /** Whatever is measured on the way, from the tick that completes its profile to the last tick of
      settling the set point of the axis is `goal`, at rest. */
  ghost predicate HeadsFor(lib: Libm, conf: Conf, x: Axis, goal: real)
    requires lib.pi > 0.0
  {
    && JustStarted(x) && x.timebase > 0.0
    && (exists n: nat :: FinishesAt(x, n))
    && forall n: nat, inputs: seq<Input> ::
         FinishesAt(x, n) && n <= |inputs| <= n + conf.settlingTime
         ==> Ticks(lib, conf, x, inputs).target == Pva(goal, 0.0, 0.0)
  }

  lemma GoalIsReached(lib: Libm, conf: Conf, x: Axis)
    requires lib.pi > 0.0 && JustStarted(x) && x.timebase > 0.0 && x.plan.v3 == 0.0
    ensures HeadsFor(lib, conf, x, Goal(lib, conf, x))
  {
    hide IsFinalTick, Ticks, Goal, CompletionTime;
    var last := FinalTickExists(CompletionTime(x.plan), DT * x.timebase);
    assert FinishesAt(x, last);
    forall n: nat, inputs: seq<Input> |
      FinishesAt(x, n) && n <= |inputs| <= n + conf.settlingTime
      ensures Ticks(lib, conf, x, inputs).target == Pva(Goal(lib, conf, x), 0.0, 0.0)
    {
      MoveArrives(lib, conf, x, n, inputs);
    }
  }

  /** A tick on an axis with a new target starts the move to it, whatever the axis did before. */
  lemma RequestStarts(lib: Libm, conf: Conf, x: Axis, pos: real, target: real, limits: Limits)
    requires lib.Valid() && limits.AllSet()
    ensures var y := Clock(lib, conf, Requested(x, pos, target, limits));
            && JustStarted(y) && Timed(y.plan) && y.timebase == 1.0 && y.plan.v3 == 0.0 && y.integral == 0.0 && y.error == 0.0
            && y.plan.totalDistance == InUnits(lib, conf, target - pos)
            && Goal(lib, conf, y) == InUnits(lib, conf, InUnits(lib, conf, target - pos) + pos)
  {
    var z := Advance(lib, conf, NoteCompletion(conf, Requested(x, pos, target, limits)));
    hide PlanWith, InUnits, Goal, Begin;
    assert Clock(lib, conf, Requested(x, pos, target, limits)) == Begin(lib, conf, z);
    BeginAtRest(lib, conf, z);
  }

  /** Adding back what was subtracted before normalising leaves the same direction. */
  lemma YawGoal(pi: real, target: real, yaw: real)
    requires pi > 0.0
    ensures NormalizeAngle(pi, NormalizeAngle(pi, target - yaw) + yaw) == NormalizeAngle(pi, target)
  {
    hide NormalizeAngle, SameDirection;
    NormalizeAngleIsNormalized(pi, target - yaw);
    SameDirectionReflexive(pi, yaw);
    SameDirectionAdds(pi, NormalizeAngle(pi, target - yaw), target - yaw, yaw, yaw);
    NormalizeAgrees(pi, NormalizeAngle(pi, target - yaw) + yaw, target);
  }

  lemma NormalizeAgain(pi: real, a: real, b: real)
    requires pi > 0.0
    ensures NormalizeAngle(pi, NormalizeAngle(pi, a) + b) == NormalizeAngle(pi, a + b)
    ensures NormalizeAngle(pi, NormalizeAngle(pi, a)) == NormalizeAngle(pi, a)
    ensures IsNormalized(pi, a) ==> NormalizeAngle(pi, a) == a
  {
    hide NormalizeAngle, SameDirection;
    YawGoal(pi, a + b, b);
    YawGoal(pi, a, 0.0);
    SameDirectionReflexive(pi, a);
    NormalizeCharacterised(pi, a, a);
  }

  /** A request, started: the pitch axis heads for its target itself, the yaw axis for its target
      normalised, over no more than half a turn. */
  lemma RequestHeadsFor(s: Setup, x: Axis, pos: real, target: real, limits: Limits)
    requires s.Valid() && limits.AllSet()
    ensures var y := Clock(s.lib, s.updown, Requested(x, pos, target, limits));
            HeadsFor(s.lib, s.updown, y, target) && y.plan.totalDistance == target - pos
    ensures var y := Clock(s.lib, s.leftright, Requested(x, pos, target, limits));
            && HeadsFor(s.lib, s.leftright, y, NormalizeAngle(s.lib.pi, target))
            && y.plan.totalDistance == NormalizeAngle(s.lib.pi, target - pos)
            && Abs(y.plan.totalDistance) <= s.lib.pi
  {
    hide Clock, NormalizeAngle, HeadsFor, JustStarted, Goal;
    var u := Clock(s.lib, s.updown, Requested(x, pos, target, limits));
    var l := Clock(s.lib, s.leftright, Requested(x, pos, target, limits));
    RequestStarts(s.lib, s.updown, x, pos, target, limits);
    RequestStarts(s.lib, s.leftright, x, pos, target, limits);
    GoalIsReached(s.lib, s.updown, u);
    GoalIsReached(s.lib, s.leftright, l);
    YawGoal(s.lib.pi, target, pos);
    NormalizeAngleIsNormalized(s.lib.pi, target - pos);
  }

  /** A slower clock changes when an axis arrives, not where. */
  lemma TimebaseKeepsGoal(lib: Libm, conf: Conf, x: Axis, timebase: real)
    requires lib.pi > 0.0 && JustStarted(x) && x.plan.v3 == 0.0 && timebase > 0.0
    ensures HeadsFor(lib, conf, SetTimebase(x, timebase), Goal(lib, conf, x))
  {
    hide HeadsFor;
    GoalIsReached(lib, conf, SetTimebase(x, timebase));
  }

  // ----- both axes together

  lemma Reciprocal(x: real, y: real)
    requires x > 0.0 && y > 0.0
    ensures x / y > 0.0 && (x / y) * y == x && 1.0 / (x / y) > 0.0 && (x / y) * (1.0 / (x / y)) == 1.0
  {
    QuotientTimesDivisor(x, y);
    MulMonotone(y, 0.0, x / y);
    QuotientTimesDivisor(1.0, x / y);
    MulMonotone(x / y, 0.0, 1.0 / (x / y));
  }

  /** At 1 / (x / y) of the speed the time y is reached exactly when x is reached at full speed. */
  lemma SlowedDown(x: real, y: real, t: real)
    requires x > 0.0 && y > 0.0
    ensures t * (1.0 / (x / y)) >= y <==> t >= x
  {
    Reciprocal(x, y);
    var (scale, r) := (x / y, 1.0 / (x / y));
    MulMonotone(scale, y, t * r);
    assert scale * (t * r) == t * (scale * r);
  }

  /** Both timebases are positive, and 1 when the shorter move is not longer than 0.05 s. */
  lemma TimebasesPositive(u: real, l: real)
    requires u >= 0.0 && l >= 0.0
    ensures Timebases(u, l).0 > 0.0 && Timebases(u, l).1 > 0.0
    ensures Min(u, l) <= 0.05 ==> Timebases(u, l) == (1.0, 1.0)
    ensures Min(u, l) > 0.05 ==> Timebases(u, l) == if u >= l then (1.0, 1.0 / (u / l)) else (1.0 / (l / u), 1.0)
  {
    if Min(u, l) > 0.05 {
      ScaleAtLeastOne(Max(u, l), Min(u, l));
      Reciprocal(Max(u, l), Min(u, l));
    }
  }

  lemma ScaleAtLeastOne(x: real, y: real)
    requires x >= y > 0.0
    ensures x / y >= 1.0
  {
    QuotientTimesDivisor(x, y);
    MulMonotone(y, 1.0, x / y);
  }

  /** `k` ticks at the timebase reach the traversal time. */
  predicate Reached(total: real, timebase: real, k: nat) {
    k as real * (DT * timebase) >= total
  }

  lemma ReachedTogether(u: real, l: real, k: nat)
    requires u >= 0.0 && l >= 0.0 && Min(u, l) > 0.05
    ensures Reached(u, Timebases(u, l).0, k) <==> Reached(l, Timebases(u, l).1, k)
  {
    TimebasesPositive(u, l);
    var t := k as real * DT;
    if u >= l {
      SlowedDown(u, l, t);
      ScaledTicks(k, 1.0 / (u / l));
    } else {
      SlowedDown(l, u, t);
      ScaledTicks(k, 1.0 / (l / u));
    }
  }

  lemma ScaledTicks(k: nat, timebase: real)
    ensures k as real * (DT * timebase) == k as real * DT * timebase
  {
  }

  lemma FinalTickByReached(total: real, timebase: real, n: nat)
    ensures IsFinalTick(total, DT * timebase, n) <==>
            n >= 1 && Reached(total, timebase, n) && (n == 1 || !Reached(total, timebase, n - 1))
  {
  }

  /** Loading does nothing unless both the preset and home were saved before, and then begins a move. */
  lemma LoadsIffSaved(s: Setup, c: Crane, m: Measurement, k: nat)
    requires s.lib.pi > 0.0 && c.Valid() && Rated(m) && k < PRESET_COUNT
    ensures var saved := c.presets[k].valid && c.presets[HOME].valid;
            && (!saved ==> Load(s, c, m, k) == c)
            && (saved ==> Load(s, c, m, k).mode == Auto)
  {
    hide Clock, NormalizeAngle, HomeYaw, Timebases;
  }

  /** What loading a preset other than home makes of the two axes. */
  lemma LoadedPreset(s: Setup, c: Crane, m: Measurement, k: nat)
    requires s.Valid() && c.Valid() && 0 < k < PRESET_COUNT && Rated(m) && CanLoad(c, k)
    ensures var d := Load(s, c, m, k);
            var (u, l) := (d.updown, d.leftright);
            && d.mode == Auto && d.presets == c.presets
            && JustStarted(u) && JustStarted(l) && Timed(u.plan) && Timed(l.plan)
            && (u.timebase, l.timebase) == Timebases(u.plan.totalTime, l.plan.totalTime)
            && u.timebase > 0.0 && l.timebase > 0.0
            && HeadsFor(s.lib, s.updown, u, TargetPitch(c, k))
            && HeadsFor(s.lib, s.leftright, l, NormalizeAngle(s.lib.pi, TargetYaw(s.lib.pi, c, k)))
            && Abs(l.plan.totalDistance) <= s.lib.pi
  {
    hide Clock, HeadsFor, NormalizeAngle, Timebases, Goal, TargetYaw, TargetPitch;
    RatedLimits(m);
    var (p, y) := (TargetPitch(c, k), TargetYaw(s.lib.pi, c, k));
    var u := Clock(s.lib, s.updown, Requested(c.updown, m.pitch, p, UpDownLimits(m)));
    var l := Clock(s.lib, s.leftright, Requested(c.leftright, m.yaw, y, LeftRightLimits(m)));
    RequestStarts(s.lib, s.updown, c.updown, m.pitch, p, UpDownLimits(m));
    RequestStarts(s.lib, s.leftright, c.leftright, m.yaw, y, LeftRightLimits(m));
    hide UpDownLimits, LeftRightLimits;
    TimebasesPositive(u.plan.totalTime, l.plan.totalTime);
    var t := Timebases(u.plan.totalTime, l.plan.totalTime);
    TimebaseKeepsGoal(s.lib, s.updown, u, t.0);
    TimebaseKeepsGoal(s.lib, s.leftright, l, t.1);
    YawGoal(s.lib.pi, y, m.yaw);
    NormalizeAngleIsNormalized(s.lib.pi, y - m.yaw);
  }

  /** When the shorter move lasts more than 0.05 s both axes complete their profiles in the same tick. */
  lemma AxesFinishTogether(s: Setup, c: Crane, m: Measurement, k: nat, n: nat)
    requires s.Valid() && c.Valid() && 0 < k < PRESET_COUNT && Rated(m) && CanLoad(c, k)
    requires var d := Load(s, c, m, k); Min(d.updown.plan.totalTime, d.leftright.plan.totalTime) > 0.05
    ensures var d := Load(s, c, m, k);
            FinishesAt(d.updown, n) <==> FinishesAt(d.leftright, n)
  {
    LoadedPreset(s, c, m, k);
    hide Load, HeadsFor, Timebases, TargetYaw, TargetPitch, NormalizeAngle, Reached, IsFinalTick;
    var d := Load(s, c, m, k);
    var (u, l) := (d.updown, d.leftright);
    TimedCompletes(u.plan);
    TimedCompletes(l.plan);
    FinalTickByReached(u.plan.totalTime, u.timebase, n);
    FinalTickByReached(l.plan.totalTime, l.timebase, n);
    ReachedTogether(u.plan.totalTime, l.plan.totalTime, n);
    if n >= 1 {
      ReachedTogether(u.plan.totalTime, l.plan.totalTime, n - 1);
    }
  }

  /** Of two moves lasting `t` and `u`, the longer is flown at full speed and the shorter slowed down by as
      much as it is shorter; both at full speed if the shorter lasts no more than 0.05 s. */
  predicate ShorterSlowed(t: real, u: real, a: real, b: real) {
    && (Min(t, u) <= 0.05 ==> a == 1.0 && b == 1.0)
    && (Min(t, u) > 0.05 && t >= u ==> a == 1.0 && b * t == u)
    && (Min(t, u) > 0.05 && t < u ==> b == 1.0 && a * u == t)
  }

  lemma ShorterIsSlowed(s: Setup, c: Crane, m: Measurement, k: nat)
    requires s.Valid() && c.Valid() && 0 < k < PRESET_COUNT && Rated(m) && CanLoad(c, k)
    ensures var (u, l) := (Load(s, c, m, k).updown, Load(s, c, m, k).leftright);
            ShorterSlowed(u.plan.totalTime, l.plan.totalTime, u.timebase, l.timebase)
  {
    LoadedPreset(s, c, m, k);
    hide Load, HeadsFor, Timebases, TargetYaw, TargetPitch, NormalizeAngle, ShorterSlowed, CanLoad;
    TimebasesSlow(Load(s, c, m, k).updown.plan.totalTime, Load(s, c, m, k).leftright.plan.totalTime);
  }

  lemma TimebasesSlow(t: real, u: real)
    requires t >= 0.0 && u >= 0.0
    ensures ShorterSlowed(t, u, Timebases(t, u).0, Timebases(t, u).1)
  {
    TimebasesPositive(t, u);
    hide Timebases;
    if Min(t, u) > 0.05 {
      SlowedBy(Max(t, u), Min(t, u));
    }
  }

  lemma SlowedBy(x: real, y: real)
    requires x > 0.0 && y > 0.0
    ensures x / y != 0.0 && 1.0 / (x / y) * x == y
  {
    Reciprocal(x, y);
    var (scale, r) := (x / y, 1.0 / (x / y));
    assert r * (scale * y) == scale * r * y;
  }

  /** The same seen on the running axes: up to that tick, neither or both have completed. */
  lemma AxesCompleteTogether(s: Setup, c: Crane, m: Measurement, k: nat, n: nat, pitches: seq<Input>, yaws: seq<Input>)
    requires s.Valid() && c.Valid() && 0 < k < PRESET_COUNT && Rated(m) && CanLoad(c, k)
    requires var d := Load(s, c, m, k); Min(d.updown.plan.totalTime, d.leftright.plan.totalTime) > 0.05
    requires FinishesAt(Load(s, c, m, k).updown, n)
    requires |pitches| == |yaws| <= n
    ensures var d := Load(s, c, m, k);
            && !d.updown.start && !d.leftright.start
            && (Ticks(s.lib, s.updown, d.updown, pitches).plan.phase == Completed <==> |pitches| == n)
            && (Ticks(s.lib, s.leftright, d.leftright, yaws).plan.phase == Completed <==> |yaws| == n)
  {
    LoadedPreset(s, c, m, k);
    AxesFinishTogether(s, c, m, k, n);
    hide Load, HeadsFor, Timebases, TargetYaw, TargetPitch, NormalizeAngle, Ticks, IsFinalTick;
    var d := Load(s, c, m, k);
    FinalTickPositive(CompletionTime(d.updown.plan), DT * d.updown.timebase, n);
    MoveTerminates(s.lib, s.updown, d.updown, n, pitches);
    MoveTerminates(s.lib, s.leftright, d.leftright, n, yaws);
  }

  // ----- saving and loading

  /** A preset saved with the crane at `m1`, loaded from anywhere: the crane ends where it was saved,
      displaced by as much as home was moved in between, with at most half a turn of yaw. */
  lemma SavedPresetIsReached(s: Setup, c1: Crane, m1: Measurement, c2: Crane, m2: Measurement, k: nat)
    requires s.Valid() && c1.Valid() && c2.Valid() && 0 < k < PRESET_COUNT && Rated(m2)
    requires c2.presets[k] == Save(c1.presets, m1, k)[k] && c2.presets[HOME].valid
    ensures var d := Load(s, c2, m2, k);
            var (h1, h2) := (c1.presets[HOME], c2.presets[HOME]);
            && d.mode == Auto
            && HeadsFor(s.lib, s.updown, d.updown, m1.pitch + (h2.pitch - h1.pitch))
            && HeadsFor(s.lib, s.leftright, d.leftright, NormalizeAngle(s.lib.pi, m1.yaw + (h2.yaw - h1.yaw)))
            && Abs(d.leftright.plan.totalDistance) <= s.lib.pi
  {
    LoadedPreset(s, c2, m2, k);
    NormalizeAgain(s.lib.pi, c2.presets[k].yaw + c2.presets[HOME].yaw, 0.0);
    hide Load, HeadsFor, Timebases, NormalizeAngle;
  }

  /** With home unchanged it is the saved position itself: exactly in pitch, and in yaw the saved angle
      when that was a normalised one. */
  lemma RoundTrip(s: Setup, c1: Crane, m1: Measurement, c2: Crane, m2: Measurement, k: nat)
    requires s.Valid() && c1.Valid() && c2.Valid() && 0 < k < PRESET_COUNT && Rated(m2)
    requires c2.presets[k] == Save(c1.presets, m1, k)[k] && c2.presets[HOME].valid
    requires c1.presets[HOME] == c2.presets[HOME] && IsNormalized(s.lib.pi, m1.yaw)
    ensures HeadsFor(s.lib, s.updown, Load(s, c2, m2, k).updown, m1.pitch)
    ensures HeadsFor(s.lib, s.leftright, Load(s, c2, m2, k).leftright, m1.yaw)
  {
    SavedPresetIsReached(s, c1, m1, c2, m2, k);
    NormalizeAgain(s.lib.pi, m1.yaw, 0.0);
    hide Load, HeadsFor, NormalizeAngle;
  }

  // ----- home

  lemma OneTurnBack(pi: real, d: real)
    ensures SameDirection(pi, d - pi, d + pi) && SameDirection(pi, d + pi, d + pi)
  {
    TurnsAdd(pi, 1, 0);
    hide Turns;
    assert TurnsApart(pi, d - pi, d + pi, -1);
    SameDirectionReflexive(pi, d + pi);
  }

  lemma OppositeDirection(pi: real, d: real)
    requires pi > 0.0 && IsNormalized(pi, d) && Abs(d) > pi / 2.0
    ensures Abs(NormalizeAngle(pi, d + pi)) <= pi / 2.0
  {
    var r := if d > 0.0 then d - pi else d + pi;
    OneTurnBack(pi, d);
    hide NormalizeAngle, SameDirection;
    NormalizeCharacterised(pi, d + pi, r);
  }

  /** Home is approached from the nearer side: the chosen yaw is at most a quarter turn away, and it is
      home itself exactly when home is that near, and the direction opposite to home otherwise. */
  lemma HomeIsNear(pi: real, home: real, yaw: real)
    requires pi > 0.0
    ensures Abs(NormalizeAngle(pi, HomeYaw(pi, home, yaw) - yaw)) <= pi / 2.0
    ensures HomeYaw(pi, home, yaw) ==
            if Abs(NormalizeAngle(pi, home - yaw)) <= pi / 2.0 then home else NormalizeAngle(pi, home + pi)
  {
    hide NormalizeAngle, SameDirection;
    var d := NormalizeAngle(pi, home - yaw);
    NormalizeAngleIsNormalized(pi, home - yaw);
    if Abs(d) > pi / 2.0 {
      NormalizeAgain(pi, home + pi, -yaw);
      NormalizeAgain(pi, home - yaw, pi);
      OppositeDirection(pi, d);
      assert home + pi + -yaw == home - yaw + pi;
    }
  }

  lemma HomeIsLoaded(s: Setup, c: Crane, m: Measurement)
    requires s.lib.pi > 0.0 && c.Valid() && Rated(m) && c.presets[HOME].valid
    ensures Load(s, c, m, HOME) == LoadHome(s, c, m)
  {
    hide LoadHome, LoadPreset;
  }

  /** The axes after home was loaded and the control loop has ticked them once with what it measured. */
  function HomeStarted(s: Setup, c: Crane, m: Measurement): (Axis, Axis)
    requires s.lib.pi > 0.0 && c.Valid() && Rated(m) && c.presets[HOME].valid
  {
    HomeIsLoaded(s, c, m);
    var d := Load(s, c, m, HOME);
    (Clock(s.lib, s.updown, SetInput(d.updown, Input(m.pitch, 0.0))),
     Clock(s.lib, s.leftright, SetInput(d.leftright, Input(m.yaw, 0.0))))
  }

  /** Loading home leads to the pitch saved for home, and to its yaw or the opposite direction, whichever
      is within a quarter turn. */
  lemma HomeIsReached(s: Setup, c: Crane, m: Measurement)
    requires s.Valid() && c.Valid() && Rated(m) && c.presets[HOME].valid
    ensures HeadsFor(s.lib, s.updown, HomeStarted(s, c, m).0, c.presets[HOME].pitch)
    ensures HeadsFor(s.lib, s.leftright, HomeStarted(s, c, m).1,
                     NormalizeAngle(s.lib.pi, HomeYaw(s.lib.pi, c.presets[HOME].yaw, m.yaw)))
    ensures 2.0 * Abs(HomeStarted(s, c, m).1.plan.totalDistance) <= s.lib.pi
  {
    var h := c.presets[HOME];
    var y := HomeYaw(s.lib.pi, h.yaw, m.yaw);
    HomeIsNear(s.lib.pi, h.yaw, m.yaw);
    HomeIsLoaded(s, c, m);
    hide Clock, HeadsFor, NormalizeAngle, HomeYaw, Load;
    RequestHeadsFor(s, c.updown, m.pitch, h.pitch, Limits(0.5, 0.9, 0.5));
    RequestHeadsFor(s, c.leftright, m.yaw, y, Limits(0.6, 0.5, 0.6));
  }

  // ----- where the flights start

  /** A started axis sets off from where it is, over the distance to its target. */
  predicate SetsOff(y: Axis, pos: real, distance: real) {
    y.startPos == pos && y.plan.totalDistance == distance && y.plan.startPosition == 0.0
  }

  lemma RequestSetsOff(lib: Libm, conf: Conf, x: Axis, pos: real, target: real, limits: Limits)
    requires lib.Valid() && limits.AllSet()
    ensures SetsOff(Clock(lib, conf, Requested(x, pos, target, limits)), pos, InUnits(lib, conf, target - pos))
  {
    RequestStarts(lib, conf, x, pos, target, limits);
    hide InUnits, Goal, Regulate;
  }

  /** Each axis of a loaded preset sets off from what was measured of it, yaw the shorter way round. */
  lemma PresetFliesFrom(s: Setup, c: Crane, m: Measurement, k: nat)
    requires s.Valid() && c.Valid() && 0 < k < PRESET_COUNT && Rated(m) && CanLoad(c, k)
    ensures var (d, p, home) := (Load(s, c, m, k), c.presets[k], c.presets[HOME]);
            && SetsOff(d.updown, m.pitch, p.pitch + home.pitch - m.pitch)
            && SetsOff(d.leftright, m.yaw, NormalizeAngle(s.lib.pi, p.yaw + home.yaw - m.yaw))
  {
    RatedLimits(m);
    var (p, y) := (TargetPitch(c, k), TargetYaw(s.lib.pi, c, k));
    NormalizeAgain(s.lib.pi, c.presets[k].yaw + c.presets[HOME].yaw, -m.yaw);
    assert c.presets[k].yaw + c.presets[HOME].yaw + -m.yaw == c.presets[k].yaw + c.presets[HOME].yaw - m.yaw;
    assert y + -m.yaw == y - m.yaw;
    hide Clock, NormalizeAngle, Timebases, UpDownLimits, LeftRightLimits;
    RequestSetsOff(s.lib, s.updown, c.updown, m.pitch, p, UpDownLimits(m));
    RequestSetsOff(s.lib, s.leftright, c.leftright, m.yaw, y, LeftRightLimits(m));
  }

  /** And so does each axis of a flight home, towards the side that is nearer. */
  lemma HomeFliesFrom(s: Setup, c: Crane, m: Measurement)
    requires s.Valid() && c.Valid() && Rated(m) && c.presets[HOME].valid
    ensures var home := c.presets[HOME];
            && SetsOff(HomeStarted(s, c, m).0, m.pitch, home.pitch - m.pitch)
            && SetsOff(HomeStarted(s, c, m).1, m.yaw, NormalizeAngle(s.lib.pi, HomeYaw(s.lib.pi, home.yaw, m.yaw) - m.yaw))
  {
    HomeIsLoaded(s, c, m);
    var (h, y) := (c.presets[HOME], HomeYaw(s.lib.pi, c.presets[HOME].yaw, m.yaw));
    hide Clock, NormalizeAngle, HomeYaw, Load;
    RequestSetsOff(s.lib, s.updown, c.updown, m.pitch, h.pitch, Limits(0.5, 0.9, 0.5));
    RequestSetsOff(s.lib, s.leftright, c.leftright, m.yaw, y, Limits(0.6, 0.5, 0.6));
  }

  // ----- several buttons in one tick

  /** Home after a pass over the buttons. */
  function NewHome(c: Crane, m: Measurement, sw: seq<Switch>): Preset
    requires c.Valid() && |sw| == PRESET_COUNT
  {
    if sw[HOME].longPressed then Preset(m.pitch, m.yaw, true) else c.presets[HOME]
  }

  /** What one pass over the buttons leaves in preset `i`: home comes first, so that everything saved in
      the same pass is relative to the new home; loading changes none of them. */
  lemma {:induction false} PresetAfterPass(s: Setup, c: Crane, m: Measurement, sw: seq<Switch>, k: nat, i: nat)
    requires s.lib.pi > 0.0 && c.Valid() && Rated(m) && |sw| == PRESET_COUNT && k <= PRESET_COUNT && i < PRESET_COUNT
    ensures var (r, home) := (Operate(s, c, m, sw, k).presets, NewHome(c, m, sw));
            && (k > HOME ==> r[HOME] == home)
            && r[i] == if i >= k || !sw[i].longPressed then c.presets[i]
                       else if i == HOME then home
                       else Preset(m.pitch - home.pitch, m.yaw - home.yaw, true)
    decreases k
  {
    hide Press;
    if k > 0 {
      PresetAfterPass(s, c, m, sw, k - 1, HOME);
      PresetAfterPass(s, c, m, sw, k - 1, i);
      var before := Operate(s, c, m, sw, k - 1);
      PressedPresets(s, before, m, sw[k - 1], k - 1);
      assert Operate(s, c, m, sw, k).presets == Press(s, before, m, sw[k - 1], k - 1).presets;
      hide Operate;
    }
  }

  lemma PressedPresets(s: Setup, c: Crane, m: Measurement, sw: Switch, k: nat)
    requires s.lib.pi > 0.0 && c.Valid() && k < PRESET_COUNT && Rated(m)
    ensures Press(s, c, m, sw, k).presets == if sw.longPressed then Save(c.presets, m, k) else c.presets
  {
    hide Load;
    LoadKeepsPresets(s, c, m, k);
  }

  lemma LoadKeepsPresets(s: Setup, c: Crane, m: Measurement, k: nat)
    requires s.lib.pi > 0.0 && c.Valid() && k < PRESET_COUNT && Rated(m)
    ensures Load(s, c, m, k).presets == c.presets
  {
    hide Clock, NormalizeAngle, HomeYaw;
  }
}
