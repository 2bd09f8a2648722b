/** What the units measure of the crane: the master what the slave reported last, the slave its own sensors. */
module ReportRuns {
  import opened MathLib
  import opened Control
  import opened Measured
  import opened Preset
  import opened Output
  import opened Firmware
  import opened FirmwareRuns
  import opened AutoRuns
  import Can
  import Filter

  /** The value of the last write of an object in a run, or what was there before. */
  function LastWrote(events: seq<FirmwareRuns.Event>, o: Can.Object, before: int): int
    decreases |events|
  {
    if events == [] then before
    else LastWrote(events[1..], o, if events[0].Wrote? && events[0].o == o then events[0].value else before)
  }

  /** The fields of a link are what was written last. */
  ghost predicate Holds(l: Can.Link, before: Can.Link, events: seq<FirmwareRuns.Event>) {
    && l.slave.pitch == LastWrote(events, Can.PitchPosition, before.slave.pitch)
    && l.slave.yaw == LastWrote(events, Can.YawPosition, before.slave.yaw)
    && l.slave.iPitch == LastWrote(events, Can.PitchCurrent, before.slave.iPitch)
    && l.slave.iYaw == LastWrote(events, Can.YawCurrent, before.slave.iYaw)
    && l.slave.micros == LastWrote(events, Can.Micros, before.slave.micros)
    && l.slave.vmot == LastWrote(events, Can.Vmot, before.slave.vmot)
  }

  /** Clocks leave the reported values and the demands alone. */
  lemma ClockKeepsValues(mode: Can.Mode, l: Can.Link, now: nat)
    ensures var c := Can.Clocked(mode, l, now);
            && c.slave == l.slave.(valid := c.slave.valid, timeout := c.slave.timeout)
            && c.remote == l.remote.(pitchTimeout := c.remote.pitchTimeout, yawTimeout := c.remote.yawTimeout)
  {
  }

  lemma StepHolds(b: Board, f: State, events: seq<FirmwareRuns.Event>, l: Can.Link)
    requires b.setup.lib.pi > 0.0 && Ready(f.crane) && events != [] && Possible(events[0])
    requires Holds(l, Step(b, f, events[0]).link, events[1..])
    ensures Holds(l, f.link, events)
  {
    var e := events[0];
    hide Pass, Ready, LastWrote;
    if e.Passed? {
      PassLink(b, f, e.i, e.now);
      ClockKeepsValues(f.mode, f.link, e.now);
    }
    LastOfRest(events, Can.PitchPosition, f.link.slave.pitch);
    LastOfRest(events, Can.YawPosition, f.link.slave.yaw);
    LastOfRest(events, Can.PitchCurrent, f.link.slave.iPitch);
    LastOfRest(events, Can.YawCurrent, f.link.slave.iYaw);
    LastOfRest(events, Can.Micros, f.link.slave.micros);
    LastOfRest(events, Can.Vmot, f.link.slave.vmot);
    hide Can.Clocked;
  }

  lemma LastOfRest(events: seq<FirmwareRuns.Event>, o: Can.Object, before: int)
    requires events != []
    ensures LastWrote(events, o, before)
         == LastWrote(events[1..], o, if events[0].Wrote? && events[0].o == o then events[0].value else before)
  {
  }

  /** On every run of a unit each reported field holds the last value written of its own object. */
  lemma {:induction false} RunHolds(b: Board, f: State, events: seq<FirmwareRuns.Event>)
    requires b.setup.lib.pi > 0.0 && Ready(f.crane) && forall e :: e in events ==> Possible(e)
    ensures Holds(Run(b, f, events).link, f.link, events)
    decreases |events|
  {
    if events != [] {
      StepReady(b, f, events[0]);
      hide Step, Ready, Holds;
      RunHolds(b, Step(b, f, events[0]), events[1..]);
      StepHolds(b, f, events, Run(b, f, events).link);
    }
  }

  /** What is measured follows these reports, in thousandths: the yaw as it is, the pitch through the filter
      that was left at `filter`. */
  predicate Follows(g: State, filter: Filter.History, pitch: int, yaw: int) {
    && g.measured.yaw == yaw as real / 1000.0
    && g.pfilt == Filter.Next(Filter.PITCH, filter, pitch as real / 1000.0)
    && g.measured.pitch == g.pfilt.out0
  }

  lemma MasterMeasures(b: Board, f: State, i: Inputs, now: nat)
    requires b.setup.lib.pi > 0.0 && f.mode == Can.Master
    ensures Follows(Sense(b, f, i, now), f.pfilt, f.link.slave.pitch, f.link.slave.yaw)
  {
    ClockKeepsValues(f.mode, f.link, now);
    hide Can.Clocked, Controls, Filter.Next;
  }

  lemma SensedSurvives(b: Board, f: State, i: Inputs, now: nat)
    requires b.setup.lib.pi > 0.0 && Ready(f.crane) && i.Valid()
    ensures var (g, s) := (Pass(b, f, i, now), Sense(b, f, i, now));
            g.measured == s.measured && g.pfilt == s.pfilt && g.yaw == s.yaw
  {
    SenseReady(b, f, i, now);
    var s := Sense(b, f, i, now);
    UpdateStateReady(b, s, i);
    ControlKeepsSensors(b, UpdateState(b, s, i));
    hide Sense, UpdateControl, Operate, Rated;
  }

  lemma ControlKeepsSensors(b: Board, f: State)
    requires b.setup.lib.pi > 0.0 && Ready(f.crane)
    ensures var g := UpdateControl(b, f); g.measured == f.measured && g.pfilt == f.pfilt && g.yaw == f.yaw
  {
    hide Clock, NextPitch, NextYaw, TakenOver;
  }

  /** A pass of the master measures what the slave reported last, whatever happened before. */
  lemma MasterMeasuresReports(b: Board, f: State, events: seq<FirmwareRuns.Event>, h: State, i: Inputs, now: nat)
    requires b.setup.lib.pi > 0.0 && Ready(f.crane) && (forall e :: e in events ==> Possible(e)) && i.Valid()
    requires h == Run(b, f, events) && h.mode == Can.Master
    ensures Ready(h.crane)
    ensures Follows(Pass(b, h, i, now), h.pfilt, LastWrote(events, Can.PitchPosition, f.link.slave.pitch),
                    LastWrote(events, Can.YawPosition, f.link.slave.yaw))
  {
    RunReady(b, f, events);
    RunHolds(b, f, events);
    hide Run, Sense, Pass, LastWrote, Filter.Next, Ready;
    SensedSurvives(b, h, i, now);
    MasterMeasures(b, h, i, now);
  }

  /** The slave reports an angle in thousandths, so the master's yaw is less than a thousandth off what the
      slave measured when it reported last, and never beyond it. */
  lemma ReportedYawIsNear(b: Board, f: State, events: seq<FirmwareRuns.Event>, h: State, i: Inputs, now: nat, yaw: real)
    requires b.setup.lib.pi > 0.0 && Ready(f.crane) && (forall e :: e in events ==> Possible(e)) && i.Valid()
    requires h == Run(b, f, events) && h.mode == Can.Master
    requires LastWrote(events, Can.YawPosition, f.link.slave.yaw) == Can.Milli(yaw)
    ensures Ready(h.crane)
    ensures var got := Pass(b, h, i, now).measured.yaw;
            (0.0 <= got <= yaw < got + 0.001) || (got - 0.001 < yaw <= got <= 0.0)
  {
    hide Run, Pass, LastWrote, Ready;
    MasterMeasuresReports(b, f, events, h, i, now);
    ThousandthsNear(yaw);
  }

  lemma ThousandthsNear(x: real)
    ensures var got := Can.Milli(x) as real / 1000.0;
            (0.0 <= got <= x < got + 0.001) || (got - 0.001 < x <= got <= 0.0)
  {
  }

  lemma {:induction false} RunReady(b: Board, f: State, events: seq<FirmwareRuns.Event>)
    requires b.setup.lib.pi > 0.0 && Ready(f.crane) && forall e :: e in events ==> Possible(e)
    ensures Ready(Run(b, f, events).crane)
    decreases |events|
  {
    if events != [] {
      StepReady(b, f, events[0]);
      hide Step, Ready;
      RunReady(b, Step(b, f, events[0]), events[1..]);
    }
  }

  /** A unit that is not the master measures its own sensors: the pitch potentiometer, scaled, and the yaw
      encoder, followed through its wraps. */
  lemma SlaveMeasuresSensors(b: Board, f: State, i: Inputs, now: nat)
    requires b.setup.lib.pi > 0.0 && Ready(f.crane) && i.Valid() && f.mode != Can.Master
    ensures var g := Pass(b, f, i, now);
            && g.measured.pitch == ScaleInput(i.readings.pitch as real, b.scaling.pitch)
            && g.yaw == Unwrap(f.yaw, i.readings.yaw) && g.measured.yaw == YawAngle(b.setup.lib.pi, g.yaw.ticks)
            && g.pfilt == f.pfilt
  {
    SensedSurvives(b, f, i, now);
    hide Pass, Can.Clocked, Controls, ScaleInput, YawAngle, Unwrap, Ready;
  }
}
