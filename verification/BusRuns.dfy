/** Master and slave together: where the slave's demands come from, how old they are, and how far off. */
module BusRuns {
  import opened MathLib
  import opened Control
  import opened Measured
  import opened Preset
  import opened Output
  import opened Firmware
  import opened FirmwareRuns
  import Can

  /** Both units, each with its own configuration. */
  datatype Boards = Boards(master: Board, slave: Board)

  datatype System = System(master: State, slave: State)

  /** Either unit runs a pass, the bus carries a demand from the master to the slave, or one of the slave's
      objects to the master. */
  datatype Event =
    | MasterPass(i: Inputs, now: nat)
    | SlavePass(i: Inputs, now: nat)
    | Carried(o: Can.Object, now: nat)
    | Reported(o: Can.Object, value: int, now: nat)

  predicate IsDemand(o: Can.Object) {
    o == Can.PitchDemand || o == Can.YawDemand
  }

  /** The output a demand is read from. */
  function Out(f: State, o: Can.Object): real {
    if o == Can.PitchDemand then f.pitchOut else f.yawOut
  }

  function Demand(r: Can.Remote, o: Can.Object): int {
    if o == Can.PitchDemand then r.pitch else r.yaw
  }

  /** The address switches stay as they are, and only demands go from master to slave. */
  predicate Happens(s: System, e: Event) {
    match e
    case MasterPass(i, _) => i.Valid() && i.canAddr == s.master.canAddr
    case SlavePass(i, _) => i.Valid() && i.canAddr == s.slave.canAddr
    case Carried(o, _) => IsDemand(o)
    case Reported(o, _, _) => !IsDemand(o)
  }

  /** A master and a slave, both sound. */
  ghost predicate Paired(b: Boards, s: System) {
    && Configured(b.master) && Configured(b.slave) && SoundState(b.master, s.master) && SoundState(b.slave, s.slave)
    && s.master.mode == Can.Master && s.slave.mode == Can.Slave
  }

  function Next(b: Boards, s: System, e: Event): System
    requires b.master.setup.lib.pi > 0.0 && b.slave.setup.lib.pi > 0.0
    requires Ready(s.master.crane) && Ready(s.slave.crane) && Happens(s, e)
  {
    match e
    case MasterPass(i, now) => s.(master := Pass(b.master, s.master, i, now))
    case SlavePass(i, now) => s.(slave := Pass(b.slave, s.slave, i, now))
    case Carried(o, now) => s.(slave := s.slave.(link := Can.Written(s.slave.link, o, Can.Milli(Out(s.master, o)), now)))
    case Reported(o, value, now) => s.(master := s.master.(link := Can.Written(s.master.link, o, value, now)))
  }

  /** Where a deadline of the slave comes from: a demand carried over the bus at `at`, when the master's output
      was `out`, and `passes` of the master since; or an expiry, which keeps the demand. */
  datatype Origin = Sent(out: real, at: nat, passes: nat) | Rearmed(at: nat)

  function OriginAfter(s: System, e: Event, o: Can.Object, origin: Origin): Origin {
    match e
    case MasterPass(_, _) => if origin.Sent? then origin.(passes := origin.passes + 1) else origin
    case SlavePass(_, now) => if Can.Finding(Can.Slave, s.slave.link, now) == Can.Down then Rearmed(now) else origin
    case Carried(carried, now) =>
      if carried == o then Sent(if o == Can.PitchDemand then s.master.pitchOut else s.master.yawOut, now, 0) else origin
    case Reported(_, _, _) => origin
  }

  /** The deadline is 50 ms after the origin, and the demand is the output that was sent. */
  ghost predicate Traced(s: System, o: Can.Object, origin: Origin) {
    && Can.DemandTimeout(s.slave.link.remote, o) == origin.at + 50_000
    && (origin.Sent? ==> InUnit(origin.out) && Demand(s.slave.link.remote, o) == Can.Milli(origin.out))
  }

  // ----- one event

  lemma PairedIsReady(b: Boards, s: System)
    requires Paired(b, s)
    ensures b.master.setup.lib.pi > 0.0 && b.slave.setup.lib.pi > 0.0 && Ready(s.master.crane) && Ready(s.slave.crane)
    ensures s.master.mode == Can.Master && s.slave.mode == Can.Slave && InUnit(s.master.pitchOut) && InUnit(s.master.yawOut)
  {
  }

  lemma CarriedSound(b: Board, f: State, o: Can.Object, value: int, now: nat)
    requires Configured(b) && SoundState(b, f)
    ensures SoundState(b, f.(link := Can.Written(f.link, o, value, now)))
  {
    StepSound(b, f, Wrote(o, value, now));
    hide SoundState;
  }

  lemma PassedSound(b: Board, f: State, i: Inputs, now: nat)
    requires Configured(b) && SoundState(b, f) && i.Valid()
    ensures Ready(f.crane) && SoundState(b, Pass(b, f, i, now))
  {
    StepSound(b, f, Passed(i, now));
    assert Ready(f.crane);
    hide SoundState, Ready;
  }

  /** They stay a sound pair. */
  lemma NextPaired(b: Boards, s: System, e: Event)
    requires Paired(b, s) && Happens(s, e)
    ensures Ready(s.master.crane) && Ready(s.slave.crane)
    ensures Paired(b, Next(b, s, e))
    ensures var t := Next(b, s, e); t.master.canAddr == s.master.canAddr && t.slave.canAddr == s.slave.canAddr
  {
    PairedIsReady(b, s);
    hide SoundState, Ready, Configured, Pass;
    match e {
      case MasterPass(i, now) =>
        PassLink(b.master, s.master, i, now);
        PassedSound(b.master, s.master, i, now);
      case SlavePass(i, now) =>
        PassLink(b.slave, s.slave, i, now);
        PassedSound(b.slave, s.slave, i, now);
      case Carried(o, now) =>
        CarriedSound(b.slave, s.slave, o, Can.Milli(Out(s.master, o)), now);
      case Reported(o, value, now) =>
        CarriedSound(b.master, s.master, o, value, now);
    }
  }

  /** Deadlines and demands of the slave stay traced to their origins. */
  lemma NextTraced(b: Boards, s: System, e: Event, o: Can.Object, origin: Origin)
    requires Paired(b, s) && Happens(s, e) && IsDemand(o) && Traced(s, o, origin)
    ensures Ready(s.master.crane) && Ready(s.slave.crane)
    ensures Traced(Next(b, s, e), o, OriginAfter(s, e, o, origin))
  {
    PairedIsReady(b, s);
    hide Paired, Ready, Pass, Can.Milli;
    match e {
      case MasterPass(_, _) =>
      case SlavePass(i, now) => PassLink(b.slave, s.slave, i, now);
      case Carried(carried, now) => MilliInRange(Out(s.master, carried));
      case Reported(_, _, _) =>
    }
  }

  lemma MilliInRange(out: real)
    requires InUnit(out)
    ensures -1000 <= Can.Milli(out) <= 1000
  {
    Can.DemandCrossesBus(out, Can.Initial(0), 0);
  }

  // ----- whole runs

  predicate AddressesKept(s: System, events: seq<Event>) {
    forall e :: e in events ==> Happens(s, e)
  }

  lemma {:induction false} RunPaired(b: Boards, s: System, events: seq<Event>)
    requires Paired(b, s) && AddressesKept(s, events)
    ensures Possible(b, s, events) && Paired(b, After(b, s, events))
    decreases |events|
  {
    PairedIsReady(b, s);
    if events != [] {
      assert Happens(s, events[0]);
      NextPaired(b, s, events[0]);
      var t := Next(b, s, events[0]);
      assert AddressesKept(t, events[1..]) by { SameAddresses(s, t, events[1..]); }
      hide Next, Paired, Happens, Ready, AddressesKept;
      RunPaired(b, t, events[1..]);
    }
  }

  lemma SameAddresses(s: System, t: System, events: seq<Event>)
    requires AddressesKept(s, events) && s.master.canAddr == t.master.canAddr && s.slave.canAddr == t.slave.canAddr
    ensures AddressesKept(t, events)
  {
    forall e | e in events
      ensures Happens(t, e)
    {
      assert Happens(s, e);
    }
  }

  /** Every event of the run can happen where it does. */
  ghost predicate Possible(b: Boards, s: System, events: seq<Event>)
    decreases |events|
  {
    && b.master.setup.lib.pi > 0.0 && b.slave.setup.lib.pi > 0.0 && Ready(s.master.crane) && Ready(s.slave.crane)
    && (events != [] ==> Happens(s, events[0]) && Possible(b, Next(b, s, events[0]), events[1..]))
  }

  function After(b: Boards, s: System, events: seq<Event>): System
    requires Possible(b, s, events)
    decreases |events|
  {
    if events == [] then s else After(b, Next(b, s, events[0]), events[1..])
  }

  /** The origin of a demand after a run. */
  function OriginOf(b: Boards, s: System, events: seq<Event>, o: Can.Object, origin: Origin): Origin
    requires Possible(b, s, events)
    decreases |events|
  {
    if events == [] then origin
    else OriginOf(b, Next(b, s, events[0]), events[1..], o, OriginAfter(s, events[0], o, origin))
  }

  lemma {:induction false} RunTraced(b: Boards, s: System, events: seq<Event>, o: Can.Object, origin: Origin)
    requires Paired(b, s) && AddressesKept(s, events) && IsDemand(o) && Traced(s, o, origin)
    ensures Possible(b, s, events)
    ensures Traced(After(b, s, events), o, OriginOf(b, s, events, o, origin))
    decreases |events|
  {
    RunPaired(b, s, events);
    if events != [] {
      assert Happens(s, events[0]);
      NextPaired(b, s, events[0]);
      NextTraced(b, s, events[0], o, origin);
      var t := Next(b, s, events[0]);
      SameAddresses(s, t, events[1..]);
      hide Next, Paired, Happens, Ready, AddressesKept, Traced, OriginAfter;
      RunTraced(b, t, events[1..], o, OriginAfter(s, events[0], o, origin));
    }
  }

  /** What is demanded is what was sent, rounded towards zero by less than a thousandth. */
  predicate Rounded(demand: int, out: real) {
    var d := demand as real * 0.001;
    0.0 <= d <= out < d + 0.001 || d - 0.001 < out <= d <= 0.0
  }

  /** On every run of master and slave, whatever is pressed, read and carried: the slave finds the link up if
      and only if both its demands were sent by the master, or kept by an expiry, less than 50 ms ago; and
      those that were sent are the master's outputs of that moment, less than a thousandth away. */
  lemma DemandsAreRecent(b: Boards, s: System, events: seq<Event>, pitch: Origin, yaw: Origin, now: nat)
    requires Paired(b, s) && AddressesKept(s, events) && Traced(s, Can.PitchDemand, pitch) && Traced(s, Can.YawDemand, yaw)
    ensures Possible(b, s, events)
    ensures var (t, p, y) := (After(b, s, events), OriginOf(b, s, events, Can.PitchDemand, pitch), OriginOf(b, s, events, Can.YawDemand, yaw));
            && (Can.Finding(Can.Slave, t.slave.link, now) != Can.Down
                <==> now < p.at + 50_000 && now < y.at + 50_000)
            && (p.Sent? ==> Rounded(t.slave.link.remote.pitch, p.out))
            && (y.Sent? ==> Rounded(t.slave.link.remote.yaw, y.out))
  {
    RunTraced(b, s, events, Can.PitchDemand, pitch);
    RunTraced(b, s, events, Can.YawDemand, yaw);
    hide Paired, AddressesKept, Possible, After, OriginOf, Can.Milli, Rounded;
    var (p, y) := (OriginOf(b, s, events, Can.PitchDemand, pitch), OriginOf(b, s, events, Can.YawDemand, yaw));
    if p.Sent? {
      MilliRounds(p.out);
    }
    if y.Sent? {
      MilliRounds(y.out);
    }
  }

  lemma MilliRounds(out: real)
    requires InUnit(out)
    ensures Rounded(Can.Milli(out), out)
  {
    Can.DemandCrossesBus(out, Can.Initial(0), 0);
  }

  lemma InitialTraced(s: System, start: nat)
    requires s.slave.link == Can.Initial(start)
    ensures Traced(s, Can.PitchDemand, Rearmed(start)) && Traced(s, Can.YawDemand, Rearmed(start))
  {
  }

  lemma FirstPassKeepsLink(start: nat, now: nat)
    ensures Can.Clocked(Start(start).mode, Start(start).link, now) == Can.Initial(start)
  {
  }

  /** Two units, started and addressed as master and as slave, are such a pair; the slave's first deadlines
      are from its start. */
  lemma PairFromStart(b: Boards, mstart: nat, mi: Inputs, mnow: nat, sstart: nat, si: Inputs, snow: nat)
    requires Configured(b.master) && Configured(b.slave) && mi.Valid() && si.Valid()
    requires mi.canAddr == MASTER_ADDRESS && si.canAddr != MASTER_ADDRESS && si.canAddr != Start(sstart).canAddr
    ensures Ready(Start(mstart).crane) && Ready(Start(sstart).crane)
    ensures var s := System(Pass(b.master, Start(mstart), mi, mnow), Pass(b.slave, Start(sstart), si, snow));
            && Paired(b, s) && Traced(s, Can.PitchDemand, Rearmed(sstart)) && Traced(s, Can.YawDemand, Rearmed(sstart))
  {
    StartSound(b.master, mstart);
    StartSound(b.slave, sstart);
    PassedSound(b.master, Start(mstart), mi, mnow);
    PassedSound(b.slave, Start(sstart), si, snow);
    assert Start(mstart).canAddr != MASTER_ADDRESS && b.master.setup.lib.pi > 0.0 && b.slave.setup.lib.pi > 0.0;
    hide SoundState, Ready, Configured, Pass, Start, Traced, Can.Clocked, Can.Initial;
    PassLink(b.master, Start(mstart), mi, mnow);
    PassLink(b.slave, Start(sstart), si, snow);
    FirstPassKeepsLink(sstart, snow);
    InitialTraced(System(Pass(b.master, Start(mstart), mi, mnow), Pass(b.slave, Start(sstart), si, snow)), sstart);
  }

  // ----- how far the master has moved on

  /** No pass of the master changes its output by more than `delta`. */
  ghost predicate Gentle(b: Boards, s: System, events: seq<Event>, o: Can.Object, delta: real)
    requires Possible(b, s, events)
    decreases |events|
  {
    events == [] ||
    var t := Next(b, s, events[0]);
    Abs(Out(t.master, o) - Out(s.master, o)) <= delta && Gentle(b, t, events[1..], o, delta)
  }

  predicate Near(f: State, o: Can.Object, origin: Origin, delta: real) {
    origin.Sent? ==> Abs(Out(f, o) - origin.out) <= origin.passes as real * delta
  }

  lemma NextNear(b: Boards, s: System, e: Event, o: Can.Object, origin: Origin, delta: real)
    requires Possible(b, s, [e]) && IsDemand(o) && delta >= 0.0
    requires Near(s.master, o, origin, delta) && Abs(Out(Next(b, s, e).master, o) - Out(s.master, o)) <= delta
    ensures Near(Next(b, s, e).master, o, OriginAfter(s, e, o, origin), delta)
  {
    hide Pass, Ready, Can.Finding, Can.Written, Out, Abs;
    match e {
      case MasterPass(_, _) =>
        if origin.Sent? {
          OneMorePass(Out(Next(b, s, e).master, o), Out(s.master, o), origin.out, origin.passes, delta);
        }
      case SlavePass(_, _) =>
      case Carried(_, _) =>
        OutIs(s.master, o);
        NoDistance(Out(s.master, o), delta);
      case Reported(_, _, _) => ReportedOut(s.master, Next(b, s, e).master, o);
    }
  }

  lemma OneMorePass(x: real, y: real, out: real, passes: nat, delta: real)
    requires Abs(y - out) <= passes as real * delta && Abs(x - y) <= delta
    ensures Abs(x - out) <= (passes + 1) as real * delta
  {
    assert (passes + 1) as real * delta == passes as real * delta + delta;
  }

  lemma NoDistance(out: real, delta: real)
    ensures Abs(out - out) <= 0 as real * delta
  {
  }

  lemma OutIs(f: State, o: Can.Object)
    ensures Out(f, o) == if o == Can.PitchDemand then f.pitchOut else f.yawOut
  {
  }

  lemma ReportedOut(f: State, g: State, o: Can.Object)
    requires g == f.(link := g.link)
    ensures Out(g, o) == Out(f, o)
  {
  }

  lemma {:induction false} RunNear(b: Boards, s: System, events: seq<Event>, o: Can.Object, origin: Origin, delta: real)
    requires Possible(b, s, events) && IsDemand(o) && delta >= 0.0
    requires Near(s.master, o, origin, delta) && Gentle(b, s, events, o, delta)
    ensures Near(After(b, s, events).master, o, OriginOf(b, s, events, o, origin), delta)
    decreases |events|
  {
    if events != [] {
      var e := events[0];
      assert [e][1..] == [] && [e][0] == e && Possible(b, Next(b, s, e), events[1..]) && Possible(b, s, [e]);
      NextNear(b, s, e, o, origin, delta);
      hide Next, Near, Happens, OriginAfter, Ready;
      RunNear(b, Next(b, s, e), events[1..], o, OriginAfter(s, e, o, origin), delta);
    }
  }

  /** The demand is off from what the master puts out by less than a thousandth and `delta` for every pass. */
  predicate Close(t: System, o: Can.Object, origin: Origin, delta: real) {
    origin.Sent? ==>
      Abs(Demand(t.slave.link.remote, o) as real * 0.001 - Out(t.master, o)) < 0.001 + origin.passes as real * delta
  }

  lemma NearIsClose(t: System, o: Can.Object, origin: Origin, delta: real)
    requires Traced(t, o, origin) && Near(t.master, o, origin, delta)
    ensures Close(t, o, origin, delta)
  {
    if origin.Sent? {
      MilliRounds(origin.out);
      hide Can.Milli, Rounded, Near, Abs, Out, Demand;
      NearEnough(t.master, o, origin, delta, Can.Milli(origin.out));
    }
  }

  /** So a demand that was sent is off from what the master puts out now by less than a thousandth, and `delta`
      for every pass of the master since, when no pass changes its output by more. */
  lemma DemandIsNear(b: Boards, s: System, events: seq<Event>, o: Can.Object, origin: Origin, delta: real)
    requires Paired(b, s) && AddressesKept(s, events) && IsDemand(o) && Traced(s, o, origin)
    requires delta >= 0.0 && Near(s.master, o, origin, delta)
    ensures Possible(b, s, events)
    ensures var (t, w) := (After(b, s, events), OriginOf(b, s, events, o, origin));
            Gentle(b, s, events, o, delta) ==> Close(t, o, w, delta)
  {
    hide *;
    RunTraced(b, s, events, o, origin);
    if Gentle(b, s, events, o, delta) {
      RunNear(b, s, events, o, origin, delta);
      NearIsClose(After(b, s, events), o, OriginOf(b, s, events, o, origin), delta);
    }
  }

  lemma NearEnough(f: State, o: Can.Object, origin: Origin, delta: real, demand: int)
    requires origin.Sent? && Near(f, o, origin, delta) && Rounded(demand, origin.out)
    ensures Abs(demand as real * 0.001 - Out(f, o)) < 0.001 + origin.passes as real * delta
  {
    hide Out;
  }

  /** In an automatic move a pass changes the yaw output by at most 4 * acc * dt; steered by hand, within the
      knob's speed, by at most the knob's. */
  lemma YawStepBounded(b: Board, f: State, i: Inputs, now: nat)
    requires Configured(b) && SoundState(b, f) && i.Valid()
    ensures Ready(f.crane) && var s := Sense(b, f, i, now); Ready(s.crane) && Rated(s.measured)
    ensures var s := Sense(b, f, i, now);
            var mode := UpdateState(b, s, i).crane.mode;
            var change := Abs(Pass(b, f, i, now).yawOut - f.yawOut);
            && (mode == Auto ==> change <= 4.0 * DT)
            && (mode == Manual && Abs(f.yawOut) <= s.measured.yawSpeed && s.measured.yawAcc >= 0.0 ==> change <= s.measured.yawAcc * DT)
  {
    SenseReady(b, f, i, now);
    var s := Sense(b, f, i, now);
    UpdateStateReady(b, s, i);
    var u := UpdateState(b, s, i);
    assert u.yawOut == f.yawOut && u.measured == s.measured by { hide Operate; }
    hide Sense, UpdateState, SoundCrane, Rated, Configured;
    ControlYaw(b, u);
  }

  lemma ControlYaw(b: Board, f: State)
    requires b.setup.lib.pi > 0.0 && Ready(f.crane) && InUnit(f.yawOut)
    ensures var change := Abs(UpdateControl(b, f).yawOut - f.yawOut);
            && (f.crane.mode == Auto ==> change <= 4.0 * DT)
            && (f.crane.mode == Manual && Abs(f.yawOut) <= f.measured.yawSpeed && f.measured.yawAcc >= 0.0 ==> change <= f.measured.yawAcc * DT)
  {
    hide Clock, NextPitch, NextYaw, TakenOver, Ready;
    var m := f.measured;
    if f.crane.mode == Auto {
      SlewWithin(f.yawOut, -ClockAxes(b.setup, f.crane, m).leftright.output, Rates(1.0, 4.0));
    } else if f.crane.mode == Manual && Abs(f.yawOut) <= m.yawSpeed && m.yawAcc >= 0.0 {
      SlewWithin(f.yawOut, m.joyYaw, Rates(m.yawSpeed, m.yawAcc));
    }
  }

  lemma SlewWithin(out: real, demand: real, rates: Rates)
    requires rates.acc >= 0.0 && Abs(out) <= rates.speed
    ensures Abs(NextYaw(out, demand, rates) - out) <= rates.acc * DT
  {
    YawSlewBounded(out, demand, rates);
  }
}
