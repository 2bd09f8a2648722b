/** The CAN link between master and slave: what is received, and the watchdogs of both sides. Times are
    in microseconds; a deadline has expired from its own instant on. */
module Can {

  datatype Mode = Undefined | Master | Slave

  /** The objects of the manufacturer segment that are written over the bus. */
  datatype Object = PitchPosition | YawPosition | PitchCurrent | YawCurrent | Micros | Vmot | PitchDemand | YawDemand

  /** A complete report of the slave; the uptime and the supply voltage are not part of it. */
  const COMPLETE: set<Object> := {PitchPosition, YawPosition, PitchCurrent, YawCurrent}

  const SLAVE_TIMEOUT: nat := 1_000_000
  const REMOTE_TIMEOUT: nat := 50_000

  /** `valid` is the set of objects whose valid bit is set. */
  datatype SlaveData = SlaveData(
    yaw: int, pitch: int, iYaw: int, iPitch: int, micros: int, vmot: int, valid: set<Object>, timeout: nat)

  datatype Remote = Remote(pitch: int, yaw: int, pitchTimeout: nat, yawTimeout: nat)

  datatype Link = Link(slave: SlaveData, remote: Remote, timedOut: bool)

  /** The link as `fb_init` leaves it. */
  function Initial(start: nat): Link {
    Link(SlaveData(0, 0, 0, 0, 0, 0, {}, start + REMOTE_TIMEOUT),
         Remote(0, 0, start + REMOTE_TIMEOUT, start + REMOTE_TIMEOUT), false)
  }

  function ConstrainInt(x: int, lo: int, hi: int): int {
    if x < lo then lo else if x > hi then hi else x
  }

  function Marked(s: SlaveData, o: Object): SlaveData {
    s.(valid := s.valid + {o})
  }

  /** `_mfr_range_write` with the value already converted to the width of the object. */
  function Written(l: Link, o: Object, value: int, now: nat): Link {
    match o
    case PitchCurrent => l.(slave := Marked(l.slave.(iPitch := value), o))
    case YawCurrent => l.(slave := Marked(l.slave.(iYaw := value), o))
    case PitchPosition => l.(slave := Marked(l.slave.(pitch := value), o))
    case YawPosition => l.(slave := Marked(l.slave.(yaw := value), o))
    case Micros => l.(slave := Marked(l.slave.(micros := value), o))
    case Vmot => l.(slave := l.slave.(vmot := value))
    case PitchDemand =>
      l.(remote := l.remote.(pitch := ConstrainInt(value, -1000, 1000), pitchTimeout := now + REMOTE_TIMEOUT))
    case YawDemand =>
      l.(remote := l.remote.(yaw := ConstrainInt(value, -1000, 1000), yawTimeout := now + REMOTE_TIMEOUT))
  }

  /** What a clock finds: on the master a complete report collected, or not yet, or none in time; on the
      slave demands that are fresh (`Waiting`) or not (`Down`). */
  datatype Report = Nothing | Collected | Waiting | Down

  function Finding(mode: Mode, l: Link, now: nat): Report {
    match mode
    case Undefined => Nothing
    case Slave => if now >= l.remote.pitchTimeout || now >= l.remote.yawTimeout then Down else Waiting
    case Master =>
      if COMPLETE <= l.slave.valid then Collected
      else if now >= l.slave.timeout then Down
      else Waiting
  }

  /** `_fb_can_monitor_link_state`. */
  function Clocked(mode: Mode, l: Link, now: nat): Link {
    match mode
    case Undefined => l
    case Slave =>
      if Finding(mode, l, now) == Down then
        l.(timedOut := true,
           remote := l.remote.(pitchTimeout := now + REMOTE_TIMEOUT, yawTimeout := now + REMOTE_TIMEOUT))
      else l.(timedOut := false)
    case Master =>
      match Finding(mode, l, now)
      case Collected => l.(timedOut := false, slave := l.slave.(valid := {}, timeout := now + SLAVE_TIMEOUT))
      case Down => l.(timedOut := true, slave := l.slave.(valid := {}))
      case _ => l.(timedOut := false)
  }

  class CanLink {
    var slave: SlaveData
    var remote: Remote
    var timedOut: bool

    function Current(): Link
      reads this
    {
      Link(slave, remote, timedOut)
    }

    constructor (start: nat)
      ensures Current() == Initial(start)
    {
      slave := SlaveData(0, 0, 0, 0, 0, 0, {}, start + REMOTE_TIMEOUT);
      remote := Remote(0, 0, start + REMOTE_TIMEOUT, start + REMOTE_TIMEOUT);
      timedOut := false;
    }

    method Write(o: Object, value: int, now: nat)
      modifies this
      ensures Current() == Written(old(Current()), o, value, now)
    {
      match o {
        case PitchCurrent => slave := slave.(iPitch := value, valid := slave.valid + {PitchCurrent});
        case YawCurrent => slave := slave.(iYaw := value, valid := slave.valid + {YawCurrent});
        case PitchPosition => slave := slave.(pitch := value, valid := slave.valid + {PitchPosition});
        case YawPosition => slave := slave.(yaw := value, valid := slave.valid + {YawPosition});
        case Micros => slave := slave.(micros := value, valid := slave.valid + {Micros});
        case Vmot => slave := slave.(vmot := value);
        case PitchDemand =>
          remote := remote.(pitch := ConstrainInt(value, -1000, 1000), pitchTimeout := now + REMOTE_TIMEOUT);
        case YawDemand =>
          remote := remote.(yaw := ConstrainInt(value, -1000, 1000), yawTimeout := now + REMOTE_TIMEOUT);
      }
    }

    /** `_fb_slave_timed_out`. */
    method SlaveTimedOut(now: nat) returns (expired: bool)
      modifies this`slave
      ensures expired == (Finding(Master, old(Current()), now) == Down)
      ensures slave == Clocked(Master, old(Current()), now).slave
    {
      if COMPLETE <= slave.valid {
        slave := slave.(valid := {}, timeout := now + SLAVE_TIMEOUT);
      } else if now >= slave.timeout {
        slave := slave.(valid := {});
        return true;
      }
      return false;
    }

    method Clock(mode: Mode, now: nat)
      modifies this
      ensures Current() == Clocked(mode, old(Current()), now)
    {
      if mode == Slave {
        if now >= remote.pitchTimeout || now >= remote.yawTimeout {
          timedOut := true;
          remote := remote.(pitchTimeout := now + REMOTE_TIMEOUT, yawTimeout := now + REMOTE_TIMEOUT);
        } else {
          timedOut := false;
        }
      } else if mode == Master {
        timedOut := SlaveTimedOut(now);
      }
    }
  }

  // ----- runs

  /** Writes arrive between the clocks of the control loop in any order. */
  datatype Event = Write(o: Object, value: int, time: nat) | Clock(time: nat)

  function After(mode: Mode, l: Link, e: Event): Link {
    match e
    case Write(o, value, now) => Written(l, o, value, now)
    case Clock(now) => Clocked(mode, l, now)
  }

  function At(mode: Mode, start: nat, events: seq<Event>, k: nat): Link
    requires k <= |events|
    decreases k
  {
    if k == 0 then Initial(start) else After(mode, At(mode, start, events, k - 1), events[k - 1])
  }

  function ReportAt(mode: Mode, start: nat, events: seq<Event>, k: nat): Report
    requires k < |events|
  {
    if events[k].Clock? then Finding(mode, At(mode, start, events, k), events[k].time) else Nothing
  }

  /** Time does not run backwards. */
  predicate InOrder(start: nat, events: seq<Event>) {
    && (forall i :: 0 <= i < |events| ==> start <= events[i].time)
    && (forall i, j :: 0 <= i <= j < |events| ==> events[i].time <= events[j].time)
  }

  /** A deadline that events keep pushing back: `refreshed` names the events among the first `k` that set
      it to their own time plus the period. */
  ghost predicate Armed(times: seq<nat>, refreshed: nat -> bool, start: nat, period: nat, first: nat, now: nat, k: nat) {
    now < start + first || exists i: nat :: i < k && i < |times| && refreshed(i) && now < times[i] + period
  }

  function Times(events: seq<Event>): seq<nat> {
    seq(|events|, i requires 0 <= i < |events| => events[i].time)
  }

  /** Event `k` pushes the deadline back. */
  lemma ArmedRefreshed(times: seq<nat>, refreshed: nat -> bool, start: nat, period: nat, first: nat, now: nat, k: nat)
    requires k < |times| && refreshed(k) && first <= period
    requires forall i :: 0 <= i <= k ==> start <= times[i] <= times[k]
    ensures Armed(times, refreshed, start, period, first, now, k + 1) <==> now < times[k] + period
  {
  }

  lemma ArmedUntouched(times: seq<nat>, refreshed: nat -> bool, start: nat, period: nat, first: nat, now: nat, k: nat)
    requires !refreshed(k)
    ensures Armed(times, refreshed, start, period, first, now, k + 1) <==> Armed(times, refreshed, start, period, first, now, k)
  {
    if Armed(times, refreshed, start, period, first, now, k + 1) && now >= start + first {
      var i: nat :| i < k + 1 && i < |times| && refreshed(i) && now < times[i] + period;
      assert i < k;
    }
  }

  // ----- the master's watchdog

  predicate CollectedAt(start: nat, events: seq<Event>, k: nat) {
    k < |events| && ReportAt(Master, start, events, k) == Collected
  }

  predicate ClearedAt(start: nat, events: seq<Event>, k: nat) {
    k < |events| && ReportAt(Master, start, events, k) in {Collected, Down}
  }

  /** The object was written by event `i`, and no clock before event `k` has thrown the report away. */
  ghost predicate WrittenSince(start: nat, events: seq<Event>, o: Object, i: nat, k: nat) {
    && i < k <= |events| && events[i].Write? && events[i].o == o
    && forall j :: i < j < k ==> !ClearedAt(start, events, j)
  }

  ghost predicate Pending(start: nat, events: seq<Event>, o: Object, k: nat) {
    exists i: nat :: WrittenSince(start, events, o, i, k)
  }

  lemma PendingNext(start: nat, events: seq<Event>, o: Object, k: nat)
    requires k < |events|
    ensures Pending(start, events, o, k + 1) <==>
            (events[k].Write? && events[k].o == o) || (!ClearedAt(start, events, k) && Pending(start, events, o, k))
  {
    if events[k].Write? && events[k].o == o {
      assert WrittenSince(start, events, o, k, k + 1);
    } else if !ClearedAt(start, events, k) && Pending(start, events, o, k) {
      var i: nat :| WrittenSince(start, events, o, i, k);
      assert WrittenSince(start, events, o, i, k + 1);
    } else if Pending(start, events, o, k + 1) {
      var i: nat :| WrittenSince(start, events, o, i, k + 1);
      assert i < k;
      assert WrittenSince(start, events, o, i, k);
    }
  }

  /** The valid bits are exactly the objects written since the last clock that cleared them. */
  lemma {:induction false} ValidBitsArePending(start: nat, events: seq<Event>, o: Object, k: nat)
    requires k <= |events| && o in COMPLETE
    ensures o in At(Master, start, events, k).slave.valid <==> Pending(start, events, o, k)
    decreases k
  {
    if k > 0 {
      ValidBitsArePending(start, events, o, k - 1);
      hide Pending;
      PendingNext(start, events, o, k - 1);
      assert ClearedAt(start, events, k - 1) ==> events[k - 1].Clock?;
    }
  }

  function Collections(start: nat, events: seq<Event>): nat -> bool {
    (i: nat) => CollectedAt(start, events, i)
  }

  lemma {:induction false} MasterDeadline(start: nat, events: seq<Event>, now: nat, k: nat)
    requires k <= |events| && InOrder(start, events)
    ensures now < At(Master, start, events, k).slave.timeout <==>
            Armed(Times(events), Collections(start, events), start, SLAVE_TIMEOUT, REMOTE_TIMEOUT, now, k)
    decreases k
  {
    if k > 0 {
      MasterDeadline(start, events, now, k - 1);
      var refreshed := Collections(start, events);
      if CollectedAt(start, events, k - 1) {
        ArmedRefreshed(Times(events), refreshed, start, SLAVE_TIMEOUT, REMOTE_TIMEOUT, now, k - 1);
      } else {
        ArmedUntouched(Times(events), refreshed, start, SLAVE_TIMEOUT, REMOTE_TIMEOUT, now, k - 1);
      }
    }
  }

  ghost predicate CompletePending(start: nat, events: seq<Event>, k: nat) {
    forall o :: o in COMPLETE ==> Pending(start, events, o, k)
  }

  /** A complete report was collected by an earlier clock less than a second ago. */
  ghost predicate RecentlyCollected(start: nat, events: seq<Event>, k: nat)
    requires k < |events|
  {
    exists i: nat :: i < k && CollectedAt(start, events, i) && events[k].time < events[i].time + 1_000_000
  }

  /** Over every interleaving of writes and clocks, the master reports the link up if and only if the
      clock precedes the initial deadline, or a complete report is there to be collected, or one was
      collected less than a second ago. */
  lemma MasterUpIff(start: nat, events: seq<Event>, k: nat)
    requires k < |events| && events[k].Clock? && InOrder(start, events)
    ensures CollectedAt(start, events, k) <==> CompletePending(start, events, k)
    ensures ReportAt(Master, start, events, k) != Down <==>
            events[k].time < start + 50_000 || CompletePending(start, events, k) || RecentlyCollected(start, events, k)
    ensures At(Master, start, events, k + 1).timedOut <==> ReportAt(Master, start, events, k) == Down
  {
    forall o | o in COMPLETE
      ensures o in At(Master, start, events, k).slave.valid <==> Pending(start, events, o, k)
    {
      ValidBitsArePending(start, events, o, k);
    }
    MasterDeadline(start, events, events[k].time, k);
    RecentIsArmed(start, events, k);
    assert At(Master, start, events, k + 1) == After(Master, At(Master, start, events, k), events[k]);
    hide At, Armed, RecentlyCollected, Pending;
  }

  lemma RecentIsArmed(start: nat, events: seq<Event>, k: nat)
    requires k < |events|
    ensures Armed(Times(events), Collections(start, events), start, SLAVE_TIMEOUT, REMOTE_TIMEOUT, events[k].time, k)
        <==> events[k].time < start + 50_000 || RecentlyCollected(start, events, k)
  {
    hide CollectedAt;
    assert forall i: nat :: i < k ==> Times(events)[i] == events[i].time && Collections(start, events)(i) == CollectedAt(start, events, i);
  }

  /** Once down it stays down until a complete report is collected. */
  lemma DownUntilComplete(start: nat, events: seq<Event>, j: nat, k: nat)
    requires j < k < |events| && events[k].Clock? && InOrder(start, events)
    requires ReportAt(Master, start, events, j) == Down
    requires forall i :: j < i <= k ==> !CollectedAt(start, events, i)
    ensures ReportAt(Master, start, events, k) == Down
  {
    MasterUpIff(start, events, j);
    MasterUpIff(start, events, k);
    hide ReportAt, CompletePending;
    assert !CollectedAt(start, events, j);
    RecentEarlier(start, events, j, k);
  }

  lemma RecentEarlier(start: nat, events: seq<Event>, j: nat, k: nat)
    requires j < k < |events| && InOrder(start, events) && forall i :: j <= i < k ==> !CollectedAt(start, events, i)
    ensures RecentlyCollected(start, events, k) ==> RecentlyCollected(start, events, j)
  {
    hide CollectedAt;
    if i: nat :| i < k && CollectedAt(start, events, i) && events[k].time < events[i].time + 1_000_000 {
      assert i < j && events[j].time <= events[k].time;
    }
  }

  /** While it is down every clock throws partial reports away: the next clock finds the link up exactly
      when all four objects arrived between the two clocks. */
  lemma UpAgainIff(start: nat, events: seq<Event>, j: nat, k: nat)
    requires j < k < |events| && events[k].Clock? && InOrder(start, events)
    requires ReportAt(Master, start, events, j) == Down && forall i :: j < i < k ==> events[i].Write?
    ensures ReportAt(Master, start, events, k) != Down <==>
            forall o :: o in COMPLETE ==> exists i: nat :: j < i < k && events[i].Write? && events[i].o == o
  {
    MasterUpIff(start, events, k);
    if !CompletePending(start, events, k) {
      DownUntilComplete(start, events, j, k);
    }
    forall o | o in COMPLETE
      ensures Pending(start, events, o, k) <==> exists i: nat :: j < i < k && events[i].Write? && events[i].o == o
    {
      PendingAfterDown(start, events, o, j, k);
    }
  }

  lemma PendingAfterDown(start: nat, events: seq<Event>, o: Object, j: nat, k: nat)
    requires j < k < |events| && ReportAt(Master, start, events, j) == Down && forall i :: j < i < k ==> events[i].Write?
    ensures Pending(start, events, o, k) <==> exists i: nat :: j < i < k && events[i].Write? && events[i].o == o
  {
    if Pending(start, events, o, k) {
      var i: nat :| WrittenSince(start, events, o, i, k);
      assert ClearedAt(start, events, j);
      assert j < i;
    }
    if i: nat :| j < i < k && events[i].Write? && events[i].o == o {
      assert WrittenSince(start, events, o, i, k);
    }
  }

  // ----- what was reported and demanded

  /** The value of the last write of an object among the first `k` events, or 0. */
  function LastValue(events: seq<Event>, o: Object, k: nat): int
    requires k <= |events|
    decreases k
  {
    if k == 0 then 0
    else if events[k - 1].Write? && events[k - 1].o == o then events[k - 1].value
    else LastValue(events, o, k - 1)
  }

  /** On every interleaving each reported field is the last value of its own object, and each demand the last
      value of its own, cut to a thousand either way. */
  lemma {:induction false} ValuesAreLast(mode: Mode, start: nat, events: seq<Event>, k: nat)
    requires k <= |events|
    ensures var s := At(mode, start, events, k).slave;
            && s.pitch == LastValue(events, PitchPosition, k) && s.yaw == LastValue(events, YawPosition, k)
            && s.iPitch == LastValue(events, PitchCurrent, k) && s.iYaw == LastValue(events, YawCurrent, k)
            && s.micros == LastValue(events, Micros, k) && s.vmot == LastValue(events, Vmot, k)
    ensures var r := At(mode, start, events, k).remote;
            && r.pitch == Cut(LastValue(events, PitchDemand, k)) && r.yaw == Cut(LastValue(events, YawDemand, k))
    decreases k
  {
    if k > 0 {
      ValuesAreLast(mode, start, events, k - 1);
      hide Finding;
    }
  }

  function Cut(x: int): int {
    if x < -1000 then -1000 else if x > 1000 then 1000 else x
  }

  // ----- the slave's watchdog

  predicate DownAt(start: nat, events: seq<Event>, k: nat) {
    k < |events| && ReportAt(Slave, start, events, k) == Down
  }

  /** Event `i` re-arms the deadline of a demand: the demand itself, or a clock that found it expired. */
  predicate Rearms(start: nat, events: seq<Event>, o: Object, i: nat) {
    DownAt(start, events, i) || (i < |events| && events[i].Write? && events[i].o == o)
  }

  function Rearmings(start: nat, events: seq<Event>, o: Object): nat -> bool {
    (i: nat) => Rearms(start, events, o, i)
  }

  function DemandTimeout(r: Remote, o: Object): nat {
    if o == PitchDemand then r.pitchTimeout else r.yawTimeout
  }

  lemma {:induction false} DemandDeadline(start: nat, events: seq<Event>, o: Object, now: nat, k: nat)
    requires k <= |events| && InOrder(start, events) && o in {PitchDemand, YawDemand}
    ensures now < DemandTimeout(At(Slave, start, events, k).remote, o) <==>
            Armed(Times(events), Rearmings(start, events, o), start, REMOTE_TIMEOUT, REMOTE_TIMEOUT, now, k)
    decreases k
  {
    if k > 0 {
      DemandDeadline(start, events, o, now, k - 1);
      var refreshed := Rearmings(start, events, o);
      if Rearms(start, events, o, k - 1) {
        ArmedRefreshed(Times(events), refreshed, start, REMOTE_TIMEOUT, REMOTE_TIMEOUT, now, k - 1);
      } else {
        ArmedUntouched(Times(events), refreshed, start, REMOTE_TIMEOUT, REMOTE_TIMEOUT, now, k - 1);
      }
    }
  }

  /** Something re-armed the deadline of the demand less than 50 ms ago. */
  ghost predicate RecentlyArmed(start: nat, events: seq<Event>, o: Object, k: nat)
    requires k < |events|
  {
    events[k].time < start + 50_000 ||
    exists i: nat :: i < k && Rearms(start, events, o, i) && events[k].time < events[i].time + 50_000
  }

  /** The slave finds its demands fresh if and only if each of the two was received, or its deadline
      re-armed by a clock that found either expired, less than 50 ms ago. */
  lemma SlaveUpIff(start: nat, events: seq<Event>, k: nat)
    requires k < |events| && events[k].Clock? && InOrder(start, events)
    ensures !DownAt(start, events, k) <==>
            RecentlyArmed(start, events, PitchDemand, k) && RecentlyArmed(start, events, YawDemand, k)
    ensures At(Slave, start, events, k + 1).timedOut <==> DownAt(start, events, k)
  {
    DemandDeadline(start, events, PitchDemand, events[k].time, k);
    DemandDeadline(start, events, YawDemand, events[k].time, k);
    RearmedIsArmed(start, events, PitchDemand, k);
    RearmedIsArmed(start, events, YawDemand, k);
    hide Armed, RecentlyArmed;
  }

  lemma RearmedIsArmed(start: nat, events: seq<Event>, o: Object, k: nat)
    requires k < |events|
    ensures Armed(Times(events), Rearmings(start, events, o), start, REMOTE_TIMEOUT, REMOTE_TIMEOUT, events[k].time, k)
        <==> RecentlyArmed(start, events, o, k)
  {
    hide Rearms;
    assert forall i: nat :: i < k ==> Times(events)[i] == events[i].time && Rearmings(start, events, o)(i) == Rearms(start, events, o, i);
  }

  // ----- fixed point on the bus

  /** Thousandths, truncated towards zero as a conversion to int16_t does. */
  function Milli(x: real): int {
    if x >= 0.0 then (x * 1000.0).Floor else -((-x * 1000.0).Floor)
  }

  /** An output of the master arrives on the slave as a demand of the same sign, no larger, less than a
      thousandth away; the limits of the receiver never cut it. */
  lemma DemandCrossesBus(out: real, l: Link, now: nat)
    requires -1.0 <= out <= 1.0
    ensures Written(l, PitchDemand, Milli(out), now).remote.pitch == Written(l, YawDemand, Milli(out), now).remote.yaw == Milli(out)
    ensures var got := Milli(out);
            && -1000 <= got <= 1000
            && (0.0 <= got as real * 0.001 <= out < got as real * 0.001 + 0.001 ||
                got as real * 0.001 - 0.001 < out <= got as real * 0.001 <= 0.0)
  {
  }
}
