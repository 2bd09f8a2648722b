/** From raw readings to measurements: scaled inputs, the joysticks and the unwrapped yaw encoder. */
module Measured {
  import opened MathLib
  import Filter

  // ----- scaled inputs

  datatype AnalogLimit = AnalogLimit(min: real, max: real, omin: real, omax: real)

  /** `_scale_input`. */
  function ScaleInput(x: real, lim: AnalogLimit): real {
    var iscale := lim.max - lim.min;
    var res := if iscale > 0.0 then (Constrain(x, lim.min, lim.max) - lim.min) / iscale else 0.0;
    lim.omin + res * (lim.omax - lim.omin)
  }

  lemma Share(part: real, whole: real)
    requires whole > 0.0 && 0.0 <= part <= whole
    ensures 0.0 <= part / whole <= 1.0
    ensures part == 0.0 ==> part / whole == 0.0
    ensures part == whole ==> part / whole == 1.0
  {
    QuotientTimesDivisor(part, whole);
    MulMonotone(whole, 0.0, part / whole);
    MulMonotone(whole, part / whole, 1.0);
  }

  lemma Interpolate(share: real, span: real)
    requires 0.0 <= share <= 1.0 && span >= 0.0
    ensures 0.0 <= share * span <= span
  {
    assert (1.0 - share) * span >= 0.0;
  }

  /** Whatever is read, the scaled value is in the output range; the ends of the input range map to the
      ends of the output range, and an empty input range always gives the lower end. */
  lemma ScaledStaysInRange(x: real, lim: AnalogLimit)
    requires lim.omin <= lim.omax
    ensures lim.omin <= ScaleInput(x, lim) <= lim.omax
    ensures x <= lim.min || lim.max <= lim.min ==> ScaleInput(x, lim) == lim.omin
    ensures x >= lim.max > lim.min ==> ScaleInput(x, lim) == lim.omax
  {
    if lim.max > lim.min {
      var part := Constrain(x, lim.min, lim.max) - lim.min;
      Share(part, lim.max - lim.min);
      Interpolate(part / (lim.max - lim.min), lim.omax - lim.omin);
    }
  }

  lemma PartOf(share: real, whole: real) returns (part: real)
    requires whole > 0.0 && 0.0 <= share <= 1.0
    ensures part == share * whole && 0.0 <= part <= whole && part / whole == share
  {
    part := share * whole;
    Interpolate(share, whole);
    QuotientTimesDivisor(part, whole);
    assert whole * share == part;
    SameFactor(whole, part / whole, share);
  }

  /** An input a share `q` up its range gives the value that share up the output range. */
  lemma ScaledIsLinear(q: real, lim: AnalogLimit)
    requires lim.min < lim.max && 0.0 <= q <= 1.0
    ensures ScaleInput(lim.min + q * (lim.max - lim.min), lim) == lim.omin + q * (lim.omax - lim.omin)
  {
    var part := PartOf(q, lim.max - lim.min);
    ScaledInside(lim.min + part, part, lim.max - lim.min, lim);
    hide *;
  }

  lemma ScaledInside(x: real, part: real, whole: real, lim: AnalogLimit)
    requires 0.0 < whole == lim.max - lim.min && 0.0 <= part <= whole && x == lim.min + part
    ensures ScaleInput(x, lim) == lim.omin + part / whole * (lim.omax - lim.omin)
  {
  }

  lemma ScaledIsMonotone(x: real, y: real, lim: AnalogLimit)
    requires lim.omin <= lim.omax && x <= y
    ensures ScaleInput(x, lim) <= ScaleInput(y, lim)
  {
    var iscale := lim.max - lim.min;
    if iscale > 0.0 {
      var (a, b) := (Constrain(x, lim.min, lim.max) - lim.min, Constrain(y, lim.min, lim.max) - lim.min);
      Share(b - a, iscale);
      assert b / iscale - a / iscale == (b - a) / iscale;
      Interpolate((b - a) / iscale, lim.omax - lim.omin);
      assert (b / iscale - a / iscale) * (lim.omax - lim.omin)
          == b / iscale * (lim.omax - lim.omin) - a / iscale * (lim.omax - lim.omin);
    }
  }

  /** A knob that never gives zero. */
  predicate Positive(lim: AnalogLimit) {
    0.0 < lim.omin <= lim.omax
  }

  /** The configured limits of all inputs, and the deadbands of the joysticks. */
  datatype InputLimits = InputLimits(
    pitch: AnalogLimit, joyPitch: AnalogLimit, joyYaw: AnalogLimit,
    pitchAcc: AnalogLimit, yawAcc: AnalogLimit, pitchSpeed: AnalogLimit, yawSpeed: AnalogLimit,
    vmot: AnalogLimit, deadbandPitch: real, deadbandYaw: real)
  {
    predicate RatesPositive() {
      Positive(pitchAcc) && Positive(yawAcc) && Positive(pitchSpeed) && Positive(yawSpeed)
    }
  }

  const FULL_SCALE := AnalogLimit(0.0, 4096.0, -1.0, 1.0)
  const ACC_KNOB := AnalogLimit(0.0, 4096.0, 0.05, 1.0)
  const SPEED_KNOB := AnalogLimit(0.0, 4096.0, 0.2, 1.0)

  /** What `fb_config_init` configures. */
  const DEFAULTS := InputLimits(FULL_SCALE, FULL_SCALE, FULL_SCALE, ACC_KNOB, ACC_KNOB, SPEED_KNOB, SPEED_KNOB,
                                AnalogLimit(0.0, 3470.0, 0.0, 80.0), 0.1, 0.1)

  /** Limits under which a move can be planned: the planner divides by the rates. */
  type Scaling = s: InputLimits | s.RatesPositive() witness DEFAULTS

  /** With any such limits the knobs never give a zero rate, so a planned move always has limits to plan
      with; with the defaults they give at least 0.05 and 0.2 of full scale. */
  lemma KnobsNeverZero(s: Scaling, raw: nat)
    ensures ScaleInput(raw as real, s.pitchAcc) > 0.0 && ScaleInput(raw as real, s.yawAcc) > 0.0
    ensures ScaleInput(raw as real, s.pitchSpeed) > 0.0 && ScaleInput(raw as real, s.yawSpeed) > 0.0
    ensures 0.05 <= ScaleInput(raw as real, DEFAULTS.pitchAcc) == ScaleInput(raw as real, DEFAULTS.yawAcc) <= 1.0
    ensures 0.2 <= ScaleInput(raw as real, DEFAULTS.pitchSpeed) == ScaleInput(raw as real, DEFAULTS.yawSpeed) <= 1.0
  {
    hide ScaleInput;
    ScaledStaysInRange(raw as real, s.pitchAcc);
    ScaledStaysInRange(raw as real, s.yawAcc);
    ScaledStaysInRange(raw as real, s.pitchSpeed);
    ScaledStaysInRange(raw as real, s.yawSpeed);
    ScaledStaysInRange(raw as real, ACC_KNOB);
    ScaledStaysInRange(raw as real, SPEED_KNOB);
  }

  /** The direction switches of a joystick; they are active when low, and the second encoder's wins. */
  function Direction(enc1Aux: bool, enc2Aux: bool): real {
    if !enc2Aux then -1.0 else if !enc1Aux then 1.0 else 0.0
  }

  function Joystick(dir: real, raw: real, lim: AnalogLimit, deadband: real): real {
    var joy := dir * ScaleInput(raw, lim);
    if Abs(joy) < deadband then 0.0 else joy
  }

  /** A joystick gives nothing, or at least its deadband and at most the larger end of its output range. */
  lemma JoystickRange(enc1Aux: bool, enc2Aux: bool, raw: real, lim: AnalogLimit, deadband: real)
    requires lim.omin <= lim.omax
    ensures var j := Joystick(Direction(enc1Aux, enc2Aux), raw, lim, deadband);
            Abs(j) <= Max(Abs(lim.omin), Abs(lim.omax)) && (j == 0.0 || Abs(j) >= deadband)
  {
    hide ScaleInput;
    ScaledStaysInRange(raw, lim);
  }

  /** A joystick pushed a share `q` of its way gives that share of its output range, positive with only the
      first encoder's switch active and negative with the second's, whatever the first's; nothing with
      neither, or within the deadband. */
  lemma JoystickFollowsPush(enc1Aux: bool, enc2Aux: bool, q: real, lim: AnalogLimit, deadband: real)
    requires lim.min < lim.max && 0.0 <= q <= 1.0
    ensures var push := lim.omin + q * (lim.omax - lim.omin);
            var j := Joystick(Direction(enc1Aux, enc2Aux), lim.min + q * (lim.max - lim.min), lim, deadband);
            && (enc1Aux && enc2Aux ==> j == 0.0)
            && (Abs(push) < deadband ==> j == 0.0)
            && (Abs(push) >= deadband && !enc2Aux ==> j == -push)
            && (Abs(push) >= deadband && enc2Aux && !enc1Aux ==> j == push)
  {
    hide ScaleInput;
    ScaledIsLinear(q, lim);
  }

  // ----- the yaw encoder

  /** Half a turn of the yaw axis, in encoder ticks: (90 / 17) * (2800 * 512 * 4 / 28) / 2, truncated. */
  const TICKS_PER_PI: int := 542117

  function Uint16(x: int): int {
    x % 0x1_0000
  }

  function Int16(x: int): int {
    if Uint16(x) >= 0x8000 then Uint16(x) - 0x1_0000 else Uint16(x)
  }

  datatype Yaw = Yaw(ticks: int, prev: int)

  const YAW_AT_START := Yaw(0, 0)

  /** The difference of two readings, reduced to 16 bits and read as signed. */
  function Delta(prev: int, raw: int): int {
    Int16(Uint16(Uint16(raw) - prev))
  }

  function Wrapped(ticks: int): int {
    var t := if ticks > TICKS_PER_PI then ticks - 2 * TICKS_PER_PI else ticks;
    if t < -TICKS_PER_PI then t + 2 * TICKS_PER_PI else t
  }

  function Unwrap(y: Yaw, raw: int): Yaw {
    Yaw(Wrapped(y.ticks + Delta(y.prev, raw)), Uint16(raw))
  }

  function TickAngle(pi: real, ticks: int): real {
    pi * (ticks as real / TICKS_PER_PI as real)
  }

  function YawAngle(pi: real, ticks: int): real
    requires pi > 0.0
  {
    NormalizeAngle(pi, TickAngle(pi, ticks))
  }

  /** A count of 542117 is half a turn: within that, the angle is the count's share of it. */
  lemma YawScale(pi: real, ticks: int)
    requires pi > 0.0 && -542117 < ticks <= 542117
    ensures YawAngle(pi, ticks) * 542117.0 == pi * ticks as real
  {
    var share := ticks as real / 542117.0;
    TickShare(ticks, share);
    ShareOfHalfTurn(pi, share);
    hide NormalizeAngle, SameDirection;
    SameDirectionReflexive(pi, pi * share);
    NormalizeCharacterised(pi, pi * share, pi * share);
    assert TickAngle(pi, ticks) == pi * share;
    hide TickAngle;
    assert pi * share * 542117.0 == pi * (share * 542117.0);
  }

  lemma TickShare(ticks: int, share: real)
    requires -542117 < ticks <= 542117 && share == ticks as real / 542117.0
    ensures -1.0 < share <= 1.0 && share * 542117.0 == ticks as real
  {
  }

  lemma ShareOfHalfTurn(pi: real, share: real)
    requires pi > 0.0 && -1.0 < share <= 1.0
    ensures IsNormalized(pi, pi * share)
  {
    MulMonotone(pi, share, 1.0);
    MulMonotone(pi, -1.0, share);
  }

  predicate FitsInt16(x: int) {
    -0x8000 <= x <= 0x7FFF
  }

  predicate SameTicks(a: int, b: int) {
    (a - b) % (2 * TICKS_PER_PI) == 0
  }

  /** The encoder hands out the low 16 bits of its true count. Two readings give the true move exactly
      when the move is representable in 16 bits, wherever the count wraps in between. */
  lemma DeltaExactIffFits(from: int, to: int)
    ensures Delta(Uint16(from), Int16(to)) == to - from <==> FitsInt16(to - from)
  {
    LowBitsOfInt16(to);
    LowBitsSubtract(from, to);
    Int16ExactIffFits(to - from);
    hide Uint16;
  }

  lemma LowBitsOfInt16(x: int)
    ensures Uint16(Int16(x)) == Uint16(x)
  {
  }

  lemma LowBitsSubtract(from: int, to: int)
    ensures Uint16(Uint16(to) - Uint16(from)) == Uint16(to - from) == Uint16(Uint16(to - from))
  {
  }

  lemma Int16ExactIffFits(x: int)
    ensures Int16(x) == x <==> FitsInt16(x)
  {
  }

  lemma WrappedStaysInHalfTurn(ticks: int)
    requires -3 * TICKS_PER_PI <= ticks <= 3 * TICKS_PER_PI
    ensures -TICKS_PER_PI <= Wrapped(ticks) <= TICKS_PER_PI && SameTicks(Wrapped(ticks), ticks)
  {
  }

  function Track(y: Yaw, counts: seq<int>): Yaw
    decreases |counts|
  {
    if counts == [] then y else Track(Unwrap(y, Int16(counts[0])), counts[1..])
  }

  /** Every move between two updates is representable in 16 bits. */
  predicate MovesFit(from: int, counts: seq<int>)
    decreases |counts|
  {
    counts == [] || (FitsInt16(counts[0] - from) && MovesFit(counts[0], counts[1..]))
  }

  function Latest(from: int, counts: seq<int>): int {
    if counts == [] then from else counts[|counts| - 1]
  }

  lemma SameTicksJoin(a: int, b: int, c: int, d: int, e: int)
    requires SameTicks(a, b) && SameTicks(d, e) && b - c == d - e
    ensures SameTicks(a, c)
  {
    var n := 2 * TICKS_PER_PI;
    var (k, l) := ((a - b) / n, (d - e) / n);
    assert a - c == (k + l) * n;
  }

  lemma OneYawUpdate(y: Yaw, from: int, to: int)
    requires y.prev == Uint16(from) && -TICKS_PER_PI <= y.ticks <= TICKS_PER_PI && FitsInt16(to - from)
    ensures var z := Unwrap(y, Int16(to));
            && z.prev == Uint16(to) && -TICKS_PER_PI <= z.ticks <= TICKS_PER_PI
            && SameTicks(z.ticks, y.ticks + to - from)
  {
    LowBitsOfInt16(to);
    DeltaExactIffFits(from, to);
    hide Uint16, Int16, Delta;
    WrappedStaysInHalfTurn(y.ticks + (to - from));
  }

  /** Over any run of updates the tick counter has moved by as much as the true count, up to whole turns,
      and stays within half a turn. */
  lemma {:induction false} YawTracksEncoder(y: Yaw, from: int, counts: seq<int>)
    requires y.prev == Uint16(from) && -TICKS_PER_PI <= y.ticks <= TICKS_PER_PI && MovesFit(from, counts)
    ensures var z := Track(y, counts);
            && z.prev == Uint16(Latest(from, counts)) && -TICKS_PER_PI <= z.ticks <= TICKS_PER_PI
            && SameTicks(z.ticks, y.ticks + Latest(from, counts) - from)
    decreases |counts|
  {
    if counts != [] {
      var c := counts[0];
      var last := Latest(from, counts);
      assert last == Latest(c, counts[1..]);
      var next := Unwrap(y, Int16(c));
      OneYawUpdate(y, from, c);
      hide SameTicks, Unwrap, Uint16;
      YawTracksEncoder(next, c, counts[1..]);
      SameTicksJoin(Track(y, counts).ticks, next.ticks + last - c, y.ticks + last - from, next.ticks, y.ticks + c - from);
    }
  }

  lemma WholeTurnsOfTicks(pi: real, a: int, b: int)
    requires pi > 0.0 && SameTicks(a, b)
    ensures YawAngle(pi, a) == YawAngle(pi, b)
  {
    hide NormalizeAngle;
    var k := (a - b) / (2 * TICKS_PER_PI);
    TickAnglesApart(pi, a, b, k);
    hide TickAngle;
    NormalizeAgrees(pi, TickAngle(pi, a), TickAngle(pi, b));
  }

  lemma TickAnglesApart(pi: real, a: int, b: int, k: int)
    requires a == b + k * (2 * TICKS_PER_PI)
    ensures TurnsApart(pi, TickAngle(pi, a), TickAngle(pi, b), k)
  {
    var per := TICKS_PER_PI as real;
    assert a as real / per == b as real / per + 2.0 * k as real;
    assert pi * (b as real / per + 2.0 * k as real) == pi * (b as real / per) + pi * (2.0 * k as real);
  }

  /** The measured yaw is the true angle, normalised, after any number of wraps of the 16-bit reading and
      any number of turns of the crane. */
  lemma MeasuredYawIsTrueYaw(pi: real, y: Yaw, from: int, counts: seq<int>)
    requires pi > 0.0 && y.prev == Uint16(from) && -TICKS_PER_PI <= y.ticks <= TICKS_PER_PI && MovesFit(from, counts)
    ensures YawAngle(pi, Track(y, counts).ticks) == YawAngle(pi, y.ticks + Latest(from, counts) - from)
  {
    YawTracksEncoder(y, from, counts);
    WholeTurnsOfTicks(pi, Track(y, counts).ticks, y.ticks + Latest(from, counts) - from);
  }

  // ----- one update

  /** The raw readings of one tick. */
  datatype Readings = Readings(
    pitch: nat, yaw: int, joyPitch: nat, joyYaw: nat,
    pitchAcc: nat, yawAcc: nat, pitchSpeed: nat, yawSpeed: nat, vmot: nat,
    enc1Aux1: bool, enc1Aux2: bool, enc2Aux1: bool, enc2Aux2: bool)

  datatype Measurement = Measurement(
    pitch: real, yaw: real, joyPitch: real, joyYaw: real,
    pitchAcc: real, yawAcc: real, pitchSpeed: real, yawSpeed: real, vmot: real)

  const NOTHING := Measurement(0.0, 0.0, 0.0, 0.0, 0.0, 0.0, 0.0, 0.0, 0.0)

  /** What the controls say; the same on master and slave. */
  function Controls(m: Measurement, s: Scaling, r: Readings): Measurement {
    m.(joyPitch := Joystick(Direction(r.enc1Aux1, r.enc2Aux1), r.joyPitch as real, s.joyPitch, s.deadbandPitch),
       joyYaw := Joystick(Direction(r.enc1Aux2, r.enc2Aux2), r.joyYaw as real, s.joyYaw, s.deadbandYaw),
       pitchAcc := ScaleInput(r.pitchAcc as real, s.pitchAcc), yawAcc := ScaleInput(r.yawAcc as real, s.yawAcc),
       pitchSpeed := ScaleInput(r.pitchSpeed as real, s.pitchSpeed), yawSpeed := ScaleInput(r.yawSpeed as real, s.yawSpeed),
       vmot := ScaleInput(r.vmot as real, s.vmot))
  }

  class Sensors {
    const pi: real
    const scaling: Scaling
    const pfilt: Filter.FilterState
    var measured: Measurement
    var yawTicks: int
    var prevYawTicks: int

    ghost predicate Valid()
      reads this
    {
      pi > 0.0 && pfilt.conf == Filter.PITCH
    }

    ghost function Tracked(): Yaw
      reads this
    {
      Yaw(yawTicks, prevYawTicks)
    }

    constructor (pi: real, scaling: Scaling)
      requires pi > 0.0
      ensures Valid() && this.pi == pi && this.scaling == scaling && fresh(pfilt)
      ensures measured == NOTHING && Tracked() == YAW_AT_START && pfilt.Current() == Filter.REST
    {
      this.pi := pi;
      this.scaling := scaling;
      pfilt := new Filter.FilterState(Filter.PITCH);
      measured := NOTHING;
      yawTicks, prevYawTicks := 0, 0;
    }

    /** `_fb_update_measurements`; the master takes its positions from what the slave reported. */
    method Update(master: bool, slavePitch: int, slaveYaw: int, r: Readings)
      requires Valid()
      modifies this, pfilt
      ensures Valid()
      ensures pfilt.Current() ==
              if master then Filter.Next(Filter.PITCH, old(pfilt.Current()), slavePitch as real / 1000.0)
              else old(pfilt.Current())
      ensures Tracked() == if master then old(Tracked()) else Unwrap(old(Tracked()), r.yaw)
      ensures measured == Controls(old(measured), scaling, r).(
                            pitch := if master then pfilt.Current().out0 else ScaleInput(r.pitch as real, scaling.pitch),
                            yaw := if master then slaveYaw as real / 1000.0 else YawAngle(pi, yawTicks))
    {
      hide ScaleInput, Joystick, NormalizeAngle;
      if master {
        var pitch := pfilt.Update(slavePitch as real / 1000.0);
        measured := measured.(pitch := pitch, yaw := slaveYaw as real / 1000.0);
      } else {
        var raw := Uint16(r.yaw);
        yawTicks := yawTicks + Int16(Uint16(raw - prevYawTicks));
        prevYawTicks := raw;
        if yawTicks > TICKS_PER_PI {
          yawTicks := yawTicks - 2 * TICKS_PER_PI;
        }
        if yawTicks < -TICKS_PER_PI {
          yawTicks := yawTicks + 2 * TICKS_PER_PI;
        }
        var yaw := NormalizeAngle(pi, TickAngle(pi, yawTicks));
        measured := measured.(pitch := ScaleInput(r.pitch as real, scaling.pitch), yaw := yaw);
      }
      ghost var positions := measured;
      measured := Controls(measured, scaling, r);
      assert positions == old(measured).(pitch := positions.pitch, yaw := positions.yaw);
      assert positions.yaw == if master then slaveYaw as real / 1000.0 else YawAngle(pi, yawTicks);
      assert positions.pitch == if master then pfilt.Current().out0 else ScaleInput(r.pitch as real, scaling.pitch);
    }
  }
}
