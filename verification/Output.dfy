/** The output stage: slew limiting and the soft end stops of the pitch axis. */
module Output {
  import opened MathLib
  import opened Control

  datatype EndStops = EndStops(max: real, min: real) {
    function Travel(): real {
      max - min
    }
    function Deadband(): real {
      Travel() * 0.15
    }
    /** The slow zones reach from here to the end stops; the upper one is twice as long. */
    function SlowAbove(): real {
      max - Deadband() * 2.0
    }
    function SlowBelow(): real {
      min + Deadband()
    }
  }

  /** `_limit_pitch_output`; negative output drives the pitch up. */
  function LimitPitch(stops: EndStops, measured: real, pitch: real, speed: real): real {
    if measured > stops.SlowAbove() && measured < stops.max then
      Constrain(pitch, -speed * (1.0 - (measured - stops.SlowAbove()) / (stops.Deadband() * 2.0)), speed)
    else if measured > stops.max then
      Constrain(pitch, 0.0, speed)
    else if measured < stops.SlowBelow() && measured > stops.min then
      Constrain(pitch, -speed, speed * (1.0 - (stops.SlowBelow() - measured) / stops.Deadband()))
    else if measured < stops.min then
      Constrain(pitch, -speed, 0.0)
    else
      pitch
  }

  /** One step of at most acc * DT from `out` towards `demand`. */
  function Slew(out: real, demand: real, acc: real): real {
    if out < demand then Constrain(out + acc * DT, out, demand)
    else if out > demand then Constrain(out - acc * DT, demand, out)
    else out
  }

  datatype Rates = Rates(speed: real, acc: real)

  function NextPitch(stops: EndStops, measured: real, out: real, demand: real, rates: Rates): real {
    var slewed := Slew(out, Constrain(demand, -1.0, 1.0), rates.acc);
    Constrain(LimitPitch(stops, measured, slewed, rates.speed), -rates.speed, rates.speed)
  }

  function NextYaw(out: real, demand: real, rates: Rates): real {
    Constrain(Slew(out, Constrain(demand, -1.0, 1.0), rates.acc), -rates.speed, rates.speed)
  }

  /** The duty cycles of the three half bridges of a motor. */
  datatype Bridge = Bridge(a: real, b: real, c: real)

  const MAX_SWING: real := 0.46

  /** What a motor is driven with for an output. */
  function BridgeOf(out: real): Bridge {
    var swing := Constrain(out * 0.5, -MAX_SWING, MAX_SWING);
    Bridge(0.5 + swing, 0.5 - swing, 0.5 + swing)
  }

  /** Whatever the output, no half bridge is ever fully on or off and opposite ones are complementary; the
      motor sees no voltage exactly when the output is zero, and the output itself exactly up to 0.92. */
  lemma BridgeIsSafe(out: real)
    ensures var m := BridgeOf(out);
            && 0.04 <= m.a <= 0.96 && 0.04 <= m.b <= 0.96 && m.a + m.b == 1.0 && m.c == m.a
            && (m.a == m.b <==> out == 0.0)
            && (m.a - m.b == out <==> -0.92 <= out <= 0.92)
  {
  }

  /** More output is never less voltage. */
  lemma BridgeIsMonotone(x: real, y: real)
    requires x <= y
    ensures BridgeOf(x).a - BridgeOf(x).b <= BridgeOf(y).a - BridgeOf(y).b
  {
  }

  class MotorOutput {
    const stops: EndStops
    var pitch: real
    var yaw: real

    constructor (stops: EndStops)
      ensures this.stops == stops && pitch == 0.0 && yaw == 0.0
    {
      this.stops := stops;
      pitch, yaw := 0.0, 0.0;
    }

    /** `fb_output_limited`. */
    method Drive(measuredPitch: real, demandPitch: real, demandYaw: real, pitchRates: Rates, yawRates: Rates)
      modifies this
      ensures pitch == NextPitch(stops, measuredPitch, old(pitch), demandPitch, pitchRates)
      ensures yaw == NextYaw(old(yaw), demandYaw, yawRates)
    {
      var dp, dy := Constrain(demandPitch, -1.0, 1.0), Constrain(demandYaw, -1.0, 1.0);
      var p := pitch;
      if p < dp {
        p := Constrain(p + pitchRates.acc * DT, p, dp);
      } else if p > dp {
        p := Constrain(p - pitchRates.acc * DT, dp, p);
      }
      var y := yaw;
      if y < dy {
        y := Constrain(y + yawRates.acc * DT, y, dy);
      } else if y > dy {
        y := Constrain(y - yawRates.acc * DT, dy, y);
      }
      hide LimitPitch;
      p := LimitPitch(stops, measuredPitch, p, pitchRates.speed);
      pitch := Constrain(p, -pitchRates.speed, pitchRates.speed);
      yaw := Constrain(y, -yawRates.speed, yawRates.speed);
    }
  }

  // ----- soft end stops

  /** `y` lies between zero and `x`: same sign, no larger. */
  predicate Damped(x: real, y: real) {
    (0.0 <= y <= x) || (x <= y <= 0.0)
  }

  lemma SlowFactor(stops: EndStops, measured: real)
    ensures measured > stops.SlowAbove() && measured < stops.max
        ==> 0.0 < 1.0 - (measured - stops.SlowAbove()) / (stops.Deadband() * 2.0) < 1.0
    ensures measured < stops.SlowBelow() && measured > stops.min
        ==> 0.0 < 1.0 - (stops.SlowBelow() - measured) / stops.Deadband() < 1.0
  {
    if measured > stops.SlowAbove() && measured < stops.max {
      FractionOfZone(measured - stops.SlowAbove(), stops.Deadband() * 2.0);
    }
    if measured < stops.SlowBelow() && measured > stops.min {
      FractionOfZone(stops.SlowBelow() - measured, stops.Deadband());
    }
  }

  lemma FractionOfZone(depth: real, zone: real)
    requires 0.0 < depth < zone
    ensures 0.0 < depth / zone < 1.0
  {
    var q := depth / zone;
    QuotientTimesDivisor(depth, zone);
    MulMonotone(zone, 0.0, q);
    MulMonotone(zone, q, 1.0);
  }

  lemma ConstrainAroundZero(x: real, lo: real, hi: real)
    requires lo <= 0.0 <= hi
    ensures Damped(x, Constrain(x, lo, hi))
  {
  }

  lemma ScaledSpeed(speed: real, factor: real)
    requires speed >= 0.0 && 0.0 <= factor <= 1.0
    ensures 0.0 <= speed * factor <= speed && -speed * factor == -(speed * factor)
  {
  }

  /** The soft end stops never reverse the output or make it larger, wherever the pitch is. */
  lemma EndStopDamps(stops: EndStops, measured: real, pitch: real, speed: real)
    requires speed >= 0.0
    ensures Damped(pitch, LimitPitch(stops, measured, pitch, speed))
  {
    SlowFactor(stops, measured);
    if measured > stops.SlowAbove() && measured < stops.max {
      var f := 1.0 - (measured - stops.SlowAbove()) / (stops.Deadband() * 2.0);
      ScaledSpeed(speed, f);
      ConstrainAroundZero(pitch, -speed * f, speed);
    } else if measured > stops.max {
      ConstrainAroundZero(pitch, 0.0, speed);
    } else if measured < stops.SlowBelow() && measured > stops.min {
      var f := 1.0 - (stops.SlowBelow() - measured) / stops.Deadband();
      ScaledSpeed(speed, f);
      ConstrainAroundZero(pitch, -speed, speed * f);
    } else if measured < stops.min {
      ConstrainAroundZero(pitch, -speed, 0.0);
    }
  }

  /** At or beyond the upper end stop the output drives no further up exactly when the pitch is strictly
      beyond it or the request was not outward: on the limit itself no branch fires. */
  lemma UpperStopHolds(stops: EndStops, measured: real, pitch: real, speed: real)
    requires speed >= 0.0 && stops.max > stops.min && measured >= stops.max
    ensures LimitPitch(stops, measured, pitch, speed) >= 0.0 <==> measured != stops.max || pitch >= 0.0
  {
  }

  /** The same at the lower end stop. */
  lemma LowerStopHolds(stops: EndStops, measured: real, pitch: real, speed: real)
    requires speed >= 0.0 && stops.max > stops.min && measured <= stops.min
    ensures LimitPitch(stops, measured, pitch, speed) <= 0.0 <==> measured != stops.min || pitch <= 0.0
  {
  }

  lemma ZoneMonotone(a: real, b: real, zone: real)
    requires zone > 0.0 && a <= b
    ensures a / zone <= b / zone
  {
    QuotientTimesDivisor(a, zone);
    QuotientTimesDivisor(b, zone);
    MulMonotone(zone, a / zone, b / zone);
  }

  /** The fraction of the speed that is left for driving up. */
  function UpFraction(stops: EndStops, measured: real): real {
    if measured > stops.max then 0.0
    else if measured > stops.SlowAbove() && measured < stops.max then
      1.0 - (measured - stops.SlowAbove()) / (stops.Deadband() * 2.0)
    else 1.0
  }

  lemma UpwardDrive(stops: EndStops, measured: real, pitch: real, speed: real)
    requires speed >= 0.0 && stops.max > stops.min && -speed <= pitch <= 0.0
    ensures LimitPitch(stops, measured, pitch, speed) == Max(pitch, -(speed * UpFraction(stops, measured)))
  {
    SlowFactor(stops, measured);
    var f := UpFraction(stops, measured);
    assert 0.0 <= f <= 1.0;
    ScaledSpeed(speed, f);
    if measured < stops.SlowBelow() && measured > stops.min {
      ScaledSpeed(speed, 1.0 - (stops.SlowBelow() - measured) / stops.Deadband());
    }
  }

  lemma UpFractionFalls(stops: EndStops, m1: real, m2: real)
    requires stops.max > stops.min && m1 <= m2 && m2 != stops.max
    ensures UpFraction(stops, m1) >= UpFraction(stops, m2)
  {
    SlowFactor(stops, m1);
    SlowFactor(stops, m2);
    if m1 > stops.SlowAbove() && m2 < stops.max {
      ZoneMonotone(m1 - stops.SlowAbove(), m2 - stops.SlowAbove(), stops.Deadband() * 2.0);
    }
  }

  lemma ScaledOrder(speed: real, f: real, g: real)
    requires speed >= 0.0 && f >= g
    ensures speed * f >= speed * g
  {
    assert speed * (f - g) >= 0.0;
  }

  lemma CutOrder(x: real, a: real, b: real)
    requires a <= b
    ensures Max(x, a) <= Max(x, b) && Min(x, a) <= Min(x, b)
  {
  }

  /** The higher the pitch, the less of an upward drive gets through, except exactly on the limit. */
  lemma UpwardDriveFalls(stops: EndStops, m1: real, m2: real, pitch: real, speed: real)
    requires speed >= 0.0 && stops.max > stops.min && -speed <= pitch <= 0.0 && m1 <= m2
    ensures m2 != stops.max ==> LimitPitch(stops, m1, pitch, speed) <= LimitPitch(stops, m2, pitch, speed)
    ensures LimitPitch(stops, stops.max, pitch, speed) == pitch
  {
    hide LimitPitch, UpFraction;
    UpwardDrive(stops, m1, pitch, speed);
    UpwardDrive(stops, m2, pitch, speed);
    OnALimit(stops, pitch, speed);
    if m2 != stops.max {
      UpFractionFalls(stops, m1, m2);
      var (f, g) := (UpFraction(stops, m1), UpFraction(stops, m2));
      ScaledOrder(speed, f, g);
      CutOrder(pitch, -(speed * f), -(speed * g));
    }
  }

  /** Exactly on an end stop nothing is limited. */
  lemma OnALimit(stops: EndStops, pitch: real, speed: real)
    requires stops.max > stops.min
    ensures LimitPitch(stops, stops.max, pitch, speed) == pitch
    ensures LimitPitch(stops, stops.min, pitch, speed) == pitch
  {
  }

  /** The fraction of the speed that is left for driving down. */
  function DownFraction(stops: EndStops, measured: real): real {
    if measured < stops.min then 0.0
    else if measured < stops.SlowBelow() && measured > stops.min then
      1.0 - (stops.SlowBelow() - measured) / stops.Deadband()
    else 1.0
  }

  lemma DownwardDrive(stops: EndStops, measured: real, pitch: real, speed: real)
    requires speed >= 0.0 && stops.max > stops.min && 0.0 <= pitch <= speed
    ensures LimitPitch(stops, measured, pitch, speed) == Min(pitch, speed * DownFraction(stops, measured))
  {
    SlowFactor(stops, measured);
    var f := DownFraction(stops, measured);
    assert 0.0 <= f <= 1.0;
    ScaledSpeed(speed, f);
    if measured > stops.SlowAbove() && measured < stops.max {
      ScaledSpeed(speed, 1.0 - (measured - stops.SlowAbove()) / (stops.Deadband() * 2.0));
    }
  }

  lemma DownFractionFalls(stops: EndStops, m1: real, m2: real)
    requires stops.max > stops.min && m1 <= m2 && m1 != stops.min
    ensures DownFraction(stops, m1) <= DownFraction(stops, m2)
  {
    SlowFactor(stops, m1);
    SlowFactor(stops, m2);
    if m2 < stops.SlowBelow() && m1 > stops.min {
      ZoneMonotone(stops.SlowBelow() - m2, stops.SlowBelow() - m1, stops.Deadband());
    }
  }

  /** The lower the pitch, the less of a downward drive gets through, except exactly on the limit. */
  lemma DownwardDriveFalls(stops: EndStops, m1: real, m2: real, pitch: real, speed: real)
    requires speed >= 0.0 && stops.max > stops.min && 0.0 <= pitch <= speed && m1 <= m2
    ensures m1 != stops.min ==> LimitPitch(stops, m1, pitch, speed) <= LimitPitch(stops, m2, pitch, speed)
    ensures LimitPitch(stops, stops.min, pitch, speed) == pitch
  {
    hide LimitPitch, DownFraction;
    DownwardDrive(stops, m1, pitch, speed);
    DownwardDrive(stops, m2, pitch, speed);
    OnALimit(stops, pitch, speed);
    if m1 != stops.min {
      DownFractionFalls(stops, m1, m2);
      var (f, g) := (DownFraction(stops, m1), DownFraction(stops, m2));
      ScaledOrder(speed, g, f);
      CutOrder(pitch, speed * f, speed * g);
    }
  }

  // ----- the slow zones, in the limits alone

  /** The share of the speed left at a fraction `x` of the travel away from a limit, in a zone of fraction
      `zone`; beyond the limit there is none. */
  function Share(x: real, zone: real): real
    requires zone > 0.0
  {
    if x < 0.0 then 0.0 else if x < zone then x / zone else 1.0
  }

  /** The same at the distance `r` from the limit, the way the source computes it. */
  function AtDistance(r: real, zone: real): real
    requires zone > 0.0
  {
    if r < 0.0 then 0.0 else if r < zone then 1.0 - (zone - r) / zone else 1.0
  }

  lemma ShareAtDistance(x: real, zone: real, travel: real, r: real, whole: real)
    requires zone > 0.0 && travel > 0.0 && x != 0.0 && r == x * travel && whole == zone * travel
    ensures whole > 0.0 && r != 0.0 && AtDistance(r, whole) == Share(x, zone)
  {
    OffsetOrder(x, zone, travel);
    if 0.0 < x < zone {
      ShareOfZone(x, zone, travel, r, whole);
    }
  }

  lemma UpFractionIsShare(stops: EndStops, x: real)
    requires stops.max > stops.min && x != 0.0
    ensures UpFraction(stops, stops.max - x * (stops.max - stops.min)) == Share(x, 0.3)
  {
    var travel := stops.max - stops.min;
    hide UpFraction, Share, AtDistance;
    var (r, whole) := (x * travel, 0.3 * travel);
    ShareAtDistance(x, 0.3, travel, r, whole);
    UpFractionAt(stops, r, whole);
  }

  /** At the distance `r` from the upper limit. */
  lemma UpFractionAt(stops: EndStops, r: real, whole: real)
    requires stops.max > stops.min && r != 0.0 && whole == 0.3 * (stops.max - stops.min)
    ensures UpFraction(stops, stops.max - r) == AtDistance(r, whole)
  {
    assert stops.Deadband() * 2.0 == 0.3 * (stops.max - stops.min);
  }

  lemma DownFractionAt(stops: EndStops, r: real, whole: real)
    requires stops.max > stops.min && r != 0.0 && whole == 0.15 * (stops.max - stops.min)
    ensures DownFraction(stops, stops.min + r) == AtDistance(r, whole)
  {
    assert stops.Deadband() == 0.15 * (stops.max - stops.min);
  }

  lemma OffsetOrder(x: real, zone: real, travel: real)
    requires travel > 0.0
    ensures x > 0.0 <==> x * travel > 0.0
    ensures x < 0.0 <==> x * travel < 0.0
    ensures x < zone <==> x * travel < zone * travel
  {
    MulMonotone(travel, x, 0.0);
    MulMonotone(travel, 0.0, x);
    MulMonotone(travel, zone, x);
    MulMonotone(travel, x, zone);
  }

  lemma ShareOfZone(x: real, zone: real, travel: real, r: real, whole: real)
    requires 0.0 < x < zone && travel > 0.0 && r == x * travel && whole == zone * travel
    ensures whole > 0.0 && 1.0 - (whole - r) / whole == x / zone
  {
    var q := x / zone;
    QuotientTimesDivisor(x, zone);
    assert whole * q == r;
    QuotientTimesDivisor(whole - r, whole);
    SameFactor(whole, (whole - r) / whole, 1.0 - q);
  }

  lemma DownFractionIsShare(stops: EndStops, x: real)
    requires stops.max > stops.min && x != 0.0
    ensures DownFraction(stops, stops.min + x * (stops.max - stops.min)) == Share(x, 0.15)
  {
    var travel := stops.max - stops.min;
    hide DownFraction, Share, AtDistance;
    var (r, whole) := (x * travel, 0.15 * travel);
    ShareAtDistance(x, 0.15, travel, r, whole);
    DownFractionAt(stops, r, whole);
  }

  lemma ShareIsShare(x: real, zone: real)
    requires zone > 0.0
    ensures 0.0 <= Share(x, zone) <= 1.0
  {
    if 0.0 < x < zone {
      FractionOfZone(x, zone);
    }
  }

  /** A demand that is held, before it is cut to the speed: what the end stops make of it. */
  lemma HeldUpward(stops: EndStops, measured: real, demand: real, speed: real)
    requires speed >= 0.0 && stops.max > stops.min && demand <= 0.0 && 0.0 <= UpFraction(stops, measured) <= 1.0
    ensures Constrain(LimitPitch(stops, measured, demand, speed), -speed, speed) == Max(demand, -(speed * UpFraction(stops, measured)))
  {
    SlowFactor(stops, measured);
    ScaledSpeed(speed, UpFraction(stops, measured));
    if measured < stops.SlowBelow() && measured > stops.min {
      ScaledSpeed(speed, 1.0 - (stops.SlowBelow() - measured) / stops.Deadband());
    }
  }

  lemma HeldDownward(stops: EndStops, measured: real, demand: real, speed: real)
    requires speed >= 0.0 && stops.max > stops.min && demand >= 0.0 && 0.0 <= DownFraction(stops, measured) <= 1.0
    ensures Constrain(LimitPitch(stops, measured, demand, speed), -speed, speed) == Min(demand, speed * DownFraction(stops, measured))
  {
    SlowFactor(stops, measured);
    ScaledSpeed(speed, DownFraction(stops, measured));
    if measured > stops.SlowAbove() && measured < stops.max {
      ScaledSpeed(speed, 1.0 - (measured - stops.SlowAbove()) / (stops.Deadband() * 2.0));
    }
  }

  /** An upward demand that is held, at a fraction `x` of the travel below the upper limit: up to three tenths
      of the travel it gets through no faster than speed * x / 0.3, which falls to nothing at the limit, and
      from there on no faster than the speed. */
  lemma UpperZone(stops: EndStops, x: real, demand: real, rates: Rates)
    requires stops.max > stops.min && x != 0.0 && -1.0 <= demand <= 0.0 && rates.speed >= 0.0
    ensures NextPitch(stops, stops.max - x * (stops.max - stops.min), demand, demand, rates)
         == Max(demand, -(rates.speed * (if x < 0.0 then 0.0 else if x < 0.3 then x / 0.3 else 1.0)))
  {
    var measured := stops.max - x * (stops.max - stops.min);
    UpFractionIsShare(stops, x);
    ShareIsShare(x, 0.3);
    assert Slew(demand, Constrain(demand, -1.0, 1.0), rates.acc) == demand;
    hide UpFraction, LimitPitch, Slew;
    HeldUpward(stops, measured, demand, rates.speed);
  }

  /** A downward demand above the lower limit: the zone is half as long. */
  lemma LowerZone(stops: EndStops, x: real, demand: real, rates: Rates)
    requires stops.max > stops.min && x != 0.0 && 0.0 <= demand <= 1.0 && rates.speed >= 0.0
    ensures NextPitch(stops, stops.min + x * (stops.max - stops.min), demand, demand, rates)
         == Min(demand, rates.speed * (if x < 0.0 then 0.0 else if x < 0.15 then x / 0.15 else 1.0))
  {
    var measured := stops.min + x * (stops.max - stops.min);
    DownFractionIsShare(stops, x);
    ShareIsShare(x, 0.15);
    assert Slew(demand, Constrain(demand, -1.0, 1.0), rates.acc) == demand;
    hide DownFraction, LimitPitch, Slew;
    HeldDownward(stops, measured, demand, rates.speed);
  }

  /** Outside both slow zones. */
  predicate MidTravel(stops: EndStops, measured: real) {
    && stops.max > stops.min
    && stops.min + 0.15 * (stops.max - stops.min) <= measured <= stops.max - 0.3 * (stops.max - stops.min)
  }

  lemma MidTravelIsFree(stops: EndStops, measured: real, pitch: real, speed: real)
    requires MidTravel(stops, measured)
    ensures LimitPitch(stops, measured, pitch, speed) == pitch
  {
  }

  // ----- slewing

  /** `k` steps towards a constant demand. */
  function SlewSteps(out: real, demand: real, acc: real, k: nat): real
    decreases k
  {
    if k == 0 then out else Slew(SlewSteps(out, demand, acc, k - 1), demand, acc)
  }

  /** How far the output can have moved after `k` ticks. */
  function Reach(acc: real, k: nat): real {
    k as real * (acc * DT)
  }

  lemma ReachGrows(acc: real, k: nat)
    requires acc >= 0.0
    ensures Reach(acc, 0) == 0.0 && Reach(acc, k) >= 0.0 && Reach(acc, k + 1) == Reach(acc, k) + acc * DT
  {
    var step := acc * DT;
    assert (k + 1) as real * step == k as real * step + step;
  }

  /** The straight line the output follows, cut off at the demand. */
  function Line(out: real, demand: real, distance: real): real {
    if out <= demand then Min(demand, out + distance) else Max(demand, out - distance)
  }

  lemma SlewAlongLine(out: real, demand: real, acc: real, distance: real)
    requires acc >= 0.0 && distance >= 0.0
    ensures Slew(Line(out, demand, distance), demand, acc) == Line(out, demand, distance + acc * DT)
  {
  }

  /** The limiter goes to a constant demand in a straight line, at acc * DT a step, without overshoot. */
  lemma {:induction false} SlewIsLine(out: real, demand: real, acc: real, k: nat)
    requires acc >= 0.0
    ensures SlewSteps(out, demand, acc, k) == Line(out, demand, Reach(acc, k))
    decreases k
  {
    hide Reach, Slew;
    if k > 0 {
      SlewIsLine(out, demand, acc, k - 1);
      ReachGrows(acc, k - 1);
      SlewAlongLine(out, demand, acc, Reach(acc, k - 1));
    } else {
      ReachGrows(acc, 0);
    }
  }

  /** It is at the demand after `k` steps if and only if k * acc * DT covers the distance. */
  lemma SlewArrives(out: real, demand: real, acc: real, k: nat)
    requires acc >= 0.0
    ensures SlewSteps(out, demand, acc, k) == demand <==> Reach(acc, k) >= Abs(demand - out)
  {
    hide Reach;
    ReachGrows(acc, k);
    SlewIsLine(out, demand, acc, k);
  }

  /** `k` ticks of the yaw channel, and of the pitch channel at a fixed measured pitch. */
  function YawSteps(out: real, demand: real, rates: Rates, k: nat): real
    decreases k
  {
    if k == 0 then out else NextYaw(YawSteps(out, demand, rates, k - 1), demand, rates)
  }

  function PitchSteps(stops: EndStops, measured: real, out: real, demand: real, rates: Rates, k: nat): real
    decreases k
  {
    if k == 0 then out
    else NextPitch(stops, measured, PitchSteps(stops, measured, out, demand, rates, k - 1), demand, rates)
  }

  lemma LineBetween(out: real, demand: real, distance: real, bound: real)
    requires distance >= 0.0 && -bound <= out <= bound && -bound <= demand <= bound
    ensures -bound <= Line(out, demand, distance) <= bound
  {
  }

  /** A demand within the limits is followed: the stages after the slew limiter change nothing. */
  predicate Feasible(rates: Rates, value: real) {
    -1.0 <= value <= 1.0 && -rates.speed <= value <= rates.speed
  }

  lemma NextIsSlew(stops: EndStops, measured: real, out: real, demand: real, rates: Rates)
    requires MidTravel(stops, measured)
    requires Feasible(rates, demand) && -rates.speed <= Slew(out, demand, rates.acc) <= rates.speed
    ensures NextYaw(out, demand, rates) == Slew(out, demand, rates.acc)
    ensures NextPitch(stops, measured, out, demand, rates) == Slew(out, demand, rates.acc)
  {
    hide Slew;
  }

  /** A feasible demand, from a feasible output, is approached in exactly that line on both channels,
      on pitch as long as the crane is outside the slow zones. */
  lemma {:induction false} FeasibleDemandFollowsLine(stops: EndStops, measured: real, out: real, demand: real, rates: Rates, k: nat)
    requires rates.acc >= 0.0 && MidTravel(stops, measured)
    requires Feasible(rates, demand) && -rates.speed <= out <= rates.speed
    ensures YawSteps(out, demand, rates, k) == Line(out, demand, Reach(rates.acc, k))
    ensures PitchSteps(stops, measured, out, demand, rates, k) == Line(out, demand, Reach(rates.acc, k))
    decreases k
  {
    hide Reach, Line, Slew, NextYaw, NextPitch;
    if k > 0 {
      FeasibleDemandFollowsLine(stops, measured, out, demand, rates, k - 1);
      ReachGrows(rates.acc, k - 1);
      SlewAlongLine(out, demand, rates.acc, Reach(rates.acc, k - 1));
      LineBetween(out, demand, Reach(rates.acc, k), rates.speed);
      NextIsSlew(stops, measured, Line(out, demand, Reach(rates.acc, k - 1)), demand, rates);
    } else {
      SlewIsLine(out, demand, rates.acc, 0);
    }
  }

  /** What a demand can reach: full scale, and the speed. */
  function Reachable(demand: real, speed: real): real {
    Constrain(Constrain(demand, -1.0, 1.0), -speed, speed)
  }

  lemma SlewThenCut(out: real, demand: real, rates: Rates, distance: real)
    requires rates.acc >= 0.0 && rates.speed >= 0.0 && distance >= 0.0 && -rates.speed <= out <= rates.speed
    ensures var c := Reachable(demand, rates.speed);
            Constrain(Slew(Line(out, c, distance), Constrain(demand, -1.0, 1.0), rates.acc), -rates.speed, rates.speed)
            == Line(out, c, distance + rates.acc * DT)
  {
    var step := rates.acc * DT;
    assert step >= 0.0;
  }

  /** Any demand is approached in a straight line, at acc * DT a tick, as far as the speed allows; on pitch
      outside the slow zones. */
  lemma NextOnLine(stops: EndStops, measured: real, out: real, demand: real, rates: Rates, distance: real)
    requires rates.acc >= 0.0 && rates.speed >= 0.0 && distance >= 0.0 && -rates.speed <= out <= rates.speed
    ensures var c := Reachable(demand, rates.speed);
            && NextYaw(Line(out, c, distance), demand, rates) == Line(out, c, distance + rates.acc * DT)
            && (MidTravel(stops, measured) ==>
                  NextPitch(stops, measured, Line(out, c, distance), demand, rates) == Line(out, c, distance + rates.acc * DT))
  {
    SlewThenCut(out, demand, rates, distance);
    hide Slew, Line, Reachable, MidTravel, LimitPitch;
    var c := Reachable(demand, rates.speed);
    if MidTravel(stops, measured) {
      MidTravelIsFree(stops, measured, Slew(Line(out, c, distance), Constrain(demand, -1.0, 1.0), rates.acc), rates.speed);
    }
  }

  // ----- every run

  /** One tick's demands, rates and measured pitch. */
  datatype Command = Command(measured: real, pitch: real, yaw: real, pitchRates: Rates, yawRates: Rates)

  predicate Sensible(rates: Rates) {
    rates.speed >= 0.0 && rates.acc >= 0.0
  }

  function DrivenPitch(stops: EndStops, out: real, commands: seq<Command>): real
    decreases |commands|
  {
    if commands == [] then out
    else DrivenPitch(stops, NextPitch(stops, commands[0].measured, out, commands[0].pitch, commands[0].pitchRates), commands[1..])
  }

  function DrivenYaw(out: real, commands: seq<Command>): real
    decreases |commands|
  {
    if commands == [] then out else DrivenYaw(NextYaw(out, commands[0].yaw, commands[0].yawRates), commands[1..])
  }

  lemma SlewBetween(out: real, demand: real, acc: real)
    requires acc >= 0.0
    ensures out <= demand ==> out <= Slew(out, demand, acc) <= demand
    ensures out >= demand ==> demand <= Slew(out, demand, acc) <= out
    ensures Abs(Slew(out, demand, acc) - out) <= acc * DT
  {
    assert acc * DT >= 0.0;
  }

  /** Both outputs stay within [-1, 1] on every run, whatever is demanded. */
  lemma {:induction false} OutputsStayInUnit(stops: EndStops, pitch: real, yaw: real, commands: seq<Command>)
    requires -1.0 <= pitch <= 1.0 && -1.0 <= yaw <= 1.0
    requires forall c :: c in commands ==> Sensible(c.pitchRates) && Sensible(c.yawRates)
    ensures -1.0 <= DrivenPitch(stops, pitch, commands) <= 1.0
    ensures -1.0 <= DrivenYaw(yaw, commands) <= 1.0
    decreases |commands|
  {
    if commands != [] {
      var c := commands[0];
      var (dp, dy) := (Constrain(c.pitch, -1.0, 1.0), Constrain(c.yaw, -1.0, 1.0));
      SlewBetween(pitch, dp, c.pitchRates.acc);
      SlewBetween(yaw, dy, c.yawRates.acc);
      hide Slew, LimitPitch;
      var slewed := Slew(pitch, dp, c.pitchRates.acc);
      EndStopDamps(stops, c.measured, slewed, c.pitchRates.speed);
      ConstrainAroundZero(LimitPitch(stops, c.measured, slewed, c.pitchRates.speed), -c.pitchRates.speed, c.pitchRates.speed);
      OutputsStayInUnit(stops, NextPitch(stops, c.measured, pitch, c.pitch, c.pitchRates),
                        NextYaw(yaw, c.yaw, c.yawRates), commands[1..]);
    }
  }

  /** With a speed limit the output already respects, no demand changes the yaw output by more than
      acc * DT in one tick. */
  lemma YawSlewBounded(out: real, demand: real, rates: Rates)
    requires rates.acc >= 0.0 && -rates.speed <= out <= rates.speed
    ensures Abs(NextYaw(out, demand, rates) - out) <= rates.acc * DT
  {
    SlewBetween(out, Constrain(demand, -1.0, 1.0), rates.acc);
  }
}
