/** Trapezoidal and triangular motion profiles: planning a move and sampling it. */
module MotionProfile {
  import opened MathLib

  datatype Phase = Uninitialized | Completed | Accelerating | Cruising | Decelerating

  /** All fields of `struct motion_profile`. */
  datatype Profile = Profile(
    acc: real, dec: real, vmax: real, sign: real,
    t1: real, t2: real, t3: real,
    d1: real, d2: real, d3: real,
    v1: real, v2: real, v3: real,
    totalTime: real, totalDistance: real, startPosition: real,
    planned: bool, phase: Phase)

  datatype Sample = Sample(pos: real, vel: real, acc: real, phase: Phase)

  /** A set point: position, velocity and acceleration. */
  datatype Pva = Pva(pos: real, vel: real, acc: real)

  const ZERO := Profile(0.0, 0.0, 0.0, 0.0, 0.0, 0.0, 0.0, 0.0, 0.0, 0.0, 0.0, 0.0, 0.0, 0.0, 0.0, 0.0, false, Uninitialized)

  /** What the planner is asked to do. */
  datatype Move = Move(dstart: real, vstart: real, dend: real, vend: real) {
    function Sign(): real {
      if dend >= dstart then 1.0 else -1.0
    }
    function Distance(): real {
      dend - dstart
    }
  }

  function Init(acc: real, speed: real, dec: real): Profile {
    ZERO.(acc := Abs(acc), vmax := Abs(speed), dec := Abs(dec), sign := 1.0)
  }

  /** The argument of the planner's square root, with signed limits `a` and `d`. */
  function Radicand(a: real, d: real, m: Move): real {
    (a + d) * (2.0 * a * d * m.Distance() + a * m.vend * m.vend + d * m.vstart * m.vstart)
  }

  /** The three durations when the speed limit does not matter. */
  function TriangularTimes(a: real, d: real, m: Move, root: real): (real, real, real)
    requires a != 0.0 && d != 0.0 && a + d != 0.0
  {
    ((-m.vend * (a + d) + root + (a + d) * (m.vend - m.vstart)) / (a * (a + d)),
     0.0,
     (-m.vend * (a + d) + root) / (d * (a + d)))
  }

  /** The three durations of a move that cruises at `v`. */
  function CruisingTimes(a: real, d: real, v: real, m: Move): (real, real, real)
    requires a != 0.0 && d != 0.0 && v != 0.0
  {
    ((v - m.vstart) / a,
     (2.0 * a * d * m.Distance() + a * m.vend * m.vend - a * v * v - d * v * v + d * m.vstart * m.vstart) / (2.0 * a * d * v),
     -(m.vend - v) / d)
  }

  /** Accelerations and a speed limit that are not zero, as `motion_profile_init` leaves them. */
  predicate Limited(p: Profile) {
    p.acc > 0.0 && p.dec > 0.0 && p.vmax > 0.0
  }

  /** The speed after accelerating for the time `t`. */
  function SpeedAfter(a: real, m: Move, t: real): real {
    m.vstart + a * t
  }

  /** Whether the triangular move with signed limits would pass the speed limit. */
  predicate SpeedLimited(a: real, d: real, v: real, m: Move, root: real)
    requires a != 0.0 && d != 0.0 && a + d != 0.0
  {
    Abs(SpeedAfter(a, m, TriangularTimes(a, d, m, root).0)) > Abs(v)
  }

  function Times(a: real, d: real, v: real, m: Move, root: real): (real, real, real)
    requires a != 0.0 && d != 0.0 && a + d != 0.0 && v != 0.0
  {
    if SpeedLimited(a, d, v, m, root) then CruisingTimes(a, d, v, m) else TriangularTimes(a, d, m, root)
  }

  function Fill(p: Profile, a: real, d: real, m: Move, t: (real, real, real)): Profile {
    var v2 := m.vstart + a * t.0;
    var d1 := m.vstart * t.0 + a * t.0 * t.0 / 2.0;
    var d2 := v2 * t.1;
    var d3 := m.vend * t.2 + d * t.2 * t.2 / 2.0;
    p.(sign := m.Sign(), t1 := t.0, t2 := t.1, t3 := t.2, v1 := m.vstart, v2 := v2, v3 := m.vend,
       d1 := d1, d2 := d2, d3 := d3, totalTime := t.0 + t.1 + t.2, totalDistance := d1 + d2 + d3,
       startPosition := m.dstart, planned := true)
  }

  /** `motion_profile_plan_move`; `root` is the value of its square root. */
  function Plan(p: Profile, m: Move, root: real): Profile
    requires Limited(p)
  {
    var (a, d, v) := (m.Sign() * p.acc, m.Sign() * p.dec, m.Sign() * p.vmax);
    Fill(p, a, d, m, Times(a, d, v, m, root))
  }

  function PlanWith(lib: Libm, p: Profile, m: Move): Profile
    requires Limited(p)
  {
    Plan(p, m, lib.sqrt(Radicand(m.Sign() * p.acc, m.Sign() * p.dec, m)))
  }

  // ----- what a plan achieves

  lemma DivideOut(x: real, y: real, z: real)
    requires y != 0.0
    ensures z == x / y <==> y * z == x
  {
  }

  /** In the triangular case the peak speed is root / (a + d). */
  lemma TriangularEquations(a: real, d: real, m: Move, root: real)
    requires a != 0.0 && d != 0.0 && a + d != 0.0
    ensures var (t1, t2, t3) := TriangularTimes(a, d, m, root);
            var v2 := m.vstart + a * t1;
            (a + d) * v2 == root && v2 - d * t3 == m.vend
  {
    var (t1, t2, t3) := TriangularTimes(a, d, m, root);
    var s := a + d;
    DivideOut(-m.vend * s + root + s * (m.vend - m.vstart), a * s, t1);
    DivideOut(-m.vend * s + root, d * s, t3);
    assert a * s * t1 == root - s * m.vstart;
    assert s * (m.vstart + a * t1) == root;
    assert s * (d * t3) == root - s * m.vend;
    assert s * (m.vstart + a * t1 - d * t3 - m.vend) == 0.0;
  }

  lemma CruisingEquations(a: real, d: real, v: real, m: Move)
    requires a != 0.0 && d != 0.0 && v != 0.0
    ensures var (t1, t2, t3) := CruisingTimes(a, d, v, m);
            m.vstart + a * t1 == v && v - d * t3 == m.vend
            && 2.0 * a * d * (v * t2)
               == 2.0 * a * d * m.Distance() + a * m.vend * m.vend + d * m.vstart * m.vstart - (a + d) * (v * v)
  {
    var (t1, t2, t3) := CruisingTimes(a, d, v, m);
    DivideOut(v - m.vstart, a, t1);
    DivideOut(-(m.vend - v), d, t3);
    var n := 2.0 * a * d * m.Distance() + a * m.vend * m.vend - a * v * v - d * v * v + d * m.vstart * m.vstart;
    DivideOut(n, 2.0 * a * d * v, t2);
    assert 2.0 * a * d * v * t2 == 2.0 * a * d * (v * t2);
    assert (a + d) * (v * v) == a * v * v + d * v * v;
  }

  /** The two ramps cover what the change of speed says. */
  lemma RampDistances(a: real, d: real, v1: real, v2: real, v3: real, t1: real, t3: real)
    requires v2 == v1 + a * t1 && v3 == v2 - d * t3
    ensures 2.0 * a * (v1 * t1 + a * t1 * t1 / 2.0) == v2 * v2 - v1 * v1
    ensures 2.0 * d * (v3 * t3 + d * t3 * t3 / 2.0) == v2 * v2 - v3 * v3
  {
  }

  lemma CancelFactor(c: real, x: real, y: real)
    requires c != 0.0 && c * x == c * y
    ensures x == y
  {
  }

  lemma SumOfRamps(a: real, d: real, v1: real, v2: real, v3: real, d1: real, d2: real, d3: real, dist: real)
    requires a != 0.0 && d != 0.0
    requires 2.0 * a * d1 == v2 * v2 - v1 * v1 && 2.0 * d * d3 == v2 * v2 - v3 * v3
    requires 2.0 * a * d * d2 == 2.0 * a * d * dist + a * v3 * v3 + d * v1 * v1 - (a + d) * (v2 * v2)
    ensures d1 + d2 + d3 == dist
  {
    assert 2.0 * a * d * d1 == d * (2.0 * a * d1);
    assert 2.0 * a * d * d3 == a * (2.0 * d * d3);
    var c := 2.0 * a * d;
    assert c * (d1 + d2 + d3) == c * d1 + c * d2 + c * d3;
    CancelFactor(c, d1 + d2 + d3, dist);
  }

  lemma SignedLimits(p: Profile, m: Move)
    requires Limited(p)
    ensures var (a, d, v) := (m.Sign() * p.acc, m.Sign() * p.dec, m.Sign() * p.vmax);
            a != 0.0 && d != 0.0 && v != 0.0 && a + d != 0.0
  {
  }

  /** The planner never takes the root of a negative number. */
  lemma LibraryRoot(lib: Libm, p: Profile, m: Move)
    requires lib.Valid() && Limited(p)
    ensures IsRoot(p, m, lib.sqrt(Radicand(m.Sign() * p.acc, m.Sign() * p.dec, m)))
  {
    RadicandNonNegative(p, m);
    hide Radicand;
  }

  lemma RadicandNonNegative(p: Profile, m: Move)
    requires Limited(p)
    ensures Radicand(m.Sign() * p.acc, m.Sign() * p.dec, m) >= 0.0
    ensures Radicand(m.Sign() * p.acc, m.Sign() * p.dec, m)
         == (p.acc + p.dec) * (2.0 * p.acc * p.dec * Abs(m.Distance()) + p.acc * (m.vend * m.vend) + p.dec * (m.vstart * m.vstart))
  {
    var s := m.Sign();
    var (x, y) := (p.acc * (m.vend * m.vend), p.dec * (m.vstart * m.vstart));
    assert m.vend * m.vend >= 0.0 && m.vstart * m.vstart >= 0.0;
    assert x >= 0.0 && y >= 0.0;
    var z := 2.0 * p.acc * p.dec * Abs(m.Distance());
    assert p.acc * p.dec > 0.0;
    assert z >= 0.0;
    assert Radicand(s * p.acc, s * p.dec, m) == (p.acc + p.dec) * (z + x + y);
    assert (p.acc + p.dec) * (z + x + y) >= 0.0;
  }

  ghost predicate IsRoot(p: Profile, m: Move, root: real) {
    root >= 0.0 && root * root == Radicand(m.Sign() * p.acc, m.Sign() * p.dec, m)
  }

  /** The peak of a triangular move, from energy. */
  lemma PeakSquared(a: real, d: real, m: Move, root: real, v2: real)
    requires a + d != 0.0 && (a + d) * v2 == root && root * root == Radicand(a, d, m)
    ensures (a + d) * (v2 * v2) == 2.0 * a * d * m.Distance() + a * m.vend * m.vend + d * m.vstart * m.vstart
  {
    var e := 2.0 * a * d * m.Distance() + a * m.vend * m.vend + d * m.vstart * m.vstart;
    assert (a + d) * ((a + d) * (v2 * v2)) == root * root == (a + d) * e;
    CancelFactor(a + d, (a + d) * (v2 * v2), e);
  }

  lemma TotalDistance(a: real, d: real, v1: real, v2: real, v3: real, t1: real, t2: real, t3: real, dist: real)
    requires a != 0.0 && d != 0.0 && v2 == v1 + a * t1 && v3 == v2 - d * t3
    requires 2.0 * a * d * (v2 * t2) == 2.0 * a * d * dist + a * v3 * v3 + d * v1 * v1 - (a + d) * (v2 * v2)
    ensures v1 * t1 + a * t1 * t1 / 2.0 + v2 * t2 + (v3 * t3 + d * t3 * t3 / 2.0) == dist
  {
    RampDistances(a, d, v1, v2, v3, t1, t3);
    SumOfRamps(a, d, v1, v2, v3, v1 * t1 + a * t1 * t1 / 2.0, v2 * t2, v3 * t3 + d * t3 * t3 / 2.0, dist);
  }

  /** The equations both branches solve: the speeds meet, and so do the distances (times 2ad). */
  ghost predicate Solves(a: real, d: real, m: Move, t: (real, real, real)) {
    var v2 := m.vstart + a * t.0;
    && v2 - d * t.2 == m.vend
    && 2.0 * a * d * (v2 * t.1) == 2.0 * a * d * m.Distance() + a * m.vend * m.vend + d * m.vstart * m.vstart
                                   - (a + d) * (v2 * v2)
  }

  /** The speed at the end of the first phase. */
  ghost predicate Peaks(a: real, d: real, v: real, m: Move, root: real, t: (real, real, real))
    requires a != 0.0 && d != 0.0 && a + d != 0.0
  {
    var v2 := SpeedAfter(a, m, t.0);
    if SpeedLimited(a, d, v, m, root) then v2 == v else t.1 == 0.0 && (a + d) * v2 == root
  }

  lemma CruisingSolves(a: real, d: real, v: real, m: Move)
    requires a != 0.0 && d != 0.0 && v != 0.0
    ensures var t := CruisingTimes(a, d, v, m); m.vstart + a * t.0 == v && Solves(a, d, m, t)
  {
    CruisingEquations(a, d, v, m);
    hide CruisingTimes;
  }

  lemma SolvesWithoutCruise(a: real, d: real, m: Move, t: (real, real, real), v2: real)
    requires t.1 == 0.0 && v2 == m.vstart + a * t.0 && v2 - d * t.2 == m.vend
    requires (a + d) * (v2 * v2) == 2.0 * a * d * m.Distance() + a * m.vend * m.vend + d * m.vstart * m.vstart
    ensures Solves(a, d, m, t)
  {
    assert v2 * t.1 == 0.0;
  }

  lemma TriangularSolves(a: real, d: real, m: Move, root: real)
    requires a != 0.0 && d != 0.0 && a + d != 0.0 && root * root == Radicand(a, d, m)
    ensures var t := TriangularTimes(a, d, m, root);
            t.1 == 0.0 && (a + d) * (m.vstart + a * t.0) == root && Solves(a, d, m, t)
  {
    var t := TriangularTimes(a, d, m, root);
    assert t.1 == 0.0;
    TriangularEquations(a, d, m, root);
    hide TriangularTimes, Radicand, Solves;
    var v2 := m.vstart + a * t.0;
    PeakSquared(a, d, m, root, v2);
    SolvesWithoutCruise(a, d, m, t, v2);
  }

  lemma TimesSolve(a: real, d: real, v: real, m: Move, root: real)
    requires a != 0.0 && d != 0.0 && a + d != 0.0 && v != 0.0 && root * root == Radicand(a, d, m)
    ensures var t := Times(a, d, v, m, root); Solves(a, d, m, t) && Peaks(a, d, v, m, root, t)
  {
    hide CruisingTimes, TriangularTimes, Radicand, SpeedLimited, Solves;
    if SpeedLimited(a, d, v, m, root) {
      CruisingSolves(a, d, v, m);
    } else {
      TriangularSolves(a, d, m, root);
    }
  }

  /** The speeds of the profile meet at the phase boundaries and it covers `distance`. */
  ghost predicate Covers(p: Profile, distance: real) {
    && p.v2 == p.v1 + p.sign * p.acc * p.t1
    && p.v3 == p.v2 - p.sign * p.dec * p.t3
    && p.d1 == p.v1 * p.t1 + p.sign * p.acc * p.t1 * p.t1 / 2.0
    && p.d2 == p.v2 * p.t2
    && p.d3 == p.v3 * p.t3 + p.sign * p.dec * p.t3 * p.t3 / 2.0
    && p.totalTime == p.t1 + p.t2 + p.t3
    && p.totalDistance == p.d1 + p.d2 + p.d3 == distance
  }

  lemma FilledCovers(p: Profile, a: real, d: real, m: Move, t: (real, real, real))
    requires a != 0.0 && d != 0.0 && Solves(a, d, m, t) && a == m.Sign() * p.acc && d == m.Sign() * p.dec
    ensures Covers(Fill(p, a, d, m, t), m.Distance())
  {
    hide Move.Sign, Move.Distance;
    TotalDistance(a, d, m.vstart, m.vstart + a * t.0, m.vend, t.0, t.1, t.2, m.Distance());
  }

  /** In both branches, for any start and end velocity and either direction, the planned move covers
      exactly the requested distance and ends at the requested velocity. */
  lemma PlanReachesTarget(p: Profile, m: Move, root: real)
    requires Limited(p) && IsRoot(p, m, root)
    ensures var q := Plan(p, m, root);
            Covers(q, m.dend - m.dstart) && q.v1 == m.vstart && q.v3 == m.vend && q.startPosition == m.dstart
  {
    var (a, d, v) := (m.Sign() * p.acc, m.Sign() * p.dec, m.Sign() * p.vmax);
    SignedLimits(p, m);
    hide Move.Sign, Radicand, Solves, Peaks, Times, Covers;
    TimesSolve(a, d, v, m, root);
    FilledCovers(p, a, d, m, Times(a, d, v, m, root));
  }

  // ----- when the planned durations make sense

  /** Twice the energy the move needs, weighted by the limits; it fixes the peak of a triangular move. */
  function Energy(acc: real, dec: real, dist: real, u: real, w: real): real {
    2.0 * acc * dec * dist + acc * (w * w) + dec * (u * u)
  }

  function EnergyOf(p: Profile, m: Move): real {
    Energy(p.acc, p.dec, Abs(m.Distance()), m.vstart, m.vend)
  }

  /** `e` is the energy of a triangular move with this peak speed. */
  predicate IsPeak(acc: real, dec: real, peak: real, e: real) {
    peak >= 0.0 && (acc + dec) * (peak * peak) == e
  }

  /** The move is long enough to reach the speed limit. */
  predicate Fast(p: Profile, m: Move) {
    EnergyOf(p, m) > (p.acc + p.dec) * (p.vmax * p.vmax)
  }

  lemma ScaledOrder(c: real, x: real, y: real)
    requires c > 0.0
    ensures x <= y <==> c * x <= c * y
  {
    MulMonotone(c, x, y);
  }

  /** The planner's root gives the peak speed along the direction of travel. */
  lemma PeakFromRoot(p: Profile, m: Move, root: real, v2: real)
    requires Limited(p) && IsRoot(p, m, root) && (m.Sign() * p.acc + m.Sign() * p.dec) * v2 == root
    ensures IsPeak(p.acc, p.dec, m.Sign() * v2, EnergyOf(p, m))
  {
    var peak := m.Sign() * v2;
    var c := p.acc + p.dec;
    assert c * peak == root;
    ScaledOrder(c, 0.0, peak);
    RadicandNonNegative(p, m);
    var e := EnergyOf(p, m);
    assert root * root == c * e;
    assert c * (c * (peak * peak)) == (c * peak) * (c * peak);
    CancelFactor(c, c * (peak * peak), e);
  }

  lemma SignValue(m: Move)
    ensures m.Sign() == 1.0 || m.Sign() == -1.0
  {
  }

  /** The planner's test of the speed limit, without the root. */
  lemma SpeedLimitedIffFast(p: Profile, m: Move, root: real)
    requires Limited(p) && IsRoot(p, m, root)
    ensures m.Sign() * p.acc != 0.0 && m.Sign() * p.dec != 0.0 && m.Sign() * p.acc + m.Sign() * p.dec != 0.0
    ensures SpeedLimited(m.Sign() * p.acc, m.Sign() * p.dec, m.Sign() * p.vmax, m, root) <==> Fast(p, m)
  {
    hide *;
    SignedLimits(p, m);
    var (a, d, v) := (m.Sign() * p.acc, m.Sign() * p.dec, m.Sign() * p.vmax);
    var v2 := PeakVelocity(a, d, v, m, root);
    LimitIffFast(p, m, root, v2);
  }

  lemma PeakVelocity(a: real, d: real, v: real, m: Move, root: real) returns (v2: real)
    requires a != 0.0 && d != 0.0 && a + d != 0.0
    ensures (a + d) * v2 == root && (SpeedLimited(a, d, v, m, root) <==> Abs(v2) > Abs(v))
  {
    TriangularEquations(a, d, m, root);
    hide TriangularTimes, Abs;
    v2 := m.vstart + a * TriangularTimes(a, d, m, root).0;
  }

  lemma LimitIffFast(p: Profile, m: Move, root: real, v2: real)
    requires Limited(p) && IsRoot(p, m, root) && (m.Sign() * p.acc + m.Sign() * p.dec) * v2 == root
    ensures Abs(v2) > Abs(m.Sign() * p.vmax) <==> Fast(p, m)
  {
    hide Radicand, IsPeak, EnergyOf, Move.Sign, Abs;
    SignValue(m);
    PeakFromRoot(p, m, root, v2);
    LimitTest(m.Sign(), p, v2, EnergyOf(p, m));
  }

  lemma LimitTest(sign: real, p: Profile, v2: real, energy: real)
    requires (sign == 1.0 || sign == -1.0) && Limited(p) && IsPeak(p.acc, p.dec, sign * v2, energy)
    ensures Abs(v2) > Abs(sign * p.vmax) <==> energy > (p.acc + p.dec) * (p.vmax * p.vmax)
  {
    FasterIffSquares(p.acc + p.dec, sign * v2, p.vmax);
    assert Abs(v2) == sign * v2 && Abs(sign * p.vmax) == p.vmax;
  }

  lemma FasterIffSquares(c: real, x: real, y: real)
    requires c > 0.0 && x >= 0.0 && y >= 0.0
    ensures x > y <==> c * (x * x) > c * (y * y)
  {
    SquaresOrdered(x, y);
    ScaledOrder(c, x * x, y * y);
  }

  /** A ramp between two speeds takes non-negative time iff it goes the right way. */
  lemma RampTime(sign: real, limit: real, from: real, to: real, t: real)
    requires (sign == 1.0 || sign == -1.0) && limit > 0.0 && to == from + sign * limit * t
    ensures t >= 0.0 <==> sign * to >= sign * from
  {
    assert sign * (sign * limit * t) == limit * t;
    ScaledOrder(limit, 0.0, t);
  }

  /** Within `dist`, the limit `far` can turn `speed` into `other`. */
  predicate HasRoom(far: real, dist: real, speed: real, other: real) {
    speed <= 0.0 || speed * speed - other * other <= 2.0 * far * dist
  }

  /** Reaching the peak of a triangular move from `speed`, with `other` at the far end, takes
      non-negative time iff the ramp at the far end can absorb the difference. */
  lemma PeakReachable(near: real, far: real, dist: real, speed: real, other: real, peak: real)
    requires near > 0.0 && far > 0.0 && peak >= 0.0
    requires (near + far) * (peak * peak) == 2.0 * near * far * dist + near * (other * other) + far * (speed * speed)
    ensures peak >= speed <==> HasRoom(far, dist, speed, other)
  {
    if speed > 0.0 {
      SquaresOrdered(speed, peak);
      ScaledOrder(near + far, speed * speed, peak * peak);
      var gap := 2.0 * far * dist + other * other - speed * speed;
      assert (near + far) * (peak * peak) - (near + far) * (speed * speed) == near * gap;
      ScaledOrder(near, 0.0, gap);
    }
  }

  /** The moves the planner can do without negative durations: one that reaches the speed limit must
      neither start nor end above it, and one that does not must have room to change speed. */
  predicate Feasible(p: Profile, m: Move) {
    var (u, w) := (m.Sign() * m.vstart, m.Sign() * m.vend);
    if Fast(p, m) then u <= p.vmax && w <= p.vmax
    else
      && HasRoom(p.dec, Abs(m.Distance()), u, w)
      && HasRoom(p.acc, Abs(m.Distance()), w, u)
  }

  lemma CruiseTime(p: Profile, m: Move, t2: real, v2: real)
    requires Limited(p) && Fast(p, m) && v2 == m.Sign() * p.vmax
    requires var (a, d) := (m.Sign() * p.acc, m.Sign() * p.dec);
             2.0 * a * d * (v2 * t2) == 2.0 * a * d * m.Distance() + a * m.vend * m.vend + d * m.vstart * m.vstart
                                        - (a + d) * (v2 * v2)
    ensures t2 >= 0.0
  {
    var c := 2.0 * p.acc * p.dec * p.vmax;
    assert c > 0.0 by { assert p.acc * p.dec > 0.0; }
    assert c * t2 == EnergyOf(p, m) - (p.acc + p.dec) * (p.vmax * p.vmax);
    ScaledOrder(c, 0.0, t2);
  }

  /** Both ramps of a triangular move, in unsigned quantities: speeds `u` and `w` along the move. */
  lemma RampsFeasible(acc: real, dec: real, dist: real, u: real, w: real, peak: real)
    requires acc > 0.0 && dec > 0.0 && IsPeak(acc, dec, peak, Energy(acc, dec, dist, u, w))
    ensures peak >= u <==> HasRoom(dec, dist, u, w)
    ensures peak >= w <==> HasRoom(acc, dist, w, u)
  {
    PeakReachable(acc, dec, dist, u, w, peak);
    assert 2.0 * dec * acc * dist == 2.0 * acc * dec * dist;
    PeakReachable(dec, acc, dist, w, u, peak);
  }

  lemma SignedEnergy(acc: real, dec: real, dist: real, sign: real, u: real, w: real)
    requires sign == 1.0 || sign == -1.0
    ensures Energy(acc, dec, dist, sign * u, sign * w) == Energy(acc, dec, dist, u, w)
  {
  }

  lemma TriangularFeasible(p: Profile, m: Move, root: real, t: (real, real, real), v2: real)
    requires Limited(p) && IsRoot(p, m, root) && !Fast(p, m)
    requires (m.Sign() * p.acc + m.Sign() * p.dec) * v2 == root
    requires v2 == m.vstart + m.Sign() * p.acc * t.0 && v2 == m.vend + m.Sign() * p.dec * t.2
    ensures t.0 >= 0.0 && t.2 >= 0.0 <==> Feasible(p, m)
  {
    hide Radicand, Energy, IsPeak, HasRoom, Move.Sign, Move.Distance, Abs, Fast;
    var (s, l) := (m.Sign(), Abs(m.Distance()));
    SignValue(m);
    PeakFromRoot(p, m, root, v2);
    RampTime(s, p.acc, m.vstart, v2, t.0);
    RampTime(s, p.dec, m.vend, v2, t.2);
    SignedEnergy(p.acc, p.dec, l, s, m.vstart, m.vend);
    RampsFeasible(p.acc, p.dec, l, s * m.vstart, s * m.vend, s * v2);
  }

  lemma TimesNonNegative(p: Profile, a: real, d: real, v: real, m: Move, root: real)
    requires Limited(p) && IsRoot(p, m, root) && a == m.Sign() * p.acc && d == m.Sign() * p.dec && v == m.Sign() * p.vmax
    requires a != 0.0 && d != 0.0 && a + d != 0.0 && v != 0.0 && root * root == Radicand(a, d, m)
    requires SpeedLimited(a, d, v, m, root) <==> Fast(p, m)
    ensures var t := Times(a, d, v, m, root); t.0 >= 0.0 && t.1 >= 0.0 && t.2 >= 0.0 <==> Feasible(p, m)
  {
    hide Radicand, Times, SpeedLimited, Solves, Move.Distance, Move.Sign, Fast, Feasible;
    TimesSolve(a, d, v, m, root);
    var t := Times(a, d, v, m, root);
    if Fast(p, m) {
      CruisingFeasible(p, m, t);
    } else {
      TriangularSpeeds(a, d, m, t);
      TriangularFeasible(p, m, root, t, m.vstart + a * t.0);
    }
  }

  /** All three durations are non-negative exactly for the feasible moves, in both branches, for any
      start and end velocity and either direction. */
  lemma DurationsNonNegative(p: Profile, m: Move, root: real)
    requires Limited(p) && IsRoot(p, m, root)
    ensures var q := Plan(p, m, root); q.t1 >= 0.0 && q.t2 >= 0.0 && q.t3 >= 0.0 <==> Feasible(p, m)
  {
    assert root * root == Radicand(m.Sign() * p.acc, m.Sign() * p.dec, m);
    hide *;
    SpeedLimitedIffFast(p, m, root);
    SignedLimits(p, m);
    PlanTimes(p, m, root);
    TimesNonNegative(p, m.Sign() * p.acc, m.Sign() * p.dec, m.Sign() * p.vmax, m, root);
  }

  lemma PlanTimes(p: Profile, m: Move, root: real)
    requires Limited(p)
    ensures m.Sign() * p.acc != 0.0 && m.Sign() * p.dec != 0.0 && m.Sign() * p.acc + m.Sign() * p.dec != 0.0 && m.Sign() * p.vmax != 0.0
    ensures var q := Plan(p, m, root); (q.t1, q.t2, q.t3) == Times(m.Sign() * p.acc, m.Sign() * p.dec, m.Sign() * p.vmax, m, root)
  {
    SignedLimits(p, m);
    hide Times, Move.Sign;
  }

  lemma TriangularSpeeds(a: real, d: real, m: Move, t: (real, real, real))
    requires Solves(a, d, m, t)
    ensures m.vstart + a * t.0 == m.vend + d * t.2
  {
  }

  lemma CruisingFeasible(p: Profile, m: Move, t: (real, real, real))
    requires Limited(p) && Fast(p, m) && Solves(m.Sign() * p.acc, m.Sign() * p.dec, m, t)
    requires m.vstart + m.Sign() * p.acc * t.0 == m.Sign() * p.vmax
    ensures t.0 >= 0.0 && t.1 >= 0.0 && t.2 >= 0.0 <==> Feasible(p, m)
  {
    SignValue(m);
    CruiseIsNonNegative(p, m, t);
    assert m.Sign() * p.vmax - m.Sign() * p.dec * t.2 == m.vend;
    hide Fast, Move.Sign, Move.Distance, HasRoom, Solves;
    CruisingRamps(m.Sign(), p.acc, p.dec, p.vmax, m.vstart, m.vend, t.0, t.2);
  }

  lemma CruiseIsNonNegative(p: Profile, m: Move, t: (real, real, real))
    requires Limited(p) && Fast(p, m) && Solves(m.Sign() * p.acc, m.Sign() * p.dec, m, t)
    requires m.vstart + m.Sign() * p.acc * t.0 == m.Sign() * p.vmax
    ensures t.1 >= 0.0
  {
    hide Fast, Move.Sign, Move.Distance;
    CruiseTime(p, m, t.1, m.Sign() * p.vmax);
  }

  lemma CruisingRamps(sign: real, acc: real, dec: real, vmax: real, u: real, w: real, t1: real, t3: real)
    requires (sign == 1.0 || sign == -1.0) && acc > 0.0 && dec > 0.0
    requires u + sign * acc * t1 == sign * vmax && sign * vmax - sign * dec * t3 == w
    ensures t1 >= 0.0 <==> sign * u <= vmax
    ensures t3 >= 0.0 <==> sign * w <= vmax
  {
    var v := sign * vmax;
    assert sign * v == vmax;
    RampTime(sign, acc, u, v, t1);
    RampTime(sign, dec, w, v, t3);
  }

  /** Every move from rest to rest is feasible. */
  lemma RestToRestFeasible(p: Profile, m: Move)
    requires Limited(p) && m.vstart == 0.0 && m.vend == 0.0
    ensures Feasible(p, m)
  {
    assert 2.0 * p.dec * Abs(m.Distance()) >= 0.0 && 2.0 * p.acc * Abs(m.Distance()) >= 0.0;
    hide Fast;
  }

  /** A fast move reaches its speed limit. */
  lemma FastReachesLimit(p: Profile, m: Move, root: real)
    requires Limited(p) && IsRoot(p, m, root) && Fast(p, m)
    ensures Plan(p, m, root).v2 == m.Sign() * p.vmax
  {
    assert root * root == Radicand(m.Sign() * p.acc, m.Sign() * p.dec, m);
    SpeedLimitedIffFast(p, m, root);
    SignedLimits(p, m);
    hide Fast, SpeedLimited, Times, Radicand, Solves, Move.Sign;
    TimesSolve(m.Sign() * p.acc, m.Sign() * p.dec, m.Sign() * p.vmax, m, root);
  }

  // ----- sampling

  /** `motion_profile_get_pva` on a planned profile. */
  function SampleAt(p: Profile, t: real): Sample {
    var (a, d) := (p.sign * p.acc, p.sign * p.dec);
    if t < p.t1 then
      Sample(p.startPosition + (p.v1 * t + a * t * t / 2.0), p.v1 + a * t, a, Accelerating)
    else if t >= p.t1 && t < p.t1 + p.t2 then
      Sample(p.startPosition + (p.d1 + (t - p.t1) * p.v2), p.v2, 0.0, Cruising)
    else if t >= p.t1 + p.t2 && t < p.totalTime then
      Sample(p.startPosition + (p.totalDistance - p.v3 * (p.totalTime - t) - d * (p.totalTime - t) * (p.totalTime - t) / 2.0),
             p.v2 - d * (t - p.t1 - p.t2), -d, Decelerating)
    else
      Sample(p.startPosition + (p.totalDistance + p.v3 * (t - p.totalTime)), p.v3, 0.0, Completed)
  }

  /** Within a phase the sampled acceleration is the slope of the sampled velocity: the limit of the phase,
      in the direction of the move or against it. */
  lemma AccelerationIsSlope(p: Profile, t: real, u: real)
    requires SampleAt(p, t).phase == SampleAt(p, u).phase
    ensures var (x, y) := (SampleAt(p, t), SampleAt(p, u));
            && y.vel - x.vel == x.acc * (u - t) && x.acc == y.acc
            && (x.phase == Accelerating ==> x.acc == p.sign * p.acc)
            && (x.phase == Decelerating ==> x.acc == -(p.sign * p.dec))
  {
    var (x, y) := (SampleAt(p, t), SampleAt(p, u));
    if x.phase == Accelerating {
      assert p.sign * p.acc * u - p.sign * p.acc * t == p.sign * p.acc * (u - t);
    } else if x.phase == Decelerating {
      var d := p.sign * p.dec;
      assert d * (u - p.t1 - p.t2) - d * (t - p.t1 - p.t2) == d * (u - t);
    }
  }

  /** The profile with its new phase and the new set point after sampling. */
  function Sampled(p: Profile, t: real, previous: Pva): (Profile, Pva) {
    if !p.planned then (p, previous)
    else
      var x := SampleAt(p, t);
      (p.(phase := x.phase), Pva(x.pos, x.vel, x.acc))
  }

  /** A plan whose phases all take time, within the speed limit. */
  ghost predicate Forward(p: Profile) {
    && Limited(p) && (p.sign == 1.0 || p.sign == -1.0)
    && p.t1 >= 0.0 && p.t2 >= 0.0 && p.t3 >= 0.0
    && Covers(p, p.totalDistance)
    && p.sign * p.v2 <= p.vmax
  }

  /** The least speed along the move: that of its start or of its end, negative when one of them is
      against the direction of travel. */
  function Slowest(p: Profile): real {
    Min(p.sign * p.v1, p.sign * p.v3)
  }

  /** An admissible speed of the move. */
  predicate Legal(p: Profile, v: real) {
    Slowest(p) <= p.sign * v <= p.vmax
  }

  /** Elapsed distance and velocity by the formula of phase `k`. */
  function PhasePos(p: Profile, k: nat, t: real): real
    requires k < 4
  {
    if k == 0 then p.v1 * t + p.sign * p.acc * t * t / 2.0
    else if k == 1 then p.d1 + (t - p.t1) * p.v2
    else if k == 2 then
      p.totalDistance - p.v3 * (p.totalTime - t) - p.sign * p.dec * (p.totalTime - t) * (p.totalTime - t) / 2.0
    else p.totalDistance + p.v3 * (t - p.totalTime)
  }

  function PhaseVel(p: Profile, k: nat, t: real): real
    requires k < 4
  {
    if k == 0 then p.v1 + p.sign * p.acc * t
    else if k == 1 then p.v2
    else if k == 2 then p.v2 - p.sign * p.dec * (t - p.t1 - p.t2)
    else p.v3
  }

  /** When phase `k` starts. */
  function Start(p: Profile, k: nat): real
    requires k < 4
  {
    if k == 0 then 0.0 else if k == 1 then p.t1 else if k == 2 then p.t1 + p.t2 else p.totalTime
  }

  /** The phase the sampler is in at time `t`. */
  function PhaseIndex(p: Profile, t: real): (k: nat)
    ensures k < 4
  {
    if t < p.t1 then 0 else if t < p.t1 + p.t2 then 1 else if t < p.totalTime then 2 else 3
  }

  lemma SampleByPhase(p: Profile, t: real)
    ensures SampleAt(p, t).pos == p.startPosition + PhasePos(p, PhaseIndex(p, t), t)
    ensures SampleAt(p, t).vel == PhaseVel(p, PhaseIndex(p, t), t)
  {
    SamplePosition(p, t);
    SampleVelocity(p, t);
    hide *;
  }

  lemma SamplePosition(p: Profile, t: real)
    ensures SampleAt(p, t).pos == p.startPosition + PhasePos(p, PhaseIndex(p, t), t)
  {
    var d := p.sign * p.dec;
    if PhaseIndex(p, t) == 2 {
      assert d * (p.totalTime - t) * (p.totalTime - t) / 2.0 == p.sign * p.dec * (p.totalTime - t) * (p.totalTime - t) / 2.0;
    }
  }

  lemma SampleVelocity(p: Profile, t: real)
    ensures SampleAt(p, t).vel == PhaseVel(p, PhaseIndex(p, t), t)
  {
    hide PhasePos;
  }

  /** Position and velocity do not jump where a phase ends. */
  lemma PhasesMeet(p: Profile, k: nat)
    requires Forward(p) && k < 3
    ensures PhasePos(p, k, Start(p, k + 1)) == PhasePos(p, k + 1, Start(p, k + 1))
    ensures PhaseVel(p, k, Start(p, k + 1)) == PhaseVel(p, k + 1, Start(p, k + 1))
  {
    if k == 0 {
      UpMeetsLevel(p);
    } else if k == 1 {
      LevelMeetsDown(p);
    } else {
      DownMeetsEnd(p);
    }
    hide PhasePos, PhaseVel, Covers;
  }

  lemma UpMeetsLevel(p: Profile)
    requires Covers(p, p.totalDistance)
    ensures PhasePos(p, 0, p.t1) == PhasePos(p, 1, p.t1) && PhaseVel(p, 0, p.t1) == PhaseVel(p, 1, p.t1)
  {
    assert (p.t1 - p.t1) * p.v2 == 0.0;
  }

  lemma LevelMeetsDown(p: Profile)
    requires Covers(p, p.totalDistance)
    ensures PhasePos(p, 1, p.t1 + p.t2) == PhasePos(p, 2, p.t1 + p.t2)
    ensures PhaseVel(p, 1, p.t1 + p.t2) == PhaseVel(p, 2, p.t1 + p.t2)
  {
    assert p.totalTime - (p.t1 + p.t2) == p.t3 && (p.t1 + p.t2 - p.t1) * p.v2 == p.d2;
    assert p.sign * p.dec * (p.t1 + p.t2 - p.t1 - p.t2) == 0.0;
  }

  lemma DownMeetsEnd(p: Profile)
    requires Covers(p, p.totalDistance)
    ensures PhasePos(p, 2, p.totalTime) == PhasePos(p, 3, p.totalTime) && PhaseVel(p, 2, p.totalTime) == PhaseVel(p, 3, p.totalTime)
  {
    var z := p.totalTime - p.totalTime;
    assert z == 0.0 && p.v3 * z == 0.0 && p.sign * p.dec * z * z == 0.0;
    assert p.totalTime - p.t1 - p.t2 == p.t3;
  }

  /** What happens between two times: the position moves no slower than the slowest speed and no faster
      than the speed limit, and the velocity changes no faster than the larger acceleration limit. */
  ghost predicate Moves(p: Profile, dt: real, x: real, v: real, y: real, w: real) {
    && Slowest(p) * dt <= p.sign * (y - x) <= p.vmax * dt
    && Abs(w - v) <= Max(p.acc, p.dec) * dt
  }

  lemma MovesCompose(p: Profile, dt: real, du: real, x: real, v: real, y: real, w: real, z: real, q: real)
    requires Moves(p, dt, x, v, y, w) && Moves(p, du, y, w, z, q)
    ensures Moves(p, dt + du, x, v, z, q)
  {
    assert p.vmax * (dt + du) == p.vmax * dt + p.vmax * du;
    assert Slowest(p) * (dt + du) == Slowest(p) * dt + Slowest(p) * du;
    assert Max(p.acc, p.dec) * (dt + du) == Max(p.acc, p.dec) * dt + Max(p.acc, p.dec) * du;
    assert p.sign * (z - x) == p.sign * (z - y) + p.sign * (y - x);
  }

  /** Motion with a constant acceleration `a` between two admissible speeds. */
  lemma UniformMotion(p: Profile, a: real, dt: real, x: real, v: real, y: real, w: real)
    requires Limited(p) && dt >= 0.0 && Abs(a) <= Max(p.acc, p.dec)
    requires Uniform(a, dt, x, v, y, w)
    requires Legal(p, v) && Legal(p, w)
    ensures Moves(p, dt, x, v, y, w)
  {
    hide Uniform, Legal, Slowest, Max, Abs;
    var mean := MeanSpeed(p, a, dt, x, v, y, w);
    ProductBetween(dt, Slowest(p), mean, p.vmax);
    ChangeOfSpeed(a, dt, x, v, y, w);
    ProductBetween(dt, 0.0, Abs(a), Max(p.acc, p.dec));
  }

  lemma MeanSpeed(p: Profile, a: real, dt: real, x: real, v: real, y: real, w: real) returns (mean: real)
    requires Uniform(a, dt, x, v, y, w) && Legal(p, v) && Legal(p, w)
    ensures p.sign * (y - x) == dt * mean && Slowest(p) <= mean <= p.vmax
  {
    mean := (p.sign * v + p.sign * w) / 2.0;
    hide Slowest;
    var half := (v + w) / 2.0;
    assert y - x == dt * half && mean == p.sign * half;
    assert p.sign * (dt * half) == dt * (p.sign * half);
  }

  lemma ChangeOfSpeed(a: real, dt: real, x: real, v: real, y: real, w: real)
    requires dt >= 0.0 && Uniform(a, dt, x, v, y, w)
    ensures 0.0 <= Abs(a) && Abs(w - v) == dt * Abs(a)
  {
    assert w - v == a * dt;
  }

  lemma ProductBetween(dt: real, lo: real, x: real, hi: real)
    requires dt >= 0.0 && lo <= x <= hi
    ensures lo * dt <= dt * x <= hi * dt
  {
    assert dt * (x - lo) >= 0.0 && dt * (hi - x) >= 0.0;
  }

  /** Phase `k` is running, or just starting or ending, at time `t`. */
  predicate InPhase(p: Profile, k: nat, t: real)
    requires k < 4
  {
    Start(p, k) <= t && (k < 3 ==> t <= Start(p, k + 1))
  }

  /** The speed along the move during a ramp from `v` to `end` that lasts `total`. */
  lemma RampBetween(sign: real, limit: real, v: real, t: real, w: real, total: real, end: real)
    requires (sign == 1.0 || sign == -1.0) && limit > 0.0 && 0.0 <= t <= total
    requires w == v + sign * limit * t && end == v + sign * limit * total
    ensures sign * v <= sign * w <= sign * end
  {
    assert sign * (sign * limit * t) == limit * t && sign * (sign * limit * total) == limit * total;
    ProductBetween(limit, 0.0, t, total);
  }

  lemma DownFromEnd(p: Profile, t: real)
    requires Covers(p, p.totalDistance)
    ensures PhaseVel(p, 2, t) == p.v3 + p.sign * p.dec * (p.totalTime - t)
  {
    var d := p.sign * p.dec;
    assert d * (t - p.t1 - p.t2) == d * p.t3 - d * (p.totalTime - t);
  }

  lemma PeakSpeeds(p: Profile)
    requires Forward(p)
    ensures p.v2 == p.v1 + p.sign * p.acc * p.t1 && p.v2 == p.v3 + p.sign * p.dec * p.t3
    ensures p.sign * p.v1 <= p.sign * p.v2 && p.sign * p.v3 <= p.sign * p.v2
  {
    assert p.v2 == p.v1 + p.sign * p.acc * p.t1 && p.v2 == p.v3 + p.sign * p.dec * p.t3;
    hide Covers;
    RampBetween(p.sign, p.acc, p.v1, p.t1, p.v2, p.t1, p.v2);
    RampBetween(p.sign, p.dec, p.v3, p.t3, p.v2, p.t3, p.v2);
  }

  lemma UpSpeedLegal(p: Profile, t: real)
    requires Forward(p) && 0.0 <= t <= p.t1
    ensures Legal(p, PhaseVel(p, 0, t))
  {
    hide Covers;
    PeakSpeeds(p);
    RampBetween(p.sign, p.acc, p.v1, t, PhaseVel(p, 0, t), p.t1, p.v2);
  }

  lemma DownSpeedLegal(p: Profile, t: real)
    requires Forward(p) && p.t1 + p.t2 <= t <= p.totalTime
    ensures Legal(p, PhaseVel(p, 2, t))
  {
    DownFromEnd(p, t);
    assert p.totalTime - t <= p.t3;
    hide Covers, PhaseVel;
    PeakSpeeds(p);
    RampBetween(p.sign, p.dec, p.v3, p.totalTime - t, PhaseVel(p, 2, t), p.t3, p.v2);
  }

  lemma PhaseSpeedLegal(p: Profile, k: nat, t: real)
    requires Forward(p) && k < 4 && InPhase(p, k, t)
    ensures Legal(p, PhaseVel(p, k, t))
  {
    if k == 0 {
      hide Covers, PhaseVel;
      UpSpeedLegal(p, t);
    } else if k == 2 {
      hide Covers, PhaseVel;
      DownSpeedLegal(p, t);
    } else {
      hide Covers;
      PeakSpeeds(p);
    }
  }

  /** The acceleration of phase `k`. */
  function PhaseAcc(p: Profile, k: nat): real {
    if k == 0 then p.sign * p.acc else if k == 2 then -(p.sign * p.dec) else 0.0
  }

  ghost predicate Uniform(a: real, dt: real, x: real, v: real, y: real, w: real) {
    w == v + a * dt && y == x + dt * (v + w) / 2.0
  }

  lemma UpIsUniform(p: Profile, t: real, u: real)
    ensures Uniform(p.sign * p.acc, u - t, PhasePos(p, 0, t), PhaseVel(p, 0, t), PhasePos(p, 0, u), PhaseVel(p, 0, u))
  {
    RampIsUniform(p.sign * p.acc, p.v1, t, u);
  }

  lemma DownIsUniform(p: Profile, t: real, u: real)
    requires Covers(p, p.totalDistance)
    ensures Uniform(-(p.sign * p.dec), u - t, PhasePos(p, 2, t), PhaseVel(p, 2, t), PhasePos(p, 2, u), PhaseVel(p, 2, u))
  {
    DownFromEnd(p, t);
    DownFromEnd(p, u);
    hide Covers, PhaseVel;
    var (d, x, y) := (p.sign * p.dec, p.totalTime - t, p.totalTime - u);
    RampIsUniform(d, p.v3, x, y);
    assert -(d) * (u - t) == d * (y - x);
  }

  lemma PhaseIsUniform(p: Profile, k: nat, t: real, u: real)
    requires Forward(p) && k < 4
    ensures Uniform(PhaseAcc(p, k), u - t, PhasePos(p, k, t), PhaseVel(p, k, t), PhasePos(p, k, u), PhaseVel(p, k, u))
  {
    assert Covers(p, p.totalDistance);
    hide Uniform, PhasePos, PhaseVel, Covers;
    if k == 0 {
      UpIsUniform(p, t, u);
    } else if k == 2 {
      DownIsUniform(p, t, u);
    } else {
      LevelIsUniform(p, k, t, u);
    }
  }

  lemma LevelIsUniform(p: Profile, k: nat, t: real, u: real)
    requires k == 1 || k == 3
    ensures Uniform(0.0, u - t, PhasePos(p, k, t), PhaseVel(p, k, t), PhasePos(p, k, u), PhaseVel(p, k, u))
  {
  }

  lemma RampIsUniform(a: real, v: real, t: real, u: real)
    ensures v + a * u == v + a * t + a * (u - t)
    ensures v * u + a * u * u / 2.0 == v * t + a * t * t / 2.0 + (u - t) * (v + a * t + (v + a * u)) / 2.0
  {
  }

  lemma PhaseAccLegal(p: Profile, k: nat)
    requires Limited(p) && (p.sign == 1.0 || p.sign == -1.0)
    ensures Abs(PhaseAcc(p, k)) <= Max(p.acc, p.dec)
  {
  }

  lemma MovesInPhase(p: Profile, k: nat, t: real, u: real)
    requires Forward(p) && k < 4 && InPhase(p, k, t) && InPhase(p, k, u) && t <= u
    ensures Moves(p, u - t, PhasePos(p, k, t), PhaseVel(p, k, t), PhasePos(p, k, u), PhaseVel(p, k, u))
  {
    hide PhasePos, PhaseVel, PhaseAcc, Covers, Moves, Uniform, Abs, Max, Legal;
    PhaseIsUniform(p, k, t, u);
    PhaseSpeedLegal(p, k, t);
    PhaseSpeedLegal(p, k, u);
    PhaseAccLegal(p, k);
    UniformMotion(p, PhaseAcc(p, k), u - t, PhasePos(p, k, t), PhaseVel(p, k, t), PhasePos(p, k, u), PhaseVel(p, k, u));
  }

  /** From time `t` in phase `k` to a later time `u` in a later phase, one phase after the other. */
  lemma {:induction false} MovesAcrossPhases(p: Profile, k: nat, l: nat, t: real, u: real)
    requires Forward(p) && k <= l < 4 && InPhase(p, k, t) && InPhase(p, l, u) && t <= u
    ensures Moves(p, u - t, PhasePos(p, k, t), PhaseVel(p, k, t), PhasePos(p, l, u), PhaseVel(p, l, u))
    decreases l - k
  {
    hide PhasePos, PhaseVel, Covers, Moves;
    if k == l {
      MovesInPhase(p, k, t, u);
    } else {
      var b := Start(p, k + 1);
      StartsOrdered(p, k + 1, l);
      MovesInPhase(p, k, t, b);
      PhasesMeet(p, k);
      MovesAcrossPhases(p, k + 1, l, b, u);
      MovesCompose(p, b - t, u - b, PhasePos(p, k, t), PhaseVel(p, k, t), PhasePos(p, k, b), PhaseVel(p, k, b),
                   PhasePos(p, l, u), PhaseVel(p, l, u));
    }
  }

  lemma StartsOrdered(p: Profile, k: nat, l: nat)
    requires Forward(p) && k <= l < 4
    ensures Start(p, k) <= Start(p, l)
    ensures k > 0 ==> Start(p, k - 1) <= Start(p, k)
  {
  }

  /** Between any two times the sampled position moves no slower than the slower of the start and end
      speed and no faster than the speed limit, and the sampled velocity changes no faster than the
      acceleration limits: both are continuous, nothing jumps where one phase ends and the next begins,
      and the move is monotone unless it starts or ends against its direction. */
  lemma SamplingIsSmooth(p: Profile, t: real, u: real)
    requires Forward(p) && 0.0 <= t <= u
    ensures var (x, y) := (SampleAt(p, t), SampleAt(p, u));
            Moves(p, u - t, x.pos, x.vel, y.pos, y.vel) && Legal(p, x.vel)
  {
    hide PhasePos, PhaseVel, SampleAt, Covers, PhaseIndex, Moves, Legal;
    var (k, l) := (PhaseIndex(p, t), PhaseIndex(p, u));
    PhasesInOrder(p, t, u);
    SampleByPhase(p, t);
    SampleByPhase(p, u);
    PhaseSpeedLegal(p, k, t);
    MovesAcrossPhases(p, k, l, t, u);
    MovesShifted(p, p.startPosition, u - t, PhasePos(p, k, t), PhaseVel(p, k, t), PhasePos(p, l, u), PhaseVel(p, l, u));
  }

  /** The sampler gives the peak speed at the end of the first phase, if the last one takes time. */
  lemma PeakIsSampled(p: Profile)
    requires Forward(p) && p.t3 > 0.0
    ensures SampleAt(p, p.t1).vel == p.v2
  {
    assert p.sign * p.dec * (p.t1 - p.t1 - 0.0) == 0.0;
    assert p.totalTime == p.t1 + p.t2 + p.t3;
    hide Covers;
  }

  lemma MovesShifted(p: Profile, start: real, dt: real, x: real, v: real, y: real, w: real)
    requires Moves(p, dt, x, v, y, w)
    ensures Moves(p, dt, start + x, v, start + y, w)
  {
    assert start + y - (start + x) == y - x;
  }

  lemma PhasesInOrder(p: Profile, t: real, u: real)
    requires Forward(p) && 0.0 <= t <= u
    ensures PhaseIndex(p, t) <= PhaseIndex(p, u)
    ensures InPhase(p, PhaseIndex(p, t), t) && InPhase(p, PhaseIndex(p, u), u)
  {
  }

  /** Exactly the feasible moves can be sampled forwards, whatever their start and end velocities. */
  lemma ForwardIffFeasible(p: Profile, m: Move, root: real)
    requires Limited(p) && IsRoot(p, m, root)
    ensures Forward(Plan(p, m, root)) <==> Feasible(p, m)
  {
    PlanReachesTarget(p, m, root);
    DurationsNonNegative(p, m, root);
    PeakWithinLimit(p, m, root);
    hide Covers, Feasible, Times, Radicand;
  }

  /** A planned move from rest to rest can be sampled forwards. */
  lemma RestToRestIsForward(p: Profile, m: Move, root: real)
    requires Limited(p) && IsRoot(p, m, root) && m.vstart == 0.0 && m.vend == 0.0
    ensures Forward(Plan(p, m, root)) && Slowest(Plan(p, m, root)) == 0.0
  {
    PlanReachesTarget(p, m, root);
    ForwardIffFeasible(p, m, root);
    RestToRestFeasible(p, m);
    hide Covers, Feasible, Plan, Radicand;
  }

  lemma SignedBound(sign: real, vmax: real, v2: real)
    requires (sign == 1.0 || sign == -1.0) && vmax > 0.0
    requires v2 == sign * vmax || Abs(v2) <= Abs(sign * vmax)
    ensures sign * v2 <= vmax
  {
  }

  lemma PeakIsLimited(v: real, a: real, d: real, m: Move, root: real, t: (real, real, real), v2: real)
    requires a != 0.0 && d != 0.0 && a + d != 0.0 && v != 0.0
    requires t == Times(a, d, v, m, root) && v2 == SpeedAfter(a, m, t.0) && Peaks(a, d, v, m, root, t)
    ensures v2 == v || Abs(v2) <= Abs(v)
  {
    hide CruisingTimes, TriangularTimes, SpeedAfter, Abs;
  }

  lemma FilledPeak(p: Profile, a: real, d: real, v: real, m: Move, root: real)
    requires a != 0.0 && d != 0.0 && a + d != 0.0 && v == m.Sign() * p.vmax && v != 0.0
    requires root * root == Radicand(a, d, m) && p.vmax > 0.0
    ensures var q := Fill(p, a, d, m, Times(a, d, v, m, root)); q.sign * q.v2 <= p.vmax
  {
    SignValue(m);
    hide Radicand, Times, Solves, Peaks, Move.Sign;
    var t := Times(a, d, v, m, root);
    var v2 := Fill(p, a, d, m, t).v2;
    TimesSolve(a, d, v, m, root);
    PeakIsLimited(v, a, d, m, root, t, v2);
    SignedBound(m.Sign(), p.vmax, v2);
  }

  /** No plan passes the speed limit at its peak. */
  lemma PeakWithinLimit(p: Profile, m: Move, root: real)
    requires Limited(p) && IsRoot(p, m, root)
    ensures Plan(p, m, root).sign * Plan(p, m, root).v2 <= p.vmax
  {
    SignedLimits(p, m);
    hide Radicand, Times, Move.Sign, Fill;
    FilledPeak(p, m.Sign() * p.acc, m.Sign() * p.dec, m.Sign() * p.vmax, m, root);
  }

  /** The whole move from rest to rest: it starts at the start, never leaves the way to the target, and
      stays at the target, at rest, once the planned time is over. */
  lemma RestToRestArrives(p: Profile, m: Move, root: real, t: real)
    requires Limited(p) && IsRoot(p, m, root) && m.vstart == 0.0 && m.vend == 0.0 && t >= 0.0
    ensures var q := Plan(p, m, root);
            var x := SampleAt(q, t);
            && SampleAt(q, 0.0).pos == m.dstart
            && 0.0 <= q.sign * (x.pos - m.dstart) && 0.0 <= q.sign * (m.dend - x.pos)
            && (x.phase == Completed <==> t >= q.totalTime)
            && (t >= q.totalTime ==> x == Sample(m.dend, 0.0, 0.0, Completed))
  {
    var q := Plan(p, m, root);
    RestToRestIsForward(p, m, root);
    PlanReachesTarget(p, m, root);
    StartsAtStart(q);
    EndsAtEnd(q, q.totalTime);
    EndsAtEnd(q, t);
    SamplingIsSmooth(q, 0.0, t);
    if t <= q.totalTime {
      SamplingIsSmooth(q, t, q.totalTime);
    }
    hide Covers, Plan, Times;
  }

  lemma StartsAtStart(p: Profile)
    requires Forward(p)
    ensures SampleAt(p, 0.0).pos == p.startPosition
  {
    SampleByPhase(p, 0.0);
    var k := PhaseIndex(p, 0.0);
    MovesAcrossPhases(p, 0, k, 0.0, 0.0);
    assert PhasePos(p, 0, 0.0) == 0.0;
  }

  lemma EndsAtEnd(p: Profile, t: real)
    requires Forward(p)
    ensures SampleAt(p, t).phase == Completed <==> t >= p.totalTime
    ensures t >= p.totalTime && p.v3 == 0.0
        ==> SampleAt(p, t) == Sample(p.startPosition + p.totalDistance, 0.0, 0.0, Completed)
  {
  }

  lemma FillIgnoresSign(p: Profile, sign: real, a: real, d: real, m: Move, t: (real, real, real))
    requires sign == m.Sign()
    ensures Fill(p.(sign := sign), a, d, m, t).(sign := sign) == Fill(p, a, d, m, t)
  {
  }

  // ----- the struct and its functions

  /** `struct motion_profile` and the functions that update it. */
  class Trajectory {
    var profile: Profile

    /** A zeroed struct. */
    constructor ()
      ensures profile == ZERO
    {
      profile := ZERO;
    }

    /** Clears the struct when its owner is reset. */
    method Forget()
      modifies this
      ensures profile == ZERO
    {
      profile := ZERO;
    }

    method InitLimits(maxAcc: real, maxSpeed: real, maxDec: real)
      modifies this
      ensures profile == Init(maxAcc, maxSpeed, maxDec)
    {
      profile := ZERO;
      profile := profile.(acc := Abs(maxAcc), vmax := Abs(maxSpeed), dec := Abs(maxDec), sign := 1.0);
    }

    method PlanMove(lib: Libm, dstart: real, vstart: real, dend: real, vend: real)
      requires lib.Valid() && Limited(profile)
      modifies this
      ensures profile == PlanWith(lib, old(profile), Move(dstart, vstart, dend, vend))
    {
      var move := Move(dstart, vstart, dend, vend);
      ghost var before := profile;
      SignedLimits(profile, move);
      hide Times, Radicand, Fill, SpeedLimited;
      profile := profile.(sign := if dend >= dstart then 1.0 else -1.0);
      var a, d, v := profile.sign * profile.acc, profile.sign * profile.dec, profile.sign * profile.vmax;
      var t := Durations(lib, a, d, v, move);
      Store(a, d, move, t);
      FillIgnoresSign(before, profile.sign, a, d, move, t);
    }

    /** The first half of planning: the durations, with or without a cruise. */
    method Durations(lib: Libm, a: real, d: real, v: real, move: Move) returns (t: (real, real, real))
      requires a != 0.0 && d != 0.0 && a + d != 0.0 && v != 0.0
      ensures t == Times(a, d, v, move, lib.sqrt(Radicand(a, d, move)))
    {
      hide TriangularTimes, CruisingTimes, Radicand, Abs;
      var root := lib.sqrt(Radicand(a, d, move));
      t := TriangularTimes(a, d, move, root);
      var v2 := move.vstart + a * t.0;
      if Abs(v2) > Abs(v) {
        t := CruisingTimes(a, d, v, move);
      }
    }

    /** The second half of planning: everything that follows from the three durations. */
    method Store(a: real, d: real, move: Move, t: (real, real, real))
      modifies this
      ensures profile == Fill(old(profile), a, d, move, t).(sign := old(profile.sign))
    {
      profile := profile.(t1 := t.0, t2 := t.1, t3 := t.2);
      profile := profile.(totalTime := profile.t1 + profile.t2 + profile.t3);
      profile := profile.(v1 := move.vstart, v2 := move.vstart + a * profile.t1, v3 := move.vend);
      profile := profile.(d1 := profile.v1 * profile.t1 + a * profile.t1 * profile.t1 / 2.0);
      profile := profile.(d2 := profile.v2 * profile.t2);
      profile := profile.(d3 := profile.v3 * profile.t3 + d * profile.t3 * profile.t3 / 2.0);
      profile := profile.(totalDistance := profile.d1 + profile.d2 + profile.d3);
      profile := profile.(startPosition := move.dstart, planned := true);
    }

    /** Samples the profile; without a planned move nothing is stored and the result is -1. */
    method GetPva(time: real, previous: Pva) returns (result: int, pva: Pva)
      modifies this
      ensures (profile, pva) == Sampled(old(profile), time, previous)
      ensures result == if profile.planned then 0 else -1
    {
      var p := profile;
      if !p.planned {
        return -1, previous;
      }
      var t, v, a := time, p.v3, 0.0;
      var x := p.totalDistance + p.v3 * (t - p.totalTime);
      var acc, dec := p.sign * p.acc, p.sign * p.dec;
      if t < p.t1 {
        v := p.v1 + acc * t;
        x := p.v1 * t + acc * t * t / 2.0;
        a := acc;
        profile := profile.(phase := Accelerating);
      } else if t >= p.t1 && t < p.t1 + p.t2 {
        v := p.v2;
        x := p.d1 + (t - p.t1) * p.v2;
        a := 0.0;
        profile := profile.(phase := Cruising);
      } else if t >= p.t1 + p.t2 && t < p.totalTime {
        v := p.v2 - dec * (t - p.t1 - p.t2);
        x := p.totalDistance - p.v3 * (p.totalTime - t) - dec * (p.totalTime - t) * (p.totalTime - t) / 2.0;
        a := -dec;
        profile := profile.(phase := Decelerating);
      } else {
        profile := profile.(phase := Completed);
      }
      ghost var s := SampleAt(p, t);
      assert a == s.acc;
      assert v == s.vel;
      assert profile == p.(phase := s.phase);
      assert p.startPosition + x == s.pos;
      result := 0;
      pva := Pva(p.startPosition + x, v, a);
    }

    method IsCompleted() returns (completed: bool)
      ensures completed <==> profile.phase == Completed
    {
      completed := profile.phase == Completed;
    }

    method TraversalTime() returns (time: real)
      ensures time == profile.totalTime
    {
      time := profile.totalTime;
    }
  }
}
