/** The second-order recursive filter, and why it cannot ring up. */
module Filter {
  import opened MathLib

  datatype Coefficients = Coefficients(a0: real, a1: real, b0: real, b1: real)

  /** The history a filter keeps: the last input and the last two outputs. */
  datatype History = History(in0: real, out0: real, out1: real)

  const REST := History(0.0, 0.0, 0.0)

  /** The pitch filter of `fb_init`. */
  const PITCH := Coefficients(-1.44739, 0.567971, 0.0659765, 0.0546078)

  function Next(c: Coefficients, h: History, x: real): History {
    History(x, c.b0 * x + c.b1 * h.in0 - c.a0 * h.out0 - c.a1 * h.out1, h.out0)
  }

  function Run(c: Coefficients, h: History, inputs: seq<real>): History
    decreases |inputs|
  {
    if inputs == [] then h else Run(c, Next(c, h, inputs[0]), inputs[1..])
  }

  /** `struct fb_filter`; the second input slot of the source is never read. */
  class FilterState {
    const conf: Coefficients
    var in0: real
    var out0: real
    var out1: real

    function Current(): History
      reads this
    {
      History(in0, out0, out1)
    }

    constructor (conf: Coefficients)
      ensures this.conf == conf && Current() == REST
    {
      this.conf := conf;
      in0, out0, out1 := 0.0, 0.0, 0.0;
    }

    /** `fb_filter_init` with the coefficients it already has. */
    method Reset()
      modifies this
      ensures Current() == REST
    {
      in0, out0, out1 := 0.0, 0.0, 0.0;
    }

    method Update(x: real) returns (out: real)
      modifies this
      ensures Current() == Next(conf, old(Current()), x) && out == Current().out0
    {
      out := conf.b0 * x + conf.b1 * in0 - conf.a0 * out0 - conf.a1 * out1;
      in0 := x;
      out1 := out0;
      out0 := out;
    }
  }

  // ----- what the recursion computes

  /** The input and the output number `k` of a filter at rest; before the first both were zero. */
  function InputAt(inputs: seq<real>, k: int): real
    requires k <= |inputs|
  {
    if k <= 0 then 0.0 else inputs[k - 1]
  }

  function OutputAt(c: Coefficients, inputs: seq<real>, k: int): real
    requires k <= |inputs|
  {
    if k <= 0 then 0.0 else Run(c, REST, inputs[..k]).out0
  }

  lemma {:induction false} RunSplits(c: Coefficients, h: History, inputs: seq<real>, x: real)
    ensures Run(c, h, inputs + [x]) == Next(c, Run(c, h, inputs), x)
    decreases |inputs|
  {
    if inputs == [] {
      assert ([] + [x])[1..] == [];
    } else {
      RunSplits(c, Next(c, h, inputs[0]), inputs[1..], x);
      assert (inputs + [x])[0] == inputs[0] && (inputs + [x])[1..] == inputs[1..] + [x];
    }
  }

  lemma {:induction false} HistoryIsLatest(c: Coefficients, inputs: seq<real>, k: nat)
    requires k <= |inputs|
    ensures Run(c, REST, inputs[..k]) == History(InputAt(inputs, k), OutputAt(c, inputs, k), OutputAt(c, inputs, k - 1))
    decreases k
  {
    if k > 0 {
      HistoryIsLatest(c, inputs, k - 1);
      assert inputs[..k] == inputs[..k - 1] + [inputs[k - 1]];
      RunSplits(c, REST, inputs[..k - 1], inputs[k - 1]);
      hide Run;
    } else {
      assert inputs[..0] == [];
    }
  }

  /** From rest the outputs y of any inputs x satisfy the difference equation of the filter,
      y[k] + a0 y[k-1] + a1 y[k-2] = b0 x[k] + b1 x[k-1]. */
  lemma DifferenceEquation(c: Coefficients, inputs: seq<real>, k: int)
    requires 1 <= k <= |inputs|
    ensures OutputAt(c, inputs, k) + c.a0 * OutputAt(c, inputs, k - 1) + c.a1 * OutputAt(c, inputs, k - 2)
            == c.b0 * InputAt(inputs, k) + c.b1 * InputAt(inputs, k - 1)
  {
    HistoryIsLatest(c, inputs, k - 1);
    assert inputs[..k] == inputs[..k - 1] + [inputs[k - 1]];
    RunSplits(c, REST, inputs[..k - 1], inputs[k - 1]);
    hide Run;
  }

  /** The same for the pitch filter, in its coefficients. */
  lemma PitchEquation(inputs: seq<real>, k: int)
    requires 1 <= k <= |inputs|
    ensures OutputAt(PITCH, inputs, k)
         == 1.44739 * OutputAt(PITCH, inputs, k - 1) - 0.567971 * OutputAt(PITCH, inputs, k - 2)
            + 0.0659765 * InputAt(inputs, k) + 0.0546078 * InputAt(inputs, k - 1)
  {
    DifferenceEquation(PITCH, inputs, k);
    hide InputAt, OutputAt;
  }

  // ----- the energy of the output history

  /** A quadratic form of two successive outputs. */
  function Energy(c: Coefficients, y: real, z: real): real {
    y * y + c.a0 * y * z + c.a1 * z * z
  }

  /** Complex poles inside the unit circle. */
  predicate Stable(c: Coefficients) {
    c.a0 * c.a0 < 4.0 * c.a1 && c.a1 < 1.0
  }

  lemma SquareNonNegative(x: real)
    ensures x * x >= 0.0
  {
  }

  lemma EnergyNonNegative(c: Coefficients, y: real, z: real)
    requires Stable(c)
    ensures Energy(c, y, z) >= 0.0
    ensures (4.0 * c.a1 - c.a0 * c.a0) * (y * y) <= 4.0 * c.a1 * Energy(c, y, z)
  {
    var p := 2.0 * c.a1 * z + c.a0 * y;
    var gap := 4.0 * c.a1 - c.a0 * c.a0;
    SquareNonNegative(p);
    SquareNonNegative(y);
    SquareNonNegative(c.a0);
    assert gap * (y * y) >= 0.0;
    assert 4.0 * c.a1 * Energy(c, y, z) == p * p + gap * (y * y);
    MulMonotone(4.0 * c.a1, 0.0, Energy(c, y, z));
  }

  /** What a step makes of the old outputs, and what it adds for the new and the previous input. */
  function Free(c: Coefficients, y: real, z: real): real {
    -c.a0 * y - c.a1 * z
  }

  function Drive(c: Coefficients, x: real, x0: real): real {
    c.b0 * x + c.b1 * x0
  }

  lemma NextOutput(c: Coefficients, h: History, x: real)
    ensures Next(c, h, x) == History(x, Free(c, h.out0, h.out1) + Drive(c, x, h.in0), h.out0)
  {
  }

  /** Without input every step multiplies the energy by exactly a1. */
  lemma ZeroInputStep(c: Coefficients, y: real, z: real)
    ensures Energy(c, Free(c, y, z), y) == c.a1 * Energy(c, y, z)
  {
  }

  /** What an input disturbance `w` can add to a free response `x` of the filter: the form is convex. */
  lemma DisturbedEnergy(c: Coefficients, rho: real, x: real, y: real, w: real)
    requires Stable(c) && 0.0 < rho < 1.0
    ensures rho * (1.0 - rho) * Energy(c, x + w, y) <= (1.0 - rho) * Energy(c, x, y) + rho * (w * w)
  {
    var s := 1.0 - rho;
    EnergyNonNegative(c, s * x - rho * w, s * y);
    assert s * Energy(c, x, y) + rho * (w * w) - rho * s * Energy(c, x + w, y) == Energy(c, s * x - rho * w, s * y);
  }

  /** One step keeps the energy below `bound` when the disturbance is small enough. */
  lemma StepKeepsBound(c: Coefficients, rho: real, y: real, z: real, w: real, bound: real)
    requires Stable(c) && 0.0 < rho < 1.0 && c.a1 <= rho * rho
    requires Energy(c, y, z) <= bound && w * w <= (1.0 - rho) * (1.0 - rho) * bound
    ensures Energy(c, Free(c, y, z) + w, y) <= bound
  {
    var s := 1.0 - rho;
    var x := Free(c, y, z);
    ZeroInputStep(c, y, z);
    DisturbedEnergy(c, rho, x, y, w);
    EnergyNonNegative(c, y, z);
    SquareNonNegative(rho);
    hide *;
    ProductsOrdered(c.a1, rho * rho, Energy(c, y, z), bound);
    Blend(rho, s, Energy(c, x + w, y), Energy(c, x, y), w * w, bound);
  }

  lemma Blend(rho: real, s: real, f: real, free: real, ww: real, bound: real)
    requires 0.0 < rho && 0.0 < s && rho + s == 1.0
    requires rho * s * f <= s * free + rho * ww && free <= rho * rho * bound && ww <= s * s * bound
    ensures f <= bound
  {
    var p := Quotient(free, rho);
    var q := Quotient(ww, s);
    BlendScaled(rho, s, f, free, ww, p, q);
    Cancel(rho, p, bound);
    Cancel(s, q, bound);
    BlendWeights(rho, s, bound);
  }

  lemma Quotient(x: real, y: real) returns (q: real)
    requires y > 0.0
    ensures x == y * q
  {
    q := x / y;
    QuotientTimesDivisor(x, y);
  }

  lemma BlendWeights(rho: real, s: real, bound: real)
    requires rho + s == 1.0
    ensures rho * bound + s * bound == bound
  {
    assert rho * bound + s * bound == (rho + s) * bound;
  }

  lemma BlendScaled(rho: real, s: real, f: real, free: real, ww: real, p: real, q: real)
    requires 0.0 < rho && 0.0 < s && rho * s * f <= s * free + rho * ww && free == rho * p && ww == s * q
    ensures f <= p + q
  {
    var t := rho * s;
    assert t > 0.0;
    assert s * (rho * p) == t * p && rho * (s * q) == t * q;
    assert t * p + t * q == t * (p + q);
    MulMonotone(t, f, p + q);
  }

  lemma Cancel(c: real, p: real, bound: real)
    requires 0.0 < c && c * p <= c * c * bound
    ensures p <= c * bound
  {
    assert c * c * bound == c * (c * bound);
    MulMonotone(c, p, c * bound);
  }

  lemma ProductsOrdered(a: real, b: real, x: real, y: real)
    requires a <= b && 0.0 <= b && 0.0 <= x <= y
    ensures a * x <= b * y
  {
    assert a * x <= b * x;
    assert b * x <= b * y;
  }

  /** The disturbance a step adds, for inputs of magnitude at most `m`. */
  lemma InputBounded(c: Coefficients, x: real, x0: real, m: real)
    requires Abs(x) <= m && Abs(x0) <= m
    ensures Drive(c, x, x0) * Drive(c, x, x0) <= (Abs(c.b0) + Abs(c.b1)) * m * ((Abs(c.b0) + Abs(c.b1)) * m)
  {
    var w, g := c.b0 * x + c.b1 * x0, (Abs(c.b0) + Abs(c.b1)) * m;
    AbsProduct(c.b0, x, m);
    AbsProduct(c.b1, x0, m);
    assert g == Abs(c.b0) * m + Abs(c.b1) * m;
    assert -g <= w <= g;
    hide Abs;
    assert g * g - w * w == (g - w) * (g + w);
    NonNegativeProduct(g - w, g + w);
  }

  lemma NonNegativeProduct(x: real, y: real)
    requires x >= 0.0 && y >= 0.0
    ensures x * y >= 0.0
  {
  }

  lemma AbsProduct(b: real, x: real, m: real)
    requires Abs(x) <= m
    ensures -(Abs(b) * m) <= b * x <= Abs(b) * m
  {
    NonNegativeProduct(Abs(b), m - x);
    NonNegativeProduct(Abs(b), m + x);
  }

  /** Every input of a run has magnitude at most `m`. */
  ghost predicate Bounded(inputs: seq<real>, m: real) {
    forall i :: 0 <= i < |inputs| ==> Abs(inputs[i]) <= m
  }

  /** The invariant of a run: bounded last input and bounded energy. */
  ghost predicate Contained(c: Coefficients, h: History, m: real, bound: real) {
    Abs(h.in0) <= m && Energy(c, h.out0, h.out1) <= bound
  }

  /** `bound` is an energy that inputs of magnitude `m` cannot leave. */
  predicate Confines(c: Coefficients, rho: real, m: real, bound: real) {
    && 0.0 < rho < 1.0 && c.a1 <= rho * rho
    && (Abs(c.b0) + Abs(c.b1)) * m * ((Abs(c.b0) + Abs(c.b1)) * m) <= (1.0 - rho) * (1.0 - rho) * bound
  }

  lemma SmallDisturbance(c: Coefficients, rho: real, x: real, x0: real, m: real, bound: real)
    requires Confines(c, rho, m, bound) && Abs(x) <= m && Abs(x0) <= m
    ensures 0.0 < rho < 1.0 && c.a1 <= rho * rho
    ensures Drive(c, x, x0) * Drive(c, x, x0) <= (1.0 - rho) * (1.0 - rho) * bound
  {
    InputBounded(c, x, x0, m);
    hide Abs;
  }

  lemma StepContained(c: Coefficients, rho: real, h: History, x: real, m: real, bound: real)
    requires Stable(c) && Confines(c, rho, m, bound) && Contained(c, h, m, bound) && Abs(x) <= m
    ensures Contained(c, Next(c, h, x), m, bound)
  {
    hide Energy, Stable, Abs, Free, Drive, Next, Confines;
    SmallDisturbance(c, rho, x, h.in0, m, bound);
    NextOutput(c, h, x);
    StepKeepsBound(c, rho, h.out0, h.out1, Drive(c, x, h.in0), bound);
  }

  /** On every run with bounded input, of any length, the energy stays bounded. */
  lemma {:induction false} RunContained(c: Coefficients, rho: real, h: History, inputs: seq<real>, m: real, bound: real)
    requires Stable(c) && Confines(c, rho, m, bound) && Contained(c, h, m, bound) && Bounded(inputs, m)
    ensures Contained(c, Run(c, h, inputs), m, bound)
    decreases |inputs|
  {
    if inputs != [] {
      hide Stable, Confines, Contained, Next;
      StepContained(c, rho, h, inputs[0], m, bound);
      RunContained(c, rho, Next(c, h, inputs[0]), inputs[1..], m, bound);
    }
  }

  /** From rest, inputs of magnitude at most `m` never drive the pitch filter beyond 1.76 m. */
  lemma PitchFilterBounded(inputs: seq<real>, m: real)
    requires m >= 0.0 && Bounded(inputs, m)
    ensures Abs(Run(PITCH, REST, inputs).out0) <= 1.76 * m
  {
    var bound := 0.49 * m * (0.49 * m);
    SquareNonNegative(m);
    assert Energy(PITCH, 0.0, 0.0) == 0.0;
    PitchConfined(m, bound);
    var h := Run(PITCH, REST, inputs);
    RunContained(PITCH, 0.7537, REST, inputs, m, bound);
    EnergyNonNegative(PITCH, h.out0, h.out1);
    var e := Energy(PITCH, h.out0, h.out1);
    assert e <= bound;
    hide Energy, Run;
    assert h.out0 * h.out0 <= 1.76 * m * (1.76 * m);
    RootOfSquares(h.out0, 1.76 * m);
  }

  lemma PitchConfined(m: real, bound: real)
    requires m >= 0.0 && bound == 0.49 * m * (0.49 * m)
    ensures Stable(PITCH) && Confines(PITCH, 0.7537, m, bound)
  {
    SquareNonNegative(m);
    var g := Abs(PITCH.b0) + Abs(PITCH.b1);
    assert g == 0.1205843;
    assert g * m * (g * m) == 0.1205843 * 0.1205843 * (m * m);
    assert (1.0 - 0.7537) * (1.0 - 0.7537) * bound == 0.2463 * 0.2463 * 0.49 * 0.49 * (m * m);
  }

  lemma RootOfSquares(x: real, y: real)
    requires y >= 0.0 && x * x <= y * y
    ensures Abs(x) <= y
  {
    SquaresOrdered(Abs(x), y);
    assert Abs(x) * Abs(x) == x * x;
  }

  // ----- the response to a constant input

  function Pow(x: real, n: nat): real {
    if n == 0 then 1.0 else x * Pow(x, n - 1)
  }

  /** `g` is the output at which a constant input `x` would leave the filter at rest. */
  predicate SteadyOutput(c: Coefficients, x: real, g: real) {
    g == c.b0 * x + c.b1 * x - c.a0 * g - c.a1 * g
  }

  /** The pitch filter settles on its input, within 0.003 percent. */
  lemma PitchSettlesOnInput(x: real, g: real)
    requires SteadyOutput(PITCH, x, g)
    ensures Abs(g - x) <= 0.00003 * Abs(x)
  {
    assert 0.120581 * g == 0.1205843 * x;
  }

  function Repeat(x: real, n: nat): seq<real> {
    if n == 0 then [] else [x] + Repeat(x, n - 1)
  }

  /** With a constant input the distance to the steady output decays geometrically: its energy is
      multiplied by exactly a1 in every step. */
  lemma {:induction false} ConstantInputDecay(c: Coefficients, h: History, x: real, g: real, n: nat)
    requires SteadyOutput(c, x, g) && h.in0 == x
    ensures var k := Run(c, h, Repeat(x, n));
            Energy(c, k.out0 - g, k.out1 - g) == Pow(c.a1, n) * Energy(c, h.out0 - g, h.out1 - g)
    decreases n
  {
    hide Next, Energy, SteadyOutput;
    if n > 0 {
      ErrorStep(c, h, x, g);
      ConstantInputDecay(c, Next(c, h, x), x, g, n - 1);
      assert Repeat(x, n)[1..] == Repeat(x, n - 1);
      var e, p := Energy(c, h.out0 - g, h.out1 - g), Pow(c.a1, n - 1);
      assert p * (c.a1 * e) == c.a1 * p * e;
    }
  }

  lemma ErrorStep(c: Coefficients, h: History, x: real, g: real)
    requires SteadyOutput(c, x, g) && h.in0 == x
    ensures var k := Next(c, h, x);
            k.in0 == x && Energy(c, k.out0 - g, k.out1 - g) == c.a1 * Energy(c, h.out0 - g, h.out1 - g)
  {
    var k := Next(c, h, x);
    ZeroInputStep(c, h.out0 - g, h.out1 - g);
    assert k.out0 - g == Free(c, h.out0 - g, h.out1 - g);
    hide Energy;
  }
}
