/** The order of the shift register: how far apart two flipped bits must be to cancel. */
module Crc16Order {
  import opened Crc16

  /** The highest bit; fifteen shifts move it to the lowest. */
  const TOP: bv16 := 0x8000

  /** 2^15 - 1 == 7 * 31 * 151. */
  const ORDER: nat := 32767

  // ----- shifting by sums of distances

  lemma {:induction false} StepsAdd(r: bv16, m: nat, n: nat)
    ensures Steps(r, m + n) == Steps(Steps(r, m), n)
    decreases m
  {
    hide Step;
    if m > 0 {
      StepsAdd(Step(r), m - 1, n);
    }
  }

  lemma StepsSwap(r: bv16, m: nat, n: nat)
    ensures Steps(Steps(r, m), n) == Steps(Steps(r, n), m)
  {
    StepsAdd(r, m, n);
    StepsAdd(r, n, m);
  }

  lemma StepSwap(r: bv16, n: nat)
    ensures Steps(Step(r), n) == Step(Steps(r, n))
  {
    StepsSwap(r, 1, n);
    OneStep(r);
    OneStep(Steps(r, n));
  }

  lemma OneStep(r: bv16)
    ensures Steps(r, 1) == Step(r)
  {
    hide Step;
    assert Steps(Step(r), 0) == Step(r);
  }

  lemma {:induction false} StepsOfZero(n: nat)
    ensures Steps(0, n) == 0
    decreases n
  {
    if n > 0 {
      assert Step(0) == 0;
      StepsOfZero(n - 1);
    }
  }

  // ----- jumping ahead

  function Selected(w: bv16, v: bv16): bv16 {
    if IsOdd(w) then v else 0
  }

  /** The sum of the copies of `v` that the low `n` bits of `w` select, each shifted once for every bit
      above it, added to `acc` shifted `n` times. */
  function Horner(w: bv16, v: bv16, acc: bv16, n: nat): bv16
    decreases n
  {
    if n == 0 then acc else Horner(Half(w), v, Xor(Step(acc), Selected(w, v)), n - 1)
  }

  lemma SelectedShifts(w: bv16, v: bv16, m: nat)
    ensures Steps(Selected(w, v), m) == Selected(w, Steps(v, m))
  {
    StepsOfZero(m);
    hide IsOdd, Steps;
  }

  lemma {:induction false} HornerShifts(w: bv16, v: bv16, acc: bv16, n: nat, m: nat)
    ensures Steps(Horner(w, v, acc, n), m) == Horner(w, Steps(v, m), Steps(acc, m), n)
    decreases n
  {
    hide Steps, Step, Half, Xor, Selected;
    if n > 0 {
      HornerShifts(Half(w), v, Xor(Step(acc), Selected(w, v)), n - 1, m);
      StepsAreLinear(Step(acc), Selected(w, v), m);
      StepSwap(acc, m);
      SelectedShifts(w, v, m);
    }
  }

  /** Feeding bits one at a time is a sum of this kind. */
  lemma {:induction false} BitsAreHorner(w: bv16, acc: bv16, n: nat)
    ensures CrcBits(acc, BitsOf(w, n)) == Horner(w, Step(1), acc, n)
    decreases n
  {
    hide Step, Half, Xor, IsOdd;
    if n > 0 {
      var b := IsOdd(w);
      assert BitsOf(w, n)[1..] == BitsOf(Half(w), n - 1);
      FedBit(acc, b);
      BitsAreHorner(Half(w), Xor(Step(acc), Selected(w, Step(1))), n - 1);
    }
  }

  lemma FedBit(acc: bv16, b: bool)
    ensures CrcBit(acc, b) == Xor(Step(acc), if b then Step(1) else 0)
  {
    StepIsLinear(acc, Bit(b));
    StepOfZero();
    hide Step, Xor;
  }

  lemma StepOfZero()
    ensures Step(0) == 0
  {
  }

  lemma TopReachesBottom()
    ensures Steps(TOP, 16) == Step(1) && Steps(TOP, 15) == 1
  {
    FourSteps(0x8000);
    FourSteps(0x800);
    FourSteps(0x80);
    ThreeSteps(8);
    hide Steps, Step;
    StepsAdd(0x80, 4, 3);
    StepsAdd(0x800, 4, 7);
    StepsAdd(0x8000, 4, 11);
    StepsAdd(0x8000, 15, 1);
    OneStep(1);
  }

  lemma FourSteps(x: bv16)
    requires x == 0x8000 || x == 0x800 || x == 0x80
    ensures Steps(x, 4) == x >> 4
  {
    assert Step(x) == x >> 1 && Step(x >> 1) == x >> 2 && Step(x >> 2) == x >> 3 && Step(x >> 3) == x >> 4;
    hide Step;
    assert Steps(x >> 4, 0) == x >> 4;
    assert Steps(x >> 3, 1) == x >> 4;
    assert Steps(x >> 2, 2) == x >> 4;
    assert Steps(x >> 1, 3) == x >> 4;
  }

  lemma ThreeSteps(x: bv16)
    requires x == 8
    ensures Steps(x, 3) == 1
  {
    assert Step(8) == 4 && Step(4) == 2 && Step(2) == 1;
    hide Step;
    assert Steps(1, 0) == 1;
    assert Steps(2, 1) == 1;
    assert Steps(4, 2) == 1;
  }

  /** Every register is such a sum of shifts of the highest bit. */
  lemma HornerOfTop(x: bv16)
    ensures Horner(x, TOP, 0, 16) == x
  {
    TopReachesBottom();
    hide Steps, Step, Horner, Xor, Pack, BitsOf;
    HornerShifts(x, TOP, 0, 16, 16);
    StepsOfZero(16);
    BitsAreHorner(x, 0, 16);
    BitsAtOnce(0, BitsOf(x, 16));
    FullRegisterPacks(x);
    StepsAreInjective(Horner(x, TOP, 0, 16), x, 16);
  }

  lemma FullRegisterPacks(x: bv16)
    ensures Xor(0, Pack(BitsOf(x, 16))) == x
  {
    PackBitsOf(x, 16);
    XorWithZero(x);
    hide Xor, Pack, BitsOf;
  }

  lemma XorWithZero(x: bv16)
    ensures Xor(0, x) == x
  {
  }

  /** So two distances add up to one sum of sixteen terms. */
  lemma Added(m: nat, n: nat, w: bv16, v: bv16)
    requires Steps(TOP, m) == w && Steps(TOP, n) == v
    ensures Steps(TOP, m + n) == Horner(w, v, 0, 16)
  {
    hide Steps, Horner;
    StepsAdd(TOP, m, n);
    HornerOfTop(w);
    HornerShifts(w, TOP, 0, 16, n);
    StepsOfZero(n);
  }

  // ----- the distances after which the highest bit comes back

  predicate Returns(n: nat) {
    Steps(TOP, n) == TOP
  }

  /** Sixteen rounds, four at a time. */
  function Round(w: bv16, v: bv16, acc: bv16): bv16 {
    Xor(Step(acc), Selected(w, v))
  }

  function FourRounds(w: bv16, v: bv16, acc: bv16): bv16 {
    Round(w >> 3, v, Round(w >> 2, v, Round(w >> 1, v, Round(w, v, acc))))
  }

  function Rest(w: bv16): bv16 {
    w >> 4
  }

  function Sum(w: bv16, v: bv16): bv16 {
    var (w1, w2, w3) := (Rest(w), Rest(Rest(w)), Rest(Rest(Rest(w))));
    FourRounds(w3, v, FourRounds(w2, v, FourRounds(w1, v, FourRounds(w, v, 0))))
  }

  lemma FourRoundsOn(w: bv16, v: bv16, acc: bv16, n: nat)
    requires n >= 4
    ensures Horner(w, v, acc, n) == Horner(Rest(w), v, FourRounds(w, v, acc), n - 4)
  {
    assert Half(w) == w >> 1 && Half(w >> 1) == w >> 2 && Half(w >> 2) == w >> 3 && Half(w >> 3) == w >> 4;
    hide Half, Step, Xor, Selected;
    var a1 := Round(w, v, acc);
    var a2 := Round(w >> 1, v, a1);
    var a3 := Round(w >> 2, v, a2);
    assert Horner(w, v, acc, n) == Horner(w >> 1, v, a1, n - 1);
    assert Horner(w >> 1, v, a1, n - 1) == Horner(w >> 2, v, a2, n - 2);
    assert Horner(w >> 2, v, a2, n - 2) == Horner(w >> 3, v, a3, n - 3);
  }

  lemma SumIsHorner(w: bv16, v: bv16)
    ensures Horner(w, v, 0, 16) == Sum(w, v)
  {
    hide FourRounds, Horner, Rest;
    var (w1, w2, w3) := (Rest(w), Rest(Rest(w)), Rest(Rest(Rest(w))));
    var a1 := FourRounds(w, v, 0);
    var a2 := FourRounds(w1, v, a1);
    var a3 := FourRounds(w2, v, a2);
    FourRoundsOn(w, v, 0, 16);
    FourRoundsOn(w1, v, a1, 12);
    FourRoundsOn(w2, v, a2, 8);
    FourRoundsOn(w3, v, a3, 4);
    NoRounds(Rest(w3), v, FourRounds(w3, v, a3));
  }

  lemma NoRounds(w: bv16, v: bv16, acc: bv16)
    ensures Horner(w, v, acc, 0) == acc
  {
  }

  lemma SumOfDistances(m: nat, n: nat, w: bv16, v: bv16)
    requires Steps(TOP, m) == w && Steps(TOP, n) == v
    ensures Steps(TOP, m + n) == Sum(w, v)
  {
    hide Steps, Horner, Sum;
    Added(m, n, w, v);
    SumIsHorner(w, v);
  }

  lemma Doubled1()
    ensures Steps(TOP, 1) == 0x4000 && Steps(TOP, 2) == 0x2000 && Steps(TOP, 4) == 0x800
    ensures Steps(TOP, 8) == 0x80 && Steps(TOP, 16) == 0xA001 && Steps(TOP, 32) == 0xE801
  {
    assert Sum(0x4000, 0x4000) == 0x2000;
    assert Sum(0x2000, 0x2000) == 0x800;
    assert Sum(0x800, 0x800) == 0x80;
    assert Sum(0x80, 0x80) == 0xA001;
    assert Sum(0xA001, 0xA001) == 0xE801;
    OneStep(TOP);
    assert Step(TOP) == 0x4000;
    hide Steps, Step, Sum;
    SumOfDistances(1, 1, 0x4000, 0x4000);
    SumOfDistances(2, 2, 0x2000, 0x2000);
    SumOfDistances(4, 4, 0x800, 0x800);
    SumOfDistances(8, 8, 0x80, 0x80);
    SumOfDistances(16, 16, 0xA001, 0xA001);
  }

  lemma Doubled2()
    ensures Steps(TOP, 32) == 0xE801 && Steps(TOP, 64) == 0xC881 && Steps(TOP, 128) == 0x6080
    ensures Steps(TOP, 256) == 0x8801 && Steps(TOP, 512) == 0xE081 && Steps(TOP, 1024) == 0x6800
  {
    assert Sum(0xE801, 0xE801) == 0xC881;
    assert Sum(0xC881, 0xC881) == 0x6080;
    assert Sum(0x6080, 0x6080) == 0x8801;
    assert Sum(0x8801, 0x8801) == 0xE081;
    assert Sum(0xE081, 0xE081) == 0x6800;
    hide Steps, Step, Sum;
    Doubled1();
    SumOfDistances(32, 32, 0xE801, 0xE801);
    SumOfDistances(64, 64, 0xC881, 0xC881);
    SumOfDistances(128, 128, 0x6080, 0x6080);
    SumOfDistances(256, 256, 0x8801, 0x8801);
    SumOfDistances(512, 512, 0xE081, 0xE081);
  }

  lemma Doubled3()
    ensures Steps(TOP, 1024) == 0x6800 && Steps(TOP, 2048) == 0x2880 && Steps(TOP, 4096) == 0xA881
    ensures Steps(TOP, 8192) == 0x4880 && Steps(TOP, 16384) == 0x8081 && Steps(TOP, 32768) == 0x4000
  {
    assert Sum(0x6800, 0x6800) == 0x2880;
    assert Sum(0x2880, 0x2880) == 0xA881;
    assert Sum(0xA881, 0xA881) == 0x4880;
    assert Sum(0x4880, 0x4880) == 0x8081;
    assert Sum(0x8081, 0x8081) == 0x4000;
    hide Steps, Step, Sum;
    Doubled2();
    SumOfDistances(1024, 1024, 0x6800, 0x6800);
    SumOfDistances(2048, 2048, 0x2880, 0x2880);
    SumOfDistances(4096, 4096, 0xA881, 0xA881);
    SumOfDistances(8192, 8192, 0x4880, 0x4880);
    SumOfDistances(16384, 16384, 0x8081, 0x8081);
  }

  lemma Not217()
    ensures !Returns(217)
  {
    assert Sum(0x6080, 0xC881) == 0x6668;
    assert Sum(0x6668, 0xA001) == 0xEAAF;
    assert Sum(0xEAAF, 0x80) == 0x7CAA;
    assert Sum(0x7CAA, 0x4000) == 0x3E55;
    hide Steps, Sum;
    Doubled1();
    Doubled2();
    Doubled3();
    SumOfDistances(128, 64, 0x6080, 0xC881);
    SumOfDistances(192, 16, 0x6668, 0xA001);
    SumOfDistances(208, 8, 0xEAAF, 0x80);
    SumOfDistances(216, 1, 0x7CAA, 0x4000);
  }

  lemma Not1057()
    ensures !Returns(1057)
  {
    assert Sum(0x6800, 0xE801) == 0xDC81;
    assert Sum(0xDC81, 0x4000) == 0xCE41;
    hide Steps, Sum;
    Doubled1();
    Doubled2();
    Doubled3();
    SumOfDistances(1024, 32, 0x6800, 0xE801);
    SumOfDistances(1056, 1, 0xDC81, 0x4000);
  }

  lemma Not4681()
    ensures !Returns(4681)
  {
    assert Sum(0xA881, 0xE081) == 0x7A48;
    assert Sum(0x7A48, 0xC881) == 0x51DE;
    assert Sum(0x51DE, 0x80) == 0x58D1;
    assert Sum(0x58D1, 0x4000) == 0x8C69;
    hide Steps, Sum;
    Doubled1();
    Doubled2();
    Doubled3();
    SumOfDistances(4096, 512, 0xA881, 0xE081);
    SumOfDistances(4608, 64, 0x7A48, 0xC881);
    SumOfDistances(4672, 8, 0x51DE, 0x80);
    SumOfDistances(4680, 1, 0x58D1, 0x4000);
  }

  lemma FullTurn()
    ensures Returns(ORDER)
  {
    hide Steps;
    Doubled1();
    Doubled3();
    StepsAdd(TOP, ORDER, 1);
    OneStep(TOP);
    OneStep(Steps(TOP, ORDER));
    StepIsInjective(Steps(TOP, ORDER), TOP);
  }

  // ----- no earlier return

  lemma ReturnsTogether(m: nat, n: nat)
    requires Returns(n)
    ensures Returns(m + n) <==> Returns(m)
  {
    hide Steps;
    StepsAdd(TOP, m, n);
    if Returns(m + n) {
      StepsAreInjective(Steps(TOP, m), TOP, n);
    }
  }

  lemma {:induction false} MultiplesReturn(n: nat, k: nat)
    requires Returns(n)
    ensures Returns(k * n)
    decreases k
  {
    if k > 0 {
      MultiplesReturn(n, k - 1);
      hide Steps;
      ReturnsTogether((k - 1) * n, n);
      assert k * n == (k - 1) * n + n;
    } else {
      assert 0 * n == 0;
    }
  }

  predicate Divides(g: nat, n: nat) {
    g > 0 && n % g == 0
  }

  lemma DividesSum(a: nat, b: nat, g: nat)
    requires Divides(g, a) && Divides(g, b)
    ensures Divides(g, a + b)
  {
    var (x, y) := (a / g, b / g);
    assert a == g * x && b == g * y && a + b == g * (x + y);
    Quotient(g, x + y);
  }

  lemma Quotient(g: nat, x: nat)
    requires g > 0
    ensures g * x % g == 0 && g * x / g == x
  {
    var (q, r) := (g * x / g, g * x % g);
    assert g * x == g * q + r;
    SmallMultiple(g, x - q, r);
  }

  lemma SmallMultiple(g: nat, d: int, r: nat)
    requires g > 0 && r < g && g * d == r
    ensures d == 0 && r == 0
  {
    assert g * d == g * (d - 1) + g;
  }

  lemma DividesItself(a: nat)
    requires a > 0
    ensures Divides(a, a)
  {
  }

  /** If n * a and n * b are returns, then so is n * g for their greatest common divisor g. */
  lemma {:induction false} DivisorReturns(n: nat, a: nat, b: nat) returns (g: nat)
    requires a > 0 && b > 0 && Returns(n * a) && Returns(n * b)
    ensures Returns(n * g) && Divides(g, a) && Divides(g, b)
    decreases a + b
  {
    hide Returns, Divides;
    if a == b {
      g := a;
      DividesItself(a);
    } else if a > b {
      assert n * a == n * (a - b) + n * b;
      ReturnsTogether(n * (a - b), n * b);
      g := DivisorReturns(n, a - b, b);
      DividesSum(a - b, b, g);
    } else {
      assert n * b == n * (b - a) + n * a;
      ReturnsTogether(n * (b - a), n * a);
      g := DivisorReturns(n, a, b - a);
      DividesSum(b - a, a, g);
    }
  }

  /** The three primes of the order. */
  predicate Factor(p: nat) {
    p == 7 || p == 31 || p == 151
  }

  lemma SmallDivisor(p: nat, n: nat)
    requires Factor(p) && 0 < n <= 12 && p % n == 0
    ensures n == 1 || n == p
  {
  }

  lemma ProductOfLarge(g: nat, h: nat)
    requires g >= 13 && h >= 13
    ensures g * h >= 13 * 13
  {
    assert g * h == 13 * h + (g - 13) * h;
  }

  lemma SmallFactor(g: nat, h: nat)
    requires g * h <= 151
    ensures g <= 12 || h <= 12
  {
    if g >= 13 && h >= 13 {
      ProductOfLarge(g, h);
    }
  }

  lemma FactorIsPrime(p: nat, g: nat)
    requires Factor(p) && Divides(g, p)
    ensures g == 1 || g == p
  {
    var h := p / g;
    assert g * h == p;
    SmallFactor(g, h);
    if g <= 12 {
      SmallDivisor(p, g);
    } else {
      CofactorDivides(g, h, p);
      SmallDivisor(p, h);
    }
  }

  lemma CofactorDivides(g: nat, h: nat, p: nat)
    requires g * h == p && p > 0
    ensures h > 0 && p % h == 0 && (h == 1 ==> g == p) && (h == p ==> g == 1)
  {
    if h > 0 {
      Quotient(h, g);
      if h == p {
        SmallMultiple(p, g - 1, 0);
      }
    }
  }

  lemma DivisorIsSmaller(g: nat, n: nat)
    requires Divides(g, n) && n > 0
    ensures g <= n
  {
  }

  /** A distance that one of the primes does not divide leads to a return of the order without it. */
  lemma ReturnsWithout(d: nat, p: nat, n: nat)
    requires Factor(p) && n * p == ORDER && Returns(ORDER) && Returns(d) && d % p != 0
    ensures Returns(n)
  {
    hide Returns, Divides;
    var r := d % p;
    MultiplesReturn(d, n);
    MultiplesReturn(ORDER, d / p);
    SplitDistance(d, p, n);
    ReturnsTogether(n * r, d / p * ORDER);
    var g := DivisorReturns(n, r, p);
    FactorIsPrime(p, g);
    DivisorIsSmaller(g, r);
    assert n * 1 == n;
  }

  lemma SplitDistance(d: nat, p: nat, n: nat)
    requires p > 0 && n * p == ORDER
    ensures n * d == n * (d % p) + d / p * ORDER
  {
    assert d == d % p + d / p * p;
    assert n * d == n * (d % p) + n * (d / p * p);
    assert n * (d / p * p) == d / p * (n * p);
  }

  /** A number that all three primes divide is a multiple of the order. */
  lemma AllThree(d: nat)
    requires d % 7 == 0 && d % 31 == 0 && d % 151 == 0
    ensures d % ORDER == 0
  {
    var (a, b, c) := (d / 7, d / 31, d / 151);
    var e := 9 * b - 2 * a;
    assert b == 7 * e && d == 217 * e;
    var k := 23 * e - 16 * c;
    assert c == 217 * k && d == ORDER * k;
  }

  lemma NoEarlyReturn(d: nat)
    requires 0 < d < ORDER
    ensures !Returns(d)
  {
    hide Returns;
    FullTurn();
    Not217();
    Not1057();
    Not4681();
    assert d % 7 != 0 || d % 31 != 0 || d % 151 != 0 by {
      if d % 7 == 0 && d % 31 == 0 && d % 151 == 0 {
        AllThree(d);
      }
    }
    if Returns(d) {
      SomeReturn(d);
    }
  }

  lemma SomeReturn(d: nat)
    requires d % 7 != 0 || d % 31 != 0 || d % 151 != 0
    requires Returns(ORDER) && Returns(d)
    ensures Returns(217) || Returns(1057) || Returns(4681)
  {
    hide Returns;
    if d % 7 != 0 {
      ReturnsWithout(d, 7, 4681);
    } else if d % 31 != 0 {
      ReturnsWithout(d, 31, 1057);
    } else {
      ReturnsWithout(d, 151, 217);
    }
  }

  /** The register comes back after n shifts if and only if n is a multiple of 32767. */
  lemma ReturnsIff(n: nat)
    ensures Returns(n) <==> n % ORDER == 0
  {
    hide Steps, Returns;
    var r := n % ORDER;
    FullTurn();
    assert n == r + n / ORDER * ORDER;
    MultiplesReturn(ORDER, n / ORDER);
    ReturnsTogether(r, n / ORDER * ORDER);
    if r > 0 {
      NoEarlyReturn(r);
    } else {
      NothingReturns();
    }
  }

  lemma NothingReturns()
    ensures Returns(0)
  {
  }

  lemma LowestReturnsIff(n: nat)
    ensures Steps(1, n) == 1 <==> n % ORDER == 0
  {
    hide Steps;
    TopReachesBottom();
    StepsSwap(TOP, 15, n);
    if Steps(1, n) == 1 {
      StepsAreInjective(Steps(TOP, n), TOP, 15);
    }
    ReturnsIff(n);
  }

  // ----- two flipped bits

  /** Under the same input the difference of two registers is shifted like a register of its own. */
  lemma {:induction false} DifferenceShifts(a: bv16, b: bv16, bits: seq<bool>)
    ensures Xor(CrcBits(a, bits), CrcBits(b, bits)) == Steps(Xor(a, b), |bits|)
    decreases |bits|
  {
    hide Step, Xor, Bit;
    if bits != [] {
      var t := Bit(bits[0]);
      XorTwice(a, b, t);
      StepIsLinear(Xor(a, t), Xor(b, t));
      DifferenceShifts(CrcBit(a, bits[0]), CrcBit(b, bits[0]), bits[1..]);
    }
  }

  lemma OppositeBits(s: bv16, u: bool)
    ensures Xor(CrcBit(s, u), CrcBit(s, !u)) == Step(1)
  {
    BitsOpposed(s, u);
    StepIsLinear(Xor(s, Bit(u)), Xor(s, Bit(!u)));
    hide Step, Xor, Bit;
  }

  lemma BitsOpposed(s: bv16, u: bool)
    ensures Xor(Xor(s, Bit(u)), Xor(s, Bit(!u))) == 1
  {
  }

  lemma OppositeBitsMeet(a: bv16, b: bv16, u: bool)
    ensures CrcBit(a, u) == CrcBit(b, !u) <==> Xor(a, b) == 1
  {
    BitsMeet(a, b, u);
    hide Step, Xor, Bit;
    if CrcBit(a, u) == CrcBit(b, !u) {
      StepIsInjective(Xor(a, Bit(u)), Xor(b, Bit(!u)));
    }
  }

  lemma BitsMeet(a: bv16, b: bv16, u: bool)
    ensures Xor(a, Bit(u)) == Xor(b, Bit(!u)) <==> Xor(a, b) == 1
  {
    if Xor(a, Bit(u)) == Xor(b, Bit(!u)) {
      EqualMeansOne(a, b, u);
    }
    if Xor(a, b) == 1 {
      OneMeansEqual(a, b, u);
    }
    hide Xor, Bit;
  }

  lemma EqualMeansOne(a: bv16, b: bv16, u: bool)
    requires Xor(a, Bit(u)) == Xor(b, Bit(!u))
    ensures Xor(a, b) == 1
  {
  }

  lemma OneMeansEqual(a: bv16, b: bv16, u: bool)
    requires Xor(a, b) == 1
    ensures Xor(a, Bit(u)) == Xor(b, Bit(!u))
  {
    if u {
      OneApart(a, b);
    } else {
      assert Xor(b, a) == 1;
      OneApart(b, a);
    }
    hide Xor;
  }

  lemma OneApart(a: bv16, b: bv16)
    requires Xor(a, b) == 1
    ensures Xor(a, 1) == Xor(b, 0)
  {
  }

  /** A flipped bit, `mid` unchanged, and another flipped bit. */
  lemma TwoFlips(s: bv16, u: bool, mid: seq<bool>, v: bool, suffix: seq<bool>)
    ensures CrcBits(s, [u] + mid + [v] + suffix) == CrcBits(s, [!u] + mid + [!v] + suffix) <==> (|mid| + 1) % ORDER == 0
  {
    hide CrcBits, CrcBit, Steps, Step, Xor;
    var (a, b) := (CrcBits(CrcBit(s, u), mid), CrcBits(CrcBit(s, !u), mid));
    ThroughFour(s, u, mid, v, suffix);
    ThroughFour(s, !u, mid, !v, suffix);
    OppositeBits(s, u);
    DifferenceShifts(CrcBit(s, u), CrcBit(s, !u), mid);
    StepsAdd(1, 1, |mid|);
    OneStep(1);
    LowestReturnsIff(|mid| + 1);
    OppositeBitsMeet(a, b, v);
    if CrcBits(CrcBit(a, v), suffix) == CrcBits(CrcBit(b, !v), suffix) {
      BitsKeepDifference(CrcBit(a, v), CrcBit(b, !v), suffix);
    }
  }

  lemma ThroughFour(s: bv16, u: bool, mid: seq<bool>, v: bool, suffix: seq<bool>)
    ensures CrcBits(s, [u] + mid + [v] + suffix) == CrcBits(CrcBit(CrcBits(CrcBit(s, u), mid), v), suffix)
  {
    hide CrcBits, CrcBit;
    BitsConcatenate(s, [u] + mid + [v], suffix);
    BitsConcatenate(s, [u] + mid, [v]);
    BitsConcatenate(s, [u], mid);
    SingleBit(s, u);
    SingleBit(CrcBits(CrcBit(s, u), mid), v);
  }

  lemma SingleBit(s: bv16, u: bool)
    ensures CrcBits(s, [u]) == CrcBit(s, u)
  {
    assert [u][1..] == [];
    hide CrcBit;
  }

  /** The two streams differ at exactly the positions `p` and `q`. */
  ghost predicate DifferAt(x: seq<bool>, y: seq<bool>, p: nat, q: nat) {
    && |x| == |y| && p < q < |x|
    && forall i :: 0 <= i < |x| ==> (x[i] != y[i] <==> i == p || i == q)
  }

  lemma TakenApart(x: seq<bool>, p: nat, q: nat)
    requires p < q < |x|
    ensures x == x[..p] + ([x[p]] + x[p + 1..q] + [x[q]] + x[q + 1..])
  {
  }

  lemma SameElsewhere(x: seq<bool>, y: seq<bool>, p: nat, q: nat)
    requires DifferAt(x, y, p, q)
    ensures y == x[..p] + ([!x[p]] + x[p + 1..q] + [!x[q]] + x[q + 1..])
  {
    TakenApart(y, p, q);
    assert y[..p] == x[..p] && y[p + 1..q] == x[p + 1..q] && y[q + 1..] == x[q + 1..];
  }

  lemma FlipsInStream(r: bv16, x: seq<bool>, y: seq<bool>, p: nat, q: nat)
    requires DifferAt(x, y, p, q)
    ensures CrcBits(r, x) == CrcBits(r, y) <==> (q - p) % ORDER == 0
  {
    TakenApart(x, p, q);
    SameElsewhere(x, y, p, q);
    hide CrcBits, DifferAt;
    var (prefix, mid, suffix) := (x[..p], x[p + 1..q], x[q + 1..]);
    BitsConcatenate(r, prefix, [x[p]] + mid + [x[q]] + suffix);
    BitsConcatenate(r, prefix, [!x[p]] + mid + [!x[q]] + suffix);
    TwoFlips(CrcBits(r, prefix), x[p], mid, x[q], suffix);
  }

  /** Two flipped bits cancel if and only if they are a multiple of 32767 positions apart. */
  lemma TwoBitsCancelIff(m1: seq<bv8>, m2: seq<bv8>, p: nat, q: nat)
    requires |m1| == |m2| && DifferAt(MessageBits(m1), MessageBits(m2), p, q)
    ensures Crc(m1) == Crc(m2) <==> (q - p) % ORDER == 0
  {
    hide CrcFrom, CrcBits, MessageBits;
    BytesAreBits(INITIAL, m1);
    BytesAreBits(INITIAL, m2);
    FlipsInStream(INITIAL, MessageBits(m1), MessageBits(m2), p, q);
  }

  // ----- up to three flipped bits

  /** How many of the bits are set. */
  function Ones(bits: seq<bool>): nat
    decreases |bits|
  {
    if bits == [] then 0 else (if bits[0] then 1 else 0) + Ones(bits[1..])
  }

  lemma {:induction false} OddOrEven(bits: seq<bool>)
    ensures OddBits(bits) <==> Ones(bits) % 2 == 1
    decreases |bits|
  {
    if bits != [] {
      OddOrEven(bits[1..]);
    }
  }

  lemma {:induction false} NoOnes(bits: seq<bool>)
    requires Ones(bits) == 0
    ensures forall i :: 0 <= i < |bits| ==> !bits[i]
    decreases |bits|
  {
    if bits != [] {
      NoOnes(bits[1..]);
    }
  }

  lemma {:induction false} OneOne(bits: seq<bool>) returns (p: nat)
    requires Ones(bits) == 1
    ensures p < |bits| && forall i :: 0 <= i < |bits| ==> (bits[i] <==> i == p)
    decreases |bits|
  {
    if bits[0] {
      NoOnes(bits[1..]);
      p := 0;
    } else {
      var k := OneOne(bits[1..]);
      p := k + 1;
    }
  }

  lemma {:induction false} TwoOnes(bits: seq<bool>) returns (p: nat, q: nat)
    requires Ones(bits) == 2
    ensures p < q < |bits| && forall i :: 0 <= i < |bits| ==> (bits[i] <==> i == p || i == q)
    decreases |bits|
  {
    if bits[0] {
      var k := OneOne(bits[1..]);
      p, q := 0, k + 1;
    } else {
      var k, l := TwoOnes(bits[1..]);
      p, q := k + 1, l + 1;
    }
  }

  /** One, two or three flipped bits, wherever they are, change the CRC of every message of at most 4095
      bytes. */
  lemma ThreeBitsDetected(m1: seq<bv8>, m2: seq<bv8>)
    requires |m1| == |m2| <= 4095 && 1 <= Ones(Differences(MessageBits(m1), MessageBits(m2))) <= 3
    ensures Crc(m1) != Crc(m2)
  {
    hide Crc, MessageBits;
    var d := Differences(MessageBits(m1), MessageBits(m2));
    OddOrEven(d);
    if Ones(d) == 2 {
      var p, q := TwoOnes(d);
      var (x, y) := (MessageBits(m1), MessageBits(m2));
      forall i | 0 <= i < |x|
        ensures x[i] != y[i] <==> i == p || i == q
      {
        assert d[i] == (x[i] != y[i]);
      }
      TwoBitsCancelIff(m1, m2, p, q);
    } else {
      OddErrorsDetected(m1, m2);
    }
  }
}
