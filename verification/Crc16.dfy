/** The CRC-16 of section 6.2.2 of the MODBUS over Serial Line Specification V1.02, bit by bit,
    and what it detects. Nothing in this module depends on lookup tables. */
module Crc16 {

  const INITIAL: bv16 := 0xFFFF
  const POLYNOMIAL: bv16 := 0xA001

  /** Exclusive or. The operators below are named so that a proof can keep them folded. */
  function Xor(a: bv16, b: bv16): bv16 {
    a ^ b
  }

  function Half(r: bv16): bv16 {
    r >> 1
  }

  predicate IsOdd(r: bv16) {
    r & 1 == 1
  }

  function Bit(b: bool): bv16 {
    if b then 1 else 0
  }

  /** One shift of the reflected register. */
  function Step(r: bv16): bv16 {
    if IsOdd(r) then Xor(Half(r), POLYNOMIAL) else Half(r)
  }

  function Steps(r: bv16, n: nat): bv16
    decreases n
  {
    if n == 0 then r else Steps(Step(r), n - 1)
  }

  /** A byte is exclusive-ored into the low half of the register, which is then shifted eight times. */
  function CrcByte(r: bv16, b: bv8): bv16 {
    Steps(Xor(r, b as bv16), 8)
  }

  /** The register after `message`, starting from `r`. */
  function CrcFrom(r: bv16, message: seq<bv8>): bv16
    decreases |message|
  {
    if message == [] then r else CrcFrom(CrcByte(r, message[0]), message[1..])
  }

  function Crc(message: seq<bv8>): bv16 {
    CrcFrom(INITIAL, message)
  }

  /** The same computation on a stream of single bits, least significant bit of each byte first. */
  function CrcBits(r: bv16, bits: seq<bool>): bv16
    decreases |bits|
  {
    if bits == [] then r else CrcBits(CrcBit(r, bits[0]), bits[1..])
  }

  function CrcBit(r: bv16, b: bool): bv16 {
    Step(Xor(r, Bit(b)))
  }

  /** The low `n` bits of `x`, least significant first. */
  function BitsOf(x: bv16, n: nat): (bits: seq<bool>)
    ensures |bits| == n
    decreases n
  {
    if n == 0 then [] else [IsOdd(x)] + BitsOf(Half(x), n - 1)
  }

  function ByteBits(b: bv8): (bits: seq<bool>)
    ensures |bits| == 8
  {
    BitsOf(b as bv16, 8)
  }

  function MessageBits(message: seq<bv8>): (bits: seq<bool>)
    ensures |bits| == 8 * |message|
    decreases |message|
  {
    if message == [] then [] else ByteBits(message[0]) + MessageBits(message[1..])
  }

  // ----- the register as a linear, invertible shift register

  lemma XorAssociates(a: bv16, b: bv16, c: bv16)
    ensures Xor(Xor(a, b), c) == Xor(a, Xor(b, c))
  {
  }

  lemma XorSwaps(a: bv16, b: bv16, c: bv16)
    ensures Xor(Xor(a, c), b) == Xor(Xor(a, b), c)
    ensures Xor(a, Xor(b, c)) == Xor(Xor(a, b), c)
  {
    XorAssociates(a, c, b);
    XorAssociates(a, b, c);
    XorCommutes(b, c);
    hide Xor;
  }

  lemma XorCommutes(a: bv16, b: bv16)
    ensures Xor(a, b) == Xor(b, a)
  {
  }

  lemma XorZero(a: bv16)
    ensures Xor(a, 0) == a && Xor(a, a) == 0
  {
  }

  lemma XorTwice(a: bv16, b: bv16, c: bv16)
    ensures Xor(Xor(a, c), Xor(b, c)) == Xor(a, b)
  {
    XorSwaps(Xor(a, c), b, c);
    XorSwaps(a, c, c);
    XorAssociates(a, c, c);
    XorZero(c);
    XorZero(a);
    hide Xor;
  }

  lemma XorCancels(a: bv16, b: bv16, c: bv16)
    ensures Xor(a, c) == Xor(b, c) <==> a == b
    ensures Xor(c, a) == Xor(c, b) <==> a == b
  {
  }

  lemma HalvesOfSum(a: bv16, b: bv16)
    ensures Half(Xor(a, b)) == Xor(Half(a), Half(b))
    ensures IsOdd(Xor(a, b)) == (IsOdd(a) != IsOdd(b))
  {
  }

  lemma StepIsLinear(a: bv16, b: bv16)
    ensures Step(Xor(a, b)) == Xor(Step(a), Step(b))
  {
    HalvesOfSum(a, b);
    XorSwaps(Half(a), Half(b), POLYNOMIAL);
    XorTwice(Half(a), Half(b), POLYNOMIAL);
    hide Xor, Half, IsOdd;
  }

  lemma {:induction false} StepsAreLinear(a: bv16, b: bv16, n: nat)
    ensures Steps(Xor(a, b), n) == Xor(Steps(a, n), Steps(b, n))
    decreases n
  {
    hide Xor, Step;
    if n > 0 {
      StepIsLinear(a, b);
      StepsAreLinear(Step(a), Step(b), n - 1);
    }
  }

  lemma StepIsInjective(a: bv16, b: bv16)
    requires Step(a) == Step(b)
    ensures a == b
  {
  }

  lemma {:induction false} StepsAreInjective(a: bv16, b: bv16, n: nat)
    requires Steps(a, n) == Steps(b, n)
    ensures a == b
    decreases n
  {
    hide Step;
    if n > 0 {
      StepsAreInjective(Step(a), Step(b), n - 1);
      StepIsInjective(a, b);
    }
  }

  /** Two registers that differ stay different under the same input. */
  lemma {:induction false} BitsKeepDifference(a: bv16, b: bv16, bits: seq<bool>)
    requires CrcBits(a, bits) == CrcBits(b, bits)
    ensures a == b
    decreases |bits|
  {
    hide Step, Xor, Bit;
    if bits != [] {
      BitsKeepDifference(CrcBit(a, bits[0]), CrcBit(b, bits[0]), bits[1..]);
      StepIsInjective(Xor(a, Bit(bits[0])), Xor(b, Bit(bits[0])));
      XorCancels(a, b, Bit(bits[0]));
    }
  }

  // ----- bits and bytes

  lemma {:induction false} BitsConcatenate(r: bv16, a: seq<bool>, b: seq<bool>)
    ensures CrcBits(r, a + b) == CrcBits(CrcBits(r, a), b)
    decreases |a|
  {
    hide CrcBit;
    if a == [] {
      assert a + b == b;
    } else {
      assert (a + b)[1..] == a[1..] + b;
      BitsConcatenate(CrcBit(r, a[0]), a[1..], b);
    }
  }

  /** At most sixteen bits as one register value, first bit least significant. */
  function Pack(bits: seq<bool>): bv16
    requires |bits| <= 16
    decreases |bits|
  {
    if bits == [] then 0 else ShiftIn(bits[0], Pack(bits[1..]))
  }

  function ShiftIn(b: bool, p: bv16): bv16 {
    Bit(b) | (p << 1)
  }

  /** No bit of `p` at position `n` or above is set. */
  predicate FitsIn(p: bv16, n: nat)
    requires n <= 16
  {
    n == 16 || p >> n == 0
  }

  lemma ShiftInFits(b: bool, p: bv16, n: nat)
    requires n < 16 && FitsIn(p, n)
    ensures FitsIn(ShiftIn(b, p), n + 1)
    ensures FitsIn(p, 15)
  {
    if
    case n == 0 => case n == 1 => case n == 2 => case n == 3 =>
    case n == 4 => case n == 5 => case n == 6 => case n == 7 =>
    case n == 8 => case n == 9 => case n == 10 => case n == 11 =>
    case n == 12 => case n == 13 => case n == 14 => case n == 15 =>
  }

  lemma {:induction false} PackFits(bits: seq<bool>)
    requires |bits| <= 16
    ensures FitsIn(Pack(bits), |bits|)
    ensures |bits| <= 15 ==> FitsIn(Pack(bits), 15)
    decreases |bits|
  {
    if bits == [] {
    } else {
      hide FitsIn, ShiftIn;
      PackFits(bits[1..]);
      ShiftInFits(bits[0], Pack(bits[1..]), |bits| - 1);
      if |bits| <= 15 {
        ShiftInFits(bits[0], Pack(bits), |bits|);
      }
    }
  }

  lemma ShiftInIsInjective(a: bool, p: bv16, b: bool, q: bv16)
    requires FitsIn(p, 15) && FitsIn(q, 15)
    requires ShiftIn(a, p) == ShiftIn(b, q)
    ensures a == b && p == q
  {
  }

  lemma {:induction false} PackIsInjective(a: seq<bool>, b: seq<bool>)
    requires |a| == |b| <= 16 && Pack(a) == Pack(b)
    ensures a == b
    decreases |a|
  {
    if a != [] {
      hide FitsIn, ShiftIn;
      PackFits(a[1..]);
      PackFits(b[1..]);
      ShiftInIsInjective(a[0], Pack(a[1..]), b[0], Pack(b[1..]));
      PackIsInjective(a[1..], b[1..]);
      assert a == [a[0]] + a[1..] && b == [b[0]] + b[1..];
    }
  }

  lemma StepOfShifted(p: bv16)
    requires FitsIn(p, 15)
    ensures Step(p << 1) == p
  {
  }

  lemma ShiftInIsSum(b: bool, p: bv16)
    ensures ShiftIn(b, p) == Xor(Bit(b), p << 1)
  {
    if b {
      assert 1 | (p << 1) == (p << 1) + 1 == 1 ^ (p << 1);
    } else {
      assert 0 | (p << 1) == p << 1 == 0 ^ (p << 1);
    }
  }

  /** A bit shifted in now and the bits above it added one shift later come to the same register. */
  lemma StepDelaysHighBits(r: bv16, b: bool, p: bv16)
    requires FitsIn(p, 15)
    ensures Step(Xor(r, ShiftIn(b, p))) == Xor(CrcBit(r, b), p)
  {
    StepOfShifted(p);
    ShiftInIsSum(b, p);
    XorAssociates(r, Bit(b), p << 1);
    StepIsLinear(Xor(r, Bit(b)), p << 1);
    hide Step, FitsIn, ShiftIn, Xor, Bit;
  }

  /** Feeding up to sixteen bits one at a time is the same as adding them all at once and shifting. */
  lemma {:induction false} BitsAtOnce(r: bv16, bits: seq<bool>)
    requires |bits| <= 16
    ensures CrcBits(r, bits) == Steps(Xor(r, Pack(bits)), |bits|)
    decreases |bits|
  {
    if bits == [] {
      XorZero(r);
    } else {
      hide FitsIn, ShiftIn, Xor, CrcBit, Step;
      PackFits(bits[1..]);
      StepDelaysHighBits(r, bits[0], Pack(bits[1..]));
      BitsAtOnce(CrcBit(r, bits[0]), bits[1..]);
    }
  }

  lemma ByteIsEightBits(r: bv16, b: bv8)
    ensures CrcByte(r, b) == CrcBits(r, ByteBits(b))
  {
    hide Steps, CrcBits, Xor, ByteBits;
    PackByteBits(b);
    BitsAtOnce(r, ByteBits(b));
  }

  lemma HalfFits(x: bv16, n: nat)
    requires 0 < n <= 16 && FitsIn(x, n)
    ensures FitsIn(Half(x), n - 1)
    ensures ShiftIn(IsOdd(x), Half(x)) == x
  {
    if
    case n == 1 => case n == 2 => case n == 3 => case n == 4 =>
    case n == 5 => case n == 6 => case n == 7 => case n == 8 =>
    case n == 9 => case n == 10 => case n == 11 => case n == 12 =>
    case n == 13 => case n == 14 => case n == 15 => case n == 16 =>
  }

  lemma {:induction false} PackBitsOf(x: bv16, n: nat)
    requires n <= 16 && FitsIn(x, n)
    ensures Pack(BitsOf(x, n)) == x
    decreases n
  {
    if n > 0 {
      HalfFits(x, n);
      hide FitsIn, ShiftIn, Half, IsOdd;
      PackBitsOf(Half(x), n - 1);
      assert BitsOf(x, n)[1..] == BitsOf(Half(x), n - 1);
    } else {
      assert x >> 0 == x;
    }
  }

  lemma PackByteBits(b: bv8)
    ensures Pack(ByteBits(b)) == b as bv16
  {
    PackBitsOf(b as bv16, 8);
  }

  /** The byte-wise CRC is the bit-wise one on the message's bit stream. */
  lemma {:induction false} BytesAreBits(r: bv16, message: seq<bv8>)
    ensures CrcFrom(r, message) == CrcBits(r, MessageBits(message))
    decreases |message|
  {
    if message != [] {
      ByteIsEightBits(r, message[0]);
      BitsConcatenate(r, ByteBits(message[0]), MessageBits(message[1..]));
      BytesAreBits(CrcByte(r, message[0]), message[1..]);
    }
  }

  // ----- what the check detects

  /** The two streams agree everywhere outside the `n` positions from `k` on. */
  ghost predicate AgreeOutside<T>(a: seq<T>, b: seq<T>, k: nat, n: nat) {
    && |a| == |b|
    && forall i :: 0 <= i < |a| && !(k <= i < k + n) ==> a[i] == b[i]
  }

  lemma WindowKeepsDifference(p: bv16, a: seq<bool>, b: seq<bool>)
    requires |a| == |b| <= 16 && CrcBits(p, a) == CrcBits(p, b)
    ensures a == b
  {
    hide CrcBits, Steps, Pack, Xor;
    BitsAtOnce(p, a);
    BitsAtOnce(p, b);
    StepsAreInjective(Xor(p, Pack(a)), Xor(p, Pack(b)), |a|);
    XorCancels(Pack(a), Pack(b), p);
    PackIsInjective(a, b);
  }

  lemma WindowDetected(r: bv16, prefix: seq<bool>, a: seq<bool>, b: seq<bool>, suffix: seq<bool>)
    requires |a| == |b| <= 16
    requires CrcBits(r, prefix + a + suffix) == CrcBits(r, prefix + b + suffix)
    ensures a == b
  {
    hide CrcBits;
    BitsConcatenate(r, prefix + a, suffix);
    BitsConcatenate(r, prefix, a);
    BitsConcatenate(r, prefix + b, suffix);
    BitsConcatenate(r, prefix, b);
    var p := CrcBits(r, prefix);
    BitsKeepDifference(CrcBits(p, a), CrcBits(p, b), suffix);
    WindowKeepsDifference(p, a, b);
  }

  /** Every burst of at most sixteen bits, at any bit offset of any message, changes the CRC. */
  lemma BurstDetected(m1: seq<bv8>, m2: seq<bv8>, k: nat)
    requires m1 != m2 && |m1| == |m2|
    requires AgreeOutside(MessageBits(m1), MessageBits(m2), k, 16)
    ensures Crc(m1) != Crc(m2)
  {
    hide CrcFrom, CrcBits, MessageBits;
    var x, y := MessageBits(m1), MessageBits(m2);
    var lo := if k < |x| then k else |x|;
    var hi := if k + 16 < |x| then k + 16 else |x|;
    assert x[..lo] == y[..lo] && x[hi..] == y[hi..];
    assert x == x[..lo] + x[lo..hi] + x[hi..] && y == x[..lo] + y[lo..hi] + x[hi..];
    BytesAreBits(INITIAL, m1);
    BytesAreBits(INITIAL, m2);
    if Crc(m1) == Crc(m2) {
      WindowDetected(INITIAL, x[..lo], x[lo..hi], y[lo..hi], x[hi..]);
      MessageBitsInjective(m1, m2);
      assert false;
    }
  }

  lemma ByteBitsInjective(a: bv8, b: bv8)
    requires ByteBits(a) == ByteBits(b)
    ensures a == b
  {
    hide Pack, BitsOf, ByteBits;
    PackByteBits(a);
    PackByteBits(b);
  }

  lemma {:induction false} MessageBitsInjective(m1: seq<bv8>, m2: seq<bv8>)
    requires |m1| == |m2| && MessageBits(m1) == MessageBits(m2)
    ensures m1 == m2
    decreases |m1|
  {
    if m1 != [] {
      var x, y := MessageBits(m1), MessageBits(m2);
      assert ByteBits(m1[0]) == x[..8] && ByteBits(m2[0]) == y[..8];
      assert MessageBits(m1[1..]) == x[8..] && MessageBits(m2[1..]) == y[8..];
      ByteBitsInjective(m1[0], m2[0]);
      MessageBitsInjective(m1[1..], m2[1..]);
      assert m1 == [m1[0]] + m1[1..] && m2 == [m2[0]] + m2[1..];
    }
  }

  lemma {:induction false} BitOfMessage(message: seq<bv8>, i: nat)
    requires i < 8 * |message|
    ensures MessageBits(message)[i] == ByteBits(message[i / 8])[i % 8]
    decreases |message|
  {
    hide ByteBits;
    if i >= 8 {
      BitOfMessage(message[1..], i - 8);
    }
  }

  /** In particular any corruption confined to one byte or to two adjacent bytes changes the CRC. */
  lemma AdjacentBytesDetected(m1: seq<bv8>, m2: seq<bv8>, j: nat)
    requires m1 != m2 && AgreeOutside(m1, m2, j, 2)
    ensures Crc(m1) != Crc(m2)
  {
    var x, y := MessageBits(m1), MessageBits(m2);
    forall i | 0 <= i < |x| && !(8 * j <= i < 8 * j + 16)
      ensures x[i] == y[i]
    {
      BitOfMessage(m1, i);
      BitOfMessage(m2, i);
      assert !(j <= i / 8 < j + 2);
    }
    BurstDetected(m1, m2, 8 * j);
  }

  // ----- parity

  /** True iff an odd number of the low `n` bits of `r` is set. */
  function OddOnes(r: bv16, n: nat): bool
    decreases n
  {
    if n == 0 then false else IsOdd(r) != OddOnes(Half(r), n - 1)
  }

  function Parity(r: bv16): bool {
    OddOnes(r, 16)
  }

  /** True iff an odd number of the bits is set. */
  function OddBits(bits: seq<bool>): bool
    decreases |bits|
  {
    if bits == [] then false else bits[0] != OddBits(bits[1..])
  }

  /** The positions in which the two streams differ, as a stream. */
  function Differences(a: seq<bool>, b: seq<bool>): (d: seq<bool>)
    requires |a| == |b|
    ensures |d| == |a|
  {
    seq(|a|, i requires 0 <= i < |a| => a[i] != b[i])
  }

  lemma {:induction false} OddOnesOfSum(a: bv16, b: bv16, n: nat)
    ensures OddOnes(Xor(a, b), n) == (OddOnes(a, n) != OddOnes(b, n))
    decreases n
  {
    hide Xor, Half, IsOdd;
    if n > 0 {
      HalvesOfSum(a, b);
      OddOnesOfSum(Half(a), Half(b), n - 1);
    }
  }

  lemma {:induction false} OddOnesBeyond(r: bv16, n: nat)
    requires n < 16 && FitsIn(r, n)
    ensures OddOnes(r, n + 1) == OddOnes(r, n)
    decreases n
  {
    if n == 0 {
      assert r >> 0 == r;
      assert !OddOnes(r, 1) by { assert OddOnes(Half(r), 0) == false; }
    } else {
      HalfFits(r, n);
      hide FitsIn, Half, IsOdd;
      OddOnesBeyond(Half(r), n - 1);
    }
  }

  lemma {:induction false} OddOnesOfZero(n: nat)
    ensures !OddOnes(0, n)
  {
    if n > 0 {
      OddOnesOfZero(n - 1);
    }
  }

  lemma ParityOfBit(b: bool)
    ensures Parity(Bit(b)) == b
  {
    OddOnesOfZero(15);
    assert Half(Bit(b)) == 0;
  }

  lemma ParityOfPolynomial()
    ensures Parity(POLYNOMIAL)
  {
    assert OddOnes(0xA001, 16) != OddOnes(0x5000, 15);
    assert OddOnes(0x5000, 15) == OddOnes(0x2800, 14) == OddOnes(0x1400, 13) == OddOnes(0x0A00, 12);
    assert OddOnes(0x0A00, 12) == OddOnes(0x0500, 11) == OddOnes(0x0280, 10) == OddOnes(0x0140, 9);
    assert OddOnes(0x0140, 9) == OddOnes(0x00A0, 8) == OddOnes(0x0050, 7) == OddOnes(0x0028, 6);
    assert OddOnes(0x0028, 6) == OddOnes(0x0014, 5) == OddOnes(0x000A, 4) == OddOnes(0x0005, 3);
    assert OddOnes(0x0005, 3) != OddOnes(0x0002, 2) == OddOnes(0x0001, 1);
    assert OddOnes(0x0001, 1) != OddOnes(0, 0);
  }

  lemma ParityOfHalf(r: bv16)
    ensures Parity(Half(r)) == (Parity(r) != IsOdd(r))
  {
    assert FitsIn(Half(r), 15);
    OddOnesBeyond(Half(r), 15);
    hide FitsIn, Half, IsOdd;
  }

  lemma StepKeepsParity(r: bv16)
    ensures Parity(Step(r)) == Parity(r)
  {
    hide OddOnes, Xor, Half, IsOdd;
    OddOnesOfSum(Half(r), POLYNOMIAL, 16);
    ParityOfHalf(r);
    ParityOfPolynomial();
  }

  lemma CrcBitParity(r: bv16, b: bool)
    ensures Parity(CrcBit(r, b)) == (Parity(r) != b)
  {
    hide OddOnes, Step, Xor, Bit;
    OddOnesOfSum(r, Bit(b), 16);
    ParityOfBit(b);
    StepKeepsParity(Xor(r, Bit(b)));
  }

  lemma {:induction false} CrcParity(r: bv16, bits: seq<bool>)
    ensures Parity(CrcBits(r, bits)) == (Parity(r) != OddBits(bits))
    decreases |bits|
  {
    hide Parity, CrcBit;
    if bits != [] {
      CrcBitParity(r, bits[0]);
      CrcParity(CrcBit(r, bits[0]), bits[1..]);
    }
  }

  lemma {:induction false} OddDifferences(a: seq<bool>, b: seq<bool>)
    requires |a| == |b|
    ensures OddBits(Differences(a, b)) == (OddBits(a) != OddBits(b))
    decreases |a|
  {
    if a != [] {
      assert Differences(a, b)[1..] == Differences(a[1..], b[1..]);
      OddDifferences(a[1..], b[1..]);
    }
  }

  /** Any odd number of flipped bits, wherever they are, changes the CRC. */
  lemma OddErrorsDetected(m1: seq<bv8>, m2: seq<bv8>)
    requires |m1| == |m2| && OddBits(Differences(MessageBits(m1), MessageBits(m2)))
    ensures Crc(m1) != Crc(m2)
  {
    BytesAreBits(INITIAL, m1);
    BytesAreBits(INITIAL, m2);
    CrcParity(INITIAL, MessageBits(m1));
    CrcParity(INITIAL, MessageBits(m2));
    OddDifferences(MessageBits(m1), MessageBits(m2));
  }

  // ----- a message followed by its own CRC

  function LowByte(r: bv16): bv8 {
    (r & 0xFF) as bv8
  }

  function HighByte(r: bv16): bv8 {
    (r >> 8) as bv8
  }

  lemma {:induction false} CrcConcatenates(r: bv16, a: seq<bv8>, b: seq<bv8>)
    ensures CrcFrom(r, a + b) == CrcFrom(CrcFrom(r, a), b)
    decreases |a|
  {
    if a == [] {
      assert a + b == b;
    } else {
      assert (a + b)[1..] == a[1..] + b;
      CrcConcatenates(CrcByte(r, a[0]), a[1..], b);
    }
  }

  function Down(r: bv16, n: nat): bv16
    requires n <= 8
  {
    r >> n
  }

  lemma StepOfClearLow(r: bv16, n: nat)
    requires r & 0xFF == 0 && n < 8
    ensures Step(Down(r, n)) == Down(r, n + 1)
  {
    if
    case n == 0 => case n == 1 => case n == 2 => case n == 3 =>
    case n == 4 => case n == 5 => case n == 6 => case n == 7 =>
  }

  lemma {:induction false} StepsOfClearLow(r: bv16, n: nat)
    requires r & 0xFF == 0 && n <= 8
    ensures Steps(Down(r, n), 8 - n) == Down(r, 8)
    decreases 8 - n
  {
    hide Step, Down;
    if n < 8 {
      StepOfClearLow(r, n);
      StepsOfClearLow(r, n + 1);
    }
  }

  /** Eight shifts of a register whose low byte is clear move the high byte down unchanged. */
  lemma EightStepsOfClearLow(hi: bv8)
    ensures Steps((hi as bv16) << 8, 8) == hi as bv16
  {
    hide Step, Steps;
    StepsOfClearLow((hi as bv16) << 8, 0);
    assert Down((hi as bv16) << 8, 0) == (hi as bv16) << 8;
    assert Down((hi as bv16) << 8, 8) == hi as bv16;
  }

  lemma {:induction false} ZeroOnlyFromZero(r: bv16, n: nat)
    ensures Steps(r, n) == 0 <==> r == 0
    decreases n
  {
    if n > 0 {
      StepOnlyZeroFromZero(r);
      hide Step;
      ZeroOnlyFromZero(Step(r), n - 1);
    }
  }

  lemma StepOnlyZeroFromZero(r: bv16)
    ensures Step(r) == 0 <==> r == 0
  {
  }

  /** The register is cleared by its own two bytes, low byte first, and by nothing else. */
  lemma OwnBytesClear(r: bv16, lo: bv8, hi: bv8)
    ensures CrcFrom(r, [lo, hi]) == 0 <==> lo == LowByte(r) && hi == HighByte(r)
  {
    hide LowByte, HighByte, Steps, Xor, CrcByte;
    var s := CrcByte(r, lo);
    assert [lo, hi][1..] == [hi] && [hi][1..] == [];
    assert CrcFrom(s, [hi]) == CrcFrom(CrcByte(s, hi), []);
    LastByteClears(s, hi);
    FirstByteLeaves(r, lo, hi);
    XorSplits(r, lo, hi);
  }

  lemma LastByteClears(s: bv16, hi: bv8)
    ensures CrcByte(s, hi) == 0 <==> s == hi as bv16
  {
    hide Steps, Xor;
    ZeroOnlyFromZero(Xor(s, hi as bv16), 8);
    XorCancels(s, hi as bv16, hi as bv16);
    XorZero(hi as bv16);
  }

  lemma FirstByteLeaves(r: bv16, lo: bv8, hi: bv8)
    ensures CrcByte(r, lo) == hi as bv16 <==> Xor(r, lo as bv16) == (hi as bv16) << 8
  {
    hide Steps, Xor;
    EightStepsOfClearLow(hi);
    if Steps(Xor(r, lo as bv16), 8) == hi as bv16 {
      StepsAreInjective(Xor(r, lo as bv16), (hi as bv16) << 8, 8);
    }
  }

  lemma XorSplits(r: bv16, lo: bv8, hi: bv8)
    ensures Xor(r, lo as bv16) == (hi as bv16) << 8 <==> lo == LowByte(r) && hi == HighByte(r)
  {
  }

  /** A receiver that runs the CRC over a whole frame sees zero exactly when the last two bytes are
      the CRC of the rest, low byte first. */
  lemma ResidueZero(message: seq<bv8>, lo: bv8, hi: bv8)
    ensures Crc(message + [lo, hi]) == 0 <==> lo == LowByte(Crc(message)) && hi == HighByte(Crc(message))
  {
    CrcConcatenates(INITIAL, message, [lo, hi]);
    OwnBytesClear(Crc(message), lo, hi);
  }
}
