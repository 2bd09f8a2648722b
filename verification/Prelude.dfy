/** The variable-length bytecode prelude: six values interleaved bit by bit in the function
    signature, and two in the prelude size. */
module Prelude {
  import opened Bits
  import opened Options

  /** All values of a signature, or what is left of them during encoding and decoding. */
  datatype Signature = Signature(s: nat, e: nat, f: nat, a: nat, k: nat, d: nat) {
    function Total(): nat {
      s + e + f + a + k + d
    }

    predicate Empty() {
      s == 0 && e == 0 && f == 0 && a == 0 && k == 0 && d == 0
    }
  }

  datatype Sizes = Sizes(info: nat, cells: nat)

  const ALL_SIGNATURE_FLAGS: nat := 16

  // ----- signature

  /** First byte, xSSSSEAA, without the extension bit. */
  function HeadByte(v: Signature): (z: Byte)
    ensures z < 128
  {
    (v.s % 16) * 8 + (v.e % 2) * 4 + v.a % 4
  }

  /** Following bytes, xFSSKAED, without the extension bit. */
  function TailByte(v: Signature): (z: Byte)
    ensures z < 128
  {
    (v.f % 2) * 64 + (v.s % 4) * 16 + (v.k % 2) * 8 + (v.a % 2) * 4 + (v.e % 2) * 2 + v.d % 2
  }

  function AfterHead(v: Signature): Signature {
    Signature(v.s / 16, v.e / 2, v.f, v.a / 4, v.k, v.d)
  }

  function AfterTail(v: Signature): Signature {
    Signature(v.s / 4, v.e / 2, v.f / 2, v.a / 2, v.k / 2, v.d / 2)
  }

  lemma TailShrinks(v: Signature)
    requires !v.Empty()
    ensures AfterTail(v).Total() < v.Total()
  {
  }

  /** The bytes from a pending byte `z` on, with `v` still to be written after it. */
  function EncodeFrom(z: Byte, v: Signature): (out: seq<Byte>)
    requires z < 128
    ensures |out| > 0
    decreases v.Total()
  {
    hide TailByte, AfterTail, Signature.Total;
    if v.Empty() then [z]
    else
      TailShrinks(v);
      [128 + z] + EncodeFrom(TailByte(v), AfterTail(v))
  }

  /** What is encoded: one state is implied, and only the low four flag bits are stored. */
  function Stored(v: Signature): Signature
    requires v.s >= 1
  {
    v.(s := v.s - 1, f := v.f % ALL_SIGNATURE_FLAGS)
  }

  function EncodeSignature(v: Signature): seq<Byte>
    requires v.s >= 1
  {
    EncodeFrom(HeadByte(Stored(v)), AfterHead(Stored(v)))
  }

  /** `MP_BC_PRELUDE_SIG_ENCODE`. */
  method WriteSignature(v: Signature) returns (out: seq<Byte>)
    requires v.s >= 1
    ensures out == EncodeSignature(v)
  {
    hide HeadByte, AfterHead, TailByte, AfterTail, EncodeFrom, Signature.Total;
    var z := HeadByte(Stored(v));
    var rest := AfterHead(Stored(v));
    out := [];
    while !rest.Empty()
      invariant z < 128 && out + EncodeFrom(z, rest) == EncodeSignature(v)
      decreases rest.Total()
    {
      EncodeUnfolds(z, rest);
      TailShrinks(rest);
      out := out + [128 + z];
      z := TailByte(rest);
      rest := AfterTail(rest);
    }
    EncodeUnfolds(z, rest);
    out := out + [z];
  }

  lemma EncodeUnfolds(z: Byte, v: Signature)
    requires z < 128
    ensures EncodeFrom(z, v)
         == if v.Empty() then [z] else [128 + z] + EncodeFrom(TailByte(v), AfterTail(v))
  {
  }

  /** The fields a following byte holds, where a decoder puts them after `n` earlier such bytes. */
  function Absorb(v: Signature, z: Byte, n: nat): Signature {
    Signature(
      BitOr(v.s, z / 16 % 4 * 16 * Pow2(2 * n)),
      BitOr(v.e, z / 2 % 2 * 2 * Pow2(n)),
      BitOr(v.f, z / 64 % 2 * Pow2(n)),
      BitOr(v.a, z / 4 % 2 * 4 * Pow2(n)),
      BitOr(v.k, z / 8 % 2 * Pow2(n)),
      BitOr(v.d, z % 2 * Pow2(n)))
  }

  function Head(z: Byte): Signature {
    Signature(z / 8 % 16, z / 4 % 2, 0, z % 4, 0, 0)
  }

  /** The decoder's loop: `z` is the byte just read, `bytes` the input after it. */
  function DecodeFrom(v: Signature, z: Byte, n: nat, bytes: seq<Byte>): Option<(Signature, seq<Byte>)>
    decreases |bytes|
  {
    if z < 128 then Some((v, bytes))
    else if bytes == [] then None
    else DecodeFrom(Absorb(v, bytes[0], n), bytes[0], n + 1, bytes[1..])
  }

  /** The signature at the start of `bytes` and the bytes after it. */
  function DecodeSignature(bytes: seq<Byte>): Option<(Signature, seq<Byte>)> {
    if bytes == [] then None
    else match DecodeFrom(Head(bytes[0]), bytes[0], 0, bytes[1..])
      case Some(r) => Some((r.0.(s := r.0.s + 1), r.1))
      case None => None
  }

  /** A byte without the extension bit comes at or after `ip`. */
  ghost predicate Terminated(bytes: seq<Byte>, ip: nat) {
    exists j :: ip <= j < |bytes| && bytes[j] < 128
  }

  /** `MP_BC_PRELUDE_SIG_DECODE_INTO`. */
  method ReadSignature(bytes: seq<Byte>, start: nat) returns (v: Signature, ip: nat)
    requires Terminated(bytes, start)
    ensures start < ip <= |bytes|
    ensures DecodeSignature(bytes[start..]) == Some((v, bytes[ip..]))
  {
    hide Head, Absorb;
    var z := bytes[start];
    ip := start + 1;
    assert bytes[start..][0] == z && bytes[start..][1..] == bytes[ip..];
    v := Head(z);
    var n := 0;
    while z >= 128
      invariant start < ip <= |bytes| && z == bytes[ip - 1] && n >= 0
      invariant Terminated(bytes, ip - 1)
      invariant DecodeFrom(Head(bytes[start]), bytes[start], 0, bytes[start + 1..]) == DecodeFrom(v, z, n, bytes[ip..])
      decreases |bytes| - ip
    {
      z := bytes[ip];
      assert bytes[ip..][0] == z && bytes[ip..][1..] == bytes[ip + 1..];
      v := Absorb(v, z, n);
      ip, n := ip + 1, n + 1;
    }
    v := v.(s := v.s + 1);
  }

  // ----- the decoder's loop against a structural reading of the bytes

  /** What the bytes after `z` say, read from the last byte backwards. */
  function Rest(z: Byte, bytes: seq<Byte>): Option<(Signature, seq<Byte>)>
    decreases |bytes|
  {
    if z < 128 then Some((Blank(z), bytes))
    else if bytes == [] then None
    else match Rest(bytes[0], bytes[1..])
      case Some(r) => Some((Prepend(bytes[0], r.0), r.1))
      case None => None
  }

  /** What follows a byte without the extension bit: nothing. */
  function Blank(z: Byte): Signature {
    var x := z / 128;
    Signature(x, x, x, x, x, x)
  }

  function Prepend(z: Byte, v: Signature): Signature {
    Signature(z / 16 % 4 + 4 * v.s, z / 2 % 2 + 2 * v.e, z / 64 % 2 + 2 * v.f,
              z / 4 % 2 + 2 * v.a, z / 8 % 2 + 2 * v.k, z % 2 + 2 * v.d)
  }

  /** `high` placed above the bits that are already known after `n` following bytes. */
  function Above(low: Signature, high: Signature, n: nat): Signature {
    Signature(low.s + high.s * Pow2(2 * n + 4), low.e + high.e * Pow2(n + 1), low.f + high.f * Pow2(n),
              low.a + high.a * Pow2(n + 2), low.k + high.k * Pow2(n), low.d + high.d * Pow2(n))
  }

  predicate Fits(v: Signature, n: nat) {
    && v.s < Pow2(2 * n + 4) && v.e < Pow2(n + 1) && v.f < Pow2(n)
    && v.a < Pow2(n + 2) && v.k < Pow2(n) && v.d < Pow2(n)
  }

  /** One field: `x` of `w` bits is or-ed in above `low`, and `y` follows above it. */
  lemma AbsorbField(low: nat, x: nat, y: nat, n: nat, w: nat)
    requires low < Pow2(n) && x < Pow2(w)
    ensures BitOr(low, x * Pow2(n)) < Pow2(n + w)
    ensures BitOr(low, x * Pow2(n)) + y * Pow2(n + w) == low + (x + Pow2(w) * y) * Pow2(n)
  {
    OrIntoFreeBits(low, x, n);
    Pow2Adds(n, w);
    FieldArithmetic(low, x, y, Pow2(n), Pow2(w));
    hide *;
  }

  lemma FieldArithmetic(low: nat, x: nat, y: nat, p: nat, q: nat)
    requires low < p && x < q
    ensures low + x * p < p * q
    ensures low + x * p + y * (p * q) == low + (x + q * y) * p
  {
    var r := q - 1 - x;
    assert p * q == p * (1 + x + r) == p + x * p + r * p;
    assert (x + q * y) * p == x * p + (q * y) * p;
    assert (q * y) * p == y * (p * q);
  }

  lemma SmallPowers(x: nat, m: nat)
    ensures x * 2 * Pow2(m) == x * Pow2(m + 1)
    ensures x * 4 * Pow2(m) == x * Pow2(m + 2)
    ensures x * 16 * Pow2(m) == x * Pow2(m + 4)
  {
    assert Pow2(m + 1) == 2 * Pow2(m) && Pow2(m + 2) == 2 * Pow2(m + 1);
    assert Pow2(m + 3) == 2 * Pow2(m + 2) && Pow2(m + 4) == 2 * Pow2(m + 3);
    var p := Pow2(m);
    assert x * 2 * p == x * (2 * p) && x * 4 * p == x * (4 * p) && x * 16 * p == x * (16 * p);
  }

  lemma OneBitField(low: nat, x: nat, y: nat, n: nat)
    requires low < Pow2(n) && x < 2
    ensures BitOr(low, x * Pow2(n)) < Pow2(n + 1)
    ensures BitOr(low, x * Pow2(n)) + y * Pow2(n + 1) == low + (x + 2 * y) * Pow2(n)
  {
    assert Pow2(1) == 2;
    hide *;
    AbsorbField(low, x, y, n, 1);
  }

  lemma TwoBitField(low: nat, x: nat, y: nat, n: nat)
    requires low < Pow2(n) && x < 4
    ensures BitOr(low, x * Pow2(n)) < Pow2(n + 2)
    ensures BitOr(low, x * Pow2(n)) + y * Pow2(n + 2) == low + (x + 4 * y) * Pow2(n)
  {
    assert Pow2(1) == 2 && Pow2(2) == 4;
    hide *;
    AbsorbField(low, x, y, n, 2);
  }

  /** Absorbing a byte puts every field of it directly above the bits that are already known. */
  lemma AbsorbIsExact(low: Signature, z: Byte, high: Signature, n: nat)
    requires Fits(low, n)
    ensures Fits(Absorb(low, z, n), n + 1)
    ensures Above(Absorb(low, z, n), high, n + 1) == Above(low, Prepend(z, high), n)
  {
    hide BitOr, Pow2;
    SmallPowers(z / 16 % 4, 2 * n);
    SmallPowers(z / 2 % 2, n);
    SmallPowers(z / 4 % 2, n);
    TwoBitField(low.s, z / 16 % 4, high.s, 2 * n + 4);
    OneBitField(low.e, z / 2 % 2, high.e, n + 1);
    OneBitField(low.f, z / 64 % 2, high.f, n);
    OneBitField(low.a, z / 4 % 2, high.a, n + 2);
    OneBitField(low.k, z / 8 % 2, high.k, n);
    OneBitField(low.d, z % 2, high.d, n);
    assert 2 * (n + 1) + 4 == 2 * n + 4 + 2 && n + 1 + 1 == n + 2 && n + 1 + 2 == n + 2 + 1;
  }

  /** The loop that or-s shifted fields into its variables computes the structural reading. */
  lemma {:induction false} LoopIsStructural(low: Signature, z: Byte, n: nat, bytes: seq<Byte>)
    requires Fits(low, n)
    ensures DecodeFrom(low, z, n, bytes)
         == match Rest(z, bytes)
            case Some(r) => Some((Above(low, r.0, n), r.1))
            case None => None
    decreases |bytes|
  {
    if z < 128 {
      NothingAbove(low, Blank(z), n);
    } else if bytes != [] {
      hide Absorb, Above, Prepend, Fits;
      AbsorbIsExact(low, bytes[0], Blank(0), n);
      LoopIsStructural(Absorb(low, bytes[0], n), bytes[0], n + 1, bytes[1..]);
      match Rest(bytes[0], bytes[1..])
      case Some(r) => AbsorbIsExact(low, bytes[0], r.0, n);
      case None =>
    }
  }

  lemma NothingAbove(low: Signature, high: Signature, n: nat)
    requires high.Empty()
    ensures Above(low, high, n) == low
  {
    hide Pow2;
  }

  /** The structural reading undoes the encoder and stops right after its last byte. */
  lemma {:induction false} RestOfEncoded(z: Byte, v: Signature, more: seq<Byte>)
    requires z < 128
    ensures Rest(EncodeFrom(z, v)[0], EncodeFrom(z, v)[1..] + more) == Some((v, more))
    decreases v.Total()
  {
    EncodeUnfolds(z, v);
    if v.Empty() {
      assert [z][1..] + more == more;
    } else {
      TailShrinks(v);
      hide TailByte, AfterTail, Signature.Total, EncodeFrom, Prepend;
      RestOfEncoded(TailByte(v), AfterTail(v), more);
      RestOneMore(z, EncodeFrom(TailByte(v), AfterTail(v)), v, more);
    }
  }

  lemma RestOneMore(z: Byte, tail: seq<Byte>, v: Signature, more: seq<Byte>)
    requires z < 128 && tail == EncodeFrom(TailByte(v), AfterTail(v))
    requires Rest(tail[0], tail[1..] + more) == Some((AfterTail(v), more))
    ensures Rest(([128 + z] + tail)[0], ([128 + z] + tail)[1..] + more) == Some((v, more))
  {
    EncodedHead(TailByte(v), AfterTail(v));
    PrependUndoesTail(tail[0], v);
    hide TailByte, AfterTail, EncodeFrom, Prepend;
    assert ([128 + z] + tail)[1..] + more == tail + more;
    assert (tail + more)[0] == tail[0] && (tail + more)[1..] == tail[1..] + more;
  }

  /** The extension bit does not disturb the fields of a byte. */
  lemma EncodedHead(z: Byte, v: Signature)
    requires z < 128
    ensures EncodeFrom(z, v)[0] == z || EncodeFrom(z, v)[0] == 128 + z
  {
  }

  lemma TailFields(c: nat, f: nat, s: nat, k: nat, a: nat, e: nat, d: nat, z: nat)
    requires f < 2 && s < 4 && k < 2 && a < 2 && e < 2 && d < 2
    requires z == c * 128 + f * 64 + s * 16 + k * 8 + a * 4 + e * 2 + d
    ensures z / 64 % 2 == f && z / 16 % 4 == s && z / 8 % 2 == k && z / 4 % 2 == a && z / 2 % 2 == e && z % 2 == d
  {
    assert z / 2 == c * 64 + f * 32 + s * 8 + k * 4 + a * 2 + e;
    assert z / 4 == c * 32 + f * 16 + s * 4 + k * 2 + a;
    assert z / 8 == c * 16 + f * 8 + s * 2 + k;
    assert z / 16 == c * 8 + f * 4 + s;
    assert z / 64 == c * 2 + f;
  }

  lemma HeadFields(c: nat, s: nat, e: nat, a: nat, z: nat)
    requires s < 16 && e < 2 && a < 4 && z == c * 128 + s * 8 + e * 4 + a
    ensures z / 8 % 16 == s && z / 4 % 2 == e && z % 4 == a
  {
    assert z / 4 == c * 32 + s * 2 + e;
    assert z / 8 == c * 16 + s;
  }

  lemma PrependUndoesTail(z: Byte, v: Signature)
    requires z == TailByte(v) || z == 128 + TailByte(v)
    ensures Prepend(z, AfterTail(v)) == v
  {
    TailFields(z / 128, v.f % 2, v.s % 4, v.k % 2, v.a % 2, v.e % 2, v.d % 2, z);
  }

  lemma HeadUndoesEncoding(z: Byte, v: Signature)
    requires z == HeadByte(v) || z == 128 + HeadByte(v)
    ensures Above(Head(z), AfterHead(v), 0) == v && Fits(Head(z), 0)
  {
    HeadFields(z / 128, v.s % 16, v.e % 2, v.a % 4, z);
    assert Pow2(0) == 1 && Pow2(1) == 2 && Pow2(2) == 4 && Pow2(3) == 8 && Pow2(4) == 16;
    hide Pow2, HeadByte;
  }

  /** Decoding what was encoded, followed by anything, gives back all six values, with the flags cut
      to the four that are stored, and consumes exactly the encoded bytes. */
  lemma SignatureRoundTrip(v: Signature, more: seq<Byte>)
    requires v.s >= 1
    ensures DecodeSignature(EncodeSignature(v) + more)
         == Some((v.(f := v.f % ALL_SIGNATURE_FLAGS), more))
  {
    hide EncodeFrom, HeadByte, AfterHead, DecodeFrom, Rest, Above, Fits, Head;
    var w := Stored(v);
    var out := EncodeSignature(v);
    RestOfEncoded(HeadByte(w), AfterHead(w), more);
    EncodedHead(HeadByte(w), AfterHead(w));
    HeadUndoesEncoding(out[0], w);
    LoopIsStructural(Head(out[0]), out[0], 0, out[1..] + more);
    assert (out + more)[0] == out[0] && (out + more)[1..] == out[1..] + more;
  }

  // ----- where each bit stands on the wire

  /** A value without its lowest `n` bits. */
  function Shifted(x: nat, n: nat): nat {
    if n == 0 then x else Shifted(x / 2, n - 1)
  }

  /** Bit `n` of a value, and two bits from there on. */
  function BitAt(x: nat, n: nat): nat {
    Shifted(x, n) % 2
  }

  function TwoBitsAt(x: nat, n: nat): nat {
    Shifted(x, n) % 4
  }

  lemma ShiftedBy(x: nat, n: nat)
    ensures Shifted(x / 2, n) == Shifted(x, n + 1)
    ensures Shifted(x / 4, n) == Shifted(x, n + 2)
    ensures Shifted(x / 16, n) == Shifted(x, n + 4)
  {
    var (h, q, o) := (x / 2, x / 4, x / 8);
    assert h / 2 == q && q / 2 == o && o / 2 == x / 16;
    assert Shifted(x, n + 4) == Shifted(h, n + 3) && Shifted(h, n + 3) == Shifted(q, n + 2);
    assert Shifted(q, n + 2) == Shifted(o, n + 1);
  }

  /** xFSSKAED for the `n`th following byte, of values whose earlier bits are already written. */
  function TailLayout(v: Signature, n: nat): nat {
    BitAt(v.f, n) * 64 + TwoBitsAt(v.s, 2 * n) * 16 + BitAt(v.k, n) * 8 + BitAt(v.a, n) * 4 + BitAt(v.e, n) * 2 + BitAt(v.d, n)
  }

  lemma TailLayoutShifts(v: Signature, n: nat)
    ensures TailLayout(v, 0) == TailByte(v)
    ensures TailLayout(AfterTail(v), n) == TailLayout(v, n + 1)
  {
    ShiftedBy(v.f, n);
    ShiftedBy(v.s, 2 * n);
    ShiftedBy(v.k, n);
    ShiftedBy(v.a, n);
    ShiftedBy(v.e, n);
    ShiftedBy(v.d, n);
  }

  /** All but the last byte have the extension bit. */
  predicate Extended(out: seq<Byte>, n: nat)
    requires n < |out|
  {
    out[n] >= 128 <==> n < |out| - 1
  }

  lemma {:induction false} TailOnWire(z: Byte, v: Signature, n: nat)
    requires z < 128 && n < |EncodeFrom(z, v)|
    ensures Extended(EncodeFrom(z, v), n)
    ensures EncodeFrom(z, v)[n] % 128 == if n == 0 then z else TailLayout(v, n - 1)
    decreases n
  {
    hide TailByte, AfterTail, TailLayout, Signature.Empty, EncodeFrom;
    EncodeUnfolds(z, v);
    if n > 0 {
      var (y, w) := (TailByte(v), AfterTail(v));
      assert EncodeFrom(z, v)[n] == EncodeFrom(y, w)[n - 1];
      TailOnWire(y, w, n - 1);
      TailLayoutShifts(v, 0);
      if n > 1 {
        TailLayoutShifts(v, n - 2);
      }
    }
  }

  /** Byte `n` of an encoded signature, for every n: the extension bit on all but the last; in the first
      byte four bits of the states less one, one of E and two of A; in byte n after it the next two of S and
      the next one of each of F, K, A, E and D, each in its own place. */
  lemma SignatureOnWire(v: Signature, n: nat)
    requires v.s >= 1 && n < |EncodeSignature(v)|
    ensures Extended(EncodeSignature(v), n)
    ensures n == 0 ==> EncodeSignature(v)[n] % 128 == (v.s - 1) % 16 * 8 + v.e % 2 * 4 + v.a % 4
    ensures n > 0 ==>
              EncodeSignature(v)[n] % 128
              == BitAt(v.f % 16, n - 1) * 64 + TwoBitsAt(v.s - 1, 2 * n + 2) * 16 + BitAt(v.k, n - 1) * 8
                 + BitAt(v.a, n + 1) * 4 + BitAt(v.e, n) * 2 + BitAt(v.d, n - 1)
  {
    var w := Stored(v);
    TailOnWire(HeadByte(w), AfterHead(w), n);
    if n > 0 {
      ShiftedBy(w.s, 2 * (n - 1));
      ShiftedBy(w.e, n - 1);
      ShiftedBy(w.a, n - 1);
    }
    hide Shifted, EncodeFrom;
  }

  // ----- which byte strings the encoder produces

  lemma LowBits(b: nat, c: nat, x: nat)
    requires b < 2 && c < 4
    ensures (b + 2 * x) % 2 == b && (b + 2 * x) / 2 == x
    ensures (c + 4 * x) % 4 == c && (c + 4 * x) / 4 == x
  {
  }

  lemma SevenBits(z: Byte)
    ensures z % 128 == z / 64 % 2 * 64 + z / 16 % 4 * 16 + z / 8 % 2 * 8 + z / 4 % 2 * 4 + z / 2 % 2 * 2 + z % 2
  {
    assert z / 2 / 2 == z / 4 && z / 4 / 2 == z / 8 && z / 8 / 2 == z / 16 && z / 16 / 4 == z / 64;
  }

  lemma TailOfParts(f: nat, s: nat, k: nat, a: nat, e: nat, d: nat, v: Signature, w: Signature)
    requires f < 2 && s < 4 && k < 2 && a < 2 && e < 2 && d < 2
    requires w == Signature(s + 4 * v.s, e + 2 * v.e, f + 2 * v.f, a + 2 * v.a, k + 2 * v.k, d + 2 * v.d)
    ensures TailByte(w) == f * 64 + s * 16 + k * 8 + a * 4 + e * 2 + d && AfterTail(w) == v
  {
    assert w.f % 2 == f && w.f / 2 == v.f by { LowBits(f, s, v.f); }
    assert w.s % 4 == s && w.s / 4 == v.s by { LowBits(f, s, v.s); }
    assert w.k % 2 == k && w.k / 2 == v.k by { LowBits(k, 0, v.k); }
    assert w.a % 2 == a && w.a / 2 == v.a by { LowBits(a, 0, v.a); }
    assert w.e % 2 == e && w.e / 2 == v.e by { LowBits(e, 0, v.e); }
    assert w.d % 2 == d && w.d / 2 == v.d by { LowBits(d, 0, v.d); }
  }

  lemma SmallZero(f: nat, s: nat, k: nat, a: nat, e: nat, d: nat, v: Signature)
    ensures f * 64 + s * 16 + k * 8 + a * 4 + e * 2 + d == 0 && v.Empty()
       <==> Signature(s + 4 * v.s, e + 2 * v.e, f + 2 * v.f, a + 2 * v.a, k + 2 * v.k, d + 2 * v.d).Empty()
  {
  }

  lemma TailUndoesPrepend(z: Byte, v: Signature, low: nat)
    requires z == low < 128 || z == 128 + low < 256
    ensures TailByte(Prepend(z, v)) == low && AfterTail(Prepend(z, v)) == v
    ensures Prepend(z, v).Empty() <==> low == 0 && v.Empty()
  {
    hide TailByte, AfterTail, Signature.Empty;
    SevenBits(z);
    LowSevenBits(z, low);
    UndoPrepend(z / 64 % 2, z / 16 % 4, z / 8 % 2, z / 4 % 2, z / 2 % 2, z % 2, z, v, low);
  }

  lemma LowSevenBits(z: nat, low: nat)
    requires z == low < 128 || z == 128 + low < 256
    ensures z % 128 == low
  {
  }

  lemma UndoPrepend(f: nat, s: nat, k: nat, a: nat, e: nat, d: nat, z: Byte, v: Signature, low: nat)
    requires f < 2 && s < 4 && k < 2 && a < 2 && e < 2 && d < 2
    requires f == z / 64 % 2 && s == z / 16 % 4 && k == z / 8 % 2 && a == z / 4 % 2 && e == z / 2 % 2 && d == z % 2
    requires low == f * 64 + s * 16 + k * 8 + a * 4 + e * 2 + d
    ensures TailByte(Prepend(z, v)) == low && AfterTail(Prepend(z, v)) == v
    ensures Prepend(z, v).Empty() <==> low == 0 && v.Empty()
  {
    hide TailByte, AfterTail;
    TailOfParts(f, s, k, a, e, d, v, Prepend(z, v));
    SmallZero(f, s, k, a, e, d, v);
  }

  lemma HeadUndoesAbove(z: Byte, v: Signature)
    ensures HeadByte(Above(Head(z), v, 0)) == z % 128
    ensures AfterHead(Above(Head(z), v, 0)) == v
  {
    hide HeadByte, AfterHead;
    AboveHead(z, v);
    HeadParts(z / 8 % 16, z / 4 % 2, z % 4, v);
    SevenBitsOfHead(z);
  }

  lemma FirstPowers()
    ensures Pow2(0) == 1 && Pow2(1) == 2 && Pow2(2) == 4 && Pow2(4) == 16
  {
    assert Pow2(3) == 8;
  }

  lemma AboveHead(z: Byte, v: Signature)
    ensures Above(Head(z), v, 0)
         == Signature(z / 8 % 16 + 16 * v.s, z / 4 % 2 + 2 * v.e, v.f, z % 4 + 4 * v.a, v.k, v.d)
  {
    FirstPowers();
    hide Pow2;
  }

  lemma HeadParts(s: nat, e: nat, a: nat, v: Signature)
    requires s < 16 && e < 2 && a < 4
    ensures var w := Signature(s + 16 * v.s, e + 2 * v.e, v.f, a + 4 * v.a, v.k, v.d);
            HeadByte(w) == s * 8 + e * 4 + a && AfterHead(w) == v
  {
    assert (s + 16 * v.s) % 16 == s && (s + 16 * v.s) / 16 == v.s;
    LowBits(e, a, v.e);
    LowBits(0, a, v.a);
  }

  lemma SevenBitsOfHead(z: Byte)
    ensures z % 128 == z / 8 % 16 * 8 + z / 4 % 2 * 4 + z % 4
  {
    assert z / 4 / 2 == z / 8;
    assert z == z / 4 * 4 + z % 4 && z / 4 == z / 8 * 2 + z / 4 % 2 && z / 8 == z / 128 * 16 + z / 8 % 16;
  }

  lemma {:induction false} RestIsSuffix(z: Byte, bytes: seq<Byte>)
    requires Rest(z, bytes).Some?
    ensures var more := Rest(z, bytes).value.1;
            |more| <= |bytes| && bytes[|bytes| - |more|..] == more && (z >= 128 ==> |more| < |bytes|)
    decreases |bytes|
  {
    hide Prepend, Blank;
    if z >= 128 {
      RestIsSuffix(bytes[0], bytes[1..]);
    }
  }

  /** The first `n` bytes after `z` are none, or end with a byte that is not zero. */
  ghost predicate NoIdleByte(bytes: seq<Byte>, n: int) {
    0 <= n <= |bytes| && (n > 0 ==> bytes[n - 1] != 0)
  }

  ghost predicate ReEncodes(z: Byte, low: nat, bytes: seq<Byte>, v: Signature, n: int) {
    low < 128 && 0 <= n <= |bytes| && (EncodeFrom(low, v) == [z] + bytes[..n] <==> NoIdleByte(bytes, n))
  }

  lemma {:induction false} ReEncodeRest(z: Byte, low: nat, bytes: seq<Byte>, v: Signature, more: seq<Byte>)
    requires Rest(z, bytes) == Some((v, more)) && (z == low < 128 || z == 128 + low)
    ensures ReEncodes(z, low, bytes, v, |bytes| - |more|)
    decreases |bytes|
  {
    hide Prepend, Rest, EncodeFrom, NoIdleByte, ReEncodes;
    if z < 128 {
      RestStops(z, bytes);
      ReEncodeStop(z, bytes, v);
    } else {
      RestContinues(z, bytes, v, more);
      var next, tail := bytes[0], bytes[1..];
      var low' := if next < 128 then next else next - 128;
      var v' := Rest(next, tail).value.0;
      ReEncodeRest(next, low', tail, v', more);
      RestIsSuffix(next, tail);
      if next < 128 {
        RestStops(next, tail);
      }
      ReEncodeMore(low, next, low', tail, v', |tail| - |more|);
      assert bytes == [next] + tail;
    }
  }

  lemma ReEncodeStop(z: Byte, bytes: seq<Byte>, v: Signature)
    requires z < 128 && v.Empty()
    ensures ReEncodes(z, z, bytes, v, 0)
  {
    EncodeUnfolds(z, v);
    hide TailByte, AfterTail, EncodeFrom;
    assert [z] + bytes[..0] == [z];
  }

  lemma RestContinues(z: Byte, bytes: seq<Byte>, v: Signature, more: seq<Byte>)
    requires Rest(z, bytes) == Some((v, more)) && z >= 128
    ensures bytes != [] && Rest(bytes[0], bytes[1..]).Some? && Rest(bytes[0], bytes[1..]).value.1 == more
    ensures v == Prepend(bytes[0], Rest(bytes[0], bytes[1..]).value.0)
  {
    hide Prepend;
  }

  lemma RestStops(z: Byte, bytes: seq<Byte>)
    requires z < 128
    ensures Rest(z, bytes) == Some((Blank(z), bytes)) && Blank(z).Empty()
  {
  }

  lemma ReEncodeMore(low: nat, next: Byte, low': nat, tail: seq<Byte>, v: Signature, n: nat)
    requires low < 128 && ReEncodes(next, low', tail, v, n)
    requires if n == 0 then next == low' && v.Empty() else next == 128 + low'
    ensures ReEncodes(128 + low, low, [next] + tail, Prepend(next, v), n + 1)
  {
    hide Prepend, EncodeFrom, NoIdleByte, Signature.Empty;
    if n == 0 {
      ReEncodeLast(low, next, v, tail);
    } else {
      ReEncodeStep(low, low', tail, v, n);
    }
  }

  lemma ReEncodeLast(low: nat, next: nat, v: Signature, tail: seq<Byte>)
    requires low < 128 && next < 128 && v.Empty()
    ensures EncodeFrom(low, Prepend(next, v)) == [128 + low] + ([next] + tail)[..1]
        <==> NoIdleByte([next] + tail, 1)
  {
    EncodePrepended(low, next, next, v);
    EncodeUnfolds(next, v);
    hide Prepend, EncodeFrom, TailByte, AfterTail;
    assert ([next] + tail)[..1] == [next];
  }

  lemma ReEncodeStep(low: nat, low': nat, tail: seq<Byte>, v: Signature, n: nat)
    requires low < 128 && low' < 128 && 0 < n <= |tail|
    requires EncodeFrom(low', v) == [128 + low'] + tail[..n] <==> NoIdleByte(tail, n)
    ensures EncodeFrom(low, Prepend(128 + low', v)) == [128 + low] + ([128 + low'] + tail)[..n + 1]
        <==> NoIdleByte([128 + low'] + tail, n + 1)
  {
    EncodePrepended(low, 128 + low', low', v);
    LastByteFollows(128 + low', tail, n);
    hide Prepend, NoIdleByte;
    assert ([128 + low'] + tail)[..n + 1] == [128 + low'] + tail[..n];
    if low' == 0 && v.Empty() {
      EncodeUnfolds(low', v);
      hide EncodeFrom, TailByte, AfterTail;
    } else {
      hide EncodeFrom;
      ConsEqual(128 + low, EncodeFrom(low', v), [128 + low'] + tail[..n]);
    }
  }

  lemma LastByteFollows(next: Byte, tail: seq<Byte>, n: nat)
    requires 0 < n <= |tail|
    ensures NoIdleByte([next] + tail, n + 1) <==> NoIdleByte(tail, n)
  {
  }

  lemma EncodePrepended(low: nat, next: Byte, low': nat, v: Signature)
    requires low < 128 && low' < 128 && (next == low' || next == 128 + low')
    ensures EncodeFrom(low, Prepend(next, v))
         == if low' == 0 && v.Empty() then [low] else [128 + low] + EncodeFrom(low', v)
  {
    TailUndoesPrepend(next, v, low');
    EncodeUnfolds(low, Prepend(next, v));
    hide TailByte, AfterTail, Prepend, EncodeFrom;
  }

  lemma ConsEqual(z: Byte, a: seq<Byte>, b: seq<Byte>)
    ensures [z] + a == [z] + b <==> a == b
  {
    assert ([z] + a)[1..] == a && ([z] + b)[1..] == b;
  }

  /** Encoding a decoded signature gives back exactly the bytes that were read, if and only if the
      reader did not end on an idle zero byte and at most the four stored flags are set. */
  lemma ReEncodeSignature(bytes: seq<Byte>)
    requires DecodeSignature(bytes).Some?
    ensures var (v, more) := DecodeSignature(bytes).value;
            var n := |bytes| - |more|;
            1 <= n <= |bytes| && v.s >= 1
            && (EncodeSignature(v) == bytes[..n] <==> (n == 1 || bytes[n - 1] != 0) && v.f < ALL_SIGNATURE_FLAGS)
  {
    hide EncodeFrom, HeadByte, AfterHead, DecodeFrom, Rest, Above, Fits, Head;
    var z, tail := bytes[0], bytes[1..];
    assert Fits(Head(z), 0) by { HeadFits(z); }
    LoopIsStructural(Head(z), z, 0, tail);
    RestIsSuffix(z, tail);
    var (high, more) := Rest(z, tail).value;
    ReEncodeRest(z, z % 128, tail, high, more);
    HeadUndoesAbove(z, high);
    var (v, _) := DecodeSignature(bytes).value;
    var n := |bytes| - |more|;
    assert bytes[..n] == [z] + tail[..n - 1];
    assert bytes == bytes[..n] + more;
    if v.f < ALL_SIGNATURE_FLAGS {
      assert Stored(v) == Above(Head(z), high, 0);
    } else if EncodeSignature(v) == bytes[..n] {
      SignatureRoundTrip(v, more);
    }
  }

  lemma HeadFits(z: Byte)
    ensures Fits(Head(z), 0)
  {
    assert Pow2(0) == 1 && Pow2(1) == 2 && Pow2(2) == 4 && Pow2(3) == 8 && Pow2(4) == 16;
    hide Pow2;
  }

  // ----- prelude size

  /** One byte, xIIIIIIC, without the extension bit. */
  function SizeByte(v: Sizes): (z: Byte)
    ensures z < 128
  {
    (v.info % 64) * 2 + v.cells % 2
  }

  function AfterSize(v: Sizes): Sizes {
    Sizes(v.info / 64, v.cells / 2)
  }

  function EncodeSizes(v: Sizes): (out: seq<Byte>)
    ensures |out| > 0
    decreases v.info + v.cells
  {
    if v.info < 64 && v.cells < 2 then [SizeByte(v)] else [128 + SizeByte(v)] + EncodeSizes(AfterSize(v))
  }

  lemma SizesUnfold(i: nat, c: nat, more: bool)
    requires more <==> c / 2 != 0 || i / 64 != 0
    ensures EncodeSizes(Sizes(i, c)) ==
            if more then [i % 64 * 2 + c % 2 + 128] + EncodeSizes(Sizes(i / 64, c / 2)) else [i % 64 * 2 + c % 2]
    ensures more ==> i / 64 + c / 2 < i + c
  {
  }

  /** Six bits of a value from bit `n` on. */
  function SixBitsAt(x: nat, n: nat): nat {
    Shifted(x, n) % 64
  }

  lemma ShiftedBySix(x: nat, n: nat)
    ensures Shifted(x / 64, n) == Shifted(x, n + 6)
  {
    ShiftedBy(x / 16, n);
    ShiftedBy(x, n + 2);
    assert x / 16 / 4 == x / 64;
    hide Shifted;
  }

  /** Byte `n` of an encoded prelude size: the extension bit on all but the last, the next six bits of the
      info size, and the next bit of the number of cells below them. */
  lemma {:induction false} SizesOnWire(v: Sizes, n: nat)
    requires n < |EncodeSizes(v)|
    ensures Extended(EncodeSizes(v), n)
    ensures EncodeSizes(v)[n] % 128 == SixBitsAt(v.info, 6 * n) * 2 + BitAt(v.cells, n)
    decreases n
  {
    SizesUnfold(v.info, v.cells, v.cells / 2 != 0 || v.info / 64 != 0);
    hide EncodeSizes;
    if n > 0 {
      SizesOnWire(AfterSize(v), n - 1);
      ShiftedBySix(v.info, 6 * (n - 1));
      ShiftedBy(v.cells, n - 1);
      hide Shifted;
    }
  }

  /** `MP_BC_PRELUDE_SIZE_ENCODE`, a loop that tests its condition twice. */
  method WriteSizes(v: Sizes) returns (out: seq<Byte>)
    ensures out == EncodeSizes(v)
  {
    hide EncodeSizes;
    out := [];
    var i: nat, c: nat := v.info, v.cells;
    var more := true;
    while more
      invariant more ==> out + EncodeSizes(Sizes(i, c)) == EncodeSizes(v)
      invariant !more ==> out == EncodeSizes(v)
      decreases more, i + c
    {
      var z: Byte := (i % 64) * 2 + c % 2;
      SizesUnfold(i, c, c / 2 != 0 || i / 64 != 0);
      c, i := c / 2, i / 64;
      if c != 0 || i != 0 {
        z := z + 128;
      }
      out := out + [z];
      more := c != 0 || i != 0;
    }
  }

  /** The bits of the byte at round `n`, moved to their place. */
  function InfoBits(z: Byte, n: nat): nat {
    z / 2 % 64 * Pow2(6 * n)
  }

  function CellBit(z: Byte, n: nat): nat {
    z % 2 * Pow2(n)
  }

  function AbsorbSizes(v: Sizes, z: Byte, n: nat): Sizes {
    Sizes(BitOr(v.info, InfoBits(z, n)), BitOr(v.cells, CellBit(z, n)))
  }

  /** The decoder's loop. */
  function DecodeSizesFrom(v: Sizes, n: nat, bytes: seq<Byte>): Option<(Sizes, seq<Byte>)>
    decreases |bytes|
  {
    if bytes == [] then None
    else
      var w := AbsorbSizes(v, bytes[0], n);
      if bytes[0] < 128 then Some((w, bytes[1..])) else DecodeSizesFrom(w, n + 1, bytes[1..])
  }

  function DecodeSizes(bytes: seq<Byte>): Option<(Sizes, seq<Byte>)> {
    DecodeSizesFrom(Sizes(0, 0), 0, bytes)
  }

  /** `MP_BC_PRELUDE_SIZE_DECODE_INTO`. */
  method ReadSizes(bytes: seq<Byte>, start: nat) returns (v: Sizes, ip: nat)
    requires Terminated(bytes, start)
    ensures start < ip <= |bytes|
    ensures DecodeSizes(bytes[start..]) == Some((v, bytes[ip..]))
  {
    var i: nat, c: nat := 0, 0;
    var n: nat := 0;
    ip := start;
    while true
      invariant start <= ip < |bytes| && Terminated(bytes, ip)
      invariant DecodeSizes(bytes[start..]) == DecodeSizesFrom(Sizes(i, c), n, bytes[ip..])
      decreases |bytes| - ip
    {
      hide BitOr, InfoBits, CellBit, DecodeSizes;
      var z := bytes[ip];
      assert bytes[ip..][0] == z && bytes[ip..][1..] == bytes[ip + 1..];
      c := BitOr(c, CellBit(z, n));
      i := BitOr(i, InfoBits(z, n));
      ip := ip + 1;
      if z < 128 {
        break;
      }
      n := n + 1;
    }
    v := Sizes(i, c);
  }

  function AboveSizes(low: Sizes, high: Sizes, n: nat): Sizes {
    Sizes(low.info + high.info * Pow2(6 * n), low.cells + high.cells * Pow2(n))
  }

  lemma SixBitField(low: nat, x: nat, y: nat, n: nat)
    requires low < Pow2(n) && x < 64
    ensures BitOr(low, x * Pow2(n)) < Pow2(n + 6)
    ensures BitOr(low, x * Pow2(n)) + y * Pow2(n + 6) == low + (x + 64 * y) * Pow2(n)
  {
    assert Pow2(1) == 2 && Pow2(2) == 4 && Pow2(3) == 8 && Pow2(4) == 16 && Pow2(5) == 32 && Pow2(6) == 64;
    hide *;
    AbsorbField(low, x, y, n, 6);
  }

  lemma SizeFields(z: Byte, v: Sizes)
    requires z == SizeByte(v) || z == 128 + SizeByte(v)
    ensures z / 2 % 64 == v.info % 64 && z % 2 == v.cells % 2
  {
    assert z / 2 == v.info % 64 || z / 2 == 64 + v.info % 64;
  }

  lemma {:induction false} SizesFromRoundTrip(low: Sizes, n: nat, v: Sizes, more: seq<Byte>)
    requires low.info < Pow2(6 * n) && low.cells < Pow2(n)
    ensures DecodeSizesFrom(low, n, EncodeSizes(v) + more) == Some((AboveSizes(low, v, n), more))
    decreases v.info + v.cells
  {
    hide Pow2, AbsorbSizes, AboveSizes, SizeByte, EncodeSizes, DecodeSizesFrom;
    var last := v.info < 64 && v.cells < 2;
    var z: Byte := if last then SizeByte(v) else 128 + SizeByte(v);
    AbsorbedSizes(low, n, v, z);
    var w := AbsorbSizes(low, z, n);
    EncodedSizes(v);
    if last {
      DecodeOneSize(low, n, z, more);
      NoSizesAbove(w, n + 1);
    } else {
      var rest := EncodeSizes(AfterSize(v));
      DecodeOneSize(low, n, z, rest + more);
      assert EncodeSizes(v) + more == [z] + (rest + more);
      SizesFromRoundTrip(w, n + 1, AfterSize(v), more);
    }
  }

  lemma EncodedSizes(v: Sizes)
    ensures EncodeSizes(v) ==
            if v.info < 64 && v.cells < 2 then [SizeByte(v)] else [128 + SizeByte(v)] + EncodeSizes(AfterSize(v))
    ensures v.info < 64 && v.cells < 2 ==> AfterSize(v) == Sizes(0, 0)
  {
    hide SizeByte;
  }

  lemma DecodeOneSize(v: Sizes, n: nat, z: Byte, more: seq<Byte>)
    ensures DecodeSizesFrom(v, n, [z] + more) ==
            if z < 128 then Some((AbsorbSizes(v, z, n), more)) else DecodeSizesFrom(AbsorbSizes(v, z, n), n + 1, more)
  {
    hide AbsorbSizes;
    assert ([z] + more)[0] == z && ([z] + more)[1..] == more;
  }

  lemma NoSizesAbove(w: Sizes, n: nat)
    ensures AboveSizes(w, Sizes(0, 0), n) == w
  {
  }

  /** One byte takes the low bits of what is left. */
  lemma AbsorbedSizes(low: Sizes, n: nat, v: Sizes, z: Byte)
    requires low.info < Pow2(6 * n) && low.cells < Pow2(n) && (z == SizeByte(v) || z == 128 + SizeByte(v))
    ensures var w := AbsorbSizes(low, z, n);
            && w.info < Pow2(6 * (n + 1)) && w.cells < Pow2(n + 1)
            && AboveSizes(w, AfterSize(v), n + 1) == AboveSizes(low, v, n)
  {
    SizeFields(z, v);
    SixBitField(low.info, v.info % 64, v.info / 64, 6 * n);
    OneBitField(low.cells, v.cells % 2, v.cells / 2, n);
    hide BitOr, Pow2, SizeByte;
    assert v.info % 64 + 64 * (v.info / 64) == v.info && v.cells % 2 + 2 * (v.cells / 2) == v.cells;
    assert 6 * (n + 1) == 6 * n + 6;
  }

  /** Decoding encoded sizes, followed by anything, gives back both and consumes exactly their bytes. */
  lemma SizesRoundTrip(v: Sizes, more: seq<Byte>)
    ensures DecodeSizes(EncodeSizes(v) + more) == Some((v, more))
  {
    assert Pow2(6 * 0) == 1 && Pow2(0) == 1;
    SizesFromRoundTrip(Sizes(0, 0), 0, v, more);
  }
}
