/** The part of the assembler that all targets share: offsets, labels and the code buffer. */
module AsmBase {
  import opened Bits

  const COMPUTE: nat := 1
  const EMIT: nat := 2

  /** An unassigned label holds (size_t)-1, of 32 bits. */
  const UNSET: nat := 0xFFFF_FFFF

  /** `mp_asm_base_t`; `code` is the buffer that the emit pass allocates. */
  datatype Base = Base(pass: nat, offset: nat, labels: seq<nat>, code: seq<Byte>)

  /** What the assertions of a write of `n` bytes demand. */
  predicate HasRoom(a: Base, n: nat) {
    a.pass == EMIT ==> a.offset + n <= |a.code|
  }

  function Spliced(code: seq<Byte>, at: nat, bytes: seq<Byte>): (r: seq<Byte>)
    requires at + |bytes| <= |code|
    ensures |r| == |code|
  {
    code[..at] + bytes + code[at + |bytes|..]
  }

  /** Bytes handed to the current pass: counted, and in the emit pass stored. */
  function Put(a: Base, bytes: seq<Byte>): Base
    requires HasRoom(a, |bytes|)
  {
    a.(offset := a.offset + |bytes|, code := if a.pass == EMIT then Spliced(a.code, a.offset, bytes) else a.code)
  }

  /** What the assertions of a label assignment demand. */
  predicate CanAssign(a: Base, l: nat) {
    l < |a.labels| && a.labels[l] == if a.pass < EMIT then UNSET else a.offset
  }

  function Assign(a: Base, l: nat): Base
    requires l < |a.labels|
  {
    if a.pass < EMIT then a.(labels := a.labels[l := a.offset]) else a
  }

  predicate PowerOfTwo(n: nat)
    decreases n
  {
    n == 1 || (n > 1 && n % 2 == 0 && PowerOfTwo(n / 2))
  }

  /** (n + align - 1) & ~(align - 1), for an alignment that is a power of two. */
  function AlignUp(n: nat, align: nat): nat
    requires align > 0
  {
    (n + align - 1) / align * align
  }

  lemma DivisionBrackets(n: nat, d: nat)
    requires d > 0
    ensures n / d * d <= n < n / d * d + d
  {
  }

  /** The first multiple of the alignment that is not before `n`. */
  lemma AlignUpIsNext(n: nat, align: nat, k: nat)
    requires align > 0
    ensures n <= AlignUp(n, align) < n + align
    ensures k * align >= n ==> k * align >= AlignUp(n, align)
  {
    var q := (n + align - 1) / align;
    DivisionBrackets(n + align - 1, align);
    NextMultiple(n, align, k, q);
  }

  lemma NextMultiple(n: nat, align: nat, k: nat, q: nat)
    requires align > 0 && q * align <= n + align - 1 < q * align + align
    ensures n <= q * align < n + align && (k * align >= n ==> k * align >= q * align)
  {
    if k < q {
      ProductMonotone(k + 1, q, align);
    }
  }

  lemma ProductMonotone(a: nat, b: nat, c: nat)
    requires a <= b
    ensures a * c <= b * c && (a + 1) * c == a * c + c
  {
  }

  function Aligned(a: Base, align: nat): Base
    requires align > 0
  {
    a.(offset := AlignUp(a.offset, align))
  }

  /** The little-endian bytes of a value; beyond four they are zero. */
  function DataBytes(size: nat, val: nat): (r: seq<Byte>)
    ensures |r| == size
    decreases size
  {
    if size == 0 then [] else [val % 0x100] + DataBytes(size - 1, val / 0x100)
  }

  /** The number that bytes make, the lowest first. */
  function LittleEndian(bytes: seq<Byte>): nat
    decreases |bytes|
  {
    if bytes == [] then 0 else bytes[0] + 0x100 * LittleEndian(bytes[1..])
  }

  /** `n` bytes of data are the value, cut to as many. */
  lemma {:induction false} DataIsValue(n: nat, val: nat)
    ensures LittleEndian(DataBytes(n, val)) == val % Pow2(8 * n)
    decreases n
  {
    if n > 0 {
      DataIsValue(n - 1, val / 0x100);
      assert DataBytes(n, val)[1..] == DataBytes(n - 1, val / 0x100);
      Powers();
      Pow2Adds(8, 8 * (n - 1));
      hide *;
      LowByteFirst(val, Pow2(8 * (n - 1)));
    } else {
      assert Pow2(8 * 0) == 1;
    }
  }

  lemma LowByteFirst(x: nat, m: nat)
    requires m > 0
    ensures x % (0x100 * m) == x % 0x100 + 0x100 * (x / 0x100 % m)
  {
    var y := x / 0x100;
    DivisionIdentity(y, m);
    ByteBelow(x % 0x100, y % m, m, y / m);
    DivModUnique(x, 0x100 * m, y / m, x % 0x100 + 0x100 * (y % m));
  }

  lemma DivisionIdentity(x: nat, d: nat)
    requires d > 0
    ensures x == d * (x / d) + x % d && x % d < d
  {
  }

  lemma ByteBelow(byte: nat, r: nat, m: nat, q: nat)
    requires byte < 0x100 && r < m
    ensures byte + 0x100 * r < 0x100 * m && 0x100 * (m * q + r) + byte == 0x100 * m * q + (byte + 0x100 * r)
  {
  }

  /** `mp_asm_base_start_pass`; the emit pass allocates as much as the previous pass counted. */
  function Started(a: Base, pass: nat, memory: seq<Byte>): Base {
    if pass < EMIT then Base(pass, 0, seq(|a.labels|, i => UNSET), a.code)
    else Base(pass, 0, a.labels, memory)
  }

  class Assembler {
    var pass: nat
    var codeOffset: nat
    var code: array<Byte>
    const labelOffsets: array<nat>

    ghost predicate Valid()
      reads this
    {
      (labelOffsets as object) != (code as object)
    }

    ghost function Repr(): set<object>
      reads this
    {
      {this, code, labelOffsets}
    }

    ghost function Current(): Base
      reads Repr()
    {
      Base(pass, codeOffset, labelOffsets[..], code[..])
    }

    constructor (maxLabels: nat)
      ensures Valid() && Current() == Base(0, 0, seq(maxLabels, i => UNSET), []) && fresh(Repr())
    {
      pass, codeOffset := 0, 0;
      code := new Byte[0];
      labelOffsets := new nat[maxLabels](i => UNSET);
    }

    method StartPass(p: nat)
      requires Valid()
      modifies Repr()
      ensures Valid() && fresh(Repr() - old(Repr()))
      ensures |code[..]| == if p < EMIT then |old(code[..])| else old(codeOffset)
      ensures Current() == Started(old(Current()), p, code[..])
    {
      if p < EMIT {
        forall i | 0 <= i < labelOffsets.Length {
          labelOffsets[i] := UNSET;
        }
      } else {
        code := new Byte[codeOffset];
      }
      pass := p;
      codeOffset := 0;
      assert p < EMIT ==> labelOffsets[..] == seq(labelOffsets.Length, i => UNSET);
    }

    /** Where to write, or nothing in a pass that only counts. */
    method GetCurToWriteBytes(n: nat) returns (write: bool, at: nat)
      requires HasRoom(Current(), n)
      modifies this`codeOffset
      ensures write == (pass == EMIT) && at == old(codeOffset) && codeOffset == old(codeOffset) + n
      ensures write ==> at + n <= code.Length
    {
      write := pass == EMIT;
      at := codeOffset;
      codeOffset := codeOffset + n;
    }

    method LabelAssign(l: nat)
      requires Valid() && CanAssign(Current(), l)
      modifies labelOffsets
      ensures Valid() && Current() == Assign(old(Current()), l)
    {
      if pass < EMIT {
        labelOffsets[l] := codeOffset;
      }
    }

    method Align(align: nat)
      requires Valid() && PowerOfTwo(align)
      modifies this`codeOffset
      ensures Valid() && Current() == Aligned(old(Current()), align)
    {
      codeOffset := AlignUp(codeOffset, align);
    }

    method Data(size: nat, val: nat)
      requires Valid() && HasRoom(Current(), size)
      modifies this`codeOffset, code
      ensures Valid() && Current() == Put(old(Current()), DataBytes(size, val))
    {
      var write, at := GetCurToWriteBytes(size);
      if write {
        StoreBytes(at, size, val);
      }
    }

    static lemma OneByteMore(before: seq<Byte>, at: nat, done: seq<Byte>, byte: Byte)
      requires at + |done| < |before|
      ensures Spliced(before, at, done)[at + |done| := byte] == Spliced(before, at, done + [byte])
    {
    }

    static lemma NothingSpliced(before: seq<Byte>, at: nat)
      requires at <= |before|
      ensures Spliced(before, at, []) == before
    {
    }

    static lemma OneByteOut(done: seq<Byte>, n: nat, v: nat)
      requires n > 0
      ensures done + DataBytes(n, v) == done + [v % 0x100] + DataBytes(n - 1, v / 0x100)
    {
    }

    method StoreBytes(at: nat, size: nat, val: nat)
      requires Valid() && at + size <= code.Length
      modifies code
      ensures code[..] == Spliced(old(code[..]), at, DataBytes(size, val))
      ensures labelOffsets[..] == old(labelOffsets[..])
    {
      assert DataBytes(0, 0) == [];
      hide Spliced, DataBytes;
      ghost var before := code[..];
      ghost var done: seq<Byte> := [];
      NothingSpliced(before, at);
      var v := val;
      var i := 0;
      while i < size
        invariant i <= size && |done| == i
        invariant done + DataBytes(size - i, v) == DataBytes(size, val)
        invariant code[..] == Spliced(before, at, done)
      {
        var byte: Byte := v % 0x100;
        OneByteOut(done, size - i, v);
        OneByteMore(before, at, done, byte);
        code[at + i] := byte;
        done := done + [byte];
        v := v / 0x100;
        i := i + 1;
      }
      assert done + DataBytes(0, v) == done;
    }
  }
}
