/** The ARM back end of the assembler: instruction words, and the functions that emit them. */
module AsmArm {
  import opened Bits
  import opened AsmBase

  /** A word of 32 bits, as a number. Fields that do not overlap are put together by adding. */
  type Word = nat

  const MODULUS: nat := 0x1_0000_0000

  /** Arithmetic on words wraps. */
  function Wrap(x: int): (w: Word)
    ensures w < MODULUS
  {
    x % MODULUS
  }

  // ----- instruction words, as in sections A3 and A4 of the ARM Architecture Reference Manual

  const AL: Word := 0xE000_0000
  const SP: Word := 13
  const PC: Word := 15

  /** r1 to r8. */
  const SAVED: Word := 0x1FE
  const LR_BIT: Word := 0x4000
  const PC_BIT: Word := 0x8000

  function OpPush(reglist: Word): Word { 0x92d_0000 + reglist % 0x1_0000 }
  function OpPop(reglist: Word): Word { 0x8bd_0000 + reglist % 0x1_0000 }
  function OpMovReg(rd: Word, rn: Word): Word { 0x1a0_0000 + 0x1000 * rd + rn }
  function OpMovImm(rd: Word, imm: Word): Word { 0x3a0_0000 + 0x1000 * rd + imm }
  function OpMvnImm(rd: Word, imm: Word): Word { 0x3e0_0000 + 0x1000 * rd + imm }
  function OpAddImm(rd: Word, rn: Word, imm: Word): Word { 0x280_0000 + 0x1_0000 * rn + 0x1000 * rd + imm % 0x100 }
  function OpSubImm(rd: Word, rn: Word, imm: Word): Word { 0x240_0000 + 0x1_0000 * rn + 0x1000 * rd + imm % 0x100 }
  function OpAddReg(rd: Word, rn: Word, rm: Word): Word { 0x080_0000 + 0x1_0000 * rn + 0x1000 * rd + rm }
  function OpSubReg(rd: Word, rn: Word, rm: Word): Word { 0x040_0000 + 0x1_0000 * rn + 0x1000 * rd + rm }
  function OpCmpReg(rd: Word, rn: Word): Word { 0x150_0000 + 0x1_0000 * rd + rn }
  function OpCmpImm(rd: Word, imm: int): Word { 0x350_0000 + 0x1_0000 * rd + imm % 0x100 }
  function OpLdrPc(rd: Word): Word { 0x59f_0000 + 0x1000 * rd }
  function OpLdrSp(rd: Word, local: Word): Word { 0x59d_0000 + 0x1000 * rd + 4 * local }
  function OpStrSp(rd: Word, local: Word): Word { 0x58d_0000 + 0x1000 * rd + 4 * local }

  /** b pc: skips the word that follows. */
  const OP_SKIP: Word := 0xa00_0000

  // ----- relative addresses

  /** A word read as a signed number. */
  function Signed(w: Word): int {
    if w < 0x8000_0000 then w else w - MODULUS
  }

  /** The difference of two offsets in words of 32 bits, and where the processor has got to, as a number
      of instructions: `rel >>= 2` rounds down. */
  function BranchOffset(offset: nat, dest: nat): int {
    Signed(Wrap(dest - offset - 8)) / 4
  }

  /** SIGNED_FIT24: the upper nine bits clear, or the upper eight bits set. */
  predicate SignedFit24(rel: int) {
    0 <= rel < 0x80_0000 || -0x100_0000 <= rel < 0
  }

  function OpBranch(cond: Word, rel: int): Word {
    cond + 0xa00_0000 + rel % 0x100_0000
  }

  // ----- operations

  /** One call of the assembler; `Plain` is any function that emits one word that depends on nothing else. */
  datatype Op =
    | Label(l: nat)
    | Align(to: nat)
    | Data(size: nat, val: Word)
    | Plain(op: Word)
    | MovRegI32(rd: Word, imm: int)
    | MovRegI32Optimised(rd: Word, imm: int)
    | SetccReg(rd: Word, cond: Word)
    | MovRegPcrel(rd: Word, l: nat)
    | BccLabel(cond: Word, l: nat)
    | Entry(locals: nat)
    | Exit

  /** `asm_arm_t`. */
  datatype Arm = Arm(base: Base, pushReglist: Word, stackAdjust: nat)

  function EntryAdjust(locals: nat): nat {
    if locals > 3 then locals * 4 + (if locals % 2 == 1 then 4 else 0) else 0
  }

  function I32Words(rd: Word, imm: int): (r: seq<Word>)
    ensures |r| == 3
  {
    [AL + OpLdrPc(rd), AL + OP_SKIP, Wrap(imm)]
  }

  /** `imm` is an int of 32 bits; ~imm is -1 - imm. */
  function OptimisedWords(rd: Word, imm: int): seq<Word> {
    if 0 <= imm < 0x100 then [AL + OpMovImm(rd, imm)]
    else if -256 <= imm < 0 then [AL + OpMvnImm(rd, -1 - imm)]
    else I32Words(rd, imm)
  }

  /** cond ^ (1 << 28): the opposite condition. */
  function Opposite(cond: Word): Word {
    if cond / 0x1000_0000 % 2 == 1 then cond - 0x1000_0000 else cond + 0x1000_0000
  }

  function SetccWords(rd: Word, cond: Word): (r: seq<Word>)
    ensures |r| == 2
  {
    [OpMovImm(rd, 1) + cond, OpMovImm(rd, 0) + Opposite(cond)]
  }

  function AddPcWords(rd: Word, rel: Word): (r: seq<Word>)
    ensures |r| == 4
  {
    [AL + OpLdrPc(rd), AL + OP_SKIP, rel, AL + OpAddReg(rd, rd, PC)]
  }

  /** The distance from the instruction that adds the PC, which reads as two words further on. */
  function PcrelDistance(offset: nat, dest: nat): Word {
    Wrap(dest - offset - (12 + 8))
  }

  function PcrelWords(rd: Word, offset: nat, dest: nat): (r: seq<Word>)
    ensures |r| == 4
  {
    AddPcWords(rd, PcrelDistance(offset, dest))
  }

  function ShortBranch(cond: Word, rel: int): seq<Word> {
    if SignedFit24(rel) then [OpBranch(cond, rel)] else []
  }

  function BranchWords(cond: Word, offset: nat, dest: nat): seq<Word> {
    ShortBranch(cond, BranchOffset(offset, dest))
  }

  function SaveRegisters(reglist: Word): Word {
    AL + OpPush(reglist + LR_BIT)
  }

  function ReserveLocals(adjust: nat): Word {
    AL + OpSubImm(SP, SP, adjust)
  }

  function EntryWords(adjust: nat): seq<Word> {
    [SaveRegisters(SAVED)] + (if adjust > 0 then [ReserveLocals(adjust)] else [])
  }

  function DropLocals(adjust: nat): Word {
    AL + OpAddImm(SP, SP, adjust)
  }

  function Return(reglist: Word): Word {
    AL + OpPop(reglist + PC_BIT)
  }

  function ExitWords(adjust: nat, reglist: Word): seq<Word> {
    (if adjust > 0 then [DropLocals(adjust)] else []) + [Return(reglist)]
  }

  /** The label an operation refers to exists. */
  predicate Defined(a: Base, op: Op) {
    (op.MovRegPcrel? || op.BccLabel?) ==> op.l < |a.labels|
  }

  function Words(a: Arm, op: Op): seq<Word>
    requires Defined(a.base, op)
  {
    match op
    case Label(_) => []
    case Align(_) => []
    case Data(_, _) => []
    case Plain(w) => [AL + w]
    case MovRegI32(rd, imm) => I32Words(rd, imm)
    case MovRegI32Optimised(rd, imm) => OptimisedWords(rd, imm)
    case SetccReg(rd, cond) => SetccWords(rd, cond)
    case MovRegPcrel(rd, l) => PcrelWords(rd, a.base.offset, a.base.labels[l])
    case BccLabel(cond, l) => BranchWords(cond, a.base.offset, a.base.labels[l])
    case Entry(locals) => EntryWords(EntryAdjust(locals))
    case Exit => ExitWords(a.stackAdjust, a.pushReglist)
  }

  function WordBytes(w: Word): (r: seq<Byte>)
    ensures |r| == 4
  {
    DataBytes(4, w)
  }

  function BytesOf(ws: seq<Word>): (r: seq<Byte>)
    ensures |r| == 4 * |ws|
    decreases |ws|
  {
    if ws == [] then [] else WordBytes(ws[0]) + BytesOf(ws[1..])
  }

  /** The bytes an operation hands to the current pass. */
  function OpBytes(a: Arm, op: Op): seq<Byte>
    requires Defined(a.base, op)
  {
    if op.Data? then DataBytes(op.size, op.val) else BytesOf(Words(a, op))
  }

  /** What the assertions along the way demand. */
  predicate Allowed(a: Arm, op: Op) {
    match op
    case Label(l) => CanAssign(a.base, l)
    case Align(to) => PowerOfTwo(to)
    case _ => Defined(a.base, op) && HasRoom(a.base, |OpBytes(a, op)|)
  }

  function Apply(a: Arm, op: Op): Arm
    requires Allowed(a, op)
  {
    match op
    case Label(l) => a.(base := Assign(a.base, l))
    case Align(to) => a.(base := Aligned(a.base, to))
    case Entry(locals) => Arm(Put(a.base, OpBytes(a, op)), SAVED, EntryAdjust(locals))
    case _ => a.(base := Put(a.base, OpBytes(a, op)))
  }

  // ----- writing word by word

  lemma PutTwice(a: Base, x: seq<Byte>, y: seq<Byte>)
    requires HasRoom(a, |x| + |y|)
    ensures HasRoom(a, |x|) && HasRoom(Put(a, x), |y|)
    ensures Put(Put(a, x), y) == Put(a, x + y)
  {
    if a.pass == EMIT {
      var (o, c) := (a.offset, a.code);
      assert Spliced(Spliced(c, o, x), o + |x|, y) == Spliced(c, o, x + y);
    }
  }

  lemma BytesJoin(w: Word, ws: seq<Word>)
    ensures BytesOf([w] + ws) == WordBytes(w) + BytesOf(ws)
    ensures BytesOf([w]) == WordBytes(w)
  {
    assert ([w] + ws)[1..] == ws && [w][1..] == [];
    assert BytesOf([]) == [];
    hide WordBytes;
  }

  lemma PutNothing(a: Base)
    requires HasRoom(a, 0)
    ensures Put(a, BytesOf([])) == a
  {
    if a.pass == EMIT {
      assert Spliced(a.code, a.offset, []) == a.code;
    }
  }

  lemma {:induction false} BytesAppend(ws: seq<Word>, w: Word)
    ensures BytesOf(ws + [w]) == BytesOf(ws) + WordBytes(w)
    decreases |ws|
  {
    hide WordBytes;
    if ws == [] {
      BytesJoin(w, []);
      assert [] + [w] == [w];
    } else {
      BytesAppend(ws[1..], w);
      assert (ws + [w])[1..] == ws[1..] + [w];
    }
  }

  lemma PutNext(start: Base, done: seq<Word>, w: Word)
    requires HasRoom(start, 4 * |done| + 4)
    ensures HasRoom(Put(start, BytesOf(done)), 4)
    ensures Put(Put(start, BytesOf(done)), WordBytes(w)) == Put(start, BytesOf(done + [w]))
  {
    hide WordBytes, BytesOf, Spliced;
    BytesAppend(done, w);
    PutTwice(start, BytesOf(done), WordBytes(w));
  }

  class ArmAssembler {
    const base: Assembler
    var pushReglist: Word
    var stackAdjust: nat

    ghost predicate Valid()
      reads base
    {
      base.Valid()
    }

    ghost function Repr(): set<object>
      reads this, base
    {
      base.Repr() + {this}
    }

    ghost function Current(): Arm
      reads Repr()
    {
      Arm(base.Current(), pushReglist, stackAdjust)
    }

    constructor (maxLabels: nat)
      ensures Valid() && fresh(Repr())
      ensures Current() == Arm(Base(0, 0, seq(maxLabels, i => UNSET), []), 0, 0)
    {
      base := new Assembler(maxLabels);
      pushReglist, stackAdjust := 0, 0;
    }

    /** `emit`. */
    method Emit(w: Word)
      requires Valid() && HasRoom(base.Current(), 4)
      modifies base`codeOffset, base.code
      ensures Valid() && base.Current() == Put(old(base.Current()), WordBytes(w))
    {
      var write, at := base.GetCurToWriteBytes(4);
      if write {
        base.StoreBytes(at, 4, w);
      }
    }

    method EmitAl(op: Word)
      requires Valid() && HasRoom(base.Current(), 4)
      modifies base`codeOffset, base.code
      ensures Valid() && base.Current() == Put(old(base.Current()), BytesOf([AL + op]))
    {
      Emit(AL + op);
      BytesJoin(AL + op, []);
    }

    /** Another word after `done`. */
    method EmitNext(w: Word, ghost start: Base, ghost done: seq<Word>)
      requires Valid() && HasRoom(start, 4 * |done| + 4) && base.Current() == Put(start, BytesOf(done))
      modifies base`codeOffset, base.code
      ensures Valid() && base.Current() == Put(start, BytesOf(done + [w]))
    {
      PutNext(start, done, w);
      Emit(w);
    }

    method MovRegI32(rd: Word, imm: int) returns (loc: nat)
      requires Valid() && HasRoom(base.Current(), 12)
      modifies base`codeOffset, base.code
      ensures Valid() && base.Current() == Put(old(base.Current()), BytesOf(I32Words(rd, imm)))
      ensures loc == old(base.codeOffset) + 8
    {
      ghost var start := base.Current();
      PutNothing(start);
      EmitNext(AL + OpLdrPc(rd), start, []);
      EmitNext(AL + OP_SKIP, start, [AL + OpLdrPc(rd)]);
      loc := base.codeOffset;
      EmitNext(Wrap(imm), start, [AL + OpLdrPc(rd), AL + OP_SKIP]);
      assert [AL + OpLdrPc(rd), AL + OP_SKIP] + [Wrap(imm)] == I32Words(rd, imm);
    }

    method MovRegI32Optimised(rd: Word, imm: int)
      requires Valid() && HasRoom(base.Current(), 4 * |OptimisedWords(rd, imm)|)
      modifies base`codeOffset, base.code
      ensures Valid() && base.Current() == Put(old(base.Current()), BytesOf(OptimisedWords(rd, imm)))
    {
      if 0 <= imm < 0x100 {
        EmitAl(OpMovImm(rd, imm));
      } else if -256 <= imm < 0 {
        EmitAl(OpMvnImm(rd, -1 - imm));
      } else {
        var _ := MovRegI32(rd, imm);
      }
    }

    method SetccReg(rd: Word, cond: Word)
      requires Valid() && HasRoom(base.Current(), 8)
      modifies base`codeOffset, base.code
      ensures Valid() && base.Current() == Put(old(base.Current()), BytesOf(SetccWords(rd, cond)))
    {
      ghost var start := base.Current();
      PutNothing(start);
      EmitNext(OpMovImm(rd, 1) + cond, start, []);
      EmitNext(OpMovImm(rd, 0) + Opposite(cond), start, [OpMovImm(rd, 1) + cond]);
      assert [OpMovImm(rd, 1) + cond] + [OpMovImm(rd, 0) + Opposite(cond)] == SetccWords(rd, cond);
    }

    method MovRegPcrel(rd: Word, l: nat)
      requires Valid() && l < base.labelOffsets.Length && HasRoom(base.Current(), 16)
      modifies base`codeOffset, base.code
      ensures Valid()
      ensures base.Current() ==
              Put(old(base.Current()), BytesOf(PcrelWords(rd, old(base.codeOffset), old(base.labelOffsets[l]))))
    {
      hide Put, BytesOf, AddPcWords;
      var rel := PcrelDistance(base.codeOffset, base.labelOffsets[l]);
      hide PcrelDistance;
      AddPc(rd, rel);
    }

    method AddPc(rd: Word, rel: Word)
      requires Valid() && HasRoom(base.Current(), 16)
      modifies base`codeOffset, base.code
      ensures Valid() && base.Current() == Put(old(base.Current()), BytesOf(AddPcWords(rd, rel)))
    {
      ghost var start := base.Current();
      hide Put, BytesOf;
      PutNothing(start);
      EmitNext(AL + OpLdrPc(rd), start, []);
      EmitNext(AL + OP_SKIP, start, [AL + OpLdrPc(rd)]);
      EmitNext(rel, start, [AL + OpLdrPc(rd), AL + OP_SKIP]);
      EmitNext(AL + OpAddReg(rd, rd, PC), start, [AL + OpLdrPc(rd), AL + OP_SKIP, rel]);
      assert [AL + OpLdrPc(rd), AL + OP_SKIP] + [rel] == [AL + OpLdrPc(rd), AL + OP_SKIP, rel];
      assert [AL + OpLdrPc(rd), AL + OP_SKIP, rel] + [AL + OpAddReg(rd, rd, PC)] == AddPcWords(rd, rel);
    }

    method BccLabel(cond: Word, l: nat)
      requires Valid() && l < base.labelOffsets.Length
      requires HasRoom(base.Current(), 4 * |BranchWords(cond, base.codeOffset, base.labelOffsets[l])|)
      modifies base`codeOffset, base.code
      ensures Valid()
      ensures base.Current() ==
              Put(old(base.Current()), BytesOf(BranchWords(cond, old(base.codeOffset), old(base.labelOffsets[l]))))
    {
      hide ShortBranch;
      var rel := BranchOffset(base.codeOffset, base.labelOffsets[l]);
      hide BranchOffset;
      Branch(cond, rel);
    }

    /** A distance that does not fit is reported, and nothing is emitted. */
    method Branch(cond: Word, rel: int)
      requires Valid() && HasRoom(base.Current(), 4 * |ShortBranch(cond, rel)|)
      modifies base`codeOffset, base.code
      ensures Valid() && base.Current() == Put(old(base.Current()), BytesOf(ShortBranch(cond, rel)))
    {
      hide OpBranch, SignedFit24;
      if SignedFit24(rel) {
        BytesJoin(OpBranch(cond, rel), []);
        Emit(OpBranch(cond, rel));
      } else {
        PutNothing(base.Current());
      }
    }

    method Entry(locals: nat)
      requires Valid() && HasRoom(base.Current(), 4 * |EntryWords(EntryAdjust(locals))|)
      modifies this, base`codeOffset, base.code
      ensures Valid() && pushReglist == SAVED && stackAdjust == EntryAdjust(locals)
      ensures base.Current() == Put(old(base.Current()), BytesOf(EntryWords(EntryAdjust(locals))))
    {
      ghost var start := base.Current();
      stackAdjust := 0;
      pushReglist := SAVED;
      if locals > 3 {
        stackAdjust := locals * 4;
        if locals % 2 == 1 {
          stackAdjust := stackAdjust + 4;
        }
      }
      hide SaveRegisters, ReserveLocals, BytesOf, Put;
      PutNothing(start);
      EmitNext(SaveRegisters(pushReglist), start, []);
      assert [] + [SaveRegisters(SAVED)] == [SaveRegisters(SAVED)];
      if stackAdjust > 0 {
        EmitNext(ReserveLocals(stackAdjust), start, [SaveRegisters(SAVED)]);
      }
    }

    method Exit()
      requires Valid() && HasRoom(base.Current(), 4 * |ExitWords(stackAdjust, pushReglist)|)
      modifies base`codeOffset, base.code
      ensures Valid() && base.Current() == Put(old(base.Current()), BytesOf(ExitWords(stackAdjust, pushReglist)))
    {
      hide DropLocals, Return, BytesOf, Put;
      ghost var start := base.Current();
      ghost var done: seq<Word> := [];
      PutNothing(start);
      if stackAdjust > 0 {
        EmitNext(DropLocals(stackAdjust), start, done);
        done := done + [DropLocals(stackAdjust)];
      }
      EmitNext(Return(pushReglist), start, done);
      assert done + [Return(pushReglist)] == ExitWords(stackAdjust, pushReglist);
    }

    /** One operation of a program. */
    method Perform(op: Op)
      requires Valid() && Allowed(Current(), op)
      modifies Repr()
      ensures Valid() && base.code == old(base.code) && Current() == Apply(old(Current()), op)
    {
      hide I32Words, OptimisedWords, SetccWords, PcrelWords, BranchWords, EntryWords, ExitWords, BytesOf, DataBytes;
      match op {
        case Label(l) => base.LabelAssign(l);
        case Align(to) => base.Align(to);
        case Data(size, val) => base.Data(size, val);
        case Plain(w) => EmitAl(w);
        case MovRegI32(rd, imm) => var _ := MovRegI32(rd, imm);
        case MovRegI32Optimised(rd, imm) => MovRegI32Optimised(rd, imm);
        case SetccReg(rd, cond) => SetccReg(rd, cond);
        case MovRegPcrel(rd, l) => MovRegPcrel(rd, l);
        case BccLabel(cond, l) => BccLabel(cond, l);
        case Entry(locals) => Entry(locals);
        case Exit => Exit();
      }
    }
  }
}
