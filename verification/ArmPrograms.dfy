/** From the bytes of an assembled program to what the processor does with them. */
module ArmPrograms {
  import opened Bits
  import opened AsmBase
  import opened AsmArm
  import opened AsmPasses
  import opened ArmCpu
  import opened ArmRuns

  /** The word that four bytes in memory are, on a little-endian machine. */
  function FromBytes(b: seq<Byte>): Word
    requires |b| == 4
  {
    var (b0: int, b1: int, b2: int, b3: int) := (b[0], b[1], b[2], b[3]);
    b0 + 0x100 * b1 + 0x1_0000 * b2 + 0x100_0000 * b3
  }

  lemma WordSurvives(w: Word)
    requires w < MODULUS
    ensures FromBytes(WordBytes(w)) == w
  {
    var (x, y, z) := (w / 0x100, w / 0x1_0000, w / 0x100_0000);
    assert x / 0x100 == y && y / 0x100 == z;
    assert DataBytes(4, w) == [w % 0x100] + DataBytes(3, x);
    assert DataBytes(3, x) == [x % 0x100] + DataBytes(2, y);
    assert DataBytes(2, y) == [y % 0x100] + DataBytes(1, z);
    assert DataBytes(1, z) == [z % 0x100] + DataBytes(0, z / 0x100);
    assert WordBytes(w) == [w % 0x100, x % 0x100, y % 0x100, z % 0x100];
    assert w == w % 0x100 + 0x100 * x && x == x % 0x100 + 0x100 * y && y == y % 0x100 + 0x100 * z;
  }

  predicate AreWords(ws: seq<Word>) {
    forall i :: 0 <= i < |ws| ==> ws[i] < MODULUS
  }

  /** The code stands in memory from the address `start` on. */
  ghost predicate Loaded(mem: Memory, start: nat, code: seq<Byte>) {
    forall o: nat :: o % 4 == 0 && o + 4 <= |code| ==> mem(Wrap(start + o)) == FromBytes(code[o..o + 4])
  }

  /** The address of a place in the code. */
  function Address(start: nat, offset: nat): Word {
    Wrap(start + offset)
  }

  lemma {:induction false} WordsAreLoaded(mem: Memory, start: nat, code: seq<Byte>, o: nat, ws: seq<Word>, i: nat)
    requires Loaded(mem, start, code) && o % 4 == 0 && o + 4 * |ws| <= |code|
    requires code[o..o + 4 * |ws|] == BytesOf(ws) && AreWords(ws) && i < |ws|
    ensures mem(Wrap(Wrap(start + o) + 4 * i)) == ws[i]
    decreases i
  {
    hide Wrap, FromBytes, WordBytes, BytesOf;
    FirstWordInPlace(code, o, ws);
    WrapSum(start + o, 4 * i);
    if i == 0 {
      WordSurvives(ws[0]);
    } else {
      WordsAreLoaded(mem, start, code, o + 4, ws[1..], i - 1);
      WrapSum(start + (o + 4), 4 * (i - 1));
      assert start + (o + 4) + 4 * (i - 1) == start + o + 4 * i;
    }
  }

  lemma SplitSlice(code: seq<Byte>, o: nat, x: seq<Byte>, y: seq<Byte>)
    requires o + |x| + |y| <= |code| && code[o..o + |x| + |y|] == x + y
    ensures code[o..o + |x|] == x && code[o + |x|..o + |x| + |y|] == y
  {
    assert (x + y)[..|x|] == x && (x + y)[|x|..] == y;
    assert code[o..o + |x| + |y|][..|x|] == code[o..o + |x|];
    assert code[o..o + |x| + |y|][|x|..] == code[o + |x|..o + |x| + |y|];
  }

  lemma FirstWordInPlace(code: seq<Byte>, o: nat, ws: seq<Word>)
    requires ws != [] && o + 4 * |ws| <= |code| && code[o..o + 4 * |ws|] == BytesOf(ws)
    ensures code[o..o + 4] == WordBytes(ws[0])
    ensures code[o + 4..o + 4 + 4 * |ws[1..]|] == BytesOf(ws[1..])
  {
    hide WordBytes, BytesOf;
    BytesJoin(ws[0], ws[1..]);
    assert [ws[0]] + ws[1..] == ws;
    SplitSlice(code, o, WordBytes(ws[0]), BytesOf(ws[1..]));
  }

  lemma CodeIsLoaded(mem: Memory, start: nat, code: seq<Byte>, o: nat, ws: seq<Word>)
    requires Loaded(mem, start, code) && o % 4 == 0 && o + 4 * |ws| <= |code|
    requires code[o..o + 4 * |ws|] == BytesOf(ws) && AreWords(ws)
    ensures CodeAt(mem, Address(start, o), ws)
  {
    hide Loaded, BytesOf, Wrap, AreWords;
    forall i | 0 <= i < |ws|
      ensures mem(Wrap(Address(start, o) + 4 * i)) == ws[i]
    {
      WordsAreLoaded(mem, start, code, o, ws, i);
    }
  }

  /** A program that was assembled in two passes. */
  ghost predicate Assembled(a: Arm, ops: seq<Op>, memory: seq<Byte>) {
    && WellFormed(ops, |a.base.labels|) && ProgramSize(a, ops) < REACH && |memory| == ProgramSize(a, ops)
    && Runs(Writing(a, ops, memory), ops)
  }

  /** What the emit pass leaves of a program. */
  ghost function Image(a: Arm, ops: seq<Op>, memory: seq<Byte>): seq<Byte>
    requires Assembled(a, ops, memory)
  {
    Run(Writing(a, ops, memory), ops).base.code
  }

  ghost function OffsetOf(a: Arm, ops: seq<Op>, memory: seq<Byte>, i: nat): nat
    requires Assembled(a, ops, memory) && i < |ops|
  {
    Before(Writing(a, ops, memory), ops, i).base.offset
  }

  lemma BranchWordSmall(cond: nat, rel: int)
    requires cond < 15
    ensures OpBranch(cond * 0x1000_0000, rel) < MODULUS && IsCondition(cond * 0x1000_0000)
  {
    assert cond * 0x1000_0000 % 0x1000_0000 == 0;
  }

  lemma BranchIsLoaded(a: Arm, ops: seq<Op>, memory: seq<Byte>, i: nat, j: nat, cond: nat, l: nat, mem: Memory, start: nat)
    requires Assembled(a, ops, memory) && i < |ops| && j < |ops| && cond < 15
    requires ops[i] == BccLabel(cond * 0x1000_0000, l) && ops[j] == Label(l) && OffsetOf(a, ops, memory, i) % 4 == 0
    requires Loaded(mem, start, Image(a, ops, memory))
    ensures var (from, to) := (OffsetOf(a, ops, memory, i), OffsetOf(a, ops, memory, j));
            var w := OpBranch(cond * 0x1000_0000, BranchOffset(from, to));
            && CodeAt(mem, Address(start, from), [w])
            && (BranchTarget(w, from) == to <==> (to as int - from) % 4 == 0)
  {
    hide Runs, Run, Before, Writing, WellFormed, ProgramSize, OpBranch, BranchOffset, WordBytes, Wrap, BranchTarget, Loaded;
    var (from, to) := (OffsetOf(a, ops, memory, i), OffsetOf(a, ops, memory, j));
    var w := OpBranch(cond * 0x1000_0000, BranchOffset(from, to));
    BranchWordSmall(cond, BranchOffset(from, to));
    BranchesLand(a, ops, memory, i, j);
    BytesJoin(w, []);
    CodeIsLoaded(mem, start, Image(a, ops, memory), from, [w]);
  }

  lemma PcrelWordsSmall(rd: Word, offset: nat, dest: nat)
    requires Reg(rd)
    ensures AreWords(PcrelWords(rd, offset, dest))
  {
  }

  lemma PcrelBytes(b: Arm, op: Op, code: seq<Byte>)
    requires op.MovRegPcrel? && BytesInPlace(b, op, code)
    ensures var ws := PcrelWords(op.rd, b.base.offset, b.base.labels[op.l]);
            b.base.offset + 4 * |ws| <= |code| && code[b.base.offset..b.base.offset + 4 * |ws|] == BytesOf(ws)
  {
    hide BytesOf, PcrelWords;
  }

  lemma PcrelInImage(a: Arm, ops: seq<Op>, memory: seq<Byte>, i: nat, j: nat)
    requires Assembled(a, ops, memory) && i < |ops| && j < |ops|
    requires ops[i].MovRegPcrel? && ops[j] == Label(ops[i].l)
    ensures var (from, code) := (OffsetOf(a, ops, memory, i), Image(a, ops, memory));
            var ws := PcrelWords(ops[i].rd, from, OffsetOf(a, ops, memory, j));
            from + 4 * |ws| <= |code| && code[from..from + 4 * |ws|] == BytesOf(ws)
  {
    hide Runs, Run, Before, Writing, WellFormed, ProgramSize, PcrelWords, BytesInPlace, Allowed, BytesOf, Apply;
    var b := Writing(a, ops, memory);
    LabelIsPlace(a, ops, memory, j);
    WritingEmits(a, ops, memory);
    EveryOpInPlace(b, ops, i);
    BeforeBasics(b, ops, i);
    PcrelBytes(Before(b, ops, i), ops[i], Image(a, ops, memory));
  }

  /** The code for the address of a label: three instructions leave it in the register. */
  lemma ProgramAddresses(a: Arm, ops: seq<Op>, memory: seq<Byte>, i: nat, j: nat, c: Cpu, start: nat)
    requires Assembled(a, ops, memory) && i < |ops| && j < |ops|
    requires ops[i].MovRegPcrel? && Reg(ops[i].rd) && ops[j] == Label(ops[i].l) && OffsetOf(a, ops, memory, i) % 4 == 0
    requires c.Valid() && Loaded(c.mem, start, Image(a, ops, memory))
    requires c.regs[15] == Address(start, OffsetOf(a, ops, memory, i))
    ensures Steps(c, 3).Running?
    ensures Steps(c, 3).cpu.regs[ops[i].rd] == Address(start, OffsetOf(a, ops, memory, j))
  {
    hide Steps, Assembled, Image, OffsetOf, PcrelWords, Wrap, Loaded, Loads, CodeAt, BytesOf, AreWords;
    var (from, to, rd) := (OffsetOf(a, ops, memory, i), OffsetOf(a, ops, memory, j), ops[i].rd);
    PcrelInImage(a, ops, memory, i, j);
    PcrelWordsSmall(rd, from, to);
    CodeIsLoaded(c.mem, start, Image(a, ops, memory), from, PcrelWords(rd, from, to));
    LabelAddressLoads(c, rd, start, from, to);
    LoadedRegisters(c, Steps(c, 3).cpu, rd, start + to, 4);
  }

  // ----- read off the text of the program

  lemma ResidueOfOffset(a: Arm, ops: seq<Op>, memory: seq<Byte>, i: nat)
    requires Assembled(a, ops, memory) && i < |ops|
    ensures OffsetOf(a, ops, memory, i) % 4 == Residue(ops, 0, i)
  {
    hide Runs, Run, Before, Writing, WellFormed, ProgramSize, Residue;
    WritingStartsAtZero(a, ops, memory);
    ResidueIsOffset(Writing(a, ops, memory), ops, i);
  }

  lemma OffsetInReach(a: Arm, ops: seq<Op>, memory: seq<Byte>, j: nat)
    requires Assembled(a, ops, memory) && j < |ops| && ops[j].Label?
    ensures OffsetOf(a, ops, memory, j) < MODULUS
  {
    hide Runs, Run, Before, Writing, WellFormed, ProgramSize;
    LabelIsPlace(a, ops, memory, j);
  }

  lemma SameAddress(start: nat, x: nat, y: nat)
    requires x < MODULUS && y < MODULUS
    ensures Address(start, x) == Address(start, y) <==> x == y
  {
    var (q, r) := ((start + x) / MODULUS, (start + y) / MODULUS);
    assert start + x == MODULUS * q + Address(start, x) && start + y == MODULUS * r + Address(start, y);
  }

  lemma SameJump(c: Cpu, to: Word, other: Word)
    requires c.Valid() && to < MODULUS && other < MODULUS
    ensures Jump(c, to) == Jump(c, other) <==> to == other
  {
    assert Jump(c, to).regs[15] == to && Jump(c, other).regs[15] == other;
  }

  /** An executed branch goes where its word says, relative to where the program is loaded. */
  lemma BranchJumps(c: Cpu, cond: nat, rel: int, start: nat, from: nat, to: nat)
    requires c.Valid() && cond < 15 && Passes(cond, c.flags) && to < MODULUS
    requires c.regs[15] == Address(start, from) && CodeAt(c.mem, Address(start, from), [OpBranch(cond * 0x1000_0000, rel)])
    ensures Step(c) == Running(Jump(c, Address(start, to))) <==> BranchTarget(OpBranch(cond * 0x1000_0000, rel), from) == to
  {
    hide Step, OpBranch, Jump, Passes, CodeAt;
    var w := OpBranch(cond * 0x1000_0000, rel);
    var dest := BranchTarget(w, from);
    assert dest < MODULUS;
    hide BranchTarget;
    WordsInPlace(c, [w]);
    BranchStep(c, cond, rel);
    TargetMoves(w, start, from, dest);
    SameJump(c, Address(start, dest), Address(start, to));
    SameAddress(start, dest, to);
  }

  /** An assembled program, loaded anywhere: a branch that stands at a multiple of four, as an instruction
      must to be executed, and whose condition holds leads to the address of its label if and only if the
      label's residue is zero as well. */
  lemma ProgramBranchesIff(a: Arm, ops: seq<Op>, memory: seq<Byte>, i: nat, j: nat, cond: nat, l: nat,
                           c: Cpu, start: nat)
    requires Assembled(a, ops, memory) && i < |ops| && j < |ops| && cond < 15
    requires ops[i] == BccLabel(cond * 0x1000_0000, l) && ops[j] == Label(l) && Residue(ops, 0, i) == 0
    requires c.Valid() && Loaded(c.mem, start, Image(a, ops, memory))
    requires c.regs[15] == Address(start, OffsetOf(a, ops, memory, i)) && Passes(cond, c.flags)
    ensures Step(c) == Running(Jump(c, Address(start, OffsetOf(a, ops, memory, j)))) <==> Residue(ops, 0, j) == 0
  {
    hide *;
    var (from, to) := (OffsetOf(a, ops, memory, i), OffsetOf(a, ops, memory, j));
    ResidueOfOffset(a, ops, memory, i);
    ResidueOfOffset(a, ops, memory, j);
    OffsetInReach(a, ops, memory, j);
    BranchIsLoaded(a, ops, memory, i, j, cond, l, c.mem, start);
    BranchJumps(c, cond, BranchOffset(from, to), start, from, to);
  }

  /** The same in terms of the offsets: executing a branch whose condition holds leads to the address
      where its label was assigned, wherever in the program both are, if both are aligned. */
  lemma ProgramBranches(a: Arm, ops: seq<Op>, memory: seq<Byte>, i: nat, j: nat, cond: nat, l: nat,
                        c: Cpu, start: nat)
    requires Assembled(a, ops, memory) && i < |ops| && j < |ops| && cond < 15
    requires ops[i] == BccLabel(cond * 0x1000_0000, l) && ops[j] == Label(l)
    requires OffsetOf(a, ops, memory, i) % 4 == 0 && OffsetOf(a, ops, memory, j) % 4 == 0
    requires c.Valid() && Loaded(c.mem, start, Image(a, ops, memory))
    requires c.regs[15] == Address(start, OffsetOf(a, ops, memory, i)) && Passes(cond, c.flags)
    ensures Step(c) == Running(Jump(c, Address(start, OffsetOf(a, ops, memory, j))))
  {
    hide *;
    ResidueOfOffset(a, ops, memory, i);
    ResidueOfOffset(a, ops, memory, j);
    ProgramBranchesIff(a, ops, memory, i, j, cond, l, c, start);
  }

  /** The code for a label's address needs no more than to stand at a multiple of four itself. */
  lemma ProgramAddressesByText(a: Arm, ops: seq<Op>, memory: seq<Byte>, i: nat, j: nat, c: Cpu, start: nat)
    requires Assembled(a, ops, memory) && i < |ops| && j < |ops| && Residue(ops, 0, i) == 0
    requires ops[i].MovRegPcrel? && Reg(ops[i].rd) && ops[j] == Label(ops[i].l)
    requires c.Valid() && Loaded(c.mem, start, Image(a, ops, memory))
    requires c.regs[15] == Address(start, OffsetOf(a, ops, memory, i))
    ensures Steps(c, 3).Running?
    ensures Steps(c, 3).cpu.regs[ops[i].rd] == Address(start, OffsetOf(a, ops, memory, j))
  {
    hide *;
    ResidueOfOffset(a, ops, memory, i);
    ProgramAddresses(a, ops, memory, i, j, c, start);
  }

  // ----- programs of whole words

  /** When data comes in whole words nothing has to be known about offsets: every executed branch whose
      condition holds leads to the address of its label. */
  lemma WordSizedBranches(a: Arm, ops: seq<Op>, memory: seq<Byte>, i: nat, j: nat, cond: nat, l: nat,
                          c: Cpu, start: nat)
    requires Assembled(a, ops, memory) && WordSized(ops) && i < |ops| && j < |ops| && cond < 15
    requires ops[i] == BccLabel(cond * 0x1000_0000, l) && ops[j] == Label(l)
    requires c.Valid() && Loaded(c.mem, start, Image(a, ops, memory))
    requires c.regs[15] == Address(start, OffsetOf(a, ops, memory, i)) && Passes(cond, c.flags)
    ensures Step(c) == Running(Jump(c, Address(start, OffsetOf(a, ops, memory, j))))
  {
    hide *;
    WordsLeaveNoResidue(ops, i);
    WordsLeaveNoResidue(ops, j);
    ProgramBranchesIff(a, ops, memory, i, j, cond, l, c, start);
  }

  /** And the code for a label's address leaves that address. */
  lemma WordSizedAddresses(a: Arm, ops: seq<Op>, memory: seq<Byte>, i: nat, j: nat, c: Cpu, start: nat)
    requires Assembled(a, ops, memory) && WordSized(ops) && i < |ops| && j < |ops|
    requires ops[i].MovRegPcrel? && Reg(ops[i].rd) && ops[j] == Label(ops[i].l)
    requires c.Valid() && Loaded(c.mem, start, Image(a, ops, memory))
    requires c.regs[15] == Address(start, OffsetOf(a, ops, memory, i))
    ensures Steps(c, 3).Running?
    ensures Steps(c, 3).cpu.regs[ops[i].rd] == Address(start, OffsetOf(a, ops, memory, j))
  {
    hide *;
    WordsLeaveNoResidue(ops, i);
    ProgramAddressesByText(a, ops, memory, i, j, c, start);
  }
}
