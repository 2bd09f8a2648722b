/** A small ARM processor, after parts A2 to A4 of the ARM Architecture Reference Manual (DDI 0100I), and
    what the emitted words do when it executes them. */
module ArmCpu {
  import opened AsmArm
  import opened AsmPasses

  datatype Flags = Flags(n: bool, z: bool, c: bool, v: bool)

  type Memory = nat -> Word

  /** Register 15 holds the address of the next instruction; memory is read and written by words. */
  datatype Cpu = Cpu(regs: seq<Word>, flags: Flags, mem: Memory) {
    predicate Valid() {
      |regs| == 16 && forall i :: 0 <= i < 16 ==> regs[i] < MODULUS
    }
  }

  datatype Outcome = Running(cpu: Cpu) | Unmodelled

  // ----- the instruction set

  /** Section A3.2. */
  predicate Passes(cond: nat, f: Flags) {
    match cond
    case 0 => f.z
    case 1 => !f.z
    case 2 => f.c
    case 3 => !f.c
    case 4 => f.n
    case 5 => !f.n
    case 6 => f.v
    case 7 => !f.v
    case 8 => f.c && !f.z
    case 9 => !f.c || f.z
    case 10 => f.n == f.v
    case 11 => f.n != f.v
    case 12 => !f.z && f.n == f.v
    case 13 => f.z || f.n != f.v
    case _ => true
  }

  /** The program counter reads as two instructions further on. */
  function Operand(c: Cpu, r: nat): (w: Word)
    requires c.Valid() && r < 16
    ensures w < MODULUS
  {
    if r == 15 then Wrap(c.regs[15] + 8) else c.regs[r]
  }

  function Jump(c: Cpu, to: int): (d: Cpu)
    requires c.Valid()
    ensures d.Valid()
  {
    c.(regs := c.regs[15 := Wrap(to)])
  }

  function Next(c: Cpu): (d: Cpu)
    requires c.Valid()
    ensures d.Valid()
  {
    Jump(c, c.regs[15] + 4)
  }

  /** A result goes to its register; in register 15 it is a jump. */
  function Result(c: Cpu, rd: nat, value: int): (d: Cpu)
    requires c.Valid() && rd < 16
    ensures d.Valid()
  {
    if rd == 15 then Jump(c, value) else Next(c.(regs := c.regs[rd := Wrap(value)]))
  }

  function Compared(x: Word, y: Word): Flags {
    var r := Wrap(x - y);
    Flags(r >= 0x8000_0000, r == 0, x >= y, Signed(x) - Signed(y) != Signed(r))
  }

  function Stored(mem: Memory, at: nat, value: Word): Memory {
    (x: nat) => if x == at then value else mem(x)
  }

  /** How many registers from `r` on are in the list. */
  function Count(list: nat, r: nat): (n: nat)
    requires r <= 16
    ensures n <= 16 - r
    decreases 16 - r
  {
    if r == 16 then 0 else list % 2 + Count(list / 2, r + 1)
  }

  /** The registers of the list, lowest first, at ascending addresses. */
  function StoreList(mem: Memory, regs: seq<Word>, list: nat, r: nat, at: nat): Memory
    requires |regs| == 16 && r <= 16
    decreases 16 - r
  {
    if r == 16 then mem
    else if list % 2 == 1 then StoreList(Stored(mem, at, regs[r]), regs, list / 2, r + 1, Wrap(at + 4))
    else StoreList(mem, regs, list / 2, r + 1, at)
  }

  function LoadList(mem: Memory, regs: seq<Word>, list: nat, r: nat, at: nat): (s: seq<Word>)
    requires |regs| == 16 && r <= 16
    ensures |s| == 16
    decreases 16 - r
  {
    if r == 16 then regs
    else if list % 2 == 1 then LoadList(mem, regs[r := Wrap(mem(at))], list / 2, r + 1, Wrap(at + 4))
    else LoadList(mem, regs, list / 2, r + 1, at)
  }

  lemma {:induction false} LoadedValid(mem: Memory, regs: seq<Word>, list: nat, r: nat, at: nat)
    requires |regs| == 16 && r <= 16 && forall i :: 0 <= i < 16 ==> regs[i] < MODULUS
    ensures forall i :: 0 <= i < 16 ==> LoadList(mem, regs, list, r, at)[i] < MODULUS
    decreases 16 - r
  {
    if r < 16 {
      LoadedValid(mem, if list % 2 == 1 then regs[r := Wrap(mem(at))] else regs, list / 2, r + 1,
                  if list % 2 == 1 then Wrap(at + 4) else at);
    }
  }

  /** stmfd sp!: section A4.1.97. */
  function PushAll(c: Cpu, list: nat): (d: Cpu)
    requires c.Valid()
    ensures d.Valid()
  {
    var start := Wrap(c.regs[13] - 4 * Count(list, 0));
    Next(Cpu(c.regs[13 := start], c.flags, StoreList(c.mem, c.regs, list, 0, start)))
  }

  /** ldmfd sp!: section A4.1.20; loading register 15 jumps. */
  function PopAll(c: Cpu, list: nat): (d: Cpu)
    requires c.Valid()
    ensures d.Valid()
  {
    LoadedValid(c.mem, c.regs, list, 0, c.regs[13]);
    var regs := LoadList(c.mem, c.regs, list, 0, c.regs[13]);
    var d := c.(regs := regs[13 := Wrap(c.regs[13] + 4 * Count(list, 0))]);
    if list / 0x8000 % 2 == 1 then d else Next(d)
  }

  /** The instructions the assembler emits for moves, sums, comparisons, locals, branches, entry and exit;
      rotated immediates and shifted registers are not among them. */
  function Execute(c: Cpu, w: Word): (o: Outcome)
    requires c.Valid()
    ensures o.Running? ==> o.cpu.Valid()
  {
    var op := w / 0x10_0000 % 0x100;
    var (rn, rd, low) := (w / 0x1_0000 % 16, w / 0x1000 % 16, w % 0x1000);
    if op / 16 == 0xA then Running(Jump(c, BranchTarget(w, c.regs[15])))
    else if op == 0x92 && rn == 13 && w / 0x2000 % 2 == 0 && w / 0x8000 % 2 == 0 then Running(PushAll(c, w % 0x1_0000))
    else if op == 0x8B && rn == 13 && w / 0x2000 % 2 == 0 then Running(PopAll(c, w % 0x1_0000))
    else if op == 0x59 then Running(Result(c, rd, c.mem(Wrap(Operand(c, rn) + low))))
    else if op == 0x58 && rd != 15 then Running(Next(c.(mem := Stored(c.mem, Wrap(Operand(c, rn) + low), c.regs[rd]))))
    else if op in {0x3A, 0x3E, 0x28, 0x24, 0x35} && low < 0x100 then
      if op == 0x3A then Running(Result(c, rd, low))
      else if op == 0x3E then Running(Result(c, rd, -1 - low))
      else if op == 0x28 then Running(Result(c, rd, Operand(c, rn) + low))
      else if op == 0x24 then Running(Result(c, rd, Operand(c, rn) - low))
      else Running(Next(c.(flags := Compared(Operand(c, rn), low))))
    else if op in {0x1A, 0x08, 0x04, 0x15} && low < 16 then
      if op == 0x1A then Running(Result(c, rd, Operand(c, low)))
      else if op == 0x08 then Running(Result(c, rd, Operand(c, rn) + Operand(c, low)))
      else if op == 0x04 then Running(Result(c, rd, Operand(c, rn) - Operand(c, low)))
      else Running(Next(c.(flags := Compared(Operand(c, rn), Operand(c, low)))))
    else Unmodelled
  }

  function Step(c: Cpu): (o: Outcome)
    requires c.Valid()
    ensures o.Running? ==> o.cpu.Valid()
  {
    var w := c.mem(c.regs[15]);
    if w >= 0xF000_0000 then Unmodelled
    else if Passes(w / 0x1000_0000, c.flags) then Execute(c, w % 0x1000_0000)
    else Running(Next(c))
  }

  function Steps(c: Cpu, k: nat): (o: Outcome)
    requires c.Valid()
    ensures o.Running? ==> o.cpu.Valid()
    decreases k
  {
    if k == 0 then Running(c)
    else match Step(c)
      case Running(d) => Steps(d, k - 1)
      case Unmodelled => Unmodelled
  }

  /** The words stand in memory from the address on. */
  predicate CodeAt(mem: Memory, at: nat, ws: seq<Word>) {
    forall i :: 0 <= i < |ws| ==> mem(Wrap(at + 4 * i)) == ws[i]
  }

  // ----- decoding

  predicate Reg(r: Word) {
    r < 15
  }

  lemma StepAlways(c: Cpu, op: Word)
    requires c.Valid() && c.mem(c.regs[15]) == AL + op && op < 0x1000_0000
    ensures Step(c) == Execute(c, op)
  {
    hide Execute;
  }

  /** The fields of a data-processing or single transfer word. */
  lemma Fields(op: nat, rn: nat, rd: nat, low: nat)
    requires op < 0x100 && rn < 16 && rd < 16 && low < 0x1000
    ensures var w := 0x10_0000 * op + 0x1_0000 * rn + 0x1000 * rd + low;
            && w / 0x10_0000 % 0x100 == op && w / 0x1_0000 % 16 == rn && w / 0x1000 % 16 == rd && w % 0x1000 == low
            && w < 0x1000_0000
  {
    var (x, y) := (0x10 * op + rn, 0x100 * op + 0x10 * rn + rd);
    LowField(0x1000, y, low);
    LowField(0x10, x, rd);
    LowField(0x10, op, rn);
    var w := 0x1000 * y + low;
    assert w / 0x1000 == y && w / 0x1_0000 == x && w / 0x10_0000 == op;
  }

  lemma LowField(size: nat, high: nat, low: nat)
    requires low < size && (size == 0x10 || size == 0x1000)
    ensures (size * high + low) / size == high && (size * high + low) % size == low
  {
  }

  lemma ExecuteMovImm(c: Cpu, rd: Word, imm: Word)
    requires c.Valid() && Reg(rd) && imm < 0x100
    ensures Execute(c, OpMovImm(rd, imm)) == Running(Result(c, rd, imm)) && OpMovImm(rd, imm) < 0x1000_0000
  {
    Fields(0x3A, 0, rd, imm);
    hide Result, PushAll, PopAll, BranchTarget;
  }

  lemma ExecuteMvnImm(c: Cpu, rd: Word, imm: Word)
    requires c.Valid() && Reg(rd) && imm < 0x100
    ensures Execute(c, OpMvnImm(rd, imm)) == Running(Result(c, rd, -1 - imm)) && OpMvnImm(rd, imm) < 0x1000_0000
  {
    Fields(0x3E, 0, rd, imm);
    hide Result, PushAll, PopAll, BranchTarget;
  }

  lemma ExecuteLdrPc(c: Cpu, rd: Word)
    requires c.Valid() && Reg(rd)
    ensures Execute(c, OpLdrPc(rd)) == Running(Result(c, rd, c.mem(Wrap(c.regs[15] + 8)))) && OpLdrPc(rd) < 0x1000_0000
  {
    Fields(0x59, 15, rd, 0);
    hide Result, PushAll, PopAll, BranchTarget;
  }

  lemma ExecuteSkip(c: Cpu)
    requires c.Valid()
    ensures Execute(c, OP_SKIP) == Running(Jump(c, c.regs[15] + 8))
  {
    WrapTwice(c.regs[15] + 8);
    hide PushAll, PopAll;
  }

  lemma WrapTwice(x: int)
    ensures Wrap(Wrap(x)) == Wrap(x)
  {
  }

  lemma WrapSum(x: int, y: int)
    ensures Wrap(Wrap(x) + y) == Wrap(x + y)
  {
  }

  lemma ExecuteAddPc(c: Cpu, rd: Word)
    requires c.Valid() && Reg(rd)
    ensures Execute(c, OpAddReg(rd, rd, PC)) == Running(Result(c, rd, c.regs[rd] + Wrap(c.regs[15] + 8)))
    ensures OpAddReg(rd, rd, PC) < 0x1000_0000
  {
    Fields(0x08, rd, rd, 15);
    hide Result, PushAll, PopAll, BranchTarget;
  }

  // ----- loading immediates

  /** `d` is `c` after code of `n` words that left `value` in rd and nothing else behind. */
  ghost predicate Loads(c: Cpu, d: Cpu, rd: Word, value: int, n: nat)
    requires c.Valid() && d.Valid() && Reg(rd)
  {
    d == c.(regs := c.regs[rd := Wrap(value)][15 := Wrap(c.regs[15] + 4 * n)])
  }

  lemma ResultLoads(c: Cpu, rd: Word, value: int)
    requires c.Valid() && Reg(rd)
    ensures Loads(c, Result(c, rd, value), rd, value, 1)
  {
  }

  /** Going on by `k` words. */
  lemma JumpOn(c: Cpu, d: Cpu, rd: Word, value: int, n: nat, k: nat)
    requires c.Valid() && d.Valid() && Reg(rd) && Loads(c, d, rd, value, n)
    ensures Loads(c, Jump(d, d.regs[15] + 4 * k), rd, value, n + k)
  {
    WrapSum(c.regs[15] + 4 * n, 4 * k);
    hide Wrap;
    assert c.regs[15] + 4 * n + 4 * k == c.regs[15] + 4 * (n + k);
  }

  lemma LoadedRegisters(c: Cpu, d: Cpu, rd: Word, value: int, n: nat)
    requires c.Valid() && d.Valid() && Reg(rd) && Loads(c, d, rd, value, n)
    ensures d.regs[15] == Wrap(c.regs[15] + 4 * n) && d.regs[rd] == Wrap(value) && d.mem == c.mem
  {
    hide Wrap;
  }

  lemma WordsInPlace(c: Cpu, ws: seq<Word>)
    requires c.Valid() && CodeAt(c.mem, c.regs[15], ws)
    ensures |ws| > 0 ==> c.mem(c.regs[15]) == ws[0]
    ensures |ws| > 1 ==> c.mem(Wrap(c.regs[15] + 4)) == ws[1]
    ensures |ws| > 2 ==> c.mem(Wrap(c.regs[15] + 8)) == ws[2]
    ensures |ws| > 3 ==> c.mem(Wrap(c.regs[15] + 12)) == ws[3]
  {
    var pc := c.regs[15];
    assert Wrap(pc + 4 * 0) == pc;
    assert |ws| > 1 ==> c.mem(Wrap(pc + 4 * 1)) == ws[1];
    assert |ws| > 2 ==> c.mem(Wrap(pc + 4 * 2)) == ws[2];
    assert |ws| > 3 ==> c.mem(Wrap(pc + 4 * 3)) == ws[3];
    hide Wrap;
  }

  lemma LdrPcStep(c: Cpu, rd: Word)
    requires c.Valid() && Reg(rd) && c.mem(c.regs[15]) == AL + OpLdrPc(rd)
    ensures Step(c) == Running(Result(c, rd, c.mem(Wrap(c.regs[15] + 8))))
  {
    hide Execute, Result;
    ExecuteLdrPc(c, rd);
    StepAlways(c, OpLdrPc(rd));
  }

  lemma SkipStep(c: Cpu)
    requires c.Valid() && c.mem(c.regs[15]) == AL + OP_SKIP
    ensures Step(c) == Running(Jump(c, c.regs[15] + 4 * 2))
  {
    hide Execute, Jump;
    ExecuteSkip(c);
    StepAlways(c, OP_SKIP);
  }

  lemma AddPcStep(c: Cpu, rd: Word)
    requires c.Valid() && Reg(rd) && c.mem(c.regs[15]) == AL + OpAddReg(rd, rd, PC)
    ensures Step(c) == Running(Result(c, rd, c.regs[rd] + Wrap(c.regs[15] + 8)))
  {
    hide Execute, Result;
    ExecuteAddPc(c, rd);
    StepAlways(c, OpAddReg(rd, rd, PC));
  }

  lemma OneStep(c: Cpu)
    requires c.Valid()
    ensures Steps(c, 1) == Step(c)
  {
    hide Step;
    assert forall d: Cpu :: d.Valid() ==> Steps(d, 0) == Running(d);
  }

  lemma TwoSteps(c: Cpu, d: Cpu)
    requires c.Valid() && Step(c) == Running(d)
    ensures Steps(c, 2) == Step(d)
  {
    hide Step;
    OneStep(d);
  }

  lemma ThreeSteps(c: Cpu, d: Cpu, e: Cpu)
    requires c.Valid() && Step(c) == Running(d) && Step(d) == Running(e)
    ensures Steps(c, 3) == Step(e)
  {
    hide Step;
    TwoSteps(d, e);
  }

  /** The three words that load any word: executed from their first, they leave the literal in rd and
      continue behind it. */
  lemma LiteralLoads(c: Cpu, rd: Word, imm: int)
    requires c.Valid() && Reg(rd) && CodeAt(c.mem, c.regs[15], I32Words(rd, imm))
    ensures Steps(c, 2).Running? && Loads(c, Steps(c, 2).cpu, rd, imm, 3)
  {
    WordsInPlace(c, I32Words(rd, imm));
    WrapTwice(imm);
    LdrPcStep(c, rd);
    var d := Result(c, rd, Wrap(imm));
    ResultLoads(c, rd, Wrap(imm));
    LoadedRegisters(c, d, rd, Wrap(imm), 1);
    hide Step, Steps, Result, Jump, Wrap, CodeAt, OpLdrPc, Loads;
    SkipStep(d);
    JumpOn(c, d, rd, Wrap(imm), 1, 2);
    TwoSteps(c, d);
    SameLoads(c, Jump(d, d.regs[15] + 4 * 2), rd, Wrap(imm), imm, 3);
  }

  lemma SameLoads(c: Cpu, d: Cpu, rd: Word, x: int, y: int, n: nat)
    requires c.Valid() && d.Valid() && Reg(rd) && Wrap(x) == Wrap(y) && Loads(c, d, rd, x, n)
    ensures Loads(c, d, rd, y, n)
  {
    hide Wrap;
  }

  /** How many instructions the loading code of an immediate executes. */
  function LoadingSteps(imm: int): nat {
    if -256 <= imm < 0x100 then 1 else 2
  }

  /** For every immediate of 32 bits the optimised code leaves exactly that immediate in rd and
      continues behind its own words. */
  lemma ImmediateLoads(c: Cpu, rd: Word, imm: int)
    requires c.Valid() && Reg(rd) && CodeAt(c.mem, c.regs[15], OptimisedWords(rd, imm))
    ensures var o := Steps(c, LoadingSteps(imm)); o.Running? && Loads(c, o.cpu, rd, imm, |OptimisedWords(rd, imm)|)
  {
    if -256 <= imm < 0x100 {
      WordsInPlace(c, OptimisedWords(rd, imm));
      OneStep(c);
      ResultLoads(c, rd, imm);
      hide Execute, Result, Loads, Steps, CodeAt;
      if imm >= 0 {
        ExecuteMovImm(c, rd, imm);
        hide OpMovImm, Step;
        StepAlways(c, OpMovImm(rd, imm));
      } else {
        ExecuteMvnImm(c, rd, -1 - imm);
        hide OpMvnImm, Step;
        StepAlways(c, OpMvnImm(rd, -1 - imm));
      }
    } else {
      LiteralLoads(c, rd, imm);
    }
  }

  // ----- addresses of labels

  /** Code loaded at address `start` of memory: the code at offset `offset` leaves the address of the
      place `dest` of the same code in rd, wherever both are. */
  lemma LabelAddressLoads(c: Cpu, rd: Word, start: nat, offset: nat, dest: nat)
    requires c.Valid() && Reg(rd) && c.regs[15] == Wrap(start + offset)
    requires CodeAt(c.mem, c.regs[15], PcrelWords(rd, offset, dest))
    ensures Steps(c, 3).Running? && Loads(c, Steps(c, 3).cpu, rd, start + dest, 4)
  {
    hide Step, Steps, Result, Jump, Wrap, CodeAt, OpLdrPc, OpAddReg, Loads, PcrelDistance;
    var rel := PcrelDistance(offset, dest);
    WordsInPlace(c, AddPcWords(rd, rel));
    AddPcLoads(c, rd, rel);
    AddressOfLabel(start, offset, dest);
    SameLoads(c, Steps(c, 3).cpu, rd, Wrap(rel) + Wrap(Wrap(c.regs[15] + 4 * 3) + 8), start + dest, 4);
  }

  /** The literal, plus the program counter as the last instruction reads it. */
  lemma AddPcLoads(c: Cpu, rd: Word, rel: Word)
    requires c.Valid() && Reg(rd) && CodeAt(c.mem, c.regs[15], AddPcWords(rd, rel))
    ensures Steps(c, 3).Running?
    ensures Loads(c, Steps(c, 3).cpu, rd, Wrap(rel) + Wrap(Wrap(c.regs[15] + 4 * 3) + 8), 4)
  {
    hide Step, Steps, Result, Jump, Wrap, CodeAt, OpLdrPc, OpAddReg, Loads;
    WordsInPlace(c, AddPcWords(rd, rel));
    LdrPcStep(c, rd);
    var d := Result(c, rd, rel);
    ResultLoads(c, rd, rel);
    LoadedRegisters(c, d, rd, rel, 1);
    SkipStep(d);
    var e := Jump(d, d.regs[15] + 4 * 2);
    JumpOn(c, d, rd, rel, 1, 2);
    LoadedRegisters(c, e, rd, rel, 3);
    AddPcStep(e, rd);
    ThreeSteps(c, d, e);
    LoadsAgain(c, e, rd, rel, Wrap(rel) + Wrap(Wrap(c.regs[15] + 4 * 3) + 8), 3);
  }

  lemma LoadsAgain(c: Cpu, d: Cpu, rd: Word, x: int, y: int, n: nat)
    requires c.Valid() && d.Valid() && Reg(rd) && Loads(c, d, rd, x, n)
    ensures Loads(c, Result(d, rd, y), rd, y, n + 1)
  {
    WrapSum(c.regs[15] + 4 * n, 4);
    hide Wrap;
    assert c.regs[15] + 4 * n + 4 == c.regs[15] + 4 * (n + 1);
  }

  lemma AddressOfLabel(start: nat, offset: nat, dest: nat)
    ensures Wrap(Wrap(PcrelDistance(offset, dest)) + Wrap(Wrap(Wrap(start + offset) + 4 * 3) + 8)) == Wrap(start + dest)
  {
    WrapTwice(dest - offset - 20);
    WrapSum(start + offset, 12);
    WrapSum(start + offset + 12, 8);
    WrapSum(dest - offset - 20, Wrap(start + offset + 20));
    WrapSum(start + offset + 20, dest - offset - 20);
    hide Wrap;
  }
}
