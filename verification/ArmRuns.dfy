/** What branches, comparisons, register operations and accesses to locals do on the processor. */
module ArmRuns {
  import opened AsmArm
  import opened AsmPasses
  import opened ArmCpu

  // ----- branches

  lemma BranchFields(cond: nat, rel: int)
    requires cond < 15
    ensures var w := OpBranch(cond * 0x1000_0000, rel);
            && w < 0xF000_0000 && w / 0x1000_0000 == cond && w % 0x1000_0000 / 0x10_0000 % 0x100 / 16 == 0xA
            && w % 0x1000_0000 % 0x100_0000 == w % 0x100_0000
  {
    var w := OpBranch(cond * 0x1000_0000, rel);
    var r := rel % 0x100_0000;
    assert w == cond * 0x1000_0000 + (0xa00_0000 + r);
    assert w % 0x1000_0000 == 0xa00_0000 + r;
    assert (0xa00_0000 + r) / 0x10_0000 == 0xA0 + r / 0x10_0000;
    assert r / 0x10_0000 < 16;
  }

  lemma BranchStep(c: Cpu, cond: nat, rel: int)
    requires c.Valid() && cond < 15 && c.mem(c.regs[15]) == OpBranch(cond * 0x1000_0000, rel)
    ensures Step(c) == Running(if Passes(cond, c.flags) then Jump(c, BranchTarget(OpBranch(cond * 0x1000_0000, rel), c.regs[15]))
                               else Next(c))
  {
    BranchFields(cond, rel);
    hide OpBranch, Jump, Next, Passes, SignExtend24, Wrap;
  }

  lemma TargetMoves(w: Word, start: nat, offset: nat, dest: nat)
    requires BranchTarget(w, offset) == dest
    ensures BranchTarget(w, Wrap(start + offset)) == Wrap(start + dest)
  {
    var x := 8 + 4 * SignExtend24(w % 0x100_0000);
    hide SignExtend24;
    assert Wrap(offset + x) == dest;
    WrapSum(start + offset, x);
    WrapSum(offset + x, start);
    hide Wrap;
    assert start + offset + x == offset + x + start;
  }

  /** Code loaded at `start`: executing the branch at `offset` goes to the place `dest` when the condition
      holds, and on otherwise. */
  lemma BranchGoesToLabel(c: Cpu, cond: nat, start: nat, offset: nat, dest: nat)
    requires c.Valid() && cond < 15 && c.regs[15] == Wrap(start + offset)
    requires offset + 4 < REACH && dest < REACH && (dest - offset) % 4 == 0
    requires CodeAt(c.mem, c.regs[15], BranchWords(cond * 0x1000_0000, offset, dest))
    ensures Step(c) == Running(if Passes(cond, c.flags) then Jump(c, Wrap(start + dest)) else Next(c))
  {
    var w := OpBranch(cond * 0x1000_0000, BranchOffset(offset, dest));
    BranchLands(cond * 0x1000_0000, offset, dest);
    hide OpBranch, BranchOffset, BranchTarget, Step, Jump, Next, Passes;
    WordsInPlace(c, [w]);
    BranchStep(c, cond, BranchOffset(offset, dest));
    TargetMoves(w, start, offset, dest);
  }

  // ----- conditions

  /** What a condition code says after the comparison of two words. */
  predicate Relation(cond: nat, x: Word, y: Word) {
    match cond
    case 0 => x == y
    case 1 => x != y
    case 2 => x >= y
    case 3 => x < y
    case 8 => x > y
    case 9 => x <= y
    case 10 => Signed(x) >= Signed(y)
    case 11 => Signed(x) < Signed(y)
    case 12 => Signed(x) > Signed(y)
    case 13 => Signed(x) <= Signed(y)
    case _ => false
  }

  /** The ten conditions the native emitter uses. */
  predicate Ordering(cond: nat) {
    cond < 4 || 8 <= cond < 14
  }

  lemma DifferenceOfWords(x: Word, y: Word)
    requires x < MODULUS && y < MODULUS
    ensures Wrap(x - y) == if x >= y then x - y else x - y + MODULUS
  {
  }

  lemma ConditionsMeanRelations(cond: nat, x: Word, y: Word)
    requires Ordering(cond) && x < MODULUS && y < MODULUS
    ensures Passes(cond, Compared(x, y)) <==> Relation(cond, x, y)
  {
    DifferenceOfWords(x, y);
    hide Wrap;
  }

  function OppositeCode(cond: nat): nat {
    if cond % 2 == 1 then cond - 1 else cond + 1
  }

  lemma OppositeIsOpposite(cond: nat, f: Flags)
    requires cond < 14
    ensures Opposite(cond * 0x1000_0000) == OppositeCode(cond) * 0x1000_0000 && OppositeCode(cond) < 14
    ensures Passes(OppositeCode(cond), f) <==> !Passes(cond, f)
  {
    assert cond * 0x1000_0000 / 0x1000_0000 == cond;
  }

  lemma ConditionalMove(c: Cpu, cond: nat, rd: Word, imm: Word)
    requires c.Valid() && cond < 15 && Reg(rd) && imm < 0x100
    requires c.mem(c.regs[15]) == OpMovImm(rd, imm) + cond * 0x1000_0000
    ensures Step(c) == Running(if Passes(cond, c.flags) then Result(c, rd, imm) else Next(c))
  {
    ExecuteMovImm(c, rd, imm);
    var op := OpMovImm(rd, imm);
    hide OpMovImm, Execute, Result, Next, Passes;
    assert (op + cond * 0x1000_0000) / 0x1000_0000 == cond && (op + cond * 0x1000_0000) % 0x1000_0000 == op;
  }

  /** `d` is `c` with rd set to the truth of a condition, `n` words further on. */
  ghost predicate Sets(c: Cpu, d: Cpu, rd: Word, truth: bool, n: nat)
    requires c.Valid() && d.Valid() && Reg(rd)
  {
    Loads(c, d, rd, if truth then 1 else 0, n)
  }

  lemma SetccSets(c: Cpu, rd: Word, cond: nat)
    requires c.Valid() && Reg(rd) && cond < 14 && CodeAt(c.mem, c.regs[15], SetccWords(rd, cond * 0x1000_0000))
    ensures Steps(c, 2).Running? && Sets(c, Steps(c, 2).cpu, rd, Passes(cond, c.flags), 2)
  {
    OppositeIsOpposite(cond, c.flags);
    WordsInPlace(c, SetccWords(rd, cond * 0x1000_0000));
    hide OpMovImm, Step, Steps, Passes, CodeAt, Opposite, OppositeCode, Result, Next, Wrap, Sets;
    var truth := Passes(cond, c.flags);
    ConditionalMove(c, cond, rd, 1);
    AfterMove(c, rd, truth);
    var d := Moved(c, rd, truth);
    ConditionalMove(d, OppositeCode(cond), rd, 0);
    TwoSteps(c, d);
    SecondMove(c, rd, truth);
  }

  function Moved(c: Cpu, rd: Word, truth: bool): Cpu
    requires c.Valid() && Reg(rd)
  {
    if truth then Result(c, rd, 1) else Next(c)
  }

  lemma AfterMove(c: Cpu, rd: Word, truth: bool)
    requires c.Valid() && Reg(rd)
    ensures var d := Moved(c, rd, truth);
            d.Valid() && d.regs[15] == Wrap(c.regs[15] + 4) && d.mem == c.mem && d.flags == c.flags
  {
    hide Wrap;
  }

  lemma SecondMove(c: Cpu, rd: Word, truth: bool)
    requires c.Valid() && Reg(rd)
    ensures Sets(c, if truth then Next(Result(c, rd, 1)) else Result(Next(c), rd, 0), rd, truth, 2)
  {
    WrapSum(c.regs[15] + 4, 4);
    hide Wrap;
    var d := Next(c);
    var e := if truth then Next(Result(c, rd, 1)) else Result(d, rd, 0);
    assert e.regs == c.regs[rd := Wrap(if truth then 1 else 0)][15 := Wrap(c.regs[15] + 4 * 2)];
  }

  lemma CompareStep(c: Cpu, ra: Word, rb: Word)
    requires c.Valid() && Reg(ra) && Reg(rb) && c.mem(c.regs[15]) == AL + OpCmpReg(ra, rb)
    ensures Step(c) == Running(Next(c.(flags := Compared(c.regs[ra], c.regs[rb]))))
  {
    Fields(0x15, ra, 0, rb);
    hide Result, PushAll, PopAll, BranchTarget, Next, Compared;
    StepAlways(c, OpCmpReg(ra, rb));
  }

  /** A comparison and the two moves behind it leave 1 in rd if the relation holds of the two registers,
      read as unsigned or as signed numbers, and 0 if not; only rd and the flags change. */
  lemma ComparisonSets(c: Cpu, ra: Word, rb: Word, rd: Word, cond: nat)
    requires c.Valid() && Reg(ra) && Reg(rb) && Reg(rd) && Ordering(cond)
    requires CodeAt(c.mem, c.regs[15], [AL + OpCmpReg(ra, rb)] + SetccWords(rd, cond * 0x1000_0000))
    ensures Steps(c, 3).Running?
    ensures Sets(c.(flags := Compared(c.regs[ra], c.regs[rb])), Steps(c, 3).cpu, rd, Relation(cond, c.regs[ra], c.regs[rb]), 3)
  {
    hide Compared, Relation, Passes, OpCmpReg, SetccWords, Step, Steps, Next, Wrap, CodeAt, Loads, Sets;
    var f := c.(flags := Compared(c.regs[ra], c.regs[rb]));
    var d := Next(f);
    ConditionsMeanRelations(cond, c.regs[ra], c.regs[rb]);
    CodeBehind(c.mem, c.regs[15], AL + OpCmpReg(ra, rb), SetccWords(rd, cond * 0x1000_0000));
    NextMoves(f);
    CompareStep(c, ra, rb);
    SetccSets(d, rd, cond);
    StepAndTwo(c, d);
    SetsBehind(f, d, Steps(d, 2).cpu, rd, Relation(cond, c.regs[ra], c.regs[rb]), 2);
  }

  lemma SetsBehind(c: Cpu, d: Cpu, e: Cpu, rd: Word, truth: bool, n: nat)
    requires c.Valid() && Reg(rd) && d == Next(c) && e.Valid() && Sets(d, e, rd, truth, n)
    ensures Sets(c, e, rd, truth, n + 1)
  {
    LoadsBehind(c, d, e, rd, if truth then 1 else 0, n);
    hide Loads, Next;
  }

  lemma NextMoves(c: Cpu)
    requires c.Valid()
    ensures Next(c).regs[15] == Wrap(c.regs[15] + 4) && Next(c).mem == c.mem && Next(c).flags == c.flags
  {
  }

  lemma StepAndTwo(c: Cpu, d: Cpu)
    requires c.Valid() && Step(c) == Running(d)
    ensures Steps(c, 3) == Steps(d, 2)
  {
    hide Step;
  }

  lemma CodeBehind(mem: Memory, at: nat, w: Word, ws: seq<Word>)
    requires CodeAt(mem, at, [w] + ws) && at < MODULUS
    ensures mem(at) == w && CodeAt(mem, Wrap(at + 4), ws)
  {
    assert mem(Wrap(at + 4 * 0)) == ([w] + ws)[0];
    forall i | 0 <= i < |ws|
      ensures mem(Wrap(Wrap(at + 4) + 4 * i)) == ws[i]
    {
      WrapSum(at + 4, 4 * i);
      assert mem(Wrap(at + 4 * (i + 1))) == ([w] + ws)[i + 1];
    }
  }

  lemma LoadsBehind(c: Cpu, d: Cpu, e: Cpu, rd: Word, value: int, n: nat)
    requires c.Valid() && Reg(rd) && d == Next(c) && e.Valid() && Loads(d, e, rd, value, n)
    ensures Loads(c, e, rd, value, n + 1)
  {
    WrapSum(c.regs[15] + 4, 4 * n);
    hide Wrap;
    assert c.regs[15] + 4 + 4 * n == c.regs[15] + 4 * (n + 1);
    assert e.regs == c.regs[rd := Wrap(value)][15 := Wrap(c.regs[15] + 4 * (n + 1))];
  }

  // ----- moves and sums of registers

  lemma ExecuteMovReg(c: Cpu, rd: Word, rn: Word)
    requires c.Valid() && Reg(rd) && Reg(rn)
    ensures Execute(c, OpMovReg(rd, rn)) == Running(Result(c, rd, c.regs[rn])) && OpMovReg(rd, rn) < 0x1000_0000
  {
    Fields(0x1A, 0, rd, rn);
    hide Result, PushAll, PopAll, BranchTarget;
  }

  lemma ExecuteAddReg(c: Cpu, rd: Word, rn: Word, rm: Word)
    requires c.Valid() && Reg(rd) && Reg(rn) && Reg(rm)
    ensures Execute(c, OpAddReg(rd, rn, rm)) == Running(Result(c, rd, c.regs[rn] + c.regs[rm]))
    ensures OpAddReg(rd, rn, rm) < 0x1000_0000
  {
    Fields(0x08, rn, rd, rm);
    hide Result, PushAll, PopAll, BranchTarget;
  }

  lemma ExecuteSubReg(c: Cpu, rd: Word, rn: Word, rm: Word)
    requires c.Valid() && Reg(rd) && Reg(rn) && Reg(rm)
    ensures Execute(c, OpSubReg(rd, rn, rm)) == Running(Result(c, rd, c.regs[rn] as int - c.regs[rm]))
    ensures OpSubReg(rd, rn, rm) < 0x1000_0000
  {
    Fields(0x04, rn, rd, rm);
    hide Result, PushAll, PopAll, BranchTarget;
  }

  /** Moves, sums and differences of registers leave in rd, modulo 2^32, what their names say, and nothing
      else behind. */
  lemma RegisterOpsLoad(c: Cpu, rd: Word, rn: Word, rm: Word)
    requires c.Valid() && Reg(rd) && Reg(rn) && Reg(rm)
    ensures var w := c.mem(c.regs[15]);
            && (w == AL + OpMovReg(rd, rn) ==> Step(c).Running? && Loads(c, Step(c).cpu, rd, c.regs[rn], 1))
            && (w == AL + OpAddReg(rd, rn, rm) ==> Step(c).Running? && Loads(c, Step(c).cpu, rd, c.regs[rn] + c.regs[rm], 1))
            && (w == AL + OpSubReg(rd, rn, rm) ==> Step(c).Running? && Loads(c, Step(c).cpu, rd, c.regs[rn] as int - c.regs[rm], 1))
  {
    hide Execute, Step, Result, Loads, OpMovReg, OpAddReg, OpSubReg;
    ExecuteMovReg(c, rd, rn);
    ExecuteAddReg(c, rd, rn, rm);
    ExecuteSubReg(c, rd, rn, rm);
    ResultLoads(c, rd, c.regs[rn]);
    ResultLoads(c, rd, c.regs[rn] + c.regs[rm]);
    ResultLoads(c, rd, c.regs[rn] as int - c.regs[rm]);
    var w := c.mem(c.regs[15]);
    if w == AL + OpMovReg(rd, rn) {
      StepAlways(c, OpMovReg(rd, rn));
    }
    if w == AL + OpAddReg(rd, rn, rm) {
      StepAlways(c, OpAddReg(rd, rn, rm));
    }
    if w == AL + OpSubReg(rd, rn, rm) {
      StepAlways(c, OpSubReg(rd, rn, rm));
    }
  }

  // ----- jumps on a register

  lemma ExecuteCompareImm(c: Cpu, ra: Word, imm: Word)
    requires c.Valid() && Reg(ra) && imm < 0x100
    ensures Execute(c, OpCmpImm(ra, imm)) == Running(Next(c.(flags := Compared(c.regs[ra], imm))))
    ensures OpCmpImm(ra, imm) < 0x1000_0000
  {
    Fields(0x35, ra, 0, imm);
    hide Result, PushAll, PopAll, BranchTarget, Next, Compared;
  }

  lemma CompareImmStep(c: Cpu, ra: Word, imm: Word)
    requires c.Valid() && Reg(ra) && imm < 0x100 && c.mem(c.regs[15]) == AL + OpCmpImm(ra, imm)
    ensures Step(c) == Running(Next(c.(flags := Compared(c.regs[ra], imm))))
  {
    hide Execute, Next, Compared;
    ExecuteCompareImm(c, ra, imm);
    StepAlways(c, OpCmpImm(ra, imm));
  }

  /** A comparison with zero and a branch on equality (or inequality): the label is reached iff the register
      is zero (or is not), and execution goes on behind the branch otherwise. */
  lemma JumpsOnZero(c: Cpu, ra: Word, zero: bool, start: nat, offset: nat, dest: nat)
    requires c.Valid() && Reg(ra) && c.regs[15] == Wrap(start + offset)
    requires offset + 8 < REACH && dest < REACH && (dest - offset) % 4 == 0
    requires CodeAt(c.mem, c.regs[15],
                    [AL + OpCmpImm(ra, 0)] + BranchWords((if zero then 0 else 1) * 0x1000_0000, offset + 4, dest))
    ensures Steps(c, 2).Running?
    ensures Steps(c, 2).cpu.regs[15] == if (c.regs[ra] == 0) == zero then Wrap(start + dest) else Wrap(c.regs[15] + 8)
    ensures Steps(c, 2).cpu.mem == c.mem && Steps(c, 2).cpu.regs[..15] == c.regs[..15]
  {
    hide Compared, Passes, OpCmpImm, BranchWords, Step, Steps, Wrap, CodeAt, Relation, Next, Jump;
    var cond := if zero then 0 else 1;
    var f := c.(flags := Compared(c.regs[ra], 0));
    var d := Next(f);
    ZeroCondition(cond, c.regs[ra]);
    NextMoves(f);
    WrapSum(start + offset, 4);
    CodeBehind(c.mem, c.regs[15], AL + OpCmpImm(ra, 0), BranchWords(cond * 0x1000_0000, offset + 4, dest));
    CompareImmStep(c, ra, 0);
    BranchGoesToLabel(d, cond, start, offset + 4, dest);
    TwoSteps(c, d);
    JumpedOrNot(f, start + dest);
  }

  lemma ZeroCondition(cond: nat, x: Word)
    requires cond < 2 && x < MODULUS
    ensures Passes(cond, Compared(x, 0)) <==> (x == 0) == (cond == 0)
  {
    ConditionsMeanRelations(cond, x, 0);
    hide Passes, Compared;
  }

  lemma JumpedOrNot(f: Cpu, to: nat)
    requires f.Valid()
    ensures Jump(Next(f), Wrap(to)).regs[15] == Wrap(to) && Next(Next(f)).regs[15] == Wrap(f.regs[15] + 8)
    ensures Jump(Next(f), Wrap(to)).mem == f.mem && Jump(Next(f), Wrap(to)).regs[..15] == f.regs[..15]
    ensures Next(Next(f)).mem == f.mem && Next(Next(f)).regs[..15] == f.regs[..15]
  {
    WrapTwice(to);
    WrapSum(f.regs[15] + 4, 4);
    hide Wrap;
  }

  // ----- locals

  /** The address of a local: the stack pointer points to the first. */
  function LocalAddress(c: Cpu, local: nat): Word
    requires c.Valid()
  {
    Wrap(c.regs[13] + 4 * local)
  }

  lemma StoreLocalStep(c: Cpu, rd: Word, local: nat)
    requires c.Valid() && Reg(rd) && local < 0x400 && c.mem(c.regs[15]) == AL + OpStrSp(rd, local)
    ensures Step(c) == Running(Next(c.(mem := Stored(c.mem, LocalAddress(c, local), c.regs[rd]))))
    ensures Step(c).cpu.mem(LocalAddress(c, local)) == c.regs[rd]
  {
    NextMoves(c.(mem := Stored(c.mem, LocalAddress(c, local), c.regs[rd])));
    assert Stored(c.mem, LocalAddress(c, local), c.regs[rd])(LocalAddress(c, local)) == c.regs[rd];
    Fields(0x58, 13, rd, 4 * local);
    hide Result, PushAll, PopAll, BranchTarget, Next, Wrap, Stored;
    StepAlways(c, OpStrSp(rd, local));
  }

  lemma LoadLocalStep(c: Cpu, rd: Word, local: nat)
    requires c.Valid() && Reg(rd) && local < 0x400 && c.mem(c.regs[15]) == AL + OpLdrSp(rd, local)
    ensures Step(c) == Running(Result(c, rd, c.mem(LocalAddress(c, local))))
    ensures Step(c).cpu.regs[rd] == Wrap(c.mem(LocalAddress(c, local)))
  {
    ResultLoads(c, rd, c.mem(LocalAddress(c, local)));
    LoadedRegisters(c, Result(c, rd, c.mem(LocalAddress(c, local))), rd, c.mem(LocalAddress(c, local)), 1);
    Fields(0x59, 13, rd, 4 * local);
    hide Result, PushAll, PopAll, BranchTarget, Wrap;
    StepAlways(c, OpLdrSp(rd, local));
  }

  lemma WrapSmall(x: Word)
    requires x < MODULUS
    ensures Wrap(x) == x
  {
  }

  /** A local gives back what was last stored in it, as long as neither it nor the stack pointer is touched
      in between. */
  lemma LocalRoundTrip(c: Cpu, rs: Word, d: Cpu, rd: Word, local: nat)
    requires c.Valid() && Reg(rs) && local < 0x400 && c.mem(c.regs[15]) == AL + OpStrSp(rs, local)
    requires d.Valid() && Reg(rd) && rd != 13 && d.mem(d.regs[15]) == AL + OpLdrSp(rd, local)
    requires Step(c).Running? && d.regs[13] == c.regs[13]
    requires d.mem(LocalAddress(c, local)) == Step(c).cpu.mem(LocalAddress(c, local))
    ensures Step(d).Running? && Step(d).cpu.regs[rd] == c.regs[rs]
  {
    hide Step, OpStrSp, OpLdrSp, Next, Result, Stored, Wrap;
    StoreLocalStep(c, rs, local);
    LoadLocalStep(d, rd, local);
    assert LocalAddress(d, local) == LocalAddress(c, local);
    WrapSmall(c.regs[rs]);
  }
}
