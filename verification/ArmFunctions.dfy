/** Functions of an assembled program, from their entry to their exit, and the loads between. */
module ArmFunctions {
  import opened Bits
  import opened AsmArm
  import opened AsmPasses
  import opened ArmCpu
  import opened ArmRuns
  import opened ArmFrames
  import opened ArmPrograms

  // ----- the code of any operation

  /** The assembler's state in which operation `i` was written. */
  ghost function StateAt(a: Arm, ops: seq<Op>, memory: seq<Byte>, i: nat): Arm
    requires Assembled(a, ops, memory) && i < |ops|
  {
    Before(Writing(a, ops, memory), ops, i)
  }

  predicate IsCode(op: Op) {
    !op.Label? && !op.Align? && !op.Data?
  }

  lemma WordsStand(b: Arm, op: Op, code: seq<Byte>)
    requires IsCode(op) && BytesInPlace(b, op, code)
    ensures Defined(b.base, op)
    ensures var (o, ws) := (b.base.offset, Words(b, op)); o + 4 * |ws| <= |code| && code[o..o + 4 * |ws|] == BytesOf(ws)
  {
    hide Words, BytesOf;
  }

  /** The words of every operation that stands at a multiple of four are in memory, wherever the program is
      loaded. */
  lemma OpIsLoaded(a: Arm, ops: seq<Op>, memory: seq<Byte>, i: nat, mem: Memory, start: nat)
    requires Assembled(a, ops, memory) && i < |ops| && IsCode(ops[i]) && Residue(ops, 0, i) == 0
    requires Loaded(mem, start, Image(a, ops, memory))
    ensures var b := StateAt(a, ops, memory, i);
            && b.base.offset == OffsetOf(a, ops, memory, i) && Defined(b.base, ops[i])
            && (AreWords(Words(b, ops[i])) ==> CodeAt(mem, Address(start, b.base.offset), Words(b, ops[i])))
  {
    hide Runs, Run, Before, Writing, WellFormed, ProgramSize, BytesInPlace, BytesOf, Residue, Words, Loaded, CodeAt, AreWords;
    WritingEmits(a, ops, memory);
    EveryOpInPlace(Writing(a, ops, memory), ops, i);
    WordsStand(StateAt(a, ops, memory, i), ops[i], Image(a, ops, memory));
    ResidueOfOffset(a, ops, memory, i);
    if AreWords(Words(StateAt(a, ops, memory, i), ops[i])) {
      CodeIsLoaded(mem, start, Image(a, ops, memory), OffsetOf(a, ops, memory, i), Words(StateAt(a, ops, memory, i), ops[i]));
    }
  }

  // ----- the frame in force

  predicate NoEntry(ops: seq<Op>, n: nat) {
    n <= |ops| && forall i :: 0 <= i < n ==> !ops[i].Entry?
  }

  lemma {:induction false} FrameKept(a: Arm, ops: seq<Op>, n: nat)
    requires Runs(a, ops) && NoEntry(ops, n)
    ensures Before(a, ops, n).stackAdjust == a.stackAdjust && Before(a, ops, n).pushReglist == a.pushReglist
    decreases n
  {
    if n > 0 {
      var b := Apply(a, ops[0]);
      assert !ops[0].Entry? && b.stackAdjust == a.stackAdjust && b.pushReglist == a.pushReglist;
      hide Apply, Allowed;
      assert NoEntry(ops[1..], n - 1);
      FrameKept(b, ops[1..], n - 1);
    }
  }

  /** `x` is left with the frame that `e` entered with: no other function is entered between them. */
  predicate Closes(ops: seq<Op>, e: nat, x: nat) {
    e < x < |ops| && ops[e].Entry? && ops[x].Exit? && forall i :: e < i < x ==> !ops[i].Entry?
  }

  lemma {:induction false} FrameInForce(a: Arm, ops: seq<Op>, e: nat, x: nat)
    requires Runs(a, ops) && Closes(ops, e, x)
    ensures Before(a, ops, x).stackAdjust == EntryAdjust(ops[e].locals) && Before(a, ops, x).pushReglist == SAVED
    decreases e
  {
    var b := Apply(a, ops[0]);
    assert e == 0 ==> b.stackAdjust == EntryAdjust(ops[0].locals) && b.pushReglist == SAVED;
    hide Apply, Allowed, EntryAdjust;
    if e == 0 {
      assert NoEntry(ops[1..], x - 1);
      FrameKept(b, ops[1..], x - 1);
    } else {
      assert ops[1..][e - 1] == ops[e] && ops[1..][x - 1] == ops[x];
      FrameInForce(b, ops[1..], e - 1, x - 1);
    }
  }

  // ----- entry and exit

  lemma FrameWordsSmall(adjust: nat)
    ensures AreWords(EntryWords(adjust)) && AreWords(ExitWords(adjust, SAVED))
  {
  }

  /** The words of the entry, and of the exit that closes it. */
  lemma FrameCode(a: Arm, ops: seq<Op>, memory: seq<Byte>, e: nat, x: nat)
    requires Assembled(a, ops, memory) && Closes(ops, e, x)
    requires Defined(StateAt(a, ops, memory, e).base, ops[e]) && Defined(StateAt(a, ops, memory, x).base, ops[x])
    ensures Words(StateAt(a, ops, memory, e), ops[e]) == EntryWords(EntryAdjust(ops[e].locals))
    ensures Words(StateAt(a, ops, memory, x), ops[x]) == ExitWords(EntryAdjust(ops[e].locals), SAVED)
  {
    hide Runs, Run, Before, Writing, WellFormed, ProgramSize, EntryWords, ExitWords, EntryAdjust;
    FrameInForce(Writing(a, ops, memory), ops, e, x);
  }

  /** The function did what it likes, but for its stack pointer, its saved words and the code, and is about to
      leave at `pc`. */
  ghost predicate AboutToLeave(c: Cpu, entered: Cpu, d: Cpu, pc: Word, start: nat, image: seq<Byte>)
    requires c.Valid() && entered.Valid()
  {
    && d.Valid() && d.regs[15] == pc && d.regs[13] == entered.regs[13]
    && SameWords(entered.mem, d.mem, SavedAt(c), SAVED_WORDS) && Loaded(d.mem, start, image)
  }

  /** A function of an assembled program, loaded anywhere and called from anywhere: its entry saves what the
      caller needs, and whatever is done in between, the exit that closes it gives that back and returns. */
  lemma ProgramFunction(a: Arm, ops: seq<Op>, memory: seq<Byte>, e: nat, x: nat, c: Cpu, d: Cpu, start: nat)
    requires Assembled(a, ops, memory) && Closes(ops, e, x) && Residue(ops, 0, e) == Residue(ops, 0, x) == 0
    requires c.Valid() && Loaded(c.mem, start, Image(a, ops, memory))
    requires c.regs[15] == Address(start, OffsetOf(a, ops, memory, e)) && OffStack(c, Wrap(c.regs[15] + 4))
    ensures var o := Steps(c, |EntryWords(EntryAdjust(ops[e].locals))|);
            && o.Running? && Entered(c, o.cpu, ops[e].locals)
            && (AboutToLeave(c, o.cpu, d, Address(start, OffsetOf(a, ops, memory, x)), start, Image(a, ops, memory)) ==>
                  var r := Steps(d, |ExitWords(EntryAdjust(ops[e].locals), SAVED)|);
                  r.Running? && Returned(c, d, r.cpu))
  {
    hide *;
    assert ops[e].Entry? && ops[x].Exit? && e < x < |ops| && IsCode(ops[e]) && IsCode(ops[x]) by { ClosesMeans(ops, e, x); }
    var adjust := EntryAdjust(ops[e].locals);
    OpIsLoaded(a, ops, memory, e, c.mem, start);
    OpDefined(a, ops, memory, x);
    FrameCode(a, ops, memory, e, x);
    FrameWordsSmall(adjust);
    FunctionEnters(c, ops[e].locals);
    var entered := Steps(c, |EntryWords(adjust)|).cpu;
    if AboutToLeave(c, entered, d, Address(start, OffsetOf(a, ops, memory, x)), start, Image(a, ops, memory)) {
      LeavingMeans(c, entered, d, Address(start, OffsetOf(a, ops, memory, x)), start, Image(a, ops, memory));
      OpIsLoaded(a, ops, memory, x, d.mem, start);
      FunctionReturns(c, entered, d, ops[e].locals);
    }
  }

  lemma ClosesMeans(ops: seq<Op>, e: nat, x: nat)
    requires Closes(ops, e, x)
    ensures e < x < |ops| && ops[e].Entry? && ops[x].Exit? && IsCode(ops[e]) && IsCode(ops[x])
  {
  }

  lemma LeavingMeans(c: Cpu, entered: Cpu, d: Cpu, pc: Word, start: nat, image: seq<Byte>)
    requires c.Valid() && entered.Valid() && AboutToLeave(c, entered, d, pc, start, image)
    ensures d.Valid() && d.regs[15] == pc && d.regs[13] == entered.regs[13]
    ensures SameWords(entered.mem, d.mem, SavedAt(c), SAVED_WORDS) && Loaded(d.mem, start, image)
  {
    hide SameWords, Loaded;
  }

  lemma OpDefined(a: Arm, ops: seq<Op>, memory: seq<Byte>, i: nat)
    requires Assembled(a, ops, memory) && i < |ops| && IsCode(ops[i])
    ensures Defined(StateAt(a, ops, memory, i).base, ops[i])
  {
    hide Runs, Run, Before, Writing, WellFormed, ProgramSize, OpBytes;
    BeforeBasics(Writing(a, ops, memory), ops, i);
  }

  // ----- loads in the program

  lemma LoadWordsSmall(rd: Word, imm: int, cond: nat)
    requires Reg(rd) && cond < 14
    ensures AreWords(OptimisedWords(rd, imm)) && AreWords(SetccWords(rd, cond * 0x1000_0000))
  {
    hide Wrap;
  }

  /** An executed load of an immediate leaves it in its register and goes on behind its words. */
  lemma ProgramImmediates(a: Arm, ops: seq<Op>, memory: seq<Byte>, i: nat, c: Cpu, start: nat)
    requires Assembled(a, ops, memory) && i < |ops| && ops[i].MovRegI32Optimised? && Reg(ops[i].rd) && Residue(ops, 0, i) == 0
    requires c.Valid() && Loaded(c.mem, start, Image(a, ops, memory))
    requires c.regs[15] == Address(start, OffsetOf(a, ops, memory, i))
    ensures var o := Steps(c, LoadingSteps(ops[i].imm));
            o.Running? && Loads(c, o.cpu, ops[i].rd, ops[i].imm, |OptimisedWords(ops[i].rd, ops[i].imm)|)
  {
    var (rd, imm) := (ops[i].rd, ops[i].imm);
    assert IsCode(ops[i]);
    hide Assembled, Image, OffsetOf, StateAt, Residue, Loaded, CodeAt, AreWords, OptimisedWords, Loads, Steps, LoadingSteps, Wrap;
    OpIsLoaded(a, ops, memory, i, c.mem, start);
    LoadWordsSmall(rd, imm, 0);
    assert Words(StateAt(a, ops, memory, i), ops[i]) == OptimisedWords(rd, imm);
    ImmediateLoads(c, rd, imm);
  }

  /** An executed pair of conditional moves leaves the truth of its condition in its register. */
  lemma ProgramConditions(a: Arm, ops: seq<Op>, memory: seq<Byte>, i: nat, cond: nat, c: Cpu, start: nat)
    requires Assembled(a, ops, memory) && i < |ops| && ops[i].SetccReg? && Reg(ops[i].rd) && Residue(ops, 0, i) == 0
    requires cond < 14 && ops[i].cond == cond * 0x1000_0000
    requires c.Valid() && Loaded(c.mem, start, Image(a, ops, memory))
    requires c.regs[15] == Address(start, OffsetOf(a, ops, memory, i))
    ensures Steps(c, 2).Running? && Sets(c, Steps(c, 2).cpu, ops[i].rd, Passes(cond, c.flags), 2)
  {
    var rd := ops[i].rd;
    assert IsCode(ops[i]);
    hide Assembled, Image, OffsetOf, StateAt, Residue, Loaded, CodeAt, AreWords, SetccWords, Sets, Steps, Passes, Wrap;
    OpIsLoaded(a, ops, memory, i, c.mem, start);
    LoadWordsSmall(rd, 0, cond);
    assert Words(StateAt(a, ops, memory, i), ops[i]) == SetccWords(rd, ops[i].cond);
    SetccSets(c, rd, cond);
  }
}
