/** Entering and leaving a function: what is saved, where the locals are, and what is restored. */
module ArmFrames {
  import opened Bits
  import opened AsmArm
  import opened AsmPasses
  import opened ArmCpu
  import opened ArmRuns

  // ----- register lists

  /** Register `j` is among the registers from `r` on that are in the list. */
  predicate InList(list: nat, r: nat, j: nat)
    requires r <= 16
    decreases 16 - r
  {
    r < 16 && if j == r then list % 2 == 1 else InList(list / 2, r + 1, j)
  }

  /** The listed registers stand in memory from the address on. */
  predicate Holds(mem: Memory, values: seq<Word>, list: nat, r: nat, at: nat)
    requires |values| == 16 && r <= 16
    decreases 16 - r
  {
    r == 16 ||
    if list % 2 == 1 then mem(at) == values[r] && Holds(mem, values, list / 2, r + 1, Wrap(at + 4))
    else Holds(mem, values, list / 2, r + 1, at)
  }

  lemma DistanceShrinks(x: nat, at: nat)
    requires x < MODULUS && at < MODULUS
    ensures Wrap(x - at) >= 4 ==> x != at && Wrap(x - Wrap(at + 4)) == Wrap(x - at) - 4
    ensures Wrap(at - Wrap(at + 4)) == MODULUS - 4
  {
  }

  /** Storing a list writes nothing outside its words. */
  lemma {:induction false} StoreElsewhere(mem: Memory, regs: seq<Word>, list: nat, r: nat, at: nat, x: nat)
    requires |regs| == 16 && r <= 16 && x < MODULUS && at < MODULUS && Wrap(x - at) >= 4 * Count(list, r)
    ensures StoreList(mem, regs, list, r, at)(x) == mem(x)
    decreases 16 - r
  {
    if r < 16 {
      if list % 2 == 1 {
        DistanceShrinks(x, at);
        StoreElsewhere(Stored(mem, at, regs[r]), regs, list / 2, r + 1, Wrap(at + 4), x);
      } else {
        StoreElsewhere(mem, regs, list / 2, r + 1, at, x);
      }
    }
  }

  lemma NotInList(at: nat, list: nat, r: nat)
    requires r <= 16 && at < MODULUS
    ensures Wrap(at - Wrap(at + 4)) >= 4 * Count(list, r)
  {
    DistanceShrinks(at, at);
    hide Wrap, Count;
  }

  lemma HoldsNext(mem: Memory, values: seq<Word>, list: nat, r: nat, at: nat)
    requires |values| == 16 && r < 16
    ensures Holds(mem, values, list, r, at) <==>
            if list % 2 == 1 then mem(at) == values[r] && Holds(mem, values, list / 2, r + 1, Wrap(at + 4))
            else Holds(mem, values, list / 2, r + 1, at)
  {
  }

  lemma HoldsNothing(mem: Memory, values: seq<Word>, list: nat, at: nat)
    requires |values| == 16
    ensures Holds(mem, values, list, 16, at)
  {
  }

  lemma {:induction false} StoreHolds(mem: Memory, regs: seq<Word>, list: nat, r: nat, at: nat)
    requires |regs| == 16 && r <= 16 && at < MODULUS
    ensures Holds(StoreList(mem, regs, list, r, at), regs, list, r, at)
    decreases 16 - r
  {
    hide *;
    var all := StoreList(mem, regs, list, r, at);
    if r == 16 {
      HoldsNothing(all, regs, list, at);
    } else {
      StoreNext(mem, regs, list, r, at);
      HoldsNext(all, regs, list, r, at);
      if list % 2 == 1 {
        StoreHolds(Stored(mem, at, regs[r]), regs, list / 2, r + 1, Wrap(at + 4));
        NotInList(at, list / 2, r + 1);
        StoreElsewhere(Stored(mem, at, regs[r]), regs, list / 2, r + 1, Wrap(at + 4), at);
      } else {
        StoreHolds(mem, regs, list / 2, r + 1, at);
      }
    }
  }

  lemma StoreNext(mem: Memory, regs: seq<Word>, list: nat, r: nat, at: nat)
    requires |regs| == 16 && r < 16
    ensures StoreList(mem, regs, list, r, at) ==
            if list % 2 == 1 then StoreList(Stored(mem, at, regs[r]), regs, list / 2, r + 1, Wrap(at + 4))
            else StoreList(mem, regs, list / 2, r + 1, at)
    ensures Stored(mem, at, regs[r])(at) == regs[r]
  {
    hide Wrap;
  }

  /** Loading brings back exactly the listed registers. */
  lemma {:induction false} LoadsHeld(mem: Memory, values: seq<Word>, regs: seq<Word>, list: nat, r: nat, at: nat, j: nat)
    requires |values| == |regs| == 16 && r <= 16 && j < 16 && Holds(mem, values, list, r, at)
    requires forall i :: 0 <= i < 16 ==> values[i] < MODULUS
    ensures LoadList(mem, regs, list, r, at)[j] == if j >= r && InList(list, r, j) then values[j] else regs[j]
    decreases 16 - r
  {
    if r < 16 {
      if list % 2 == 1 {
        WrapSmall(values[r]);
        hide Wrap;
        LoadsHeld(mem, values, regs[r := Wrap(mem(at))], list / 2, r + 1, Wrap(at + 4), j);
      } else {
        LoadsHeld(mem, values, regs, list / 2, r + 1, at, j);
      }
    }
  }

  /** Two memories that agree on the words of the list. */
  predicate SameWords(m1: Memory, m2: Memory, at: nat, n: nat) {
    forall k :: 0 <= k < n ==> m1(Wrap(at + 4 * k)) == m2(Wrap(at + 4 * k))
  }

  lemma SameWordsTail(m1: Memory, m2: Memory, at: nat, n: nat)
    requires SameWords(m1, m2, at, n) && n > 0 && at < MODULUS
    ensures m1(at) == m2(at) && SameWords(m1, m2, Wrap(at + 4), n - 1)
  {
    assert m1(Wrap(at + 4 * 0)) == m2(Wrap(at + 4 * 0));
    forall k | 0 <= k < n - 1
      ensures m1(Wrap(Wrap(at + 4) + 4 * k)) == m2(Wrap(Wrap(at + 4) + 4 * k))
    {
      WrapSum(at + 4, 4 * k);
      assert m1(Wrap(at + 4 * (k + 1))) == m2(Wrap(at + 4 * (k + 1)));
    }
  }

  lemma {:induction false} HeldInBoth(m1: Memory, m2: Memory, values: seq<Word>, list: nat, r: nat, at: nat)
    requires |values| == 16 && r <= 16 && at < MODULUS
    requires Holds(m1, values, list, r, at) && SameWords(m1, m2, at, Count(list, r))
    ensures Holds(m2, values, list, r, at)
    decreases 16 - r
  {
    if r < 16 {
      if list % 2 == 1 {
        SameWordsTail(m1, m2, at, Count(list, r));
        hide Wrap, SameWords;
        HeldInBoth(m1, m2, values, list / 2, r + 1, Wrap(at + 4));
      } else {
        HeldInBoth(m1, m2, values, list / 2, r + 1, at);
      }
    }
  }

  /** `asm_arm_push` and `asm_arm_pop`: for every list without the stack pointer and the program counter,
      popping after pushing brings the listed registers and the stack pointer back, whatever was done in
      between to anything but the stack pointer and the saved words. */
  lemma PushPop(c: Cpu, d: Cpu, list: nat, j: nat)
    requires c.Valid() && d.Valid() && !InList(list, 0, 13) && list / 0x8000 % 2 == 0 && j < 15 && j != 13
    requires d.regs[13] == PushAll(c, list).regs[13]
    requires SameWords(PushAll(c, list).mem, d.mem, d.regs[13], Count(list, 0))
    ensures PopAll(d, list).regs[13] == c.regs[13]
    ensures PopAll(d, list).regs[j] == if InList(list, 0, j) then c.regs[j] else d.regs[j]
  {
    hide Wrap, StoreList, LoadList, InList, Holds, Count, SameWords, PushAll, PopAll;
    var start := Wrap(c.regs[13] - 4 * Count(list, 0));
    PushedState(c, list);
    PoppedState(d, list, j);
    StackComesBack(c.regs[13], 4 * Count(list, 0));
    StoreHolds(c.mem, c.regs, list, 0, start);
    HeldInBoth(PushAll(c, list).mem, d.mem, c.regs, list, 0, start);
    LoadsHeld(d.mem, c.regs, d.regs, list, 0, start, j);
  }

  lemma StackComesBack(sp: Word, n: nat)
    requires sp < MODULUS
    ensures Wrap(Wrap(sp - n) + n) == sp
  {
    WrapSum(sp - n, n);
  }

  lemma PushedState(c: Cpu, list: nat)
    requires c.Valid()
    ensures var (d, start) := (PushAll(c, list), Wrap(c.regs[13] - 4 * Count(list, 0)));
            && d.regs == c.regs[13 := start][15 := Wrap(c.regs[15] + 4)] && d.flags == c.flags
            && d.mem == StoreList(c.mem, c.regs, list, 0, start)
  {
    hide Wrap, StoreList, Count;
  }

  lemma PoppedState(d: Cpu, list: nat, j: nat)
    requires d.Valid() && j < 16 && j != 13
    ensures PopAll(d, list).regs[13] == Wrap(d.regs[13] + 4 * Count(list, 0))
    ensures j < 15 || list / 0x8000 % 2 == 1 ==> PopAll(d, list).regs[j] == LoadList(d.mem, d.regs, list, 0, d.regs[13])[j]
    ensures PopAll(d, list).mem == d.mem && PopAll(d, list).flags == d.flags
  {
    hide Wrap, LoadList, Count;
  }

  // ----- the frame

  /** r1 to r8 and the link register. */
  const SAVED_WORDS: nat := 9

  /** How far the stack pointer is moved for the locals: the immediate field keeps eight bits. */
  function FrameSize(locals: nat): nat {
    EntryAdjust(locals) % 0x100
  }

  /** More than three locals live on the stack; there is room for all of them exactly up to 62. */
  lemma RoomForLocals(locals: nat)
    requires locals > 3
    ensures FrameSize(locals) >= 4 * locals <==> locals <= 62
  {
  }

  /** Nine saved words leave the stack pointer four bytes off the alignment the caller had; the locals
      do not change that. */
  lemma EntryAlignment(sp: nat, locals: nat)
    requires sp < MODULUS
    ensures Wrap(sp - 4 * SAVED_WORDS - FrameSize(locals)) % 8 == (sp + 4) % 8
  {
    assert FrameSize(locals) % 8 == 0;
    WrapModulo8(sp - 4 * SAVED_WORDS - FrameSize(locals));
  }

  lemma WrapModulo8(x: int)
    ensures Wrap(x) % 8 == x % 8
  {
    assert x == MODULUS * (x / MODULUS) + Wrap(x);
    assert MODULUS * (x / MODULUS) == 8 * (0x2000_0000 * (x / MODULUS));
  }

  lemma DecodeLists(c: Cpu, w: Word)
    requires c.Valid() && w / 0x1_0000 % 16 == 13 && w / 0x2000 % 2 == 0
    ensures w / 0x10_0000 % 0x100 == 0x92 && w / 0x8000 % 2 == 0 ==> Execute(c, w) == Running(PushAll(c, w % 0x1_0000))
    ensures w / 0x10_0000 % 0x100 == 0x8B ==> Execute(c, w) == Running(PopAll(c, w % 0x1_0000))
  {
    hide PushAll, PopAll, BranchTarget, Result, Next, Jump, Operand, Compared, Wrap, Stored;
  }

  lemma DecodeImmediate(c: Cpu, w: Word)
    requires c.Valid() && w % 0x1000 < 0x100 && w / 0x1000 % 16 == w / 0x1_0000 % 16 == 13
    ensures w / 0x10_0000 % 0x100 == 0x28 ==> Execute(c, w) == Running(Result(c, 13, c.regs[13] + w % 0x1000))
    ensures w / 0x10_0000 % 0x100 == 0x24 ==> Execute(c, w) == Running(Result(c, 13, c.regs[13] - w % 0x1000))
  {
    assert Operand(c, 13) == c.regs[13];
    hide PushAll, PopAll, BranchTarget, Result, Next, Jump, Operand, Compared, Wrap, Stored;
  }

  lemma PushStep(c: Cpu)
    requires c.Valid() && c.mem(c.regs[15]) == SaveRegisters(SAVED)
    ensures Step(c) == Running(PushAll(c, SAVED + LR_BIT))
  {
    var w := OpPush(SAVED + LR_BIT);
    assert SaveRegisters(SAVED) == AL + w && w == 0x92d_41fe;
    assert w / 0x10_0000 % 0x100 == 0x92 && w / 0x1_0000 % 16 == 13 && w / 0x2000 % 2 == 0 && w / 0x8000 % 2 == 0;
    hide *;
    StepAlways(c, w);
    DecodeLists(c, w);
  }

  lemma PopStep(c: Cpu)
    requires c.Valid() && c.mem(c.regs[15]) == Return(SAVED)
    ensures Step(c) == Running(PopAll(c, SAVED + PC_BIT))
  {
    var w := OpPop(SAVED + PC_BIT);
    assert Return(SAVED) == AL + w && w == 0x8bd_81fe;
    assert w / 0x10_0000 % 0x100 == 0x8B && w / 0x1_0000 % 16 == 13 && w / 0x2000 % 2 == 0;
    hide *;
    StepAlways(c, w);
    DecodeLists(c, w);
  }

  lemma ReserveStep(c: Cpu, adjust: nat)
    requires c.Valid() && c.mem(c.regs[15]) == ReserveLocals(adjust)
    ensures Step(c) == Running(Result(c, 13, c.regs[13] - adjust % 0x100))
  {
    var w := OpSubImm(SP, SP, adjust);
    assert ReserveLocals(adjust) == AL + w && w == 0x10_0000 * 0x24 + 0x1_0000 * 13 + 0x1000 * 13 + adjust % 0x100;
    hide *;
    Fields(0x24, 13, 13, adjust % 0x100);
    StepAlways(c, w);
    DecodeImmediate(c, w);
  }

  lemma DropStep(c: Cpu, adjust: nat)
    requires c.Valid() && c.mem(c.regs[15]) == DropLocals(adjust)
    ensures Step(c) == Running(Result(c, 13, c.regs[13] + adjust % 0x100))
  {
    var w := OpAddImm(SP, SP, adjust);
    assert DropLocals(adjust) == AL + w && w == 0x10_0000 * 0x28 + 0x1_0000 * 13 + 0x1000 * 13 + adjust % 0x100;
    hide *;
    Fields(0x28, 13, 13, adjust % 0x100);
    StepAlways(c, w);
    DecodeImmediate(c, w);
  }

  lemma NothingCounted()
    ensures Count(0, 16) == 0
  {
  }

  lemma OneCount(bit: nat, rest: nat, r: nat)
    requires r < 16 && bit < 2
    ensures Count(bit + 2 * rest, r) == bit + Count(rest, r + 1)
  {
    assert (bit + 2 * rest) / 2 == rest;
  }

  /** Four registers at a time, lowest first. */
  lemma FourCounts(b0: nat, b1: nat, b2: nat, b3: nat, rest: nat, r: nat)
    requires r <= 12 && b0 < 2 && b1 < 2 && b2 < 2 && b3 < 2
    ensures Count(b0 + 2 * b1 + 4 * b2 + 8 * b3 + 16 * rest, r) == b0 + b1 + b2 + b3 + Count(rest, r + 4)
  {
    hide Count;
    OneCount(b3, rest, r + 3);
    OneCount(b2, b3 + 2 * rest, r + 2);
    OneCount(b1, b2 + 2 * (b3 + 2 * rest), r + 1);
    OneCount(b0, b1 + 2 * (b2 + 2 * (b3 + 2 * rest)), r);
    assert b0 + 2 * (b1 + 2 * (b2 + 2 * (b3 + 2 * rest))) == b0 + 2 * b1 + 4 * b2 + 8 * b3 + 16 * rest;
  }

  lemma SavedCounts()
    ensures Count(SAVED + LR_BIT, 0) == SAVED_WORDS && Count(SAVED + PC_BIT, 0) == SAVED_WORDS
  {
    hide Count;
    NothingCounted();
    FourCounts(0, 0, 1, 0, 0, 12);
    FourCounts(1, 0, 0, 0, 0x4, 8);
    FourCounts(1, 1, 1, 1, 0x41, 4);
    FourCounts(0, 1, 1, 1, 0x41F, 0);
    FourCounts(0, 0, 0, 1, 0, 12);
    FourCounts(1, 0, 0, 0, 0x8, 8);
    FourCounts(1, 1, 1, 1, 0x81, 4);
    FourCounts(0, 1, 1, 1, 0x81F, 0);
  }

  lemma SavedAre(j: nat)
    requires j < 16
    ensures InList(SAVED + PC_BIT, 0, j) <==> 1 <= j <= 8 || j == 15
  {
    assert InList(0x8, 12, j) <==> j == 15;
    assert j >= 8 ==> (InList(0x81, 8, j) <==> j == 8 || j == 15);
    assert j >= 4 ==> (InList(0x81F, 4, j) <==> 4 <= j <= 8 || j == 15);
  }

  // ----- entry, anything, exit

  lemma HoldsBit(mem: Memory, values: seq<Word>, bit: nat, rest: nat, r: nat, at: nat)
    requires |values| == 16 && r < 16 && bit < 2
    ensures Holds(mem, values, bit + 2 * rest, r, at) <==>
            (bit == 1 ==> mem(at) == values[r]) && Holds(mem, values, rest, r + 1, After(bit, at))
  {
    HoldsNext(mem, values, bit + 2 * rest, r, at);
    assert (bit + 2 * rest) / 2 == rest && (bit + 2 * rest) % 2 == bit;
    hide Holds, Wrap;
  }

  function After(bit: nat, at: nat): nat {
    if bit == 1 then Wrap(at + 4) else at
  }

  lemma LastBecomesPc(mem: Memory, values: seq<Word>, at: nat)
    requires |values| == 16 && Holds(mem, values, 1, 14, at)
    ensures Holds(mem, values[15 := values[14]], 2, 14, at)
  {
    hide *;
    var moved := values[15 := values[14]];
    HoldsNext(mem, values, 1, 14, at);
    HoldsNext(mem, moved, 2, 14, at);
    HoldsNext(mem, moved, 1, 15, at);
    HoldsNothing(mem, moved, 0, Wrap(at + 4));
  }

  /** The word saved from the link register is the word loaded into the program counter. */
  lemma {:induction false} LinkBecomesPc(mem: Memory, values: seq<Word>, low: nat, r: nat, at: nat, p: nat)
    requires |values| == 16 && r <= 14 && p == Pow2(14 - r) && low < p && Holds(mem, values, low + p, r, at)
    ensures Holds(mem, values[15 := values[14]], low + 2 * p, r, at)
    decreases 14 - r
  {
    hide *;
    if r < 14 {
      var bit, rest, q := HalfPower(low, 13 - r, p);
      assert low + p == bit + 2 * (rest + q) && low + 2 * p == bit + 2 * (rest + 2 * q);
      HoldsBit(mem, values, bit, rest + q, r, at);
      LinkBecomesPc(mem, values, rest, r + 1, After(bit, at), q);
      HoldsBit(mem, values[15 := values[14]], bit, rest + 2 * q, r, at);
    } else {
      OnlyPower(p);
      LastBecomesPc(mem, values, at);
    }
  }

  lemma HalfPower(low: nat, n: nat, p: nat) returns (bit: nat, rest: nat, q: nat)
    requires p == Pow2(n + 1) && low < p
    ensures q == Pow2(n) && p == 2 * q && low == bit + 2 * rest && bit < 2 && rest < q
  {
    bit, rest, q := low % 2, low / 2, Pow2(n);
  }

  lemma OnlyPower(p: nat)
    requires p == Pow2(0)
    ensures p == 1
  {
  }

  lemma LinkBit()
    ensures Pow2(14) == LR_BIT
  {
    assert Pow2(4) == 16;
    assert Pow2(8) == 256;
    assert Pow2(12) == 4096;
  }

  function SavedAt(c: Cpu): Word
    requires c.Valid()
  {
    Wrap(c.regs[13] - 4 * SAVED_WORDS)
  }

  /** The address is not among the words that the entry saves to. */
  predicate OffStack(c: Cpu, at: nat)
    requires c.Valid()
  {
    at < MODULUS && Wrap(at - SavedAt(c)) >= 4 * SAVED_WORDS
  }

  function Pushed(c: Cpu): Cpu
    requires c.Valid()
  {
    PushAll(c, SAVED + LR_BIT)
  }

  lemma PushedFacts(c: Cpu, at: nat)
    requires c.Valid()
    ensures var d := Pushed(c);
            && d.regs == c.regs[13 := SavedAt(c)][15 := Wrap(c.regs[15] + 4)] && d.flags == c.flags
            && Holds(d.mem, c.regs, SAVED + LR_BIT, 0, SavedAt(c))
            && (OffStack(c, at) ==> d.mem(at) == c.mem(at))
  {
    hide Wrap, PushAll, Count, StoreList, Holds;
    PushedRegisters(c);
    StoreHolds(c.mem, c.regs, SAVED + LR_BIT, 0, SavedAt(c));
    if OffStack(c, at) {
      SavedCounts();
      StoreElsewhere(c.mem, c.regs, SAVED + LR_BIT, 0, SavedAt(c), at);
    }
  }

  lemma PushedRegisters(c: Cpu)
    requires c.Valid()
    ensures Pushed(c).regs == c.regs[13 := SavedAt(c)][15 := Wrap(c.regs[15] + 4)] && Pushed(c).flags == c.flags
    ensures Pushed(c).mem == StoreList(c.mem, c.regs, SAVED + LR_BIT, 0, SavedAt(c))
  {
    hide Wrap, PushAll, Count, StoreList;
    SavedCounts();
    PushedState(c, SAVED + LR_BIT);
  }

  /** `e` has just entered a function from `c`. */
  ghost predicate Entered(c: Cpu, e: Cpu, locals: nat)
    requires c.Valid() && e.Valid()
  {
    && e.regs == c.regs[13 := Wrap(c.regs[13] - 4 * SAVED_WORDS - FrameSize(locals))]
                       [15 := Wrap(c.regs[15] + 4 * |EntryWords(EntryAdjust(locals))|)]
    && e.mem == Pushed(c).mem && e.flags == c.flags
  }

  lemma EnteredWithoutFrame(c: Cpu, locals: nat)
    requires c.Valid() && EntryAdjust(locals) == 0
    ensures Pushed(c).Valid() && Entered(c, Pushed(c), locals)
  {
    hide PushAll, Wrap, Holds, ReserveLocals, SaveRegisters;
    PushedFacts(c, 0);
    NoFrame(c, locals);
    assert |EntryWords(EntryAdjust(locals))| == 1;
    hide EntryAdjust, FrameSize, EntryWords;
  }

  lemma EnteredWithFrame(c: Cpu, locals: nat)
    requires c.Valid() && EntryAdjust(locals) > 0
    ensures Entered(c, Result(Pushed(c), 13, Pushed(c).regs[13] - FrameSize(locals)), locals)
  {
    hide PushAll, Wrap, Holds, EntryAdjust, FrameSize;
    PushedFacts(c, 0);
    var (sp, pc) := (c.regs[13] - 4 * SAVED_WORDS, c.regs[15]);
    MovedStack(Pushed(c), c.regs, sp, pc, FrameSize(locals));
  }

  lemma MovedStack(d: Cpu, regs: seq<Word>, sp: int, pc: nat, frame: nat)
    requires d.Valid() && |regs| == 16 && d.regs == regs[13 := Wrap(sp)][15 := Wrap(pc + 4)]
    ensures var e := Result(d, 13, d.regs[13] - frame);
            && e.regs == regs[13 := Wrap(sp - frame)][15 := Wrap(pc + 4 * 2)] && e.mem == d.mem && e.flags == d.flags
  {
    WrapSum(sp, 0 - frame);
    WrapSum(pc + 4, 4);
    hide Wrap;
    assert d.regs[13] - frame == Wrap(sp) + (0 - frame);
  }

  /** The entry code of a function, for any number of locals. */
  lemma FunctionEnters(c: Cpu, locals: nat)
    requires c.Valid() && CodeAt(c.mem, c.regs[15], EntryWords(EntryAdjust(locals))) && OffStack(c, Wrap(c.regs[15] + 4))
    ensures var o := Steps(c, |EntryWords(EntryAdjust(locals))|); o.Running? && Entered(c, o.cpu, locals)
  {
    hide Step, Steps, PushAll, Result, Wrap, Entered, Holds, SaveRegisters, ReserveLocals, CodeAt, OffStack;
    var adjust := EntryAdjust(locals);
    WordsInPlace(c, EntryWords(adjust));
    PushStep(c);
    PushedFacts(c, Wrap(c.regs[15] + 4));
    if adjust == 0 {
      OneStep(c);
      EnteredWithoutFrame(c, locals);
    } else {
      ReserveStep(Pushed(c), adjust);
      TwoSteps(c, Pushed(c));
      EnteredWithFrame(c, locals);
    }
  }

  /** `f` is `d` after leaving a function that was entered from `c`: the stack pointer and r1 to r8 are
      back, execution goes on at the return address, and the rest is as `d` left it. */
  ghost predicate Returned(c: Cpu, d: Cpu, f: Cpu)
    requires c.Valid() && d.Valid() && f.Valid()
  {
    && f.regs[13] == c.regs[13] && f.regs[15] == c.regs[14] && f.mem == d.mem && f.flags == d.flags
    && forall j :: 0 <= j < 16 && j != 13 && j != 15 ==> f.regs[j] == if 1 <= j <= 8 then c.regs[j] else d.regs[j]
  }

  lemma PopReturns(c: Cpu, d: Cpu)
    requires c.Valid() && d.Valid() && d.regs[13] == SavedAt(c) && SameWords(Pushed(c).mem, d.mem, SavedAt(c), SAVED_WORDS)
    ensures Returned(c, d, PopAll(d, SAVED + PC_BIT))
  {
    hide Wrap, PushAll, PopAll, Holds, Count, SameWords, InList, LoadList;
    SavedCounts();
    PushedFacts(c, 0);
    HeldInBoth(Pushed(c).mem, d.mem, c.regs, SAVED + LR_BIT, 0, SavedAt(c));
    LinkBit();
    LinkBecomesPc(d.mem, c.regs, SAVED, 0, SavedAt(c), LR_BIT);
    var values := c.regs[15 := c.regs[14]];
    StackComesBack(c.regs[13], 4 * SAVED_WORDS);
    forall j | 0 <= j < 16 && j != 13
      ensures PopAll(d, SAVED + PC_BIT).regs[j] == if 1 <= j <= 8 || j == 15 then values[j] else d.regs[j]
    {
      PoppedState(d, SAVED + PC_BIT, j);
      SavedAre(j);
      LoadsHeld(d.mem, values, d.regs, SAVED + PC_BIT, 0, SavedAt(c), j);
    }
    PoppedState(d, SAVED + PC_BIT, 0);
    var f := PopAll(d, SAVED + PC_BIT);
    forall j | 0 <= j < 16 && j != 13 && j != 15
      ensures f.regs[j] == if 1 <= j <= 8 then c.regs[j] else d.regs[j]
    {
      assert values[j] == c.regs[j];
    }
    assert f.regs[13] == c.regs[13];
    assert f.regs[15] == values[15] == c.regs[14];
    assert f.mem == d.mem;
    assert f.flags == d.flags;
  }

  lemma DropReturns(c: Cpu, d: Cpu, e: Cpu, f: Cpu, locals: nat)
    requires c.Valid() && d.Valid() && f.Valid() && d.regs[13] == Wrap(c.regs[13] - 4 * SAVED_WORDS - FrameSize(locals))
    requires e == Result(d, 13, d.regs[13] + FrameSize(locals)) && Returned(c, e, f)
    ensures Returned(c, d, f)
  {
    hide Wrap, FrameSize;
  }

  lemma FrameDropped(c: Cpu, d: Cpu, locals: nat)
    requires c.Valid() && d.Valid() && d.regs[13] == Wrap(c.regs[13] - 4 * SAVED_WORDS - FrameSize(locals))
    ensures var e := Result(d, 13, d.regs[13] + FrameSize(locals));
            e.regs[13] == SavedAt(c) && e.mem == d.mem && e.regs[15] == Wrap(d.regs[15] + 4)
  {
    WrapSum(c.regs[13] - 4 * SAVED_WORDS - FrameSize(locals), FrameSize(locals));
    hide Wrap, FrameSize;
  }

  /** For any number of locals, whatever the function did: if it left the stack pointer where the entry put
      it and did not touch the saved words, its exit code returns to the caller with the caller's stack
      pointer and r1 to r8. */
  lemma FunctionReturns(c: Cpu, e: Cpu, d: Cpu, locals: nat)
    requires c.Valid() && e.Valid() && d.Valid() && Entered(c, e, locals)
    requires d.regs[13] == e.regs[13] && SameWords(e.mem, d.mem, SavedAt(c), SAVED_WORDS)
    requires CodeAt(d.mem, d.regs[15], ExitWords(EntryAdjust(locals), SAVED))
    ensures var o := Steps(d, |ExitWords(EntryAdjust(locals), SAVED)|); o.Running? && Returned(c, d, o.cpu)
  {
    hide Step, Steps, PushAll, PopAll, Result, Wrap, Returned, DropLocals, Return, CodeAt, SameWords, SavedAt;
    var adjust := EntryAdjust(locals);
    WordsInPlace(d, ExitWords(adjust, SAVED));
    if adjust == 0 {
      NoFrame(c, locals);
      PopStep(d);
      OneStep(d);
      PopReturns(c, d);
    } else {
      DropStep(d, adjust);
      var g := Result(d, 13, d.regs[13] + FrameSize(locals));
      FrameDropped(c, d, locals);
      PopStep(g);
      TwoSteps(d, g);
      PopReturns(c, g);
      DropReturns(c, d, g, PopAll(g, SAVED + PC_BIT), locals);
    }
  }

  lemma NoFrame(c: Cpu, locals: nat)
    requires c.Valid() && EntryAdjust(locals) == 0
    ensures Wrap(c.regs[13] - 4 * SAVED_WORDS - FrameSize(locals)) == SavedAt(c)
  {
    hide Wrap;
  }

  /** With at most 62 locals no local shares a word with the saved registers. */
  lemma LocalsOffSavedWords(c: Cpu, e: Cpu, locals: nat, local: nat)
    requires c.Valid() && e.Valid() && Entered(c, e, locals) && 3 < locals <= 62 && local < locals
    ensures OffStack(c, LocalAddress(e, local))
  {
    hide PushAll, FrameSize, Wrap;
    RoomForLocals(locals);
    var below := FrameSize(locals) - 4 * local;
    var start := c.regs[13] - 4 * SAVED_WORDS;
    assert e.regs[13] == Wrap(start - FrameSize(locals));
    WrapSum(start - FrameSize(locals), 4 * local);
    FrameBelow(locals);
    BelowSaved(start, below);
  }

  /** The first local behind the frame is where the saved words begin. */
  lemma LocalBehindFrame(c: Cpu, e: Cpu, locals: nat)
    requires c.Valid() && e.Valid() && Entered(c, e, locals)
    ensures LocalAddress(e, FrameSize(locals) / 4) == SavedAt(c) && !OffStack(c, SavedAt(c))
    ensures FrameSize(locals) / 4 < locals <==> 0 < locals <= 3 || locals > 62
  {
    hide *;
    FrameInWords(locals);
    EnteredStack(c, e, locals);
    AddressBehindFrame(c, e, FrameSize(locals), FrameSize(locals) / 4);
    SavedIsNotOff(c);
  }

  lemma AddressBehindFrame(c: Cpu, e: Cpu, frame: nat, local: nat)
    requires c.Valid() && e.Valid() && e.regs[13] == Wrap(c.regs[13] - 4 * SAVED_WORDS - frame) && frame == 4 * local
    ensures LocalAddress(e, local) == SavedAt(c)
  {
    hide Wrap;
    WrapSum(c.regs[13] - 4 * SAVED_WORDS - frame, frame);
  }

  lemma EnteredStack(c: Cpu, e: Cpu, locals: nat)
    requires c.Valid() && e.Valid() && Entered(c, e, locals)
    ensures e.regs[13] == Wrap(c.regs[13] - 4 * SAVED_WORDS - FrameSize(locals))
  {
    hide Wrap, FrameSize, EntryAdjust, EntryWords, PushAll;
  }

  lemma SavedIsNotOff(c: Cpu)
    requires c.Valid()
    ensures !OffStack(c, SavedAt(c))
  {
    assert Wrap(SavedAt(c) - SavedAt(c)) == 0;
    hide SavedAt;
  }

  lemma FrameInWords(locals: nat)
    ensures FrameSize(locals) == 4 * (FrameSize(locals) / 4)
    ensures FrameSize(locals) / 4 < locals <==> 0 < locals <= 3 || locals > 62
  {
  }

  /** Exactly up to 62 locals have room between the stack pointer and the saved registers, and from four
      locals on: up to three are kept in registers and have no frame. */
  lemma LocalsOffSavedWordsIff(c: Cpu, e: Cpu, locals: nat)
    requires c.Valid() && e.Valid() && Entered(c, e, locals)
    ensures (forall local: nat :: local < locals ==> OffStack(c, LocalAddress(e, local))) <==> locals == 0 || 3 < locals <= 62
  {
    LocalBehindFrame(c, e, locals);
    hide *;
    var first := FrameSize(locals) / 4;
    if locals == 0 || 3 < locals <= 62 {
      forall local: nat | local < locals
        ensures OffStack(c, LocalAddress(e, local))
      {
        LocalsOffSavedWords(c, e, locals, local);
      }
    } else {
      assert first < locals && !OffStack(c, LocalAddress(e, first));
    }
  }

  lemma FrameBelow(locals: nat)
    ensures FrameSize(locals) < 0x100
  {
  }

  lemma BelowSaved(start: int, below: nat)
    requires 4 <= below <= 0x100
    ensures Wrap(Wrap(start - below) - Wrap(start)) >= 4 * SAVED_WORDS
  {
    WrapSum(start - below, 0 - Wrap(start));
    WrapSum(start, 0 - Wrap(start));
    assert start - Wrap(start) == MODULUS * (start / MODULUS);
    assert Wrap(start - below) - Wrap(start) == 0 - below || Wrap(start - below) - Wrap(start) == MODULUS - below;
  }
}
