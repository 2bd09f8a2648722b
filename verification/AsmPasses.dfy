/** Two passes over the same program: the first counts, the second writes, and they agree. */
module AsmPasses {
  import opened Bits
  import opened AsmBase
  import opened AsmArm
  import opened AsmMasks

  /** Programs are shorter than the reach of a branch. */
  const REACH: nat := 0x200_0000

  // ----- branches

  function SignExtend24(x: Word): int {
    if x < 0x80_0000 then x else x - 0x100_0000
  }

  /** Where a branch word at address `at` goes: section A4.1.5 of the ARM Architecture Reference Manual. */
  function BranchTarget(w: Word, at: nat): Word {
    Wrap(at + 8 + 4 * SignExtend24(w % 0x100_0000))
  }

  predicate IsCondition(cond: Word) {
    cond % 0x1000_0000 == 0
  }

  /** The distance is representable in the 24-bit field. */
  predicate InField(rel: int) {
    -0x80_0000 <= rel < 0x80_0000
  }

  lemma FieldOfBranch(cond: Word, rel: int)
    requires IsCondition(cond)
    ensures OpBranch(cond, rel) % 0x100_0000 == rel % 0x100_0000
  {
    var k := cond / 0x1000_0000;
    assert OpBranch(cond, rel) == (16 * k + 10) * 0x100_0000 + rel % 0x100_0000;
  }

  /** The field loses a multiple of 2^24, which is nothing exactly when the distance fits. */
  lemma FieldLoss(rel: int) returns (k: int)
    requires -0x2000_0000 <= rel < 0x2000_0000
    ensures SignExtend24(rel % 0x100_0000) == rel + k * 0x100_0000 && -33 <= k <= 33
    ensures k == 0 <==> InField(rel)
  {
    k := -(rel / 0x100_0000) - (if rel % 0x100_0000 < 0x80_0000 then 0 else 1);
  }

  lemma DistanceInQuarters(offset: nat, dest: nat) returns (d: int, r: int, m: int)
    requires offset < MODULUS && dest < MODULUS
    ensures -0x8000_0000 <= d < 0x8000_0000 && 0 <= r < 4 && d == 4 * BranchOffset(offset, dest) + r
    ensures dest - offset - 8 == d + m * MODULUS && -2 <= m <= 2
    ensures r == 0 <==> (dest - offset) % 4 == 0
  {
    var w := Wrap(dest - offset - 8);
    d := Signed(w);
    r := d % 4;
    m := (dest - offset - 8 - d) / MODULUS;
    assert dest - offset - 8 == (dest - offset - 8) / MODULUS * MODULUS + w;
    assert dest - offset == 4 * (BranchOffset(offset, dest) + 2 + m * 0x4000_0000) + r;
  }

  lemma WrapsTo(x: int, y: int)
    requires 0 <= y < MODULUS && 0 - MODULUS < x - y < MODULUS
    ensures Wrap(x) == y <==> x == y
  {
  }

  lemma WrapShift(x: int, m: int)
    ensures Wrap(x + m * MODULUS) == Wrap(x)
  {
  }

  /** The emitted word goes to the destination exactly when the distance is a multiple of four and is
      representable; the range test of the source lets negative distances through that are not. */
  lemma BranchReachesIff(cond: Word, offset: nat, dest: nat)
    requires IsCondition(cond) && offset < MODULUS && dest < MODULUS
    ensures var rel := BranchOffset(offset, dest);
            BranchTarget(OpBranch(cond, rel), offset) == dest <==> (dest - offset) % 4 == 0 && InField(rel)
    ensures InField(BranchOffset(offset, dest)) ==> SignedFit24(BranchOffset(offset, dest))
  {
    var rel := BranchOffset(offset, dest);
    FieldOfBranch(cond, rel);
    var d, r, m := DistanceInQuarters(offset, dest);
    var k := FieldLoss(rel);
    hide Wrap, SignExtend24, OpBranch, BranchOffset;
    var x := dest - r + k * 0x400_0000;
    assert offset + 8 + 4 * SignExtend24(rel % 0x100_0000) == x + (-m) * MODULUS;
    WrapShift(x, -m);
    WrapsTo(x, dest);
  }

  /** A distance that passes the range test and is encoded as a different one. */
  lemma RangeTestIsLoose()
    ensures var rel := BranchOffset(0x300_0000, 0);
            && FitsByMasks(Wrap(rel)) && SignedFit24(rel) && !InField(rel)
            && BranchTarget(OpBranch(AL, rel), 0x300_0000) != 0
  {
    LooseDistance();
    hide *;
    RangeTestIsMasked(BranchOffset(0x300_0000, 0));
  }

  lemma LooseDistance()
    ensures var rel := BranchOffset(0x300_0000, 0);
            && -0x8000_0000 <= rel < 0 && SignedFit24(rel) && !InField(rel)
            && BranchTarget(OpBranch(AL, rel), 0x300_0000) != 0
  {
  }

  lemma ShortDistances(offset: nat, dest: nat)
    requires offset < REACH && (dest < REACH || dest == UNSET)
    ensures SignedFit24(BranchOffset(offset, dest))
    ensures dest < REACH && offset + 4 < REACH && (dest - offset) % 4 == 0 ==> InField(BranchOffset(offset, dest))
  {
    if dest < REACH {
      var x := dest - offset - 8;
      assert Signed(Wrap(x)) == x by {
        if x < 0 {
          WrapShift(x, 1);
        }
      }
    }
  }

  /** Within a program that is short enough: right if and only if the label is as aligned as the branch. */
  lemma BranchLands(cond: Word, offset: nat, dest: nat)
    requires IsCondition(cond) && offset + 4 < REACH && dest < REACH
    ensures BranchWords(cond, offset, dest) == [OpBranch(cond, BranchOffset(offset, dest))]
    ensures BranchTarget(OpBranch(cond, BranchOffset(offset, dest)), offset) == dest <==> (dest - offset) % 4 == 0
  {
    hide BranchTarget, OpBranch, SignedFit24, InField, BranchOffset;
    ShortDistances(offset, dest);
    BranchReachesIff(cond, offset, dest);
  }

  // ----- programs

  /** The assertions hold all the way. */
  predicate Runs(a: Arm, ops: seq<Op>)
    decreases |ops|
  {
    ops == [] || (Allowed(a, ops[0]) && Runs(Apply(a, ops[0]), ops[1..]))
  }

  function Run(a: Arm, ops: seq<Op>): Arm
    requires Runs(a, ops)
    decreases |ops|
  {
    if ops == [] then a else Run(Apply(a, ops[0]), ops[1..])
  }

  /** The state in which operation `i` is performed. */
  function Before(a: Arm, ops: seq<Op>, i: nat): Arm
    requires Runs(a, ops) && i <= |ops|
    decreases |ops|
  {
    if i == 0 then a else Before(Apply(a, ops[0]), ops[1..], i - 1)
  }

  /** Labels in range, alignments powers of two. */
  predicate OpInRange(op: Op, labels: nat) {
    match op
    case Label(l) => l < labels
    case Align(to) => PowerOfTwo(to)
    case MovRegPcrel(_, l) => l < labels
    case BccLabel(_, l) => l < labels
    case _ => true
  }

  predicate InRange(ops: seq<Op>, labels: nat) {
    forall op :: op in ops ==> OpInRange(op, labels)
  }

  predicate AssignedOnce(ops: seq<Op>) {
    forall i, j :: 0 <= i < j < |ops| && ops[i].Label? && ops[j].Label? ==> ops[i].l != ops[j].l
  }

  /** No function is left that was not entered. */
  predicate EnteredFirst(ops: seq<Op>, entered: bool)
    decreases |ops|
  {
    ops == [] || ((ops[0].Exit? ==> entered) && EnteredFirst(ops[1..], entered || ops[0].Entry?))
  }

  lemma ApplyBasics(a: Arm, op: Op)
    requires Allowed(a, op)
    ensures var b := Apply(a, op);
            && b.base.pass == a.base.pass && |b.base.labels| == |a.base.labels| && |b.base.code| == |a.base.code|
            && b.base.offset >= a.base.offset
            && (op.Align? || op.Label? || b.base.offset == a.base.offset + |OpBytes(a, op)|)
            && (!op.Label? || a.base.pass == EMIT ==> b.base.labels == a.base.labels)
  {
    if op.Align? {
      AlignUpIsNext(a.base.offset, op.to, 0);
    }
    hide OpBytes, AlignUp;
  }

  lemma {:induction false} RunBasics(a: Arm, ops: seq<Op>)
    requires Runs(a, ops)
    ensures var b := Run(a, ops);
            && b.base.pass == a.base.pass && |b.base.labels| == |a.base.labels| && |b.base.code| == |a.base.code|
            && b.base.offset >= a.base.offset
    decreases |ops|
  {
    if ops != [] {
      ApplyBasics(a, ops[0]);
      hide Apply, Allowed;
      RunBasics(Apply(a, ops[0]), ops[1..]);
    }
  }

  /** The pass that counts never fails on a program whose labels are in range and assigned once. */
  lemma {:induction false} ComputeRuns(a: Arm, ops: seq<Op>)
    requires a.base.pass < EMIT && InRange(ops, |a.base.labels|) && AssignedOnce(ops)
    requires NoneAssigned(a.base, ops)
    ensures Runs(a, ops)
    decreases |ops|
  {
    if ops != [] {
      var op := ops[0];
      assert OpInRange(op, |a.base.labels|) && (op.Label? ==> Unassigned(a.base, op.l));
      hide OpBytes, PowerOfTwo;
      assert Allowed(a, op);
      ApplyBasics(a, op);
      NoneAssignedTail(a, ops);
      ComputeRuns(Apply(a, op), ops[1..]);
    }
  }

  predicate Unassigned(a: Base, l: nat) {
    l < |a.labels| && a.labels[l] == UNSET
  }

  predicate NoneAssigned(a: Base, ops: seq<Op>) {
    forall op :: op in ops && op.Label? ==> Unassigned(a, op.l)
  }

  lemma NoneAssignedTail(a: Arm, ops: seq<Op>)
    requires ops != [] && a.base.pass < EMIT && Allowed(a, ops[0]) && NoneAssigned(a.base, ops) && AssignedOnce(ops)
    ensures NoneAssigned(Apply(a, ops[0]).base, ops[1..]) && AssignedOnce(ops[1..])
  {
    hide OpBytes;
    ApplyBasics(a, ops[0]);
    var b := Apply(a, ops[0]).base;
    forall other | other in ops[1..] && other.Label?
      ensures Unassigned(b, other.l)
    {
      assert Unassigned(a.base, other.l);
      var j :| 0 <= j < |ops[1..]| && ops[1..][j] == other;
      assert ops[j + 1] == other;
    }
  }

  /** A label keeps the offset it was given. */
  lemma {:induction false} LabelKept(a: Arm, ops: seq<Op>, l: nat)
    requires a.base.pass < EMIT && Runs(a, ops) && l < |a.base.labels| && a.base.labels[l] != UNSET
    ensures |Run(a, ops).base.labels| == |a.base.labels| && Run(a, ops).base.labels[l] == a.base.labels[l]
    decreases |ops|
  {
    if ops != [] {
      ApplyBasics(a, ops[0]);
      hide OpBytes;
      LabelKept(Apply(a, ops[0]), ops[1..], l);
    }
  }

  predicate Near(l: nat) {
    l == UNSET || l < REACH
  }

  /** What an operation takes up does not depend on which labels are known already. */
  lemma SameSize(a: Arm, b: Arm, op: Op)
    requires Defined(a.base, op) && Defined(b.base, op) && a.base.offset < REACH && b.base.offset < REACH
    requires op.Exit? ==> a.stackAdjust == b.stackAdjust
    requires (op.MovRegPcrel? || op.BccLabel?) ==> Near(a.base.labels[op.l]) && Near(b.base.labels[op.l])
    ensures |OpBytes(a, op)| == |OpBytes(b, op)|
  {
    if op.BccLabel? {
      ShortDistances(a.base.offset, a.base.labels[op.l]);
      ShortDistances(b.base.offset, b.base.labels[op.l]);
    }
    hide BranchOffset, SignedFit24, OpBranch, OptimisedWords;
  }

  /** The counting pass `a` and the writing pass `b` before the same operation. */
  ghost predicate InStep(a: Arm, b: Arm, entered: bool) {
    && a.base.pass < EMIT && b.base.pass == EMIT
    && a.base.offset == b.base.offset
    && |a.base.labels| == |b.base.labels|
    && (forall l :: 0 <= l < |a.base.labels| ==> a.base.labels[l] == UNSET || a.base.labels[l] == b.base.labels[l])
    && (forall l :: 0 <= l < |b.base.labels| ==> Near(b.base.labels[l]))
    && (entered ==> a.stackAdjust == b.stackAdjust && a.pushReglist == b.pushReglist)
  }

  lemma StepTogether(a: Arm, b: Arm, op: Op, entered: bool)
    requires InStep(a, b, entered) && Allowed(a, op) && (op.Exit? ==> entered)
    requires Apply(a, op).base.offset <= |b.base.code| && Apply(a, op).base.offset < REACH
    requires op.Label? ==> b.base.labels[op.l] == a.base.offset
    ensures Allowed(b, op) && InStep(Apply(a, op), Apply(b, op), entered || op.Entry?)
  {
    ApplyBasics(a, op);
    if !op.Label? && !op.Align? {
      SameSize(a, b, op);
      hide OpBytes, Near;
      assert Allowed(b, op);
      ApplyBasics(b, op);
    }
    hide OpBytes;
  }

  /** The pass that writes: no assertion fails, every write is in bounds, and it ends where the counting
      pass ended, with the same labels. */
  lemma {:induction false} PassesAgree(a: Arm, b: Arm, ops: seq<Op>, entered: bool)
    requires Runs(a, ops) && InStep(a, b, entered) && EnteredFirst(ops, entered)
    requires b.base.labels == Run(a, ops).base.labels
    requires Run(a, ops).base.offset <= |b.base.code| && Run(a, ops).base.offset < REACH
    ensures Runs(b, ops)
    ensures Run(b, ops).base.offset == Run(a, ops).base.offset && Run(b, ops).base.labels == b.base.labels
    decreases |ops|
  {
    if ops != [] {
      var op := ops[0];
      var a1 := Apply(a, op);
      ApplyBasics(a, op);
      RunBasics(a1, ops[1..]);
      if op.Label? {
        LabelKept(a1, ops[1..], op.l);
      }
      StepTogether(a, b, op, entered);
      ApplyBasics(b, op);
      assert a1.base.pass < EMIT && b.base.pass == EMIT;
      hide Apply, Allowed, InStep, OpBytes;
      PassesAgree(a1, Apply(b, op), ops[1..], entered || op.Entry?);
    }
  }

  // ----- what the second pass leaves in the buffer

  /** Writing goes on behind the offset; what is before it stays. */
  lemma {:induction false} WrittenStays(b: Arm, ops: seq<Op>, n: nat)
    requires Runs(b, ops) && n <= b.base.offset && n <= |b.base.code|
    ensures |Run(b, ops).base.code| == |b.base.code| && Run(b, ops).base.code[..n] == b.base.code[..n]
    decreases |ops|
  {
    if ops != [] {
      ApplyBasics(b, ops[0]);
      OneWriteStays(b, ops[0], n);
      hide Apply, Allowed;
      WrittenStays(Apply(b, ops[0]), ops[1..], n);
    }
  }

  lemma OneWriteStays(b: Arm, op: Op, n: nat)
    requires Allowed(b, op) && n <= b.base.offset && n <= |b.base.code|
    ensures |Apply(b, op).base.code| == |b.base.code| && Apply(b, op).base.code[..n] == b.base.code[..n]
  {
    hide OpBytes;
  }

  lemma OneWrite(b: Arm, op: Op)
    requires Allowed(b, op) && b.base.pass == EMIT && !op.Label? && !op.Align?
    ensures var (c, o, n) := (Apply(b, op).base.code, b.base.offset, |OpBytes(b, op)|);
            o + n <= |c| && c[o..o + n] == OpBytes(b, op)
  {
    hide OpBytes;
  }

  /** The operation is performed, and leaves its bytes at its offset. */
  ghost predicate BytesInPlace(b: Arm, op: Op, code: seq<Byte>) {
    && Allowed(b, op)
    && (op.Label? || op.Align? ||
        (b.base.offset + |OpBytes(b, op)| <= |code| &&
         code[b.base.offset..b.base.offset + |OpBytes(b, op)|] == OpBytes(b, op)))
  }

  /** At the end of the emit pass the bytes of every operation are where it was performed. */
  lemma {:induction false} EveryOpInPlace(b: Arm, ops: seq<Op>, i: nat)
    requires Runs(b, ops) && b.base.pass == EMIT && i < |ops|
    ensures BytesInPlace(Before(b, ops, i), ops[i], Run(b, ops).base.code)
    decreases |ops|
  {
    var c := Apply(b, ops[0]);
    ApplyBasics(b, ops[0]);
    if i == 0 {
      if !ops[0].Label? && !ops[0].Align? {
        OneWrite(b, ops[0]);
        var n := b.base.offset + |OpBytes(b, ops[0])|;
        WrittenStays(c, ops[1..], n);
        assert Run(b, ops).base.code[..n][b.base.offset..n] == c.base.code[..n][b.base.offset..n];
      }
    } else {
      hide Apply, Allowed, BytesInPlace;
      EveryOpInPlace(c, ops[1..], i - 1);
    }
  }

  lemma {:induction false} BeforeBasics(b: Arm, ops: seq<Op>, i: nat)
    requires Runs(b, ops) && i < |ops|
    ensures var c := Before(b, ops, i);
            && Allowed(c, ops[i]) && c.base.pass == b.base.pass && |c.base.labels| == |b.base.labels|
            && (b.base.pass == EMIT ==> c.base.labels == b.base.labels)
            && Apply(c, ops[i]).base.offset <= Run(b, ops).base.offset
    decreases |ops|
  {
    ApplyBasics(b, ops[0]);
    RunBasics(Apply(b, ops[0]), ops[1..]);
    if i > 0 {
      hide Apply, Allowed;
      BeforeBasics(Apply(b, ops[0]), ops[1..], i - 1);
    }
  }

  // ----- a whole program

  /** A program for `labels` labels: labels in range and assigned at most once, functions entered before
      they are left. */
  predicate WellFormed(ops: seq<Op>, labels: nat) {
    InRange(ops, labels) && AssignedOnce(ops) && EnteredFirst(ops, false)
  }

  /** The state in which the counting pass begins. */
  function Counting(a: Arm): Arm {
    a.(base := Started(a.base, COMPUTE, []))
  }

  lemma CountingRuns(a: Arm, ops: seq<Op>)
    requires WellFormed(ops, |a.base.labels|)
    ensures Runs(Counting(a), ops)
  {
    var c := Counting(a);
    forall op | op in ops && op.Label?
      ensures Unassigned(c.base, op.l)
    {
      assert OpInRange(op, |a.base.labels|);
    }
    ComputeRuns(c, ops);
  }

  /** The state in which the writing pass begins, in a buffer of the size that was counted. */
  function Writing(a: Arm, ops: seq<Op>, memory: seq<Byte>): Arm
    requires WellFormed(ops, |a.base.labels|)
  {
    CountingRuns(a, ops);
    var counted := Run(Counting(a), ops);
    counted.(base := Started(counted.base, EMIT, memory))
  }

  function ProgramSize(a: Arm, ops: seq<Op>): nat
    requires WellFormed(ops, |a.base.labels|)
  {
    CountingRuns(a, ops);
    Run(Counting(a), ops).base.offset
  }

  lemma {:induction false} LabelsNear(a: Arm, ops: seq<Op>)
    requires a.base.pass < EMIT && Runs(a, ops) && Run(a, ops).base.offset < REACH
    requires forall l :: 0 <= l < |a.base.labels| ==> Near(a.base.labels[l])
    ensures forall l :: 0 <= l < |Run(a, ops).base.labels| ==> Near(Run(a, ops).base.labels[l])
    decreases |ops|
  {
    if ops != [] {
      ApplyBasics(a, ops[0]);
      RunBasics(Apply(a, ops[0]), ops[1..]);
      hide OpBytes;
      LabelsNear(Apply(a, ops[0]), ops[1..]);
    }
  }

  /** For every program shorter than the reach of a branch the two passes agree: no assertion fails in
      either, every write of the second is inside the buffer that the first one sized, and both end at
      the same offset with the same labels. */
  lemma TwoPasses(a: Arm, ops: seq<Op>, memory: seq<Byte>)
    requires WellFormed(ops, |a.base.labels|) && ProgramSize(a, ops) < REACH && |memory| == ProgramSize(a, ops)
    ensures var b := Writing(a, ops, memory);
            && Runs(b, ops)
            && Run(b, ops).base.offset == |memory| == |Run(b, ops).base.code|
            && Run(b, ops).base.labels == b.base.labels
  {
    CountingRuns(a, ops);
    var (c, b) := (Counting(a), Writing(a, ops, memory));
    LabelsNear(c, ops);
    RunBasics(c, ops);
    hide Runs, Run, InRange, AssignedOnce, Near;
    assert InStep(c, b, false);
    PassesAgree(c, b, ops, false);
    RunBasics(b, ops);
  }

  /** A label names the place where it is assigned, before and behind it. */
  lemma LabelIsPlace(a: Arm, ops: seq<Op>, memory: seq<Byte>, j: nat)
    requires WellFormed(ops, |a.base.labels|) && ProgramSize(a, ops) < REACH && |memory| == ProgramSize(a, ops)
    requires j < |ops| && ops[j].Label?
    ensures var b := Writing(a, ops, memory);
            && Runs(b, ops) && ops[j].l < |b.base.labels|
            && b.base.labels[ops[j].l] == Before(b, ops, j).base.offset <= |memory|
  {
    TwoPasses(a, ops, memory);
    BeforeBasics(Writing(a, ops, memory), ops, j);
    hide Runs, Run, WellFormed, Writing, ProgramSize, Before;
  }

  /** One word at `from` sends the processor to `to`, provided that both are equally aligned. */
  ghost predicate Lands(code: seq<Byte>, cond: Word, from: nat, to: nat) {
    var w := OpBranch(cond, BranchOffset(from, to));
    && from + 4 <= |code| && code[from..from + 4] == WordBytes(w)
    && (BranchTarget(w, from) == to <==> (to - from) % 4 == 0)
  }

  lemma BranchInPlaceLands(b: Arm, op: Op, code: seq<Byte>, to: nat)
    requires op.BccLabel? && IsCondition(op.cond) && BytesInPlace(b, op, code) && b.base.labels[op.l] == to
    requires |code| < REACH && to <= |code| && b.base.offset < |code|
    ensures Lands(code, op.cond, b.base.offset, to)
  {
    var from := b.base.offset;
    ShortDistances(from, to);
    BranchBytes(b, op, to);
    BranchLands(op.cond, from, to);
    hide OpBranch, BranchOffset, BranchTarget, WordBytes, Allowed;
  }

  lemma BranchTakesRoom(b: Arm, op: Op, size: nat)
    requires op.BccLabel? && Allowed(b, op) && b.base.labels[op.l] < REACH && b.base.offset < REACH
    requires Apply(b, op).base.offset <= size
    ensures b.base.offset < size
  {
    ShortDistances(b.base.offset, b.base.labels[op.l]);
    BranchBytes(b, op, b.base.labels[op.l]);
    hide OpBranch, BranchOffset, WordBytes;
  }

  /** Every branch of a program, forward or backward, is one word in the buffer, and the processor goes
      from it to the place where its label is assigned if and only if both are equally aligned. */
  lemma BranchesLand(a: Arm, ops: seq<Op>, memory: seq<Byte>, i: nat, j: nat)
    requires WellFormed(ops, |a.base.labels|) && ProgramSize(a, ops) < REACH && |memory| == ProgramSize(a, ops)
    requires i < |ops| && j < |ops| && ops[i].BccLabel? && ops[j] == Label(ops[i].l) && IsCondition(ops[i].cond)
    ensures Runs(Writing(a, ops, memory), ops)
    ensures Lands(Run(Writing(a, ops, memory), ops).base.code, ops[i].cond,
                  Before(Writing(a, ops, memory), ops, i).base.offset, Before(Writing(a, ops, memory), ops, j).base.offset)
  {
    hide Runs, Run, WellFormed, Writing, ProgramSize, Before, Apply, Allowed, Lands, BytesInPlace, OpBytes;
    TwoPasses(a, ops, memory);
    LabelIsPlace(a, ops, memory, j);
    var b := Writing(a, ops, memory);
    WritingEmits(a, ops, memory);
    EveryOpInPlace(b, ops, i);
    BeforeBasics(b, ops, i);
    OffsetGrows(Before(b, ops, i), ops[i]);
    BranchTakesRoom(Before(b, ops, i), ops[i], |memory|);
    BranchInPlaceLands(Before(b, ops, i), ops[i], Run(b, ops).base.code, Before(b, ops, j).base.offset);
  }

  lemma OffsetGrows(b: Arm, op: Op)
    requires Allowed(b, op)
    ensures b.base.offset <= Apply(b, op).base.offset
  {
    ApplyBasics(b, op);
    hide Apply, Allowed;
  }

  lemma WritingEmits(a: Arm, ops: seq<Op>, memory: seq<Byte>)
    requires WellFormed(ops, |a.base.labels|)
    ensures Writing(a, ops, memory).base.pass == EMIT
  {
    hide WellFormed, Runs, Run;
  }

  lemma BranchBytes(b: Arm, op: Op, dest: nat)
    requires op.BccLabel? && Defined(b.base, op) && b.base.labels[op.l] == dest
    requires SignedFit24(BranchOffset(b.base.offset, dest))
    ensures OpBytes(b, op) == WordBytes(OpBranch(op.cond, BranchOffset(b.base.offset, dest)))
  {
    hide OpBranch, BranchOffset, SignedFit24, WordBytes;
    BytesJoin(OpBranch(op.cond, BranchOffset(b.base.offset, dest)), []);
  }

  // ----- which branches land, from the text of a program

  lemma SmallPowers(n: nat)
    requires PowerOfTwo(n)
    ensures n == 1 || n == 2 || n % 4 == 0
  {
    if n > 2 {
      assert PowerOfTwo(n / 2) && n / 2 % 2 == 0;
    }
  }

  lemma MultipleOfFour(x: nat, k: nat)
    requires k % 4 == 0
    ensures x * k % 4 == 0
  {
    assert x * k == 4 * (x * (k / 4));
  }

  /** What an operation makes of the offset modulo four: only data disturbs it, and only alignments mend it. */
  function ResidueAfter(op: Op, r: nat): (s: nat)
    requires r < 4
    ensures s < 4
  {
    match op
    case Data(size, _) => (r + size) % 4
    case Align(to) => if to == 1 then r else if to == 2 then (r + r % 2) % 4 else 0
    case _ => r
  }

  /** The offset of operation `i` modulo four, when the program begins at an offset of `r` modulo four. */
  function Residue(ops: seq<Op>, r: nat, i: nat): (s: nat)
    requires r < 4 && i <= |ops|
    ensures s < 4
    decreases i
  {
    if i == 0 then r else Residue(ops[1..], ResidueAfter(ops[0], r), i - 1)
  }

  lemma AlignResidue(n: nat, align: nat)
    requires PowerOfTwo(align)
    ensures AlignUp(n, align) % 4 == ResidueAfter(Align(align), n % 4)
  {
    SmallPowers(align);
    hide PowerOfTwo;
    if align == 2 {
      EvenResidue(n);
    } else if align > 2 {
      MultipleOfFour((n + align - 1) / align, align);
    }
  }

  lemma EvenResidue(n: nat)
    ensures AlignUp(n, 2) % 4 == (n % 4 + n % 2) % 4
  {
    assert (n + 1) / 2 * 2 == n + n % 2;
  }

  lemma BytesAreWords(a: Arm, op: Op)
    requires Defined(a.base, op)
    ensures |OpBytes(a, op)| == (if op.Data? then op.size else 4 * |Words(a, op)|)
  {
    hide Words, DataBytes, BytesOf;
  }

  lemma ApplyResidue(a: Arm, op: Op)
    requires Allowed(a, op)
    ensures Apply(a, op).base.offset % 4 == ResidueAfter(op, a.base.offset % 4)
  {
    ApplyBasics(a, op);
    if op.Align? {
      AlignResidue(a.base.offset, op.to);
    } else if !op.Label? {
      BytesAreWords(a, op);
      hide Allowed, Apply, OpBytes;
    }
    hide AlignUp, OpBytes;
  }

  /** In every run of a program the offsets modulo four are those that can be read off its text. */
  lemma {:induction false} ResidueIsOffset(a: Arm, ops: seq<Op>, i: nat)
    requires Runs(a, ops) && i <= |ops|
    ensures Before(a, ops, i).base.offset % 4 == Residue(ops, a.base.offset % 4, i)
    decreases |ops|
  {
    if i > 0 {
      ApplyResidue(a, ops[0]);
      hide Apply, Allowed, ResidueAfter;
      ResidueIsOffset(Apply(a, ops[0]), ops[1..], i - 1);
    }
  }

  lemma WritingStartsAtZero(a: Arm, ops: seq<Op>, memory: seq<Byte>)
    requires WellFormed(ops, |a.base.labels|)
    ensures Writing(a, ops, memory).base.offset == 0
  {
    hide WellFormed, Runs, Run;
  }

  /** The word at `from` sends the processor to `to`. */
  ghost predicate GoesTo(code: seq<Byte>, cond: Word, from: nat, to: nat) {
    var w := OpBranch(cond, BranchOffset(from, to));
    from + 4 <= |code| && code[from..from + 4] == WordBytes(w) && BranchTarget(w, from) == to
  }

  lemma LandsOrMisses(code: seq<Byte>, cond: Word, from: nat, to: nat)
    requires Lands(code, cond, from, to)
    ensures GoesTo(code, cond, from, to) <==> (to - from) % 4 == 0
  {
    hide OpBranch, BranchOffset, BranchTarget, WordBytes;
  }

  /** For every program below the reach of a branch, exactly those branches go to their labels whose offset
      and whose label's offset agree modulo four, as counted from the text. */
  lemma BranchesLandIff(a: Arm, ops: seq<Op>, memory: seq<Byte>, i: nat, j: nat)
    requires WellFormed(ops, |a.base.labels|) && ProgramSize(a, ops) < REACH && |memory| == ProgramSize(a, ops)
    requires i < |ops| && j < |ops| && ops[i].BccLabel? && ops[j] == Label(ops[i].l) && IsCondition(ops[i].cond)
    ensures Runs(Writing(a, ops, memory), ops)
    ensures GoesTo(Run(Writing(a, ops, memory), ops).base.code, ops[i].cond,
                   Before(Writing(a, ops, memory), ops, i).base.offset, Before(Writing(a, ops, memory), ops, j).base.offset)
            <==> Residue(ops, 0, i) == Residue(ops, 0, j)
  {
    hide Runs, Run, WellFormed, Writing, ProgramSize, Before, Apply, Allowed, Lands, GoesTo, Residue;
    BranchesLand(a, ops, memory, i, j);
    var b := Writing(a, ops, memory);
    WritingStartsAtZero(a, ops, memory);
    ResidueIsOffset(b, ops, i);
    ResidueIsOffset(b, ops, j);
    LandsOrMisses(Run(b, ops).base.code, ops[i].cond, Before(b, ops, i).base.offset, Before(b, ops, j).base.offset);
  }

  // ----- programs of whole words

  /** Data comes in whole words; everything else does anyway. */
  predicate WordSized(ops: seq<Op>) {
    forall op :: op in ops && op.Data? ==> op.size % 4 == 0
  }

  lemma {:induction false} WordsLeaveNoResidue(ops: seq<Op>, i: nat)
    requires WordSized(ops) && i <= |ops|
    ensures Residue(ops, 0, i) == 0
    decreases i
  {
    if i > 0 {
      assert ops[0] in ops && ResidueAfter(ops[0], 0) == 0;
      WordsLeaveNoResidue(ops[1..], i - 1);
    }
  }

  /** Every operation of such a program is performed at a multiple of four, whatever is aligned in between. */
  lemma OffsetsAreWords(a: Arm, ops: seq<Op>, i: nat)
    requires Runs(a, ops) && i <= |ops| && a.base.offset % 4 == 0 && WordSized(ops)
    ensures Before(a, ops, i).base.offset % 4 == 0
  {
    ResidueIsOffset(a, ops, i);
    WordsLeaveNoResidue(ops, i);
    hide *;
  }

  /** In a program whose data comes in whole words every branch goes to its label. */
  lemma WordSizedBranchesLand(a: Arm, ops: seq<Op>, memory: seq<Byte>, i: nat, j: nat)
    requires WellFormed(ops, |a.base.labels|) && ProgramSize(a, ops) < REACH && |memory| == ProgramSize(a, ops)
    requires WordSized(ops)
    requires i < |ops| && j < |ops| && ops[i].BccLabel? && ops[j] == Label(ops[i].l) && IsCondition(ops[i].cond)
    ensures Runs(Writing(a, ops, memory), ops)
    ensures GoesTo(Run(Writing(a, ops, memory), ops).base.code, ops[i].cond,
                   Before(Writing(a, ops, memory), ops, i).base.offset, Before(Writing(a, ops, memory), ops, j).base.offset)
  {
    hide Runs, Run, WellFormed, Writing, ProgramSize, Before, Apply, Allowed, Lands, GoesTo, WordSized, Residue;
    BranchesLandIff(a, ops, memory, i, j);
    WordsLeaveNoResidue(ops, i);
    WordsLeaveNoResidue(ops, j);
  }

  /** A branch over data of any size, with no alignment after it. */
  function SkipData(cond: Word, l: nat, size: nat, val: Word): seq<Op> {
    [BccLabel(cond, l), Data(size, val), Label(l)]
  }

  lemma SkipDataOffsets(c: Arm, ops: seq<Op>, cond: Word, l: nat, size: nat, val: Word)
    requires ops == SkipData(cond, l, size, val) && Runs(c, ops) && c.base.offset == 0
    requires l < |c.base.labels| && Near(c.base.labels[l])
    ensures Before(c, ops, 0).base.offset == 0
    ensures Before(c, ops, 2).base.offset == size + 4 == Run(c, ops).base.offset
  {
    ShortDistances(0, c.base.labels[l]);
    BranchBytes(c, ops[0], c.base.labels[l]);
    hide OpBranch, BranchOffset, SignedFit24, WordBytes, DataBytes, BytesOf, Near;
    var d := Apply(c, ops[0]);
    assert d.base.offset == 4;
    var e := Apply(d, ops[1]);
    assert ops[1..][0] == ops[1] && ops[1..][1..] == [ops[2]];
    assert e.base.offset == size + 4;
    assert Before(d, ops[1..], 1) == Before(e, [ops[2]], 0) == e;
    assert Runs(e, [ops[2]]) && Run(d, ops[1..]) == Run(e, [ops[2]]);
    assert Run(e, [ops[2]]) == Run(Apply(e, ops[2]), []);
  }

  lemma SkipDataWellFormed(cond: Word, l: nat, size: nat, val: Word, labels: nat)
    requires l < labels
    ensures WellFormed(SkipData(cond, l, size, val), labels)
  {
    var ops := SkipData(cond, l, size, val);
    assert ops[1..] == [ops[1], ops[2]] && ops[1..][1..] == [ops[2]] && [ops[2]][1..] == [];
    assert EnteredFirst([], false);
    assert EnteredFirst([ops[2]], false);
    assert EnteredFirst(ops[1..], false);
  }

  lemma SkipDataCounted(a: Arm, cond: Word, l: nat, size: nat, val: Word)
    requires l < |a.base.labels|
    ensures WellFormed(SkipData(cond, l, size, val), |a.base.labels|)
    ensures ProgramSize(a, SkipData(cond, l, size, val)) == size + 4
  {
    var ops := SkipData(cond, l, size, val);
    SkipDataWellFormed(cond, l, size, val, |a.base.labels|);
    CountingRuns(a, ops);
    hide WellFormed, Runs, Run, Before, SkipData;
    SkipDataOffsets(Counting(a), ops, cond, l, size, val);
  }

  lemma SkipDataWritten(a: Arm, ops: seq<Op>, cond: Word, l: nat, size: nat, val: Word, memory: seq<Byte>)
    requires l < |a.base.labels| && size + 4 < REACH && |memory| == size + 4 && ops == SkipData(cond, l, size, val)
    requires WellFormed(ops, |a.base.labels|) && ProgramSize(a, ops) == size + 4
    ensures var b := Writing(a, ops, memory);
            Runs(b, ops) && Before(b, ops, 0).base.offset == 0 && Before(b, ops, 2).base.offset == size + 4
  {
    assert ops[2] == Label(l);
    hide WellFormed, Runs, Run, Before, Writing, ProgramSize, SkipData;
    LabelIsPlace(a, ops, memory, 2);
    WritingStartsAtZero(a, ops, memory);
    SkipDataOffsets(Writing(a, ops, memory), ops, cond, l, size, val);
  }

  lemma SkipDataResidues(cond: Word, l: nat, size: nat, val: Word)
    ensures Residue(SkipData(cond, l, size, val), 0, 0) == 0 && Residue(SkipData(cond, l, size, val), 0, 2) == size % 4
  {
    var ops := SkipData(cond, l, size, val);
    assert Residue(ops, 0, 2) == Residue(ops[1..], 0, 1) == Residue(ops[1..][1..], ResidueAfter(Data(size, val), 0), 0);
  }

  /** Without an alignment behind it, data decides whether the branch over it arrives: exactly when its size
      is a multiple of four. One byte is enough to miss. */
  lemma BranchOverData(a: Arm, cond: Word, l: nat, size: nat, val: Word, memory: seq<Byte>)
    requires l < |a.base.labels| && IsCondition(cond) && size + 4 < REACH && |memory| == size + 4
    ensures WellFormed(SkipData(cond, l, size, val), |a.base.labels|)
    ensures var ops := SkipData(cond, l, size, val);
            var b := Writing(a, ops, memory);
            && Runs(b, ops)
            && Before(b, ops, 0).base.offset == 0 && Before(b, ops, 2).base.offset == size + 4
            && (GoesTo(Run(b, ops).base.code, cond, 0, size + 4) <==> size % 4 == 0)
  {
    var ops := SkipData(cond, l, size, val);
    assert ops[0] == BccLabel(cond, l) && ops[2] == Label(l);
    hide Runs, Run, WellFormed, Writing, ProgramSize, Before, GoesTo, Residue, SkipData, IsCondition;
    SkipDataCounted(a, cond, l, size, val);
    SkipDataWritten(a, ops, cond, l, size, val, memory);
    SkipDataResidues(cond, l, size, val);
    BranchesLandIff(a, ops, memory, 0, 2);
  }

  // ----- the passes performed

  method RunPass(arm: ArmAssembler, ops: seq<Op>)
    requires arm.Valid() && Runs(arm.Current(), ops)
    modifies arm.Repr()
    ensures arm.Valid() && arm.base.code == old(arm.base.code)
    ensures arm.Current() == Run(old(arm.Current()), ops)
  {
    var i := 0;
    while i < |ops|
      invariant i <= |ops| && arm.Valid() && arm.base.code == old(arm.base.code)
      invariant Runs(arm.Current(), ops[i..]) && Run(arm.Current(), ops[i..]) == Run(old(arm.Current()), ops)
    {
      hide Apply, Allowed;
      assert ops[i..][0] == ops[i] && ops[i..][1..] == ops[i + 1..];
      arm.Perform(ops[i]);
      i := i + 1;
    }
  }

  /** The same calls made in a counting pass and then in a writing pass, as the emitters do. */
  method Assemble(arm: ArmAssembler, ops: seq<Op>) returns (ghost memory: seq<Byte>)
    requires arm.Valid() && WellFormed(ops, |arm.Current().base.labels|) && ProgramSize(arm.Current(), ops) < REACH
    modifies arm.Repr()
    ensures |memory| == ProgramSize(old(arm.Current()), ops)
    ensures arm.Valid() && Runs(Writing(old(arm.Current()), ops, memory), ops)
    ensures arm.Current() == Run(Writing(old(arm.Current()), ops, memory), ops)
  {
    hide WellFormed, Runs, Run;
    ghost var a := arm.Current();
    CountingRuns(a, ops);
    arm.base.StartPass(COMPUTE);
    RunPass(arm, ops);
    arm.base.StartPass(EMIT);
    memory := arm.base.code[..];
    TwoPasses(a, ops, memory);
    RunPass(arm, ops);
  }
}
