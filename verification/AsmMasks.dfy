/** The masks, ors and exclusive ors of the assembler's sources are the arithmetic of its model. */
module AsmMasks {
  import opened Bits
  import opened AsmBase
  import opened AsmArm

  // ----- alignment

  lemma {:induction false} PowerIsPow2(n: nat) returns (k: nat)
    requires PowerOfTwo(n)
    ensures n == Pow2(k)
    decreases n
  {
    if n == 1 {
      k := 0;
    } else {
      var l := PowerIsPow2(n / 2);
      k := l + 1;
    }
  }

  lemma ExponentInWord(k: nat)
    requires Pow2(k) <= Pow2(32)
    ensures k <= 32
  {
    Doubled(32);
    hide Pow2;
    if k > 32 {
      Pow2Grows(33, k);
    }
  }

  lemma Doubled(n: nat)
    ensures Pow2(n + 1) == 2 * Pow2(n)
  {
  }

  /** Adding align - 1 and clearing the bits of align - 1, in words of 32 bits. */
  lemma AlignIsMasked(n: nat, align: nat)
    requires PowerOfTwo(align) && n + align - 1 < MODULUS
    ensures BitAnd(n + align - 1, BitNot(align - 1, 32)) == AlignUp(n, align)
  {
    var k := PowerIsPow2(align);
    Powers();
    hide Pow2, BitAnd, BitNot, PowerOfTwo;
    ExponentInWord(k);
    NotSubtracts(align - 1, 32);
    AndHighBits(n + align - 1, k, 32);
    RoundedIsQuotient(n + align - 1, align);
  }

  lemma RoundedIsQuotient(x: nat, p: nat)
    requires p > 0
    ensures RoundedDown(x, p) == x / p * p
  {
    assert x == p * (x / p) + x % p;
  }

  /** So the source's expression is the first multiple of the alignment that is not before the offset. */
  lemma MaskedIsNext(n: nat, align: nat, k: nat)
    requires PowerOfTwo(align) && n + align - 1 < MODULUS
    ensures var r := BitAnd(n + align - 1, BitNot(align - 1, 32));
            r % align == 0 && n <= r < n + align && (k * align >= n ==> k * align >= r)
  {
    AlignIsMasked(n, align);
    AlignUpIsNext(n, align, k);
    hide BitAnd, BitNot, PowerOfTwo;
    MultipleHasNoRemainder((n + align - 1) / align, align);
  }

  lemma MultipleHasNoRemainder(q: nat, d: nat)
    requires d > 0
    ensures q * d % d == 0
  {
    DivModUnique(q * d, d, q, 0);
  }

  // ----- the range test

  /** The masks of SIGNED_FIT24, on a word. */
  predicate FitsByMasks(x: Word) {
    BitAnd(x, 0xFF80_0000) == 0 || BitAnd(x, 0xFF00_0000) == 0xFF00_0000
  }

  lemma RoundedToNothing(x: nat, p: nat)
    requires p > 0
    ensures RoundedDown(x, p) == 0 <==> x < p
  {
  }

  lemma RangeTestIsMasked(rel: int)
    requires -0x8000_0000 <= rel < 0x8000_0000
    ensures SignedFit24(rel) <==> FitsByMasks(Wrap(rel))
  {
    var x := Wrap(rel);
    assert x == if rel >= 0 then rel else rel + MODULUS;
    Powers();
    AndHighBits(x, 23, 32);
    AndHighBits(x, 24, 32);
    hide Pow2, BitAnd, Wrap;
    RoundedToNothing(x, 0x80_0000);
    assert RoundedDown(x, 0x100_0000) == 0xFF00_0000 <==> 0xFF00_0000 <= x < MODULUS;
  }

  // ----- conditions

  lemma OppositeFlips(cond: Word)
    ensures Opposite(cond) == BitXor(cond, 0x1000_0000)
  {
    Powers();
    XorOneBit(cond, 28);
    hide Pow2, BitXor;
  }

  /** Every instruction gets its condition by or-ing it in. */
  lemma ConditionsJoin(op: Word, c: Word)
    requires op < 0x1000_0000
    ensures BitOr(op, c * 0x1000_0000) == op + c * 0x1000_0000
  {
    Powers();
    OrIntoFreeBits(op, c, 28);
    hide *;
  }

  lemma BranchesJoin(c: Word, rel: int)
    ensures BitOr(BitOr(c * 0x1000_0000, 0xa00_0000), BitAnd(Wrap(rel), 0xFF_FFFF)) == OpBranch(c * 0x1000_0000, rel)
  {
    var (cond, low) := (c * 0x1000_0000, rel % 0x100_0000);
    assert OpBranch(cond, rel) == cond + 0xa00_0000 + low;
    hide *;
    LowMasks(Wrap(rel));
    WrapKeepsLow(rel);
    BranchFieldFree(c);
    Below28(cond, 0xa00_0000);
    Below24(cond + 0xa00_0000, low);
  }

  lemma BranchFieldFree(c: Word)
    ensures c * 0x1000_0000 % 0x1000_0000 == 0 && (c * 0x1000_0000 + 0xa00_0000) % 0x100_0000 == 0
  {
    hide *;
    MultipleHasNoRemainder(c, 0x1000_0000);
    MultipleHasNoRemainder(0x10 * c + 0xa, 0x100_0000);
    assert c * 0x1000_0000 + 0xa00_0000 == (0x10 * c + 0xa) * 0x100_0000;
  }

  lemma LowMasks(x: nat)
    ensures BitAnd(x, 0xFF) == x % 0x100 && BitAnd(x, 0xFFFF) == x % 0x1_0000 && BitAnd(x, 0xFF_FFFF) == x % 0x100_0000
  {
    Powers();
    AndLowBits(x, 8);
    AndLowBits(x, 16);
    AndLowBits(x, 24);
    hide *;
  }

  lemma Below28(x: nat, y: nat)
    requires x % 0x1000_0000 == 0 && y < 0x1000_0000
    ensures BitOr(x, y) == x + y
  {
    Powers();
    hide *;
    OrBelow(x, y, 28);
  }

  lemma Below24(x: nat, y: nat)
    requires x % 0x100_0000 == 0 && y < 0x100_0000
    ensures BitOr(x, y) == x + y
  {
    Powers();
    hide *;
    OrBelow(x, y, 24);
  }

  lemma WrapKeepsLow(x: int)
    ensures Wrap(x) % 0x100_0000 == x % 0x100_0000
  {
    var (q, w) := (x / MODULUS, Wrap(x));
    var (h, r) := (w / 0x100_0000, w % 0x100_0000);
    assert x == 0x100_0000 * (0x100 * q + h) + r;
  }

  // ----- fields

  lemma BitsBelowFree(op: Word, r: Word)
    ensures op % 0x1_0000 == 0 ==> (op + 0x1000 * r) % 0x1000 == 0
    ensures op % 0x10_0000 == 0 ==> (op + 0x1_0000 * r) % 0x1_0000 == 0
  {
    if op % 0x1_0000 == 0 {
      var k := op / 0x1_0000;
      assert op + 0x1000 * r == 0x1000 * (16 * k + r);
    }
    if op % 0x10_0000 == 0 {
      var k := op / 0x10_0000;
      assert op + 0x1_0000 * r == 0x1_0000 * (16 * k + r);
    }
  }

  lemma Below20(x: nat, y: nat)
    requires x % 0x10_0000 == 0 && y < 0x10_0000
    ensures BitOr(x, y) == x + y
  {
    Powers();
    hide *;
    OrBelow(x, y, 20);
  }

  lemma Below16(x: nat, y: nat)
    requires x % 0x1_0000 == 0 && y < 0x1_0000
    ensures BitOr(x, y) == x + y
  {
    Powers();
    hide *;
    OrBelow(x, y, 16);
  }

  lemma Below12(x: nat, y: nat)
    requires x % 0x1000 == 0 && y < 0x1000
    ensures BitOr(x, y) == x + y
  {
    Powers();
    hide *;
    OrBelow(x, y, 12);
  }

  /** Two registers and an operand put into their fields. */
  lemma FieldsJoin(op: Word, rn: Word, rd: Word, operand: Word)
    requires op % 0x10_0000 == 0 && rn < 16 && rd < 16 && operand < 0x1000
    ensures BitOr(BitOr(BitOr(op, 0x1_0000 * rn), 0x1000 * rd), operand) == op + 0x1_0000 * rn + 0x1000 * rd + operand
  {
    hide *;
    BitsBelowFree(op, rn);
    BitsBelowFree(op + 0x1_0000 * rn, rd);
    Below20(op, 0x1_0000 * rn);
    Below16(op + 0x1_0000 * rn, 0x1000 * rd);
    Below12(op + 0x1_0000 * rn + 0x1000 * rd, operand);
  }

  /** One register and an operand. */
  lemma LowFieldsJoin(op: Word, rd: Word, operand: Word)
    requires op % 0x1_0000 == 0 && rd < 16 && operand < 0x1000
    ensures BitOr(BitOr(op, 0x1000 * rd), operand) == op + 0x1000 * rd + operand
  {
    hide *;
    BitsBelowFree(op, rd);
    Below16(op, 0x1000 * rd);
    Below12(op + 0x1000 * rd, operand);
  }

  lemma HighFieldsJoin(op: Word, rd: Word, operand: Word)
    requires op % 0x10_0000 == 0 && rd < 16 && operand < 0x1_0000
    ensures BitOr(BitOr(op, 0x1_0000 * rd), operand) == op + 0x1_0000 * rd + operand
  {
    hide *;
    BitsBelowFree(op, rd);
    Below20(op, 0x1_0000 * rd);
    Below16(op + 0x1_0000 * rd, operand);
  }

  /** The encoders with two or three registers. */
  lemma RegisterEncodersAreOrs(rd: Word, rn: Word, rm: Word)
    requires rd < 16 && rn < 16 && rm < 16
    ensures OpMovReg(rd, rm) == BitOr(BitOr(0x1a0_0000, 0x1000 * rd), rm)
    ensures OpAddReg(rd, rn, rm) == BitOr(BitOr(BitOr(0x080_0000, 0x1_0000 * rn), 0x1000 * rd), rm)
    ensures OpSubReg(rd, rn, rm) == BitOr(BitOr(BitOr(0x040_0000, 0x1_0000 * rn), 0x1000 * rd), rm)
    ensures OpCmpReg(rd, rm) == BitOr(BitOr(0x150_0000, 0x1_0000 * rd), rm)
  {
    hide BitOr;
    LowFieldsJoin(0x1a0_0000, rd, rm);
    FieldsJoin(0x080_0000, rn, rd, rm);
    FieldsJoin(0x040_0000, rn, rd, rm);
    HighFieldsJoin(0x150_0000, rd, rm);
  }

  /** The encoders with an immediate operand. */
  lemma ImmediateEncodersAreOrs(rd: Word, rn: Word, imm: Word)
    requires rd < 16 && rn < 16
    ensures OpAddImm(rd, rn, imm) == BitOr(BitOr(BitOr(0x280_0000, 0x1_0000 * rn), 0x1000 * rd), BitAnd(imm, 0xFF))
    ensures OpSubImm(rd, rn, imm) == BitOr(BitOr(BitOr(0x240_0000, 0x1_0000 * rn), 0x1000 * rd), BitAnd(imm, 0xFF))
    ensures OpCmpImm(rd, imm) == BitOr(BitOr(0x350_0000, 0x1_0000 * rd), BitAnd(imm, 0xFF))
    ensures imm < 0x100 ==> OpMovImm(rd, imm) == BitOr(BitOr(0x3a0_0000, 0x1000 * rd), imm)
    ensures imm < 0x100 ==> OpMvnImm(rd, imm) == BitOr(BitOr(0x3e0_0000, 0x1000 * rd), imm)
  {
    hide BitOr, BitAnd;
    LowMasks(imm);
    FieldsJoin(0x280_0000, rn, rd, imm % 0x100);
    FieldsJoin(0x240_0000, rn, rd, imm % 0x100);
    HighFieldsJoin(0x350_0000, rd, imm % 0x100);
    LowFieldsJoin(0x3a0_0000, rd, imm % 0x100);
    LowFieldsJoin(0x3e0_0000, rd, imm % 0x100);
  }

  /** The encoders of loads and stores of locals and of register lists. */
  lemma MemoryEncodersAreOrs(rd: Word, local: Word, reglist: Word)
    requires rd < 16 && local < 0x400
    ensures OpLdrPc(rd) == BitOr(0x59f_0000, 0x1000 * rd)
    ensures OpLdrSp(rd, local) == BitOr(BitOr(0x59d_0000, 0x1000 * rd), 4 * local)
    ensures OpStrSp(rd, local) == BitOr(BitOr(0x58d_0000, 0x1000 * rd), 4 * local)
    ensures OpPush(reglist) == BitOr(0x92d_0000, BitAnd(reglist, 0xFFFF))
    ensures OpPop(reglist) == BitOr(0x8bd_0000, BitAnd(reglist, 0xFFFF))
  {
    hide BitOr, BitAnd;
    LowMasks(reglist);
    Below16(0x59f_0000, 0x1000 * rd);
    LowFieldsJoin(0x59d_0000, rd, 4 * local);
    LowFieldsJoin(0x58d_0000, rd, 4 * local);
    Below16(0x92d_0000, reglist % 0x1_0000);
    Below16(0x8bd_0000, reglist % 0x1_0000);
  }
}
