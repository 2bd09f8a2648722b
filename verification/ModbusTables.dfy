/** The two 256-entry lookup tables, written as sixteen rows of sixteen entries, and the proof that
    together they hold eight shifts of every byte. By linearity it is enough to compare row 0 and
    column 0 with the shift register and every other row with row 0. */
module ModbusTables {
  import opened Crc16

  const HI_0: seq<bv8> := [0x00, 0xC1, 0x81, 0x40, 0x01, 0xC0, 0x80, 0x41, 0x01, 0xC0, 0x80, 0x41, 0x00, 0xC1, 0x81, 0x40]
  const HI_1: seq<bv8> := [0x01, 0xC0, 0x80, 0x41, 0x00, 0xC1, 0x81, 0x40, 0x00, 0xC1, 0x81, 0x40, 0x01, 0xC0, 0x80, 0x41]
  const HI_2: seq<bv8> := [0x01, 0xC0, 0x80, 0x41, 0x00, 0xC1, 0x81, 0x40, 0x00, 0xC1, 0x81, 0x40, 0x01, 0xC0, 0x80, 0x41]
  const HI_3: seq<bv8> := [0x00, 0xC1, 0x81, 0x40, 0x01, 0xC0, 0x80, 0x41, 0x01, 0xC0, 0x80, 0x41, 0x00, 0xC1, 0x81, 0x40]
  const HI_4: seq<bv8> := [0x01, 0xC0, 0x80, 0x41, 0x00, 0xC1, 0x81, 0x40, 0x00, 0xC1, 0x81, 0x40, 0x01, 0xC0, 0x80, 0x41]
  const HI_5: seq<bv8> := [0x00, 0xC1, 0x81, 0x40, 0x01, 0xC0, 0x80, 0x41, 0x01, 0xC0, 0x80, 0x41, 0x00, 0xC1, 0x81, 0x40]
  const HI_6: seq<bv8> := [0x00, 0xC1, 0x81, 0x40, 0x01, 0xC0, 0x80, 0x41, 0x01, 0xC0, 0x80, 0x41, 0x00, 0xC1, 0x81, 0x40]
  const HI_7: seq<bv8> := [0x01, 0xC0, 0x80, 0x41, 0x00, 0xC1, 0x81, 0x40, 0x00, 0xC1, 0x81, 0x40, 0x01, 0xC0, 0x80, 0x41]
  const HI_8: seq<bv8> := [0x01, 0xC0, 0x80, 0x41, 0x00, 0xC1, 0x81, 0x40, 0x00, 0xC1, 0x81, 0x40, 0x01, 0xC0, 0x80, 0x41]
  const HI_9: seq<bv8> := [0x00, 0xC1, 0x81, 0x40, 0x01, 0xC0, 0x80, 0x41, 0x01, 0xC0, 0x80, 0x41, 0x00, 0xC1, 0x81, 0x40]
  const HI_A: seq<bv8> := [0x00, 0xC1, 0x81, 0x40, 0x01, 0xC0, 0x80, 0x41, 0x01, 0xC0, 0x80, 0x41, 0x00, 0xC1, 0x81, 0x40]
  const HI_B: seq<bv8> := [0x01, 0xC0, 0x80, 0x41, 0x00, 0xC1, 0x81, 0x40, 0x00, 0xC1, 0x81, 0x40, 0x01, 0xC0, 0x80, 0x41]
  const HI_C: seq<bv8> := [0x00, 0xC1, 0x81, 0x40, 0x01, 0xC0, 0x80, 0x41, 0x01, 0xC0, 0x80, 0x41, 0x00, 0xC1, 0x81, 0x40]
  const HI_D: seq<bv8> := [0x01, 0xC0, 0x80, 0x41, 0x00, 0xC1, 0x81, 0x40, 0x00, 0xC1, 0x81, 0x40, 0x01, 0xC0, 0x80, 0x41]
  const HI_E: seq<bv8> := [0x01, 0xC0, 0x80, 0x41, 0x00, 0xC1, 0x81, 0x40, 0x00, 0xC1, 0x81, 0x40, 0x01, 0xC0, 0x80, 0x41]
  const HI_F: seq<bv8> := [0x00, 0xC1, 0x81, 0x40, 0x01, 0xC0, 0x80, 0x41, 0x01, 0xC0, 0x80, 0x41, 0x00, 0xC1, 0x81, 0x40]

  const ROWS_HI: seq<seq<bv8>> :=
    [HI_0, HI_1, HI_2, HI_3, HI_4, HI_5, HI_6, HI_7,
     HI_8, HI_9, HI_A, HI_B, HI_C, HI_D, HI_E, HI_F]

  /** Feeds the next crc_hi; indexed by the old crc_hi exclusive-ored with the message byte. */
  const TABLE_CRC_HI: seq<bv8> := Flatten(ROWS_HI)

  const LO_0: seq<bv8> := [0x00, 0xC0, 0xC1, 0x01, 0xC3, 0x03, 0x02, 0xC2, 0xC6, 0x06, 0x07, 0xC7, 0x05, 0xC5, 0xC4, 0x04]
  const LO_1: seq<bv8> := [0xCC, 0x0C, 0x0D, 0xCD, 0x0F, 0xCF, 0xCE, 0x0E, 0x0A, 0xCA, 0xCB, 0x0B, 0xC9, 0x09, 0x08, 0xC8]
  const LO_2: seq<bv8> := [0xD8, 0x18, 0x19, 0xD9, 0x1B, 0xDB, 0xDA, 0x1A, 0x1E, 0xDE, 0xDF, 0x1F, 0xDD, 0x1D, 0x1C, 0xDC]
  const LO_3: seq<bv8> := [0x14, 0xD4, 0xD5, 0x15, 0xD7, 0x17, 0x16, 0xD6, 0xD2, 0x12, 0x13, 0xD3, 0x11, 0xD1, 0xD0, 0x10]
  const LO_4: seq<bv8> := [0xF0, 0x30, 0x31, 0xF1, 0x33, 0xF3, 0xF2, 0x32, 0x36, 0xF6, 0xF7, 0x37, 0xF5, 0x35, 0x34, 0xF4]
  const LO_5: seq<bv8> := [0x3C, 0xFC, 0xFD, 0x3D, 0xFF, 0x3F, 0x3E, 0xFE, 0xFA, 0x3A, 0x3B, 0xFB, 0x39, 0xF9, 0xF8, 0x38]
  const LO_6: seq<bv8> := [0x28, 0xE8, 0xE9, 0x29, 0xEB, 0x2B, 0x2A, 0xEA, 0xEE, 0x2E, 0x2F, 0xEF, 0x2D, 0xED, 0xEC, 0x2C]
  const LO_7: seq<bv8> := [0xE4, 0x24, 0x25, 0xE5, 0x27, 0xE7, 0xE6, 0x26, 0x22, 0xE2, 0xE3, 0x23, 0xE1, 0x21, 0x20, 0xE0]
  const LO_8: seq<bv8> := [0xA0, 0x60, 0x61, 0xA1, 0x63, 0xA3, 0xA2, 0x62, 0x66, 0xA6, 0xA7, 0x67, 0xA5, 0x65, 0x64, 0xA4]
  const LO_9: seq<bv8> := [0x6C, 0xAC, 0xAD, 0x6D, 0xAF, 0x6F, 0x6E, 0xAE, 0xAA, 0x6A, 0x6B, 0xAB, 0x69, 0xA9, 0xA8, 0x68]
  const LO_A: seq<bv8> := [0x78, 0xB8, 0xB9, 0x79, 0xBB, 0x7B, 0x7A, 0xBA, 0xBE, 0x7E, 0x7F, 0xBF, 0x7D, 0xBD, 0xBC, 0x7C]
  const LO_B: seq<bv8> := [0xB4, 0x74, 0x75, 0xB5, 0x77, 0xB7, 0xB6, 0x76, 0x72, 0xB2, 0xB3, 0x73, 0xB1, 0x71, 0x70, 0xB0]
  const LO_C: seq<bv8> := [0x50, 0x90, 0x91, 0x51, 0x93, 0x53, 0x52, 0x92, 0x96, 0x56, 0x57, 0x97, 0x55, 0x95, 0x94, 0x54]
  const LO_D: seq<bv8> := [0x9C, 0x5C, 0x5D, 0x9D, 0x5F, 0x9F, 0x9E, 0x5E, 0x5A, 0x9A, 0x9B, 0x5B, 0x99, 0x59, 0x58, 0x98]
  const LO_E: seq<bv8> := [0x88, 0x48, 0x49, 0x89, 0x4B, 0x8B, 0x8A, 0x4A, 0x4E, 0x8E, 0x8F, 0x4F, 0x8D, 0x4D, 0x4C, 0x8C]
  const LO_F: seq<bv8> := [0x44, 0x84, 0x85, 0x45, 0x87, 0x47, 0x46, 0x86, 0x82, 0x42, 0x43, 0x83, 0x41, 0x81, 0x80, 0x40]

  const ROWS_LO: seq<seq<bv8>> :=
    [LO_0, LO_1, LO_2, LO_3, LO_4, LO_5, LO_6, LO_7,
     LO_8, LO_9, LO_A, LO_B, LO_C, LO_D, LO_E, LO_F]

  /** Feeds the next crc_lo; indexed by the old crc_hi exclusive-ored with the message byte. */
  const TABLE_CRC_LO: seq<bv8> := Flatten(ROWS_LO)

  function Flatten(rows: seq<seq<bv8>>): seq<bv8>
    decreases |rows|
  {
    if rows == [] then [] else rows[0] + Flatten(rows[1..])
  }

  lemma {:induction false} FlattenIndex(rows: seq<seq<bv8>>, j: nat, i: nat)
    requires forall row :: row in rows ==> |row| == 16
    requires j < |rows| && i < 16
    ensures |Flatten(rows)| == 16 * |rows|
    ensures Flatten(rows)[16 * j + i] == rows[j][i]
    decreases |rows|
  {
    if |rows| == 1 {
      assert Flatten(rows[1..]) == [];
    } else if j == 0 {
      FlattenIndex(rows[1..], 0, 0);
    } else {
      FlattenIndex(rows[1..], j - 1, i);
    }
  }

  /** Row `row` is row `first` exclusive-ored with `c`, entry by entry. */
  ghost predicate IsShifted(first: seq<bv8>, row: seq<bv8>, c: bv8) {
    && |first| == |row| == 16
    && row[0] == first[0] ^ c && row[1] == first[1] ^ c && row[2] == first[2] ^ c && row[3] == first[3] ^ c
    && row[4] == first[4] ^ c && row[5] == first[5] ^ c && row[6] == first[6] ^ c && row[7] == first[7] ^ c
    && row[8] == first[8] ^ c && row[9] == first[9] ^ c && row[10] == first[10] ^ c && row[11] == first[11] ^ c
    && row[12] == first[12] ^ c && row[13] == first[13] ^ c && row[14] == first[14] ^ c && row[15] == first[15] ^ c
  }

  lemma Shape0()
    ensures IsShifted(HI_0, HI_0, 0x00) && IsShifted(LO_0, LO_0, 0x00)
    ensures Steps(0x00, 8) == 0x0000
  {
  }

  lemma Shape1()
    ensures IsShifted(HI_0, HI_1, 0x01) && IsShifted(LO_0, LO_1, 0xCC)
    ensures Steps(0x10, 8) == 0xCC01
  {
  }

  lemma Shape2()
    ensures IsShifted(HI_0, HI_2, 0x01) && IsShifted(LO_0, LO_2, 0xD8)
    ensures Steps(0x20, 8) == 0xD801
  {
  }

  lemma Shape3()
    ensures IsShifted(HI_0, HI_3, 0x00) && IsShifted(LO_0, LO_3, 0x14)
    ensures Steps(0x30, 8) == 0x1400
  {
  }

  lemma Shape4()
    ensures IsShifted(HI_0, HI_4, 0x01) && IsShifted(LO_0, LO_4, 0xF0)
    ensures Steps(0x40, 8) == 0xF001
  {
  }

  lemma Shape5()
    ensures IsShifted(HI_0, HI_5, 0x00) && IsShifted(LO_0, LO_5, 0x3C)
    ensures Steps(0x50, 8) == 0x3C00
  {
  }

  lemma Shape6()
    ensures IsShifted(HI_0, HI_6, 0x00) && IsShifted(LO_0, LO_6, 0x28)
    ensures Steps(0x60, 8) == 0x2800
  {
  }

  lemma Shape7()
    ensures IsShifted(HI_0, HI_7, 0x01) && IsShifted(LO_0, LO_7, 0xE4)
    ensures Steps(0x70, 8) == 0xE401
  {
  }

  lemma Shape8()
    ensures IsShifted(HI_0, HI_8, 0x01) && IsShifted(LO_0, LO_8, 0xA0)
    ensures Steps(0x80, 8) == 0xA001
  {
  }

  lemma Shape9()
    ensures IsShifted(HI_0, HI_9, 0x00) && IsShifted(LO_0, LO_9, 0x6C)
    ensures Steps(0x90, 8) == 0x6C00
  {
  }

  lemma ShapeA()
    ensures IsShifted(HI_0, HI_A, 0x00) && IsShifted(LO_0, LO_A, 0x78)
    ensures Steps(0xA0, 8) == 0x7800
  {
  }

  lemma ShapeB()
    ensures IsShifted(HI_0, HI_B, 0x01) && IsShifted(LO_0, LO_B, 0xB4)
    ensures Steps(0xB0, 8) == 0xB401
  {
  }

  lemma ShapeC()
    ensures IsShifted(HI_0, HI_C, 0x00) && IsShifted(LO_0, LO_C, 0x50)
    ensures Steps(0xC0, 8) == 0x5000
  {
  }

  lemma ShapeD()
    ensures IsShifted(HI_0, HI_D, 0x01) && IsShifted(LO_0, LO_D, 0x9C)
    ensures Steps(0xD0, 8) == 0x9C01
  {
  }

  lemma ShapeE()
    ensures IsShifted(HI_0, HI_E, 0x01) && IsShifted(LO_0, LO_E, 0x88)
    ensures Steps(0xE0, 8) == 0x8801
  {
  }

  lemma ShapeF()
    ensures IsShifted(HI_0, HI_F, 0x00) && IsShifted(LO_0, LO_F, 0x44)
    ensures Steps(0xF0, 8) == 0x4400
  {
  }

  lemma LowNibbles0()
    ensures Steps(0, 8) == 0x0000 && Steps(1, 8) == 0xC0C1 && Steps(2, 8) == 0xC181 && Steps(3, 8) == 0x0140 && Steps(4, 8) == 0xC301 && Steps(5, 8) == 0x03C0 && Steps(6, 8) == 0x0280 && Steps(7, 8) == 0xC241
  {
  }

  lemma LowNibbles8()
    ensures Steps(8, 8) == 0xC601 && Steps(9, 8) == 0x06C0 && Steps(10, 8) == 0x0780 && Steps(11, 8) == 0xC741 && Steps(12, 8) == 0x0500 && Steps(13, 8) == 0xC5C1 && Steps(14, 8) == 0xC481 && Steps(15, 8) == 0x0440
  {
  }

  predicate Regular(rows: seq<seq<bv8>>) {
    && |rows| == 16
    && |rows[0]| == |rows[1]| == |rows[2]| == |rows[3]| == 16 && |rows[4]| == |rows[5]| == |rows[6]| == |rows[7]| == 16
    && |rows[8]| == |rows[9]| == |rows[10]| == |rows[11]| == 16
    && |rows[12]| == |rows[13]| == |rows[14]| == |rows[15]| == 16
  }

  lemma RowsAreRegular()
    ensures Regular(ROWS_HI) && Regular(ROWS_LO)
  {
  }

  lemma IndexOfRow(rows: seq<seq<bv8>>, j: nat, i: nat)
    requires Regular(rows) && j < 16 && i < 16
    ensures |Flatten(rows)| == 256 && |rows| == 16 && |rows[j]| == 16
    ensures Flatten(rows)[16 * j + i] == rows[j][i]
  {
    FlattenIndex(rows, j, i);
  }

  lemma LowEntry(n: bv8)
    requires n < 16
    ensures n as int < 16 && LowHolds(HI_0, LO_0, n)
  {
    hide Steps;
    LowNibbles0();
    LowNibbles8();
    if
    case n == 0 => case n == 1 => case n == 2 => case n == 3 =>
    case n == 4 => case n == 5 => case n == 6 => case n == 7 =>
    case n == 8 => case n == 9 => case n == 10 => case n == 11 =>
    case n == 12 => case n == 13 => case n == 14 => case n == 15 =>
  }

  lemma BytesOfSum(a: bv16, b: bv16)
    ensures LowByte(Xor(a, b)) == LowByte(a) ^ LowByte(b)
    ensures HighByte(Xor(a, b)) == HighByte(a) ^ HighByte(b)
  {
  }

  /** Entry `x` of the two tables holds the two bytes of `x` shifted eight times. */
  ghost predicate EntryHolds(x: bv8) {
    && x as int < |TABLE_CRC_HI| == |TABLE_CRC_LO|
    && TABLE_CRC_HI[x as int] == LowByte(Steps(x as bv16, 8))
    && TABLE_CRC_LO[x as int] == HighByte(Steps(x as bv16, 8))
  }

  lemma IsShiftedAt(first: seq<bv8>, row: seq<bv8>, c: bv8, i: nat)
    requires i < 16 && IsShifted(first, row, c)
    ensures |first| == |row| == 16 && row[i] == first[i] ^ c
  {
    if
    case i == 0 => case i == 1 => case i == 2 => case i == 3 =>
    case i == 4 => case i == 5 => case i == 6 => case i == 7 =>
    case i == 8 => case i == 9 => case i == 10 => case i == 11 =>
    case i == 12 => case i == 13 => case i == 14 => case i == 15 =>
  }

  lemma EntryOfSum(x: bv8, n: bv8, top: bv16, hi: bv8, lo: bv8)
    requires x as bv16 == Xor(n as bv16, top)
    requires hi == LowByte(Steps(n as bv16, 8)) ^ LowByte(Steps(top, 8))
    requires lo == HighByte(Steps(n as bv16, 8)) ^ HighByte(Steps(top, 8))
    ensures hi == LowByte(Steps(x as bv16, 8)) && lo == HighByte(Steps(x as bv16, 8))
  {
    hide Steps, LowByte, HighByte, Xor;
    StepsAreLinear(n as bv16, top, 8);
    BytesOfSum(Steps(n as bv16, 8), Steps(top, 8));
  }

  /** Row 0 of both tables holds the two bytes of the shifted low nibble `n`. */
  ghost predicate LowHolds(firstHi: seq<bv8>, firstLo: seq<bv8>, n: bv8) {
    && n as int < |firstHi| == |firstLo|
    && firstHi[n as int] == LowByte(Steps(n as bv16, 8)) && firstLo[n as int] == HighByte(Steps(n as bv16, 8))
  }

  lemma EntryOfRow(rowsHi: seq<seq<bv8>>, rowsLo: seq<seq<bv8>>, x: bv8, n: bv8, top: bv16, j: nat)
    requires n as int < 16 && j < 16 && x as int == 16 * j + n as int && x as bv16 == Xor(n as bv16, top)
    requires Regular(rowsHi) && Regular(rowsLo) && LowHolds(rowsHi[0], rowsLo[0], n)
    requires IsShifted(rowsHi[0], rowsHi[j], LowByte(Steps(top, 8)))
    requires IsShifted(rowsLo[0], rowsLo[j], HighByte(Steps(top, 8)))
    ensures x as int < |Flatten(rowsHi)| == |Flatten(rowsLo)|
    ensures Flatten(rowsHi)[x as int] == LowByte(Steps(x as bv16, 8))
    ensures Flatten(rowsLo)[x as int] == HighByte(Steps(x as bv16, 8))
  {
    hide Steps, Flatten, IsShifted, LowByte, HighByte, Xor;
    var i := n as int;
    IndexOfRow(rowsHi, j, i);
    IndexOfRow(rowsLo, j, i);
    IsShiftedAt(rowsHi[0], rowsHi[j], LowByte(Steps(top, 8)), i);
    IsShiftedAt(rowsLo[0], rowsLo[j], HighByte(Steps(top, 8)), i);
    EntryOfSum(x, n, top, rowsHi[j][i], rowsLo[j][i]);
  }

  lemma Nibbles(x: bv8)
    ensures x as int == 16 * ((x >> 4) as int) + (x & 15) as int
    ensures x as bv16 == Xor((x & 15) as bv16, (x & 0xF0) as bv16)
    ensures x & 15 < 16 && x >> 4 < 16 && x & 0xF0 == (x >> 4) << 4
  {
  }


  lemma TableEntryTopClear(x: bv8)
    requires x & 0x80 == 0
    ensures EntryHolds(x)
  {
    hide Steps, Flatten, IsShifted, Xor, Regular, LowHolds;
    Nibbles(x);
    RowsAreRegular();
    LowEntry(x & 15);
    var n, j := x & 15, x >> 4;
    if
    case j == 0 => Shape0(); EntryOfRow(ROWS_HI, ROWS_LO, x, n, 0x00, 0);
    case j == 1 => Shape1(); EntryOfRow(ROWS_HI, ROWS_LO, x, n, 0x10, 1);
    case j == 2 => Shape2(); EntryOfRow(ROWS_HI, ROWS_LO, x, n, 0x20, 2);
    case j == 3 => Shape3(); EntryOfRow(ROWS_HI, ROWS_LO, x, n, 0x30, 3);
    case j == 4 => Shape4(); EntryOfRow(ROWS_HI, ROWS_LO, x, n, 0x40, 4);
    case j == 5 => Shape5(); EntryOfRow(ROWS_HI, ROWS_LO, x, n, 0x50, 5);
    case j == 6 => Shape6(); EntryOfRow(ROWS_HI, ROWS_LO, x, n, 0x60, 6);
    case j == 7 => Shape7(); EntryOfRow(ROWS_HI, ROWS_LO, x, n, 0x70, 7);
  }

  lemma TableEntryTopSet(x: bv8)
    requires x & 0x80 != 0
    ensures EntryHolds(x)
  {
    hide Steps, Flatten, IsShifted, Xor, Regular, LowHolds;
    Nibbles(x);
    RowsAreRegular();
    LowEntry(x & 15);
    var n, j := x & 15, x >> 4;
    if
    case j == 8 => Shape8(); EntryOfRow(ROWS_HI, ROWS_LO, x, n, 0x80, 8);
    case j == 9 => Shape9(); EntryOfRow(ROWS_HI, ROWS_LO, x, n, 0x90, 9);
    case j == 10 => ShapeA(); EntryOfRow(ROWS_HI, ROWS_LO, x, n, 0xA0, 10);
    case j == 11 => ShapeB(); EntryOfRow(ROWS_HI, ROWS_LO, x, n, 0xB0, 11);
    case j == 12 => ShapeC(); EntryOfRow(ROWS_HI, ROWS_LO, x, n, 0xC0, 12);
    case j == 13 => ShapeD(); EntryOfRow(ROWS_HI, ROWS_LO, x, n, 0xD0, 13);
    case j == 14 => ShapeE(); EntryOfRow(ROWS_HI, ROWS_LO, x, n, 0xE0, 14);
    case j == 15 => ShapeF(); EntryOfRow(ROWS_HI, ROWS_LO, x, n, 0xF0, 15);
  }

  /** Every entry of both tables is what the bit-by-bit definition says it should be. */
  lemma TableEntry(x: bv8)
    ensures EntryHolds(x)
  {
    hide EntryHolds;
    if x & 0x80 == 0 {
      TableEntryTopClear(x);
    } else {
      TableEntryTopSet(x);
    }
  }

  function TableHi(i: bv8): (b: bv8)
    ensures b == LowByte(Steps(i as bv16, 8))
  {
    TableEntry(i);
    TABLE_CRC_HI[i as int]
  }

  function TableLo(i: bv8): (b: bv8)
    ensures b == HighByte(Steps(i as bv16, 8))
  {
    TableEntry(i);
    TABLE_CRC_LO[i as int]
  }
}
