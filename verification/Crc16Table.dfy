/** The two byte tables of crc16.c, in rows of eight, and why they are right together. */
module Crc16Table {
  import opened CrcTheory
  import opened CrcBits
  import opened TableRows

  const POLY: bv32 := 0xA001
  const FIRST: bv32 := 0xC0C1

  const H0: seq<bv8> := [0x00, 0xC1, 0x81, 0x40, 0x01, 0xC0, 0x80, 0x41]
  const H1: seq<bv8> := [0x01, 0xC0, 0x80, 0x41, 0x00, 0xC1, 0x81, 0x40]
  const H2: seq<bv8> := [0x01, 0xC0, 0x80, 0x41, 0x00, 0xC1, 0x81, 0x40]
  const H3: seq<bv8> := [0x00, 0xC1, 0x81, 0x40, 0x01, 0xC0, 0x80, 0x41]
  const H4: seq<bv8> := [0x01, 0xC0, 0x80, 0x41, 0x00, 0xC1, 0x81, 0x40]
  const H5: seq<bv8> := [0x00, 0xC1, 0x81, 0x40, 0x01, 0xC0, 0x80, 0x41]
  const H6: seq<bv8> := [0x00, 0xC1, 0x81, 0x40, 0x01, 0xC0, 0x80, 0x41]
  const H7: seq<bv8> := [0x01, 0xC0, 0x80, 0x41, 0x00, 0xC1, 0x81, 0x40]
  const H8: seq<bv8> := [0x01, 0xC0, 0x80, 0x41, 0x00, 0xC1, 0x81, 0x40]
  const H9: seq<bv8> := [0x00, 0xC1, 0x81, 0x40, 0x01, 0xC0, 0x80, 0x41]
  const H10: seq<bv8> := [0x00, 0xC1, 0x81, 0x40, 0x01, 0xC0, 0x80, 0x41]
  const H11: seq<bv8> := [0x01, 0xC0, 0x80, 0x41, 0x00, 0xC1, 0x81, 0x40]
  const H12: seq<bv8> := [0x00, 0xC1, 0x81, 0x40, 0x01, 0xC0, 0x80, 0x41]
  const H13: seq<bv8> := [0x01, 0xC0, 0x80, 0x41, 0x00, 0xC1, 0x81, 0x40]
  const H14: seq<bv8> := [0x01, 0xC0, 0x80, 0x41, 0x00, 0xC1, 0x81, 0x40]
  const H15: seq<bv8> := [0x00, 0xC1, 0x81, 0x40, 0x01, 0xC0, 0x80, 0x41]
  const H16: seq<bv8> := [0x01, 0xC0, 0x80, 0x41, 0x00, 0xC1, 0x81, 0x40]
  const H17: seq<bv8> := [0x00, 0xC1, 0x81, 0x40, 0x01, 0xC0, 0x80, 0x41]
  const H18: seq<bv8> := [0x00, 0xC1, 0x81, 0x40, 0x01, 0xC0, 0x80, 0x41]
  const H19: seq<bv8> := [0x01, 0xC0, 0x80, 0x41, 0x00, 0xC1, 0x81, 0x40]
  const H20: seq<bv8> := [0x00, 0xC1, 0x81, 0x40, 0x01, 0xC0, 0x80, 0x41]
  const H21: seq<bv8> := [0x01, 0xC0, 0x80, 0x41, 0x00, 0xC1, 0x81, 0x40]
  const H22: seq<bv8> := [0x01, 0xC0, 0x80, 0x41, 0x00, 0xC1, 0x81, 0x40]
  const H23: seq<bv8> := [0x00, 0xC1, 0x81, 0x40, 0x01, 0xC0, 0x80, 0x41]
  const H24: seq<bv8> := [0x00, 0xC1, 0x81, 0x40, 0x01, 0xC0, 0x80, 0x41]
  const H25: seq<bv8> := [0x01, 0xC0, 0x80, 0x41, 0x00, 0xC1, 0x81, 0x40]
  const H26: seq<bv8> := [0x01, 0xC0, 0x80, 0x41, 0x00, 0xC1, 0x81, 0x40]
  const H27: seq<bv8> := [0x00, 0xC1, 0x81, 0x40, 0x01, 0xC0, 0x80, 0x41]
  const H28: seq<bv8> := [0x01, 0xC0, 0x80, 0x41, 0x00, 0xC1, 0x81, 0x40]
  const H29: seq<bv8> := [0x00, 0xC1, 0x81, 0x40, 0x01, 0xC0, 0x80, 0x41]
  const H30: seq<bv8> := [0x00, 0xC1, 0x81, 0x40, 0x01, 0xC0, 0x80, 0x41]
  const H31: seq<bv8> := [0x01, 0xC0, 0x80, 0x41, 0x00, 0xC1, 0x81, 0x40]

  const L0: seq<bv8> := [0x00, 0xC0, 0xC1, 0x01, 0xC3, 0x03, 0x02, 0xC2]
  const L1: seq<bv8> := [0xC6, 0x06, 0x07, 0xC7, 0x05, 0xC5, 0xC4, 0x04]
  const L2: seq<bv8> := [0xCC, 0x0C, 0x0D, 0xCD, 0x0F, 0xCF, 0xCE, 0x0E]
  const L3: seq<bv8> := [0x0A, 0xCA, 0xCB, 0x0B, 0xC9, 0x09, 0x08, 0xC8]
  const L4: seq<bv8> := [0xD8, 0x18, 0x19, 0xD9, 0x1B, 0xDB, 0xDA, 0x1A]
  const L5: seq<bv8> := [0x1E, 0xDE, 0xDF, 0x1F, 0xDD, 0x1D, 0x1C, 0xDC]
  const L6: seq<bv8> := [0x14, 0xD4, 0xD5, 0x15, 0xD7, 0x17, 0x16, 0xD6]
  const L7: seq<bv8> := [0xD2, 0x12, 0x13, 0xD3, 0x11, 0xD1, 0xD0, 0x10]
  const L8: seq<bv8> := [0xF0, 0x30, 0x31, 0xF1, 0x33, 0xF3, 0xF2, 0x32]
  const L9: seq<bv8> := [0x36, 0xF6, 0xF7, 0x37, 0xF5, 0x35, 0x34, 0xF4]
  const L10: seq<bv8> := [0x3C, 0xFC, 0xFD, 0x3D, 0xFF, 0x3F, 0x3E, 0xFE]
  const L11: seq<bv8> := [0xFA, 0x3A, 0x3B, 0xFB, 0x39, 0xF9, 0xF8, 0x38]
  const L12: seq<bv8> := [0x28, 0xE8, 0xE9, 0x29, 0xEB, 0x2B, 0x2A, 0xEA]
  const L13: seq<bv8> := [0xEE, 0x2E, 0x2F, 0xEF, 0x2D, 0xED, 0xEC, 0x2C]
  const L14: seq<bv8> := [0xE4, 0x24, 0x25, 0xE5, 0x27, 0xE7, 0xE6, 0x26]
  const L15: seq<bv8> := [0x22, 0xE2, 0xE3, 0x23, 0xE1, 0x21, 0x20, 0xE0]
  const L16: seq<bv8> := [0xA0, 0x60, 0x61, 0xA1, 0x63, 0xA3, 0xA2, 0x62]
  const L17: seq<bv8> := [0x66, 0xA6, 0xA7, 0x67, 0xA5, 0x65, 0x64, 0xA4]
  const L18: seq<bv8> := [0x6C, 0xAC, 0xAD, 0x6D, 0xAF, 0x6F, 0x6E, 0xAE]
  const L19: seq<bv8> := [0xAA, 0x6A, 0x6B, 0xAB, 0x69, 0xA9, 0xA8, 0x68]
  const L20: seq<bv8> := [0x78, 0xB8, 0xB9, 0x79, 0xBB, 0x7B, 0x7A, 0xBA]
  const L21: seq<bv8> := [0xBE, 0x7E, 0x7F, 0xBF, 0x7D, 0xBD, 0xBC, 0x7C]
  const L22: seq<bv8> := [0xB4, 0x74, 0x75, 0xB5, 0x77, 0xB7, 0xB6, 0x76]
  const L23: seq<bv8> := [0x72, 0xB2, 0xB3, 0x73, 0xB1, 0x71, 0x70, 0xB0]
  const L24: seq<bv8> := [0x50, 0x90, 0x91, 0x51, 0x93, 0x53, 0x52, 0x92]
  const L25: seq<bv8> := [0x96, 0x56, 0x57, 0x97, 0x55, 0x95, 0x94, 0x54]
  const L26: seq<bv8> := [0x9C, 0x5C, 0x5D, 0x9D, 0x5F, 0x9F, 0x9E, 0x5E]
  const L27: seq<bv8> := [0x5A, 0x9A, 0x9B, 0x5B, 0x99, 0x59, 0x58, 0x98]
  const L28: seq<bv8> := [0x88, 0x48, 0x49, 0x89, 0x4B, 0x8B, 0x8A, 0x4A]
  const L29: seq<bv8> := [0x4E, 0x8E, 0x8F, 0x4F, 0x8D, 0x4D, 0x4C, 0x8C]
  const L30: seq<bv8> := [0x44, 0x84, 0x85, 0x45, 0x87, 0x47, 0x46, 0x86]
  const L31: seq<bv8> := [0x82, 0x42, 0x43, 0x83, 0x41, 0x81, 0x80, 0x40]

  /** The rows of arr_crc_hi. */
  function Highs(k: nat): (r: seq<bv8>)
    ensures |r| == 8
  {
    match k
    case 0 => H0
    case 1 => H1
    case 2 => H2
    case 3 => H3
    case 4 => H4
    case 5 => H5
    case 6 => H6
    case 7 => H7
    case 8 => H8
    case 9 => H9
    case 10 => H10
    case 11 => H11
    case 12 => H12
    case 13 => H13
    case 14 => H14
    case 15 => H15
    case 16 => H16
    case 17 => H17
    case 18 => H18
    case 19 => H19
    case 20 => H20
    case 21 => H21
    case 22 => H22
    case 23 => H23
    case 24 => H24
    case 25 => H25
    case 26 => H26
    case 27 => H27
    case 28 => H28
    case 29 => H29
    case 30 => H30
    case _ => H31
  }

  /** The rows of arr_crc_lo. */
  function Lows(k: nat): (r: seq<bv8>)
    ensures |r| == 8
  {
    match k
    case 0 => L0
    case 1 => L1
    case 2 => L2
    case 3 => L3
    case 4 => L4
    case 5 => L5
    case 6 => L6
    case 7 => L7
    case 8 => L8
    case 9 => L9
    case 10 => L10
    case 11 => L11
    case 12 => L12
    case 13 => L13
    case 14 => L14
    case 15 => L15
    case 16 => L16
    case 17 => L17
    case 18 => L18
    case 19 => L19
    case 20 => L20
    case 21 => L21
    case 22 => L22
    case 23 => L23
    case 24 => L24
    case 25 => L25
    case 26 => L26
    case 27 => L27
    case 28 => L28
    case 29 => L29
    case 30 => L30
    case _ => L31
  }

  /** arr_crc_hi and arr_crc_lo. */
  const HI: seq<bv8> := seq(256, i requires 0 <= i < 256 => Highs(i / 8)[i % 8])

  const LO: seq<bv8> := seq(256, i requires 0 <= i < 256 => Lows(i / 8)[i % 8])

  /** A high and a low register byte as one word. */
  function Pair(hi: bv8, lo: bv8): (x: bv32)
    ensures x <= 0xffff
  {
    ((hi as bv32) << 8) | (lo as bv32)
  }

  /** A row of what the two tables do together: arr_crc_lo supplies the high byte, arr_crc_hi the low one. */
  function Row(l: seq<bv8>, h: seq<bv8>): (r: seq<bv32>)
    requires |l| == |h| == 8
    ensures |r| == 8
  {
    seq(8, c requires 0 <= c < 8 => Pair(l[c], h[c]))
  }

  function Rows(k: nat): (r: seq<bv32>)
    ensures |r| == 8
  {
    Row(Lows(k), Highs(k))
  }

  const TABLE: seq<bv32> := seq(256, i requires 0 <= i < 256 => Pair(LO[i], HI[i]))

  predicate Halves(a: bv32, b: bv32) { a == ShiftWord(POLY, b) }

  predicate Odds(a: bv32, b: bv32) { a == b ^ FIRST }

  lemma Linked0()
    ensures RowLinked(Halves, Odds, Row(L0, H0), 0, Row(L0, H0))
    ensures RowLinked(Halves, Odds, Row(L0, H0), 4, Row(L1, H1))
    ensures RowLinked(Halves, Odds, Row(L1, H1), 0, Row(L2, H2))
    ensures RowLinked(Halves, Odds, Row(L1, H1), 4, Row(L3, H3))
  {
  }

  lemma Linked1()
    ensures RowLinked(Halves, Odds, Row(L2, H2), 0, Row(L4, H4))
    ensures RowLinked(Halves, Odds, Row(L2, H2), 4, Row(L5, H5))
    ensures RowLinked(Halves, Odds, Row(L3, H3), 0, Row(L6, H6))
    ensures RowLinked(Halves, Odds, Row(L3, H3), 4, Row(L7, H7))
  {
  }

  lemma Linked2()
    ensures RowLinked(Halves, Odds, Row(L4, H4), 0, Row(L8, H8))
    ensures RowLinked(Halves, Odds, Row(L4, H4), 4, Row(L9, H9))
    ensures RowLinked(Halves, Odds, Row(L5, H5), 0, Row(L10, H10))
    ensures RowLinked(Halves, Odds, Row(L5, H5), 4, Row(L11, H11))
  {
  }

  lemma Linked3()
    ensures RowLinked(Halves, Odds, Row(L6, H6), 0, Row(L12, H12))
    ensures RowLinked(Halves, Odds, Row(L6, H6), 4, Row(L13, H13))
    ensures RowLinked(Halves, Odds, Row(L7, H7), 0, Row(L14, H14))
    ensures RowLinked(Halves, Odds, Row(L7, H7), 4, Row(L15, H15))
  {
  }

  lemma Linked4()
    ensures RowLinked(Halves, Odds, Row(L8, H8), 0, Row(L16, H16))
    ensures RowLinked(Halves, Odds, Row(L8, H8), 4, Row(L17, H17))
    ensures RowLinked(Halves, Odds, Row(L9, H9), 0, Row(L18, H18))
    ensures RowLinked(Halves, Odds, Row(L9, H9), 4, Row(L19, H19))
  {
  }

  lemma Linked5()
    ensures RowLinked(Halves, Odds, Row(L10, H10), 0, Row(L20, H20))
    ensures RowLinked(Halves, Odds, Row(L10, H10), 4, Row(L21, H21))
    ensures RowLinked(Halves, Odds, Row(L11, H11), 0, Row(L22, H22))
    ensures RowLinked(Halves, Odds, Row(L11, H11), 4, Row(L23, H23))
  {
  }

  lemma Linked6()
    ensures RowLinked(Halves, Odds, Row(L12, H12), 0, Row(L24, H24))
    ensures RowLinked(Halves, Odds, Row(L12, H12), 4, Row(L25, H25))
    ensures RowLinked(Halves, Odds, Row(L13, H13), 0, Row(L26, H26))
    ensures RowLinked(Halves, Odds, Row(L13, H13), 4, Row(L27, H27))
  {
  }

  lemma Linked7()
    ensures RowLinked(Halves, Odds, Row(L14, H14), 0, Row(L28, H28))
    ensures RowLinked(Halves, Odds, Row(L14, H14), 4, Row(L29, H29))
    ensures RowLinked(Halves, Odds, Row(L15, H15), 0, Row(L30, H30))
    ensures RowLinked(Halves, Odds, Row(L15, H15), 4, Row(L31, H31))
  {
  }

  lemma RowsFrom0(k: nat)
    requires 0 <= k < 4
    ensures RowLinkedAt(Halves, Odds, Rows, k)
  {
    Linked0();
  }

  lemma RowsFrom4(k: nat)
    requires 4 <= k < 8
    ensures RowLinkedAt(Halves, Odds, Rows, k)
  {
    Linked1();
  }

  lemma RowsFrom8(k: nat)
    requires 8 <= k < 12
    ensures RowLinkedAt(Halves, Odds, Rows, k)
  {
    Linked2();
  }

  lemma RowsFrom12(k: nat)
    requires 12 <= k < 16
    ensures RowLinkedAt(Halves, Odds, Rows, k)
  {
    Linked3();
  }

  lemma RowsFrom16(k: nat)
    requires 16 <= k < 20
    ensures RowLinkedAt(Halves, Odds, Rows, k)
  {
    Linked4();
  }

  lemma RowsFrom20(k: nat)
    requires 20 <= k < 24
    ensures RowLinkedAt(Halves, Odds, Rows, k)
  {
    Linked5();
  }

  lemma RowsFrom24(k: nat)
    requires 24 <= k < 28
    ensures RowLinkedAt(Halves, Odds, Rows, k)
  {
    Linked6();
  }

  lemma RowsFrom28(k: nat)
    requires 28 <= k < 32
    ensures RowLinkedAt(Halves, Odds, Rows, k)
  {
    Linked7();
  }

  lemma EveryRow(k: nat)
    requires k < 32
    ensures RowLinkedAt(Halves, Odds, Rows, k)
  {
    match k / 4
    case 0 => RowsFrom0(k);
    case 1 => RowsFrom4(k);
    case 2 => RowsFrom8(k);
    case 3 => RowsFrom12(k);
    case 4 => RowsFrom16(k);
    case 5 => RowsFrom20(k);
    case 6 => RowsFrom24(k);
    case 7 => RowsFrom28(k);
  }

  lemma PairInRow(i: nat, k: nat, c: nat)
    requires i < 256 && k == i / 8 && c == i % 8
    ensures Rows(k)[c] == TABLE[i]
  {
  }

  lemma EntryLinked(j: nat)
    requires j < 128
    ensures Halves(TABLE[j], TABLE[2 * j]) && Odds(TABLE[2 * j + 1], TABLE[2 * j])
  {
    EveryRow(j / 4);
    PairInRow(j, j / 8, j % 8);
    PairInRow(2 * j, 2 * j / 8, 2 * j % 8);
    PairInRow(2 * j + 1, (2 * j + 1) / 8, (2 * j + 1) % 8);
    RowsGive(Rows, TABLE, j);
  }

  lemma RowsGive(rows: nat -> seq<bv32>, table: seq<bv32>, j: nat)
    requires |table| == 256 && j < 128 && Shape(rows) && RowLinkedAt(Halves, Odds, rows, j / 4)
    requires rows(j / 8)[j % 8] == table[j] && rows(2 * j / 8)[2 * j % 8] == table[2 * j]
    requires rows((2 * j + 1) / 8)[(2 * j + 1) % 8] == table[2 * j + 1]
    ensures Halves(table[j], table[2 * j]) && Odds(table[2 * j + 1], table[2 * j])
  {
    TableLinked(Halves, Odds, rows, j);
  }

  /** The literal table satisfies the recurrence of byte remainders. */
  lemma TableRecurrence()
    ensures Recurrence(TABLE, POLY)
  {
    CornerEntries();
    forall j | 0 <= j < 128
      ensures TABLE[j] == ShiftWord(POLY, TABLE[2 * j]) && TABLE[2 * j + 1] == TABLE[2 * j] ^ TABLE[1]
    {
      EntryLinked(j);
    }
  }

  lemma CornerEntries()
    ensures TABLE[0] == 0 && TABLE[1] == FIRST && TABLE[128] == POLY
  {
  }

  lemma PolyIsGenerator()
    ensures Generator(BitsOf(POLY, 16))
  {
    BitShr8(0xA001, 0xA0, 7);
    BitShr4(0xA0, 0xA, 3);
    BitShr2(0xA, 2, 1);
    BitStep(2, 1, 0);
  }

  /** Each pair of literal entries is eight bit steps of the division by 0xA001. */
  lemma EntriesAreRemainders(i: nat)
    requires i < 256
    ensures BitsOf(TABLE[i], 16) == ByteRemainder(BitsOf(POLY, 16), i)
  {
    TableRecurrence();
    PolyIsGenerator();
    TableOfRemainders(TABLE, POLY, 16, i);
  }
}
