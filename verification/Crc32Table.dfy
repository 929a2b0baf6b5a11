/** The table of crc32.c, in rows of eight as the source prints it, and why it is right. */
module Crc32Table {
  import opened CrcTheory
  import opened CrcBits
  import opened TableRows

  const POLY: bv32 := 0xEDB88320
  const FIRST: bv32 := 0x77073096

  const R0: seq<bv32> := [0x00000000, 0x77073096, 0xEE0E612C, 0x990951BA, 0x076DC419, 0x706AF48F, 0xE963A535, 0x9E6495A3]
  const R1: seq<bv32> := [0x0EDB8832, 0x79DCB8A4, 0xE0D5E91E, 0x97D2D988, 0x09B64C2B, 0x7EB17CBD, 0xE7B82D07, 0x90BF1D91]
  const R2: seq<bv32> := [0x1DB71064, 0x6AB020F2, 0xF3B97148, 0x84BE41DE, 0x1ADAD47D, 0x6DDDE4EB, 0xF4D4B551, 0x83D385C7]
  const R3: seq<bv32> := [0x136C9856, 0x646BA8C0, 0xFD62F97A, 0x8A65C9EC, 0x14015C4F, 0x63066CD9, 0xFA0F3D63, 0x8D080DF5]
  const R4: seq<bv32> := [0x3B6E20C8, 0x4C69105E, 0xD56041E4, 0xA2677172, 0x3C03E4D1, 0x4B04D447, 0xD20D85FD, 0xA50AB56B]
  const R5: seq<bv32> := [0x35B5A8FA, 0x42B2986C, 0xDBBBC9D6, 0xACBCF940, 0x32D86CE3, 0x45DF5C75, 0xDCD60DCF, 0xABD13D59]
  const R6: seq<bv32> := [0x26D930AC, 0x51DE003A, 0xC8D75180, 0xBFD06116, 0x21B4F4B5, 0x56B3C423, 0xCFBA9599, 0xB8BDA50F]
  const R7: seq<bv32> := [0x2802B89E, 0x5F058808, 0xC60CD9B2, 0xB10BE924, 0x2F6F7C87, 0x58684C11, 0xC1611DAB, 0xB6662D3D]
  const R8: seq<bv32> := [0x76DC4190, 0x01DB7106, 0x98D220BC, 0xEFD5102A, 0x71B18589, 0x06B6B51F, 0x9FBFE4A5, 0xE8B8D433]
  const R9: seq<bv32> := [0x7807C9A2, 0x0F00F934, 0x9609A88E, 0xE10E9818, 0x7F6A0DBB, 0x086D3D2D, 0x91646C97, 0xE6635C01]
  const R10: seq<bv32> := [0x6B6B51F4, 0x1C6C6162, 0x856530D8, 0xF262004E, 0x6C0695ED, 0x1B01A57B, 0x8208F4C1, 0xF50FC457]
  const R11: seq<bv32> := [0x65B0D9C6, 0x12B7E950, 0x8BBEB8EA, 0xFCB9887C, 0x62DD1DDF, 0x15DA2D49, 0x8CD37CF3, 0xFBD44C65]
  const R12: seq<bv32> := [0x4DB26158, 0x3AB551CE, 0xA3BC0074, 0xD4BB30E2, 0x4ADFA541, 0x3DD895D7, 0xA4D1C46D, 0xD3D6F4FB]
  const R13: seq<bv32> := [0x4369E96A, 0x346ED9FC, 0xAD678846, 0xDA60B8D0, 0x44042D73, 0x33031DE5, 0xAA0A4C5F, 0xDD0D7CC9]
  const R14: seq<bv32> := [0x5005713C, 0x270241AA, 0xBE0B1010, 0xC90C2086, 0x5768B525, 0x206F85B3, 0xB966D409, 0xCE61E49F]
  const R15: seq<bv32> := [0x5EDEF90E, 0x29D9C998, 0xB0D09822, 0xC7D7A8B4, 0x59B33D17, 0x2EB40D81, 0xB7BD5C3B, 0xC0BA6CAD]
  const R16: seq<bv32> := [0xEDB88320, 0x9ABFB3B6, 0x03B6E20C, 0x74B1D29A, 0xEAD54739, 0x9DD277AF, 0x04DB2615, 0x73DC1683]
  const R17: seq<bv32> := [0xE3630B12, 0x94643B84, 0x0D6D6A3E, 0x7A6A5AA8, 0xE40ECF0B, 0x9309FF9D, 0x0A00AE27, 0x7D079EB1]
  const R18: seq<bv32> := [0xF00F9344, 0x8708A3D2, 0x1E01F268, 0x6906C2FE, 0xF762575D, 0x806567CB, 0x196C3671, 0x6E6B06E7]
  const R19: seq<bv32> := [0xFED41B76, 0x89D32BE0, 0x10DA7A5A, 0x67DD4ACC, 0xF9B9DF6F, 0x8EBEEFF9, 0x17B7BE43, 0x60B08ED5]
  const R20: seq<bv32> := [0xD6D6A3E8, 0xA1D1937E, 0x38D8C2C4, 0x4FDFF252, 0xD1BB67F1, 0xA6BC5767, 0x3FB506DD, 0x48B2364B]
  const R21: seq<bv32> := [0xD80D2BDA, 0xAF0A1B4C, 0x36034AF6, 0x41047A60, 0xDF60EFC3, 0xA867DF55, 0x316E8EEF, 0x4669BE79]
  const R22: seq<bv32> := [0xCB61B38C, 0xBC66831A, 0x256FD2A0, 0x5268E236, 0xCC0C7795, 0xBB0B4703, 0x220216B9, 0x5505262F]
  const R23: seq<bv32> := [0xC5BA3BBE, 0xB2BD0B28, 0x2BB45A92, 0x5CB36A04, 0xC2D7FFA7, 0xB5D0CF31, 0x2CD99E8B, 0x5BDEAE1D]
  const R24: seq<bv32> := [0x9B64C2B0, 0xEC63F226, 0x756AA39C, 0x026D930A, 0x9C0906A9, 0xEB0E363F, 0x72076785, 0x05005713]
  const R25: seq<bv32> := [0x95BF4A82, 0xE2B87A14, 0x7BB12BAE, 0x0CB61B38, 0x92D28E9B, 0xE5D5BE0D, 0x7CDCEFB7, 0x0BDBDF21]
  const R26: seq<bv32> := [0x86D3D2D4, 0xF1D4E242, 0x68DDB3F8, 0x1FDA836E, 0x81BE16CD, 0xF6B9265B, 0x6FB077E1, 0x18B74777]
  const R27: seq<bv32> := [0x88085AE6, 0xFF0F6A70, 0x66063BCA, 0x11010B5C, 0x8F659EFF, 0xF862AE69, 0x616BFFD3, 0x166CCF45]
  const R28: seq<bv32> := [0xA00AE278, 0xD70DD2EE, 0x4E048354, 0x3903B3C2, 0xA7672661, 0xD06016F7, 0x4969474D, 0x3E6E77DB]
  const R29: seq<bv32> := [0xAED16A4A, 0xD9D65ADC, 0x40DF0B66, 0x37D83BF0, 0xA9BCAE53, 0xDEBB9EC5, 0x47B2CF7F, 0x30B5FFE9]
  const R30: seq<bv32> := [0xBDBDF21C, 0xCABAC28A, 0x53B39330, 0x24B4A3A6, 0xBAD03605, 0xCDD70693, 0x54DE5729, 0x23D967BF]
  const R31: seq<bv32> := [0xB3667A2E, 0xC4614AB8, 0x5D681B02, 0x2A6F2B94, 0xB40BBE37, 0xC30C8EA1, 0x5A05DF1B, 0x2D02EF8D]

  /** The rows of Crc32Tab. */
  function Rows(k: nat): (r: seq<bv32>)
    ensures |r| == 8
  {
    match k
    case 0 => R0
    case 1 => R1
    case 2 => R2
    case 3 => R3
    case 4 => R4
    case 5 => R5
    case 6 => R6
    case 7 => R7
    case 8 => R8
    case 9 => R9
    case 10 => R10
    case 11 => R11
    case 12 => R12
    case 13 => R13
    case 14 => R14
    case 15 => R15
    case 16 => R16
    case 17 => R17
    case 18 => R18
    case 19 => R19
    case 20 => R20
    case 21 => R21
    case 22 => R22
    case 23 => R23
    case 24 => R24
    case 25 => R25
    case 26 => R26
    case 27 => R27
    case 28 => R28
    case 29 => R29
    case 30 => R30
    case _ => R31
  }

  /** Crc32Tab. */
  const TABLE: seq<bv32> := seq(256, i requires 0 <= i < 256 => Rows(i / 8)[i % 8])

  predicate Halves(a: bv32, b: bv32) { a == ShiftWord(POLY, b) }

  predicate Odds(a: bv32, b: bv32) { a == b ^ FIRST }

  lemma Linked0()
    ensures RowLinked(Halves, Odds, R0, 0, R0)
    ensures RowLinked(Halves, Odds, R0, 4, R1)
    ensures RowLinked(Halves, Odds, R1, 0, R2)
    ensures RowLinked(Halves, Odds, R1, 4, R3)
  {
  }

  lemma Linked1()
    ensures RowLinked(Halves, Odds, R2, 0, R4)
    ensures RowLinked(Halves, Odds, R2, 4, R5)
    ensures RowLinked(Halves, Odds, R3, 0, R6)
    ensures RowLinked(Halves, Odds, R3, 4, R7)
  {
  }

  lemma Linked2()
    ensures RowLinked(Halves, Odds, R4, 0, R8)
    ensures RowLinked(Halves, Odds, R4, 4, R9)
    ensures RowLinked(Halves, Odds, R5, 0, R10)
    ensures RowLinked(Halves, Odds, R5, 4, R11)
  {
  }

  lemma Linked3()
    ensures RowLinked(Halves, Odds, R6, 0, R12)
    ensures RowLinked(Halves, Odds, R6, 4, R13)
    ensures RowLinked(Halves, Odds, R7, 0, R14)
    ensures RowLinked(Halves, Odds, R7, 4, R15)
  {
  }

  lemma Linked4()
    ensures RowLinked(Halves, Odds, R8, 0, R16)
    ensures RowLinked(Halves, Odds, R8, 4, R17)
    ensures RowLinked(Halves, Odds, R9, 0, R18)
    ensures RowLinked(Halves, Odds, R9, 4, R19)
  {
  }

  lemma Linked5()
    ensures RowLinked(Halves, Odds, R10, 0, R20)
    ensures RowLinked(Halves, Odds, R10, 4, R21)
    ensures RowLinked(Halves, Odds, R11, 0, R22)
    ensures RowLinked(Halves, Odds, R11, 4, R23)
  {
  }

  lemma Linked6()
    ensures RowLinked(Halves, Odds, R12, 0, R24)
    ensures RowLinked(Halves, Odds, R12, 4, R25)
    ensures RowLinked(Halves, Odds, R13, 0, R26)
    ensures RowLinked(Halves, Odds, R13, 4, R27)
  {
  }

  lemma Linked7()
    ensures RowLinked(Halves, Odds, R14, 0, R28)
    ensures RowLinked(Halves, Odds, R14, 4, R29)
    ensures RowLinked(Halves, Odds, R15, 0, R30)
    ensures RowLinked(Halves, Odds, R15, 4, R31)
  {
  }

  lemma RowsFrom0(k: nat)
    requires 0 <= k < 4
    ensures RowLinkedAt(Halves, Odds, Rows, k)
  {
    Linked0();
  }

  lemma RowsFrom4(k: nat)
    requires 4 <= k < 8
    ensures RowLinkedAt(Halves, Odds, Rows, k)
  {
    Linked1();
  }

  lemma RowsFrom8(k: nat)
    requires 8 <= k < 12
    ensures RowLinkedAt(Halves, Odds, Rows, k)
  {
    Linked2();
  }

  lemma RowsFrom12(k: nat)
    requires 12 <= k < 16
    ensures RowLinkedAt(Halves, Odds, Rows, k)
  {
    Linked3();
  }

  lemma RowsFrom16(k: nat)
    requires 16 <= k < 20
    ensures RowLinkedAt(Halves, Odds, Rows, k)
  {
    Linked4();
  }

  lemma RowsFrom20(k: nat)
    requires 20 <= k < 24
    ensures RowLinkedAt(Halves, Odds, Rows, k)
  {
    Linked5();
  }

  lemma RowsFrom24(k: nat)
    requires 24 <= k < 28
    ensures RowLinkedAt(Halves, Odds, Rows, k)
  {
    Linked6();
  }

  lemma RowsFrom28(k: nat)
    requires 28 <= k < 32
    ensures RowLinkedAt(Halves, Odds, Rows, k)
  {
    Linked7();
  }

  lemma EveryRow(k: nat)
    requires k < 32
    ensures RowLinkedAt(Halves, Odds, Rows, k)
  {
    match k / 4
    case 0 => RowsFrom0(k);
    case 1 => RowsFrom4(k);
    case 2 => RowsFrom8(k);
    case 3 => RowsFrom12(k);
    case 4 => RowsFrom16(k);
    case 5 => RowsFrom20(k);
    case 6 => RowsFrom24(k);
    case 7 => RowsFrom28(k);
  }

  lemma EntryLinked(j: nat)
    requires j < 128
    ensures Halves(TABLE[j], TABLE[2 * j]) && Odds(TABLE[2 * j + 1], TABLE[2 * j])
  {
    EveryRow(j / 4);
    TableLinked(Halves, Odds, Rows, j);
  }

  /** The literal table satisfies the recurrence of byte remainders. */
  lemma TableRecurrence()
    ensures Recurrence(TABLE, POLY)
  {
    CornerEntries();
    forall j | 0 <= j < 128
      ensures TABLE[j] == ShiftWord(POLY, TABLE[2 * j]) && TABLE[2 * j + 1] == TABLE[2 * j] ^ TABLE[1]
    {
      EntryLinked(j);
    }
  }

  lemma CornerEntries()
    ensures TABLE[0] == 0 && TABLE[1] == FIRST && TABLE[128] == POLY
  {
  }

  lemma PolyIsGenerator()
    ensures Generator(BitsOf(POLY, 32))
  {
    BitShr16(POLY, 0xEDB8, 15);
    BitShr8(0xEDB8, 0xED, 7);
    BitShr4(0xED, 0xE, 3);
    BitShr2(0xE, 3, 1);
    BitStep(3, 1, 0);
  }

  /** Each literal entry is eight bit steps of the division by 0xEDB88320. */
  lemma EntriesAreRemainders(i: nat)
    requires i < 256
    ensures BitsOf(TABLE[i], 32) == ByteRemainder(BitsOf(POLY, 32), i)
  {
    TableRecurrence();
    PolyIsGenerator();
    TableOfRemainders(TABLE, POLY, 32, i);
  }
}
