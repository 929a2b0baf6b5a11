/** What the checksums of crc16.c and crc32.c are for: uniqueness, error detection, codewords, chaining. */
module CrcLaws {
  import opened CrcTheory
  import opened CrcBits
  import opened Crc
  import T16 = Crc16Table
  import T32 = Crc32Table

  // ---------------------------------------------------------------------------------
  // A frame has one checksum
  // ---------------------------------------------------------------------------------

  lemma Word16(x: bv16, y: bv16)
    ensures x as bv32 <= 0xffff && y as bv32 <= 0xffff
    ensures x as bv32 == y as bv32 ==> x == y
  {
  }

  lemma Crc16Unique(frame: seq<bv8>, a: bv16, b: bv16)
    requires IsCrc16(frame, a) && IsCrc16(frame, b)
    ensures a == b
  {
    Word16(a, b);
    BitsInjective(a as bv32, b as bv32, 16);
  }

  lemma NotInjective(a: bv32, b: bv32)
    requires !a == !b
    ensures a == b
  {
  }

  /** Of no data at all the checksum is the starting value. */
  lemma Crc32OfNothing(start: bv32, crc: bv32)
    ensures IsCrc32([], start, crc) <==> crc == start
  {
    if IsCrc32([], start, crc) {
      Crc32Unique([], start, crc, start);
    }
  }

  lemma Crc32Unique(data: seq<bv8>, start: bv32, a: bv32, b: bv32)
    requires IsCrc32(data, start, a) && IsCrc32(data, start, b)
    ensures a == b
  {
    BitsInjective(!a, !b, 32);
    NotInjective(a, b);
  }

  // ---------------------------------------------------------------------------------
  // Error detection
  // ---------------------------------------------------------------------------------

  /** A nonzero error confined to 16 consecutive bits changes the CRC16 of every frame. */
  lemma Crc16DetectsBursts(frame: seq<bv8>, error: seq<bv8>, a: bv16, b: bv16)
    requires |frame| == |error| && Burst(FrameBits(error), 16)
    requires IsCrc16(frame, a) && IsCrc16(Flipped(frame, error), b)
    ensures a != b
  {
    FlippedBits(frame, error);
    BurstDetected(P16(), Ones(16), FrameBits(frame), FrameBits(error));
  }

  /** A nonzero error confined to 32 consecutive bits changes the CRC32 of all data, whatever the start. */
  lemma Crc32DetectsBursts(data: seq<bv8>, error: seq<bv8>, start: bv32, a: bv32, b: bv32)
    requires |data| == |error| && Burst(FrameBits(error), 32)
    requires IsCrc32(data, start, a) && IsCrc32(Flipped(data, error), start, b)
    ensures a != b
  {
    FlippedBits(data, error);
    BurstDetected(P32(), BitsOf(!start, 32), FrameBits(data), FrameBits(error));
  }

  function NumberParity(k: nat, n: nat): bool {
    n > 0 && (k % 2 == 1) != NumberParity(k / 2, n - 1)
  }

  lemma {:induction false} ParityOfNumber(k: nat, n: nat)
    ensures Parity(NatBits(k, n)) == NumberParity(k, n)
  {
    if n > 0 {
      ParityOfNumber(k / 2, n - 1);
      assert NatBits(k, n)[1..] == NatBits(k / 2, n - 1);
    }
  }

  /** 0xA001 has three bits set. */
  lemma P16IsOdd()
    ensures Parity(P16())
  {
    P16Bytes();
    ParityConcat(ByteBits(0x01), ByteBits(0xA0));
    ParityOfByte(0x01, 0x01);
    ParityOfByte(0xA0, 0xA0);
    OneAndTwo();
  }

  lemma ParityOfByte(d: bv8, k: nat)
    requires d as nat == k
    ensures Parity(ByteBits(d)) == NumberParity(k, 8)
  {
    ParityOfNumber(k, 8);
  }

  lemma OneAndTwo()
    ensures NumberParity(0x01, 8) && !NumberParity(0xA0, 8)
  {
  }

  lemma P16Bytes()
    ensures P16() == ByteBits(0x01) + ByteBits(0xA0)
  {
    PairBits(0xA0, 0x01, T16.POLY);
    TwoByteFrame(0x01, 0xA0);
  }

  lemma OnesAreEven()
    ensures !Parity(Ones(16))
  {
    assert Ones(16) == Ones(8) + Ones(8);
    ParityConcat(Ones(8), Ones(8));
  }

  /** The parity of the CRC16 is the parity of the frame. */
  lemma Crc16Parity(frame: seq<bv8>, crc: bv16)
    requires IsCrc16(frame, crc)
    ensures Parity(BitsOf(crc as bv32, 16)) == Parity(FrameBits(frame))
  {
    P16IsOdd();
    OnesAreEven();
    ParityKept(P16(), Ones(16), FrameBits(frame));
  }

  /** So an error of an odd number of bits, wherever they are, changes the CRC16. */
  lemma Crc16DetectsOddErrors(frame: seq<bv8>, error: seq<bv8>, a: bv16, b: bv16)
    requires |frame| == |error| && Parity(FrameBits(error))
    requires IsCrc16(frame, a) && IsCrc16(Flipped(frame, error), b)
    ensures a != b
  {
    P16IsOdd();
    FlippedBits(frame, error);
    OddErrorDetected(P16(), Ones(16), FrameBits(frame), FrameBits(error));
  }

  // ---------------------------------------------------------------------------------
  // Codewords
  // ---------------------------------------------------------------------------------

  lemma ByteBitsInjective(d: bv8, e: bv8)
    requires ByteBits(d) == ByteBits(e)
    ensures d == e
  {
    WordOfByte(d, d as bv32, 8);
    WordOfByte(e, e as bv32, 8);
    SmallByte(d);
    SmallByte(e);
    BitsInjective(d as bv32, e as bv32, 8);
    NarrowByte(d, e);
  }

  lemma NarrowByte(d: bv8, e: bv8)
    requires d as bv32 == e as bv32
    ensures d == e
  {
  }

  lemma ZeroWord16(crc: bv16)
    ensures BitsOf(crc as bv32, 16) == Zeros(16) <==> crc == 0
  {
    Word16(crc, 0);
    BitsOfZero(16);
    if BitsOf(crc as bv32, 16) == Zeros(16) {
      BitsInjective(crc as bv32, 0, 16);
    }
  }

  lemma SameHalves(a: Bits, b: Bits, c: Bits, d: Bits)
    requires |a| == |c| && |b| == |d|
    ensures a + b == c + d <==> a == c && b == d
  {
    if a + b == c + d {
      assert a == (a + b)[..|a|] == c;
      assert b == (a + b)[|a|..] == d;
    }
  }

  lemma TrailerClears(p: Bits, r: Bits, reg: Bits, b0: bv8, b1: bv8, hi: bv8, lo: bv8)
    requires |p| == |r| == 16 && Generator(p) && reg == Register(hi, lo)
    ensures InBits(p, reg, FrameBits([b0, b1])) == Zeros(16) <==> b0 == lo && b1 == hi
  {
    TwoByteFrame(b0, b1);
    var bits := ByteBits(b0) + ByteBits(b1);
    ClearedBy(p, reg, bits);
    assert bits + Zeros(0) == bits;
    SameHalves(ByteBits(lo), ByteBits(hi), ByteBits(b0), ByteBits(b1));
    if ByteBits(lo) == ByteBits(b0) {
      ByteBitsInjective(lo, b0);
    }
    if ByteBits(hi) == ByteBits(b1) {
      ByteBitsInjective(hi, b1);
    }
  }

  /** A frame with two bytes appended has CRC16 0 exactly when they are its CRC16, low byte first. */
  lemma Crc16Codeword(frame: seq<bv8>, crc: bv16, hi: bv8, lo: bv8, b0: bv8, b1: bv8, total: bv16)
    requires IsCrc16(frame, crc) && crc == ((hi as bv16) << 8) | (lo as bv16)
    requires IsCrc16(frame + [b0, b1], total)
    ensures total == 0 <==> b0 == lo && b1 == hi
  {
    RegisterWord(hi, lo, crc);
    FrameBitsConcat(frame, [b0, b1]);
    InBitsConcat(P16(), Ones(16), FrameBits(frame), FrameBits([b0, b1]));
    TrailerClears(P16(), Ones(16), Register(hi, lo), b0, b1, hi, lo);
    ZeroWord16(total);
  }

  /** A codeword hit by a burst, in its data or in its checksum, is no longer a codeword. */
  lemma Crc16CodewordBurst(word: seq<bv8>, error: seq<bv8>, got: bv16)
    requires |word| == |error| && Burst(FrameBits(error), 16)
    requires IsCrc16(word, 0) && IsCrc16(Flipped(word, error), got)
    ensures got != 0
  {
    Crc16DetectsBursts(word, error, 0, got);
  }

  /** Checksumming piece by piece: the result for the first piece starts the second. */
  lemma Crc32Chains(a: seq<bv8>, b: seq<bv8>, start: bv32, middle: bv32, r: bv32)
    requires IsCrc32(a, start, middle)
    ensures IsCrc32(a + b, start, r) <==> IsCrc32(b, middle, r)
  {
    FrameBitsConcat(a, b);
    InBitsConcat(P32(), BitsOf(!start, 32), FrameBits(a), FrameBits(b));
  }

  /** A word's four bytes, lowest first. */
  ghost predicate LittleEndian(x: bv32, b: seq<bv8>) {
    |b| == 4 && x == (b[0] as bv32) | ((b[1] as bv32) << 8) | ((b[2] as bv32) << 16) | ((b[3] as bv32) << 24)
  }

  lemma SplitWord(x: bv32, b: seq<bv8>) returns (x1: bv32, x2: bv32, x3: bv32, e0: bv32, e1: bv32, e2: bv32)
    requires LittleEndian(x, b)
    ensures x1 == x >> 8 && x2 == x1 >> 8 && x3 == x2 >> 8 && x3 == b[3] as bv32
    ensures e0 == b[0] as bv32 == x & 0xff && e1 == b[1] as bv32 == x1 & 0xff && e2 == b[2] as bv32 == x2 & 0xff
  {
    x1 := x >> 8;
    x2 := x1 >> 8;
    x3 := x2 >> 8;
    e0, e1, e2 := b[0] as bv32, b[1] as bv32, b[2] as bv32;
  }

  lemma WordBits(x: bv32, b: seq<bv8>)
    requires LittleEndian(x, b)
    ensures BitsOf(x, 32) == FrameBits(b)
  {
    var x1, x2, x3, e0, e1, e2 := SplitWord(x, b);
    assert b == [b[0], b[1], b[2], b[3]];
    PiecesBits(x, x1, x2, x3, e0, e1, e2, b[0], b[1], b[2], b[3]);
  }

  lemma PiecesBits(x: bv32, x1: bv32, x2: bv32, x3: bv32, e0: bv32, e1: bv32, e2: bv32, b0: bv8, b1: bv8, b2: bv8, b3: bv8)
    requires x1 == x >> 8 && x2 == x1 >> 8 && x3 == x2 >> 8 && x3 == b3 as bv32
    requires e0 == b0 as bv32 == x & 0xff && e1 == b1 as bv32 == x1 & 0xff && e2 == b2 as bv32 == x2 & 0xff
    ensures BitsOf(x, 32) == FrameBits([b0, b1, b2, b3])
  {
    hide BitsOf, FrameBits;
    LowByteFirst(x, b0, e0, x1, 24);
    LowByteFirst(x1, b1, e1, x2, 16);
    LowByteFirst(x2, b2, e2, x3, 8);
    WordOfByte(b3, x3, 8);
    FourByteFrame(b0, b1, b2, b3);
    FourParts(BitsOf(x, 32), BitsOf(x1, 24), BitsOf(x2, 16), ByteBits(b0), ByteBits(b1), ByteBits(b2), ByteBits(b3));
  }

  lemma FourByteFrame(a: bv8, b: bv8, c: bv8, d: bv8)
    ensures FrameBits([a, b, c, d]) == (ByteBits(a) + ByteBits(b)) + (ByteBits(c) + ByteBits(d))
  {
    TwoByteFrame(a, b);
    TwoByteFrame(c, d);
    FrameBitsConcat([a, b], [c, d]);
    assert [a, b, c, d] == [a, b] + [c, d];
  }

  lemma FourParts(x: Bits, x1: Bits, x2: Bits, a: Bits, b: Bits, c: Bits, d: Bits)
    requires x == a + x1 && x1 == b + x2 && x2 == c + d
    ensures x == (a + b) + (c + d)
  {
  }

  // 32 ones through an empty register, a byte at a time.

  lemma OnesStep(p: Bits, x: bv32, e: bv32, z: bv32, index: bv8, entry: bv32, h: bv32, next: bv32)
    requires |p| == 32 && BitsOf(entry, 32) == ByteRemainder(p, index as nat)
    requires e == 0xff && z == x ^ e && index as bv32 == z & 0xff && h == x >> 8 && next == h ^ entry
    ensures BitsOf(next, 32) == InBits(p, BitsOf(x, 32), Ones(8))
  {
    OnesByte();
    ByteStep(p, x, 0xff, e, z, index, entry, h, next);
  }

  lemma OnesEntry(i: nat, entry: bv32)
    requires i < 256 && entry == T32.TABLE[i]
    ensures BitsOf(entry, 32) == ByteRemainder(P32(), i)
  {
    T32.EntriesAreRemainders(i);
  }

  lemma FirstOnes()
    ensures InBits(P32(), BitsOf(0, 32), Ones(8)) == BitsOf(0x2D02EF8D, 32)
  {
    OnesEntry(0xff, 0x2D02EF8D);
    OnesStep(P32(), 0, 0xff, 0xff, 0xff, 0x2D02EF8D, 0, 0x2D02EF8D);
  }

  lemma SecondOnes()
    ensures InBits(P32(), BitsOf(0x2D02EF8D, 32), Ones(8)) == BitsOf(0xBE2612FF, 32)
  {
    OnesEntry(0x72, 0xBE0B1010);
    OnesStep(P32(), 0x2D02EF8D, 0xff, 0x2D02EF72, 0x72, 0xBE0B1010, 0x2D02EF, 0xBE2612FF);
  }

  lemma ThirdOnes()
    ensures InBits(P32(), BitsOf(0xBE2612FF, 32), Ones(8)) == BitsOf(0xBE2612, 32)
  {
    OnesEntry(0x00, 0);
    OnesStep(P32(), 0xBE2612FF, 0xff, 0xBE261200, 0x00, 0, 0xBE2612, 0xBE2612);
  }

  lemma FourthOnes()
    ensures InBits(P32(), BitsOf(0xBE2612, 32), Ones(8)) == BitsOf(0xDEBB20E3, 32)
  {
    OnesEntry(0xED, 0xDEBB9EC5);
    OnesStep(P32(), 0xBE2612, 0xff, 0xBE26ED, 0xED, 0xDEBB9EC5, 0xBE26, 0xDEBB20E3);
  }

  lemma OnesThrough()
    ensures InBits(P32(), Zeros(32), Ones(32)) == BitsOf(0xDEBB20E3, 32)
  {
    hide InBits, BitsOf;
    var one := Ones(8);
    BitsOfZero(32);
    FirstOnes();
    SecondOnes();
    ThirdOnes();
    FourthOnes();
    InFourParts(P32(), Zeros(32), one);
    assert Ones(32) == one + one + one + one;
  }

  lemma InFourParts(p: Bits, r: Bits, part: Bits)
    requires |r| == |p| > 0
    ensures InBits(p, r, part + part + part + part) == InBits(p, InBits(p, InBits(p, InBits(p, r, part), part), part), part)
  {
    InBitsConcat(p, r, part + part + part, part);
    InBitsConcat(p, r, part + part, part);
    InBitsConcat(p, r, part, part);
  }

  /** Fed with a word of bits, a register reaches the residue exactly when they are its own bits inverted. */
  lemma ResidueIff(p: Bits, r: Bits, bits: Bits)
    requires Generator(p) && |r| == |bits| == |p|
    ensures InBits(p, r, bits) == InBits(p, Zeros(|p|), Ones(|p|)) <==> bits == Xor(r, Ones(|p|))
  {
    if bits == Xor(r, Ones(|p|)) {
      InvertedBitsResidue(p, r);
    }
    if InBits(p, r, bits) == InBits(p, Zeros(|p|), Ones(|p|)) {
      OnlyInverted(p, r, bits, Ones(|p|));
    }
  }

  lemma OnlyInverted(p: Bits, r: Bits, bits: Bits, ones: Bits)
    requires Generator(p) && |r| == |bits| == |ones| == |p| && InBits(p, r, bits) == InBits(p, Zeros(|p|), ones)
    ensures bits == Xor(r, ones)
  {
    var other := Xor(bits, ones);
    InBitsLinear(p, r, Zeros(|p|), bits, ones);
    XorZero(r);
    XorSelfBits(InBits(p, r, bits));
    ClearedExactly(p, r, other);
    XorBack(bits, ones);
  }

  lemma ClearedExactly(p: Bits, r: Bits, bits: Bits)
    requires Generator(p) && |r| == |bits| == |p| && InBits(p, r, bits) == Zeros(|p|)
    ensures r == bits
  {
    ClearedBy(p, r, bits);
    assert bits + Zeros(0) == bits;
  }

  lemma XorBack(a: Bits, b: Bits)
    requires |a| == |b|
    ensures Xor(Xor(a, b), b) == a
  {
  }

  lemma XorSelfBits(a: Bits)
    ensures Xor(a, a) == Zeros(|a|)
  {
  }

  lemma NotBits(x: bv32, y: bv32)
    requires y == x ^ 0xffff_ffff
    ensures y == !x && BitsOf(y, 32) == Xor(BitsOf(x, 32), Ones(32))
  {
    AllOnes32();
    BitsXor(x, 0xffff_ffff, y, 32);
  }

  lemma AllOnes32()
    ensures BitsOf(0xffff_ffff, 32) == Ones(32)
  {
    WordBits(0xffff_ffff, [0xff, 0xff, 0xff, 0xff]);
    TwoByteFrame(0xff, 0xff);
    FrameBitsConcat([0xff, 0xff], [0xff, 0xff]);
    assert [0xff, 0xff, 0xff, 0xff] == [0xff as bv8, 0xff] + [0xff, 0xff];
    OnesByte();
  }

  /**
   * Data followed by a word, lowest byte first, has CRC32 0x2144DF1C exactly when the word is
   * the data's own CRC32. It holds from every starting value.
   */
  lemma Crc32Residue(data: seq<bv8>, start: bv32, crc: bv32, word: bv32, tail: seq<bv8>, total: bv32)
    requires IsCrc32(data, start, crc) && LittleEndian(word, tail) && IsCrc32(data + tail, start, total)
    ensures total == 0x2144_DF1C <==> word == crc
  {
    var p, r := P32(), BitsOf(!crc, 32);
    WordBits(word, tail);
    FrameBitsConcat(data, tail);
    InBitsConcat(p, BitsOf(!start, 32), FrameBits(data), FrameBits(tail));
    ResidueIff(p, r, BitsOf(word, 32));
    OnesThrough();
    NotBack(crc, total);
    NotBits(!crc, crc);
    if word != crc && BitsOf(word, 32) == BitsOf(crc, 32) {
      BitsInjective(word, crc, 32);
    }
    if BitsOf(!total, 32) == BitsOf(0xDEBB_20E3, 32) {
      BitsInjective(!total, 0xDEBB_20E3, 32);
    }
  }

  lemma NotBack(crc: bv32, total: bv32)
    ensures crc == !crc ^ 0xffff_ffff && (!total == 0xDEBB_20E3 <==> total == 0x2144_DF1C)
  {
  }
}
