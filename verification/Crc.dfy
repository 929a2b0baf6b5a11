/** The two checksum loops (crc16.c, crc32.c) against bit-at-a-time division, and their laws. */
module Crc {
  import opened CrcTheory
  import opened CrcBits
  import T16 = Crc16Table
  import T32 = Crc32Table

  // ---------------------------------------------------------------------------------
  // Frames
  // ---------------------------------------------------------------------------------

  /** The bits of a frame in the order they enter the division: byte by byte, lowest bit first. */
  function FrameBits(frame: seq<bv8>): (b: Bits)
    ensures |b| == 8 * |frame|
  {
    if frame == [] then [] else FrameBits(frame[..|frame| - 1]) + ByteBits(frame[|frame| - 1])
  }

  lemma FrameBitsSnoc(frame: seq<bv8>, d: bv8)
    ensures FrameBits(frame + [d]) == FrameBits(frame) + ByteBits(d)
  {
    assert (frame + [d])[..|frame|] == frame;
  }

  lemma {:induction false} FrameBitsConcat(a: seq<bv8>, b: seq<bv8>)
    ensures FrameBits(a + b) == FrameBits(a) + FrameBits(b)
    decreases |b|
  {
    if b == [] {
      assert a + b == a;
    } else {
      var most, last := b[..|b| - 1], b[|b| - 1];
      assert a + b == (a + most) + [last] && b == most + [last];
      FrameBitsSnoc(a + most, last);
      FrameBitsSnoc(most, last);
      FrameBitsConcat(a, most);
    }
  }

  /** A frame with some of its bits flipped. */
  function Flipped(frame: seq<bv8>, error: seq<bv8>): (r: seq<bv8>)
    requires |frame| == |error|
    ensures |r| == |frame|
  {
    seq(|frame|, i requires 0 <= i < |frame| => frame[i] ^ error[i])
  }

  lemma WordXor(d: bv8, e: bv8)
    ensures (d ^ e) as bv32 == (d as bv32) ^ (e as bv32)
  {
  }

  lemma ByteBitsXor(d: bv8, e: bv8, x: bv8)
    requires x == d ^ e
    ensures ByteBits(x) == Xor(ByteBits(d), ByteBits(e))
  {
    WordXor(d, e);
    WordsOfBytesXor(d, e, x, d as bv32, e as bv32, x as bv32);
  }

  lemma WordsOfBytesXor(d: bv8, e: bv8, x: bv8, dw: bv32, ew: bv32, xw: bv32)
    requires dw == d as bv32 && ew == e as bv32 && xw == x as bv32 && xw == dw ^ ew
    ensures ByteBits(x) == Xor(ByteBits(d), ByteBits(e))
  {
    WordOfByte(d, dw, 8);
    WordOfByte(e, ew, 8);
    WordOfByte(x, xw, 8);
    BitsXor(dw, ew, xw, 8);
  }

  lemma XorConcat(a: Bits, b: Bits, c: Bits, d: Bits)
    requires |a| == |c| && |b| == |d|
    ensures Xor(a + b, c + d) == Xor(a, c) + Xor(b, d)
  {
  }

  lemma {:induction false} FlippedBits(frame: seq<bv8>, error: seq<bv8>)
    requires |frame| == |error|
    ensures FrameBits(Flipped(frame, error)) == Xor(FrameBits(frame), FrameBits(error))
    decreases |frame|
  {
    hide ByteBits;
    if frame != [] {
      var n := |frame| - 1;
      FlippedBits(frame[..n], error[..n]);
      assert Flipped(frame, error)[..n] == Flipped(frame[..n], error[..n]);
      ByteBitsXor(frame[n], error[n], Flipped(frame, error)[n]);
      XorConcat(FrameBits(frame[..n]), ByteBits(frame[n]), FrameBits(error[..n]), ByteBits(error[n]));
    }
  }

  // ---------------------------------------------------------------------------------
  // What the checksums are
  // ---------------------------------------------------------------------------------

  function P16(): (p: Bits)
    ensures |p| == 16 && Generator(p)
  {
    T16.PolyIsGenerator();
    BitsOf(T16.POLY, 16)
  }

  function P32(): (p: Bits)
    ensures |p| == 32 && Generator(p)
  {
    T32.PolyIsGenerator();
    BitsOf(T32.POLY, 32)
  }

  /** Division of the frame by 0xA001 (reflected) from a register of ones. */
  ghost predicate IsCrc16(frame: seq<bv8>, crc: bv16) {
    BitsOf(crc as bv32, 16) == InBits(P16(), Ones(16), FrameBits(frame))
  }

  /** Division of the data by 0xEDB88320 (reflected), inverted before and after. */
  ghost predicate IsCrc32(data: seq<bv8>, start: bv32, crc: bv32) {
    BitsOf(!crc, 32) == InBits(P32(), BitsOf(!start, 32), FrameBits(data))
  }

  // ---------------------------------------------------------------------------------
  // The loops
  // ---------------------------------------------------------------------------------

  /** The low byte of a word comes first. */
  lemma LowByteFirst(x: bv32, d: bv8, e: bv32, h: bv32, n: nat)
    requires e == d as bv32 == x & 0xff && h == x >> 8
    ensures BitsOf(x, n + 8) == ByteBits(d) + BitsOf(h, n)
  {
    var z := x ^ e;
    SameLowByte(x, e, z);
    Clear8(z);
    WordOfByte(d, e, 8);
    forall i | 0 <= i < n + 8
      ensures Bit(x, i) == (ByteBits(d) + BitsOf(h, n))[i]
    {
      if i < 8 {
        BitXor(x, e, z, i);
        assert ByteBits(d)[i] == BitsOf(e, 8)[i];
      } else {
        BitShr8(x, h, i - 8);
      }
    }
  }

  lemma SameLowByte(x: bv32, e: bv32, z: bv32)
    requires e == x & 0xff && z == x ^ e
    ensures z & 0xff == 0
  {
  }

  lemma PairBits(hi: bv8, lo: bv8, x: bv32)
    requires x == T16.Pair(hi, lo)
    ensures BitsOf(x, 16) == FrameBits([lo, hi])
  {
    PairHalves(hi, lo, x);
    LowByteFirst(x, lo, lo as bv32, hi as bv32, 8);
    WordOfByte(hi, hi as bv32, 8);
    TwoByteFrame(lo, hi);
  }

  lemma TwoByteFrame(a: bv8, b: bv8)
    ensures FrameBits([a, b]) == ByteBits(a) + ByteBits(b)
  {
    FrameBitsSnoc([], a);
    FrameBitsSnoc([a], b);
    assert [] + [a] == [a] && [a] + [b] == [a, b];
  }

  lemma PairHalves(hi: bv8, lo: bv8, x: bv32)
    requires x == T16.Pair(hi, lo)
    ensures x & 0xff == lo as bv32 && x >> 8 == hi as bv32
  {
  }

  lemma OnesByte()
    ensures ByteBits(0xff) == Ones(8)
  {
    assert NatBits(255, 8) == [true, true, true, true, true, true, true, true];
  }

  /** The bits of the two byte registers of crc16.c read as one register of 16. */
  function Register(hi: bv8, lo: bv8): (r: Bits)
    ensures |r| == 16
  {
    ByteBits(lo) + ByteBits(hi)
  }

  lemma EntryRegister(i: nat)
    requires i < 256
    ensures Register(T16.LO[i], T16.HI[i]) == ByteRemainder(P16(), i)
  {
    T16.EntriesAreRemainders(i);
    PairBits(T16.LO[i], T16.HI[i], T16.TABLE[i]);
    TwoByteFrame(T16.HI[i], T16.LO[i]);
  }

  /** One turn of the loop: the index takes in the byte, then its table entry replaces it and the high byte moves down. */
  lemma RegisterTurn(p: Bits, hi: bv8, lo: bv8, d: bv8, index: bv8, a: bv8, b: bv8, next: bv8)
    requires |p| == 16 && Register(a, b) == ByteRemainder(p, index as nat) && index == lo ^ d && next == hi ^ b
    ensures Register(a, next) == InBits(p, Register(hi, lo), ByteBits(d))
  {
    var z := Zeros(8);
    LoadThenShift(p, Register(hi, lo), ByteBits(d));
    ByteBitsXor(lo, d, index);
    XorConcat(ByteBits(lo), ByteBits(hi), ByteBits(d), z);
    XorZero(ByteBits(hi));
    InTwoParts(p, ByteBits(index), ByteBits(hi), ByteBits(b), ByteBits(a));
    ByteBitsXor(hi, b, next);
  }

  lemma InTwoParts(p: Bits, low: Bits, high: Bits, b: Bits, a: Bits)
    requires |p| == 16 && |low| == |high| == |a| == |b| == 8 && InBits(p, Zeros(16), low) == b + a
    ensures InBits(p, low + high, Zeros(8)) == Xor(high, b) + a
  {
    hide InBits;
    var z := Zeros(8);
    TwoHalves(low, high, b, a, z);
    XorZero(z);
    InBitsLinear(p, low + z, z + high, z, z);
    LoadThenShift(p, Zeros(16), low);
    XorZero(low + z);
    ShiftsDown(p, z + high, 8);
  }

  lemma TwoHalves(low: Bits, high: Bits, b: Bits, a: Bits, z: Bits)
    requires |low| == |high| == |a| == |b| == 8 && z == Zeros(8)
    ensures Xor(low + z, z + high) == low + high && Zeros(16) == Zeros(|low + z|)
    ensures (z + high)[8..] == high && Xor(b + a, high + z) == Xor(high, b) + a
  {
  }

  lemma RegisterWord(hi: bv8, lo: bv8, crc: bv16)
    requires crc == ((hi as bv16) << 8) | (lo as bv16)
    ensures BitsOf(crc as bv32, 16) == Register(hi, lo)
  {
    PairWord(hi, lo, crc);
    PairBits(hi, lo, crc as bv32);
    TwoByteFrame(lo, hi);
  }

  lemma PairWord(hi: bv8, lo: bv8, crc: bv16)
    requires crc == ((hi as bv16) << 8) | (lo as bv16)
    ensures crc as bv32 == T16.Pair(hi, lo)
  {
  }

  lemma Crc16Start()
    ensures Register(0xff, 0xff) == InBits(P16(), Ones(16), FrameBits([]))
  {
    OnesByte();
  }

  lemma Crc16Turn(done: seq<bv8>, hi: bv8, lo: bv8, d: bv8, index: bv8, a: bv8, b: bv8, next: bv8)
    requires Register(hi, lo) == InBits(P16(), Ones(16), FrameBits(done))
    requires index == lo ^ d && Register(a, b) == ByteRemainder(P16(), index as nat) && next == hi ^ b
    ensures Register(a, next) == InBits(P16(), Ones(16), FrameBits(done + [d]))
  {
    RegisterTurn(P16(), hi, lo, d, index, a, b, next);
    OneByteMore(P16(), Ones(16), done, d);
  }

  lemma Crc16End(frame: seq<bv8>, hi: bv8, lo: bv8, crc: bv16)
    requires Register(hi, lo) == InBits(P16(), Ones(16), FrameBits(frame)) && crc == ((hi as bv16) << 8) | (lo as bv16)
    ensures IsCrc16(frame, crc)
  {
    RegisterWord(hi, lo, crc);
  }

  /** The two table reads. */
  method Lookup(index: bv8) returns (hi: bv8, lo: bv8)
    ensures Register(lo, hi) == ByteRemainder(P16(), index as nat)
  {
    hi, lo := T16.HI[index as int], T16.LO[index as int];
    EntryRegister(index as nat);
  }

  method Crc16(frame: array<bv8>, len: nat) returns (crc: bv16)
    requires len <= 0xffff && len <= frame.Length
    ensures IsCrc16(frame[..len], crc)
    ensures len == 0 ==> crc == 0xffff
  {
    var crcHi: bv8, crcLo: bv8 := 0xff, 0xff;
    var at, left := 0, len;
    Crc16Start();
    while left > 0
      invariant at + left == len && (at == 0 ==> crcHi == crcLo == 0xff)
      invariant Register(crcHi, crcLo) == InBits(P16(), Ones(16), FrameBits(frame[..at]))
    {
      left := left - 1;
      var index := crcLo ^ frame[at];
      var fromHi, fromLo := Lookup(index);
      Crc16Turn(frame[..at], crcHi, crcLo, frame[at], index, fromLo, fromHi, crcHi ^ fromHi);
      crcLo := crcHi ^ fromHi;
      crcHi := fromLo;
      assert frame[..at + 1] == frame[..at] + [frame[at]];
      at := at + 1;
    }
    crc := ((crcHi as bv16) << 8) | (crcLo as bv16);
    Crc16End(frame[..len], crcHi, crcLo, crc);
  }

  lemma OneByteMore(p: Bits, r: Bits, frame: seq<bv8>, d: bv8)
    requires |r| == |p| > 0
    ensures InBits(p, r, FrameBits(frame + [d])) == InBits(p, InBits(p, r, FrameBits(frame)), ByteBits(d))
  {
    FrameBitsSnoc(frame, d);
    InBitsConcat(p, r, FrameBits(frame), ByteBits(d));
  }

  lemma Crc32Word(crc: bv32, d: bv8, index: bv8, entry: bv32, next: bv32)
    requires index == ((crc ^ (d as bv32)) & 0xff) as bv8 && next == entry ^ ((crc >> 8) & 0x00ff_ffff)
    ensures index as bv32 == (crc ^ (d as bv32)) & 0xff && next == (crc >> 8) ^ entry
  {
  }

  lemma Crc32Step(crc: bv32, d: bv8, index: bv8, next: bv32)
    requires index == ((crc ^ (d as bv32)) & 0xff) as bv8
    requires next == T32.TABLE[index as int] ^ ((crc >> 8) & 0x00ff_ffff)
    ensures BitsOf(next, 32) == InBits(P32(), BitsOf(crc, 32), ByteBits(d))
  {
    hide BitsOf, InBits, ByteBits, ByteRemainder;
    var e := d as bv32;
    var entry := T32.TABLE[index as int];
    Crc32Word(crc, d, index, entry, next);
    T32.EntriesAreRemainders(index as nat);
    ByteStep(P32(), crc, d, e, crc ^ e, index, entry, crc >> 8, next);
  }

  lemma Inverted(x: bv32)
    ensures x ^ 0xffff_ffff == !x && !(x ^ 0xffff_ffff) == x && !!x == x
  {
  }

  method Crc32(data: array<bv8>, dataLen: int, crc32: bv32) returns (r: bv32)
    requires dataLen <= data.Length
    ensures IsCrc32(data[..if dataLen < 0 then 0 else dataLen], crc32, r)
  {
    var crc := crc32 ^ 0xffff_ffff;
    Inverted(crc32);
    var i := 0;
    while i < dataLen
      invariant 0 <= i && (i <= dataLen || i == 0)
      invariant BitsOf(crc, 32) == InBits(P32(), BitsOf(!crc32, 32), FrameBits(data[..i]))
    {
      var index := ((crc ^ (data[i] as bv32)) & 0xff) as bv8;
      var next := T32.TABLE[index as int] ^ ((crc >> 8) & 0x00ff_ffff);
      Crc32Step(crc, data[i], index, next);
      OneByteMore(P32(), BitsOf(!crc32, 32), data[..i], data[i]);
      assert data[..i + 1] == data[..i] + [data[i]];
      crc := next;
      i := i + 1;
    }
    Inverted(crc);
    r := crc ^ 0xffff_ffff;
  }
}
