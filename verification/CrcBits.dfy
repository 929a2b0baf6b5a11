/** Machine words as bit sequences, and what a table of byte remainders must satisfy. */
module CrcBits {
  import opened CrcTheory

  function Half(x: bv32): bv32 { x >> 1 }

  function Low(x: bv32): bool { x & 1 == 1 }

  function Bit(x: bv32, i: nat): bool {
    if i == 0 then Low(x) else Bit(Half(x), i - 1)
  }

  /** The n low bits, lowest first. */
  function BitsOf(x: bv32, n: nat): (b: Bits)
    ensures |b| == n && forall i :: 0 <= i < n ==> b[i] == Bit(x, i)
  {
    seq(n, i requires 0 <= i < n => Bit(x, i))
  }

  // ---------------------------------------------------------------------------------
  // Bits under xor and shift. Results are parameters: the solver is much slower on the
  // bits of a compound word than on those of a named one.
  // ---------------------------------------------------------------------------------

  lemma HalfXor(x: bv32, y: bv32)
    ensures Half(x ^ y) == Half(x) ^ Half(y)
  {
  }

  lemma LowXor(x: bv32, y: bv32)
    ensures Low(x ^ y) == (Low(x) != Low(y))
  {
    assert x & 1 == 0 || x & 1 == 1;
    assert y & 1 == 0 || y & 1 == 1;
    assert (x ^ y) & 1 == (x & 1) ^ (y & 1);
  }

  lemma {:induction false} BitXor(x: bv32, y: bv32, z: bv32, i: nat)
    requires z == x ^ y
    ensures Bit(z, i) == (Bit(x, i) != Bit(y, i))
    decreases i
  {
    if i == 0 {
      LowXor(x, y);
    } else {
      HalfXor(x, y);
      BitXor(Half(x), Half(y), Half(z), i - 1);
    }
  }

  lemma BitsXor(x: bv32, y: bv32, z: bv32, n: nat)
    requires z == x ^ y
    ensures BitsOf(z, n) == Xor(BitsOf(x, n), BitsOf(y, n))
  {
    forall i | 0 <= i < n
      ensures BitsOf(z, n)[i] == Xor(BitsOf(x, n), BitsOf(y, n))[i]
    {
      BitXor(x, y, z, i);
    }
  }

  lemma {:induction false} BitOfZero(x: bv32, i: nat)
    requires x == 0
    ensures !Bit(x, i)
  {
    if i > 0 {
      BitOfZero(Half(x), i - 1);
    }
  }

  lemma BitsOfZero(n: nat)
    ensures BitsOf(0, n) == Zeros(n)
  {
    forall i | 0 <= i < n
      ensures !BitsOf(0, n)[i]
    {
      BitOfZero(0, i);
    }
  }

  lemma BitStep(x: bv32, y: bv32, i: nat)
    requires y == x >> 1
    ensures Bit(x, i + 1) == Bit(y, i)
  {
  }

  // Shifting by more is shifting twice by half as much.

  lemma BitShr2(x: bv32, y: bv32, i: nat)
    requires y == x >> 2
    ensures Bit(x, i + 2) == Bit(y, i)
  {
    assert x >> 1 >> 1 == x >> 2;
    BitStep(x, x >> 1, i + 1);
    BitStep(x >> 1, y, i);
  }

  lemma BitShr4(x: bv32, y: bv32, i: nat)
    requires y == x >> 4
    ensures Bit(x, i + 4) == Bit(y, i)
  {
    assert x >> 2 >> 2 == x >> 4;
    BitShr2(x, x >> 2, i + 2);
    BitShr2(x >> 2, y, i);
  }

  lemma BitShr8(x: bv32, y: bv32, i: nat)
    requires y == x >> 8
    ensures Bit(x, i + 8) == Bit(y, i)
  {
    assert x >> 4 >> 4 == x >> 8;
    BitShr4(x, x >> 4, i + 4);
    BitShr4(x >> 4, y, i);
  }

  lemma BitShr16(x: bv32, y: bv32, i: nat)
    requires y == x >> 16
    ensures Bit(x, i + 16) == Bit(y, i)
  {
    assert x >> 8 >> 8 == x >> 16;
    BitShr8(x, x >> 8, i + 8);
    BitShr8(x >> 8, y, i);
  }

  // A word's n low bits are clear exactly when masking them out leaves 0.

  ghost predicate Clear(x: bv32, n: nat) {
    forall i :: 0 <= i < n ==> !Bit(x, i)
  }

  lemma ClearHalves(x: bv32, y: bv32, n: nat)
    requires forall i: nat :: Bit(x, i + n) == Bit(y, i)
    ensures Clear(x, 2 * n) <==> Clear(x, n) && Clear(y, n)
  {
    if Clear(x, n) && Clear(y, n) {
      forall i: nat | n <= i < 2 * n
        ensures !Bit(x, i)
      {
        assert Bit(x, (i - n) + n) == Bit(y, i - n);
      }
    }
    if Clear(x, 2 * n) {
      forall i: nat | i < n
        ensures !Bit(y, i)
      {
        assert Bit(x, i + n) == Bit(y, i);
      }
    }
  }

  lemma Clear1(x: bv32)
    ensures Clear(x, 1) <==> !Low(x)
  {
    assert Bit(x, 0) == Low(x);
  }

  lemma Clear2(x: bv32)
    ensures Clear(x, 2) <==> x & 3 == 0
  {
    var y := x >> 1;
    forall i: nat
      ensures Bit(x, i + 1) == Bit(y, i)
    {
      BitStep(x, y, i);
    }
    ClearHalves(x, y, 1);
    Clear1(x);
    Clear1(y);
    assert !Low(x) && !Low(y) <==> x & 3 == 0;
  }

  lemma Clear4(x: bv32)
    ensures Clear(x, 4) <==> x & 0xf == 0
  {
    var y := x >> 2;
    forall i: nat
      ensures Bit(x, i + 2) == Bit(y, i)
    {
      BitShr2(x, y, i);
    }
    ClearHalves(x, y, 2);
    Clear2(x);
    Clear2(y);
    assert x & 3 == 0 && (y) & 3 == 0 <==> x & 0xf == 0;
  }

  lemma Clear8(x: bv32)
    ensures Clear(x, 8) <==> x & 0xff == 0
  {
    var y := x >> 4;
    forall i: nat
      ensures Bit(x, i + 4) == Bit(y, i)
    {
      BitShr4(x, y, i);
    }
    ClearHalves(x, y, 4);
    Clear4(x);
    Clear4(y);
    assert x & 0xf == 0 && (y) & 0xf == 0 <==> x & 0xff == 0;
  }

  lemma Clear16(x: bv32)
    ensures Clear(x, 16) <==> x & 0xffff == 0
  {
    var y := x >> 8;
    forall i: nat
      ensures Bit(x, i + 8) == Bit(y, i)
    {
      BitShr8(x, y, i);
    }
    ClearHalves(x, y, 8);
    Clear8(x);
    Clear8(y);
    assert x & 0xff == 0 && (y) & 0xff == 0 <==> x & 0xffff == 0;
  }

  lemma Clear32(x: bv32)
    ensures Clear(x, 32) <==> x == 0
  {
    var y := x >> 16;
    forall i: nat
      ensures Bit(x, i + 16) == Bit(y, i)
    {
      BitShr16(x, y, i);
    }
    ClearHalves(x, y, 16);
    Clear16(x);
    Clear16(y);
    assert x & 0xffff == 0 && (y) & 0xffff == 0 <==> x == 0;
  }

  /** How many low bits can be set. */
  ghost predicate Fits(x: bv32, n: nat) {
    (n == 8 && x <= 0xff) || (n == 16 && x <= 0xffff) || n == 32
  }

  lemma BitsAbove8(x: bv32, i: nat)
    requires x <= 0xff && i >= 8
    ensures !Bit(x, i)
  {
    BitShr8(x, 0, i - 8);
    BitOfZero(0, i - 8);
  }

  lemma BitsAbove16(x: bv32, i: nat)
    requires x <= 0xffff && i >= 16
    ensures !Bit(x, i)
  {
    var y := x >> 8;
    BitShr8(x, y, i - 8);
    BitsAbove8(y, i - 8);
  }

  lemma BitsAbove32(x: bv32, i: nat)
    requires i >= 32
    ensures !Bit(x, i)
  {
    var y := x >> 8;
    var z := y >> 8;
    BitShr8(x, y, i - 8);
    BitShr8(y, z, i - 16);
    BitsAbove16(z, i - 16);
  }

  lemma BitsAbove(x: bv32, n: nat, i: nat)
    requires Fits(x, n) && i >= n
    ensures !Bit(x, i)
  {
    if n == 8 {
      BitsAbove8(x, i);
    } else if n == 16 {
      BitsAbove16(x, i);
    } else {
      BitsAbove32(x, i);
    }
  }

  lemma BitsWiden(x: bv32, n: nat, w: nat)
    requires Fits(x, n) && n <= w
    ensures BitsOf(x, w) == BitsOf(x, n) + Zeros(w - n)
  {
    forall i | n <= i < w
      ensures !BitsOf(x, w)[i]
    {
      BitsAbove(x, n, i);
    }
  }

  lemma BitsShr1(x: bv32, y: bv32, n: nat)
    requires Fits(x, n) && y == x >> 1
    ensures BitsOf(y, n) == BitsOf(x, n)[1..] + [false]
  {
    forall i | 0 <= i < n
      ensures BitsOf(y, n)[i] == (BitsOf(x, n)[1..] + [false])[i]
    {
      BitStep(x, y, i);
      if i == n - 1 {
        BitsAbove(x, n, n);
      }
    }
  }

  lemma BitsShr8(x: bv32, y: bv32, n: nat)
    requires Fits(x, n) && y == x >> 8
    ensures BitsOf(y, n) == BitsOf(x, n)[8..] + Zeros(8)
  {
    forall i | 0 <= i < n
      ensures BitsOf(y, n)[i] == (BitsOf(x, n)[8..] + Zeros(8))[i]
    {
      BitShr8(x, y, i);
      if i + 8 >= n {
        BitsAbove(x, n, i + 8);
      }
    }
  }

  /** The bits determine the word. */
  lemma BitsInjective(x: bv32, y: bv32, n: nat)
    requires Fits(x, n) && Fits(y, n) && BitsOf(x, n) == BitsOf(y, n)
    ensures x == y
  {
    var z := x ^ y;
    forall i: nat | i < 32
      ensures !Bit(z, i)
    {
      BitXor(x, y, z, i);
      if i >= n {
        BitsAbove(x, n, i);
        BitsAbove(y, n, i);
      } else {
        assert BitsOf(x, n)[i] == BitsOf(y, n)[i];
      }
    }
    Clear32(z);
    XorSelf(x, y);
  }

  lemma XorSelf(x: bv32, y: bv32)
    requires x ^ y == 0
    ensures x == y
  {
  }

  // ---------------------------------------------------------------------------------
  // Shifting a word
  // ---------------------------------------------------------------------------------

  /** One step of the division on a word. */
  function ShiftWord(poly: bv32, x: bv32): bv32 {
    if Low(x) then Half(x) ^ poly else Half(x)
  }

  lemma ShiftWordBits(poly: bv32, x: bv32, y: bv32, w: nat)
    requires Fits(x, w) && w > 0 && y == ShiftWord(poly, x)
    ensures BitsOf(y, w) == Shift(BitsOf(poly, w), BitsOf(x, w))
  {
    var h := Half(x);
    BitsShr1(x, h, w);
    assert BitsOf(x, w)[0] == Bit(x, 0) == Low(x);
    if Low(x) {
      BitsXor(h, poly, y, w);
    }
  }

  // ---------------------------------------------------------------------------------
  // Bytes
  // ---------------------------------------------------------------------------------

  /** The bits of a number, lowest first. */
  function NatBits(i: nat, n: nat): (b: Bits)
    ensures |b| == n
  {
    if n == 0 then [] else [i % 2 == 1] + NatBits(i / 2, n - 1)
  }

  function ByteBits(d: bv8): (b: Bits)
    ensures |b| == 8
  {
    NatBits(d as nat, 8)
  }

  lemma HalfByte(d: bv8, h: bv8)
    requires h == d >> 1
    ensures h as nat == (d as nat) / 2 && h as bv32 == Half(d as bv32)
    ensures Low(d as bv32) <==> (d as nat) % 2 == 1
  {
    assert (d & 1 == 1) == ((d as nat) % 2 == 1);
    assert ((d as bv32) & 1 == 1) == (d & 1 == 1);
  }

  lemma {:induction false} WordOfByte(d: bv8, x: bv32, n: nat)
    requires x == d as bv32
    ensures BitsOf(x, n) == NatBits(d as nat, n)
    decreases n
  {
    if n > 0 {
      var h := d >> 1;
      HalfByte(d, h);
      WordOfByte(h, Half(x), n - 1);
      SameFirst(x, d as nat, n);
    }
  }

  lemma SameFirst(x: bv32, k: nat, n: nat)
    requires n > 0 && (Low(x) <==> k % 2 == 1) && BitsOf(Half(x), n - 1) == NatBits(k / 2, n - 1)
    ensures BitsOf(x, n) == NatBits(k, n)
  {
    hide BitsOf, Low, Half;
    BitsCons(x, n);
  }

  lemma BitsCons(x: bv32, n: nat)
    requires n > 0
    ensures BitsOf(x, n) == [Low(x)] + BitsOf(Half(x), n - 1)
  {
    forall i | 0 <= i < n
      ensures BitsOf(x, n)[i] == ([Low(x)] + BitsOf(Half(x), n - 1))[i]
    {
      if i > 0 {
        BitStep(x, Half(x), i - 1);
      }
    }
  }

  // ---------------------------------------------------------------------------------
  // Tables of byte remainders
  // ---------------------------------------------------------------------------------

  /** What a byte leaves in an empty register. */
  function ByteRemainder(p: Bits, i: nat): (r: Bits)
    requires |p| > 0
    ensures |r| == |p|
  {
    InBits(p, Zeros(|p|), NatBits(i, 8))
  }

  /** How the entries of a table hang together: each is twice-the-index shifted, odd ones add entry 1. */
  ghost predicate Recurrence(t: seq<bv32>, poly: bv32) {
    && |t| == 256 && t[0] == 0 && t[128] == poly
    && (forall j :: 0 <= j < 128 ==> t[j] == ShiftWord(poly, t[2 * j]))
    && (forall j :: 0 <= j < 128 ==> t[2 * j + 1] == t[2 * j] ^ t[1])
  }

  lemma {:induction false} AddTopBit(i: nat, n: nat)
    requires i < Pow2(n)
    ensures NatBits(i, n + 1) == NatBits(i, n) + [false]
  {
    if n > 0 {
      AddTopBit(i / 2, n - 1);
    }
  }

  function Pow2(n: nat): nat {
    if n == 0 then 1 else 2 * Pow2(n - 1)
  }

  lemma ShiftInjective(p: Bits, r: Bits, s: Bits)
    requires Generator(p) && |r| == |s| == |p| && Shift(p, r) == Shift(p, s)
    ensures r == s
  {
    ShiftLinear(p, r, s);
    assert Xor(Shift(p, r), Shift(p, s)) == Zeros(|p|);
    ShiftZero(p, Xor(r, s));
    forall i | 0 <= i < |r|
      ensures r[i] == s[i]
    {
      assert Xor(r, s)[i] == Zeros(|p|)[i];
    }
  }

  /** Halving a byte shifts its remainder. */
  lemma RemainderOfHalf(p: Bits, j: nat)
    requires Generator(p) && j < 128
    ensures ByteRemainder(p, j) == Shift(p, ByteRemainder(p, 2 * j))
  {
    var z := Zeros(|p|);
    var low := NatBits(j, 7);
    assert Pow2(7) == 128;
    AddTopBit(j, 7);
    InBitsConcat(p, z, low, [false]);
    var r := InBits(p, z, low);
    assert InBits(p, r, [false]) == Shift(p, r) by {
      assert r[0 := r[0] != false] == r && [false][1..] == [];
    }
    assert NatBits(2 * j, 8) == [false] + low;
    ShiftZero(p, z);
    assert z[0 := z[0] != false] == z;
  }

  lemma RemainderOfOdd(p: Bits, j: nat)
    requires |p| > 0 && j < 128
    ensures ByteRemainder(p, 2 * j + 1) == Xor(ByteRemainder(p, 2 * j), ByteRemainder(p, 1))
  {
    InBitsLinear(p, Zeros(|p|), Zeros(|p|), NatBits(2 * j, 8), NatBits(1, 8));
    assert Xor(Zeros(|p|), Zeros(|p|)) == Zeros(|p|);
    NatBitsOfOne(j, 7);
  }

  lemma NatBitsCons(k: nat, h: nat, low: bool, n: nat)
    requires k == 2 * h + if low then 1 else 0
    ensures NatBits(k, n + 1) == [low] + NatBits(h, n)
  {
  }

  lemma NatBitsOfOne(j: nat, n: nat)
    ensures NatBits(2 * j + 1, n + 1) == Xor(NatBits(2 * j, n + 1), NatBits(1, n + 1))
  {
    ZeroBits(n);
    NatBitsCons(2 * j + 1, j, true, n);
    NatBitsCons(2 * j, j, false, n);
    NatBitsCons(1, 0, true, n);
    assert Xor([false] + NatBits(j, n), [true] + Zeros(n)) == [true] + Xor(NatBits(j, n), Zeros(n));
    XorZero(NatBits(j, n));
  }

  lemma {:induction false} ZeroBits(n: nat)
    ensures NatBits(0, n) == Zeros(n)
  {
    if n > 0 {
      ZeroBits(n - 1);
    }
  }

  /** The highest bit alone leaves the polynomial. */
  lemma RemainderOf128(p: Bits)
    requires Generator(p)
    ensures ByteRemainder(p, 128) == p
  {
    var z := Zeros(|p|);
    TopBitOnly(7);
    assert Pow2(7) == 128;
    InBitsConcat(p, z, Zeros(7), [true]);
    ZerosKeepZero(p, z, 7);
    var one := z[0 := true];
    assert one[1..] + [false] == z;
    XorZero(p);
    assert [true][1..] == [];
  }

  lemma {:induction false} TopBitOnly(n: nat)
    ensures NatBits(Pow2(n), n + 1) == Zeros(n) + [true]
  {
    if n > 0 {
      TopBitOnly(n - 1);
      assert Zeros(n) == [false] + Zeros(n - 1);
    } else {
      assert NatBits(1, 1) == [true] + NatBits(0, 0);
    }
  }

  ghost predicate EntryRight(t: seq<bv32>, poly: bv32, w: nat, i: nat)
    requires w > 0
  {
    i < |t| && BitsOf(t[i], w) == ByteRemainder(BitsOf(poly, w), i)
  }

  ghost predicate AllFit(t: seq<bv32>, w: nat) {
    forall i :: 0 <= i < |t| ==> Fits(t[i], w)
  }

  lemma EntryDown(t: seq<bv32>, poly: bv32, w: nat, j: nat)
    requires w > 0 && Recurrence(t, poly) && AllFit(t, w) && Generator(BitsOf(poly, w)) && j < 128
    ensures EntryRight(t, poly, w, 2 * j) <==> EntryRight(t, poly, w, j)
  {
    var p := BitsOf(poly, w);
    ShiftWordBits(poly, t[2 * j], t[j], w);
    RemainderOfHalf(p, j);
    if EntryRight(t, poly, w, j) {
      ShiftInjective(p, BitsOf(t[2 * j], w), ByteRemainder(p, 2 * j));
    }
  }

  lemma EntryOne(t: seq<bv32>, poly: bv32, w: nat)
    requires w > 0 && Recurrence(t, poly) && AllFit(t, w) && Generator(BitsOf(poly, w))
    ensures EntryRight(t, poly, w, 1)
  {
    RemainderOf128(BitsOf(poly, w));
    EntryDown(t, poly, w, 64);
    EntryDown(t, poly, w, 32);
    EntryDown(t, poly, w, 16);
    EntryDown(t, poly, w, 8);
    EntryDown(t, poly, w, 4);
    EntryDown(t, poly, w, 2);
    EntryDown(t, poly, w, 1);
  }

  lemma OddEntry(p: Bits, j: nat, even: bv32, one: bv32, odd: bv32)
    requires |p| > 0 && j < 128 && odd == even ^ one
    requires BitsOf(even, |p|) == ByteRemainder(p, 2 * j) && BitsOf(one, |p|) == ByteRemainder(p, 1)
    ensures BitsOf(odd, |p|) == ByteRemainder(p, 2 * j + 1)
  {
    BitsXor(even, one, odd, |p|);
    RemainderOfOdd(p, j);
  }

  lemma EntryOdd(t: seq<bv32>, poly: bv32, w: nat, j: nat)
    requires w > 0 && Recurrence(t, poly) && AllFit(t, w) && Generator(BitsOf(poly, w)) && j < 128
    requires EntryRight(t, poly, w, 2 * j)
    ensures EntryRight(t, poly, w, 2 * j + 1)
  {
    EntryOne(t, poly, w);
    OddEntry(BitsOf(poly, w), j, t[2 * j], t[1], t[2 * j + 1]);
  }

  lemma EntryZero(t: seq<bv32>, poly: bv32, w: nat)
    requires w > 0 && Recurrence(t, poly) && Generator(BitsOf(poly, w))
    ensures EntryRight(t, poly, w, 0)
  {
    ZeroBits(8);
    ZerosKeepZero(BitsOf(poly, w), Zeros(w), 8);
    BitsOfZero(w);
  }

  lemma BothEntries(t: seq<bv32>, poly: bv32, w: nat, j: nat)
    requires w > 0 && Recurrence(t, poly) && AllFit(t, w) && Generator(BitsOf(poly, w)) && j < 128
    requires EntryRight(t, poly, w, j)
    ensures EntryRight(t, poly, w, 2 * j) && EntryRight(t, poly, w, 2 * j + 1)
  {
    EntryDown(t, poly, w, j);
    EntryOdd(t, poly, w, j);
  }

  /** A table with that recurrence holds the remainder of each of the 256 bytes: eight bit steps an entry. */
  lemma {:induction false} TableOfRemainders(t: seq<bv32>, poly: bv32, w: nat, i: nat)
    requires w > 0 && Recurrence(t, poly) && AllFit(t, w) && Generator(BitsOf(poly, w)) && i < 256
    ensures EntryRight(t, poly, w, i)
    decreases i
  {
    if i == 0 {
      EntryZero(t, poly, w);
    } else {
      var j := i / 2;
      assert i == 2 * j || i == 2 * j + 1;
      TableOfRemainders(t, poly, w, j);
      BothEntries(t, poly, w, j);
    }
  }

  /**
   * The table step on a word is eight bit steps with the bits of the byte: x is the register,
   * d the byte (e as a word), z = x ^ e, i the index into the table (the low byte of z), ti its
   * entry, h = x >> 8 and y = h ^ ti the new register.
   */
  lemma ByteStep(p: Bits, x: bv32, d: bv8, e: bv32, z: bv32, i: bv8, ti: bv32, h: bv32, y: bv32)
    requires (|p| == 16 || |p| == 32) && Fits(x, |p|) && BitsOf(ti, |p|) == ByteRemainder(p, i as nat)
    requires e == d as bv32 && z == x ^ e && i as bv32 == z & 0xff && h == x >> 8 && y == h ^ ti
    ensures BitsOf(y, |p|) == InBits(p, BitsOf(x, |p|), ByteBits(d))
  {
    var high := z & 0xffff_ff00;
    HighBits(x, d, e, z, high, h);
    LoadByte(p, x, d, e, z, |p|);
    EightZeros(p, z, i, ti, high, h, y);
  }

  lemma HighBits(x: bv32, d: bv8, e: bv32, z: bv32, high: bv32, h: bv32)
    requires e == d as bv32 && z == x ^ e && high == z & 0xffff_ff00 && h == x >> 8
    ensures h == high >> 8
    ensures x <= 0xffff ==> high <= 0xffff
  {
    HighShift(x, d);
    HighSmall(x, d);
  }

  lemma HighShift(x: bv32, d: bv8)
    ensures ((x ^ (d as bv32)) & 0xffff_ff00) >> 8 == x >> 8
  {
  }

  lemma HighSmall(x: bv32, d: bv8)
    ensures x <= 0xffff ==> (x ^ (d as bv32)) & 0xffff_ff00 <= 0xffff
  {
  }

  /** Eight zero bits: the low byte leaves its table entry, the rest moves down. */
  lemma EightZeros(p: Bits, z: bv32, i: bv8, ti: bv32, high: bv32, h: bv32, y: bv32)
    requires (|p| == 16 || |p| == 32) && BitsOf(ti, |p|) == ByteRemainder(p, i as nat)
    requires i as bv32 == z & 0xff && high == z & 0xffff_ff00 && h == high >> 8 && Fits(high, |p|)
    requires y == h ^ ti
    ensures InBits(p, BitsOf(z, |p|), Zeros(8)) == BitsOf(y, |p|)
  {
    var low := i as bv32;
    TwoParts(z, low, high);
    BitsXor(low, high, z, |p|);
    InBitsLinear(p, BitsOf(low, |p|), BitsOf(high, |p|), Zeros(8), Zeros(8));
    XorZero(Zeros(8));
    LowPart(p, i, low, ti);
    HighPart(p, |p|, high, h);
    XorSwap(h, ti);
    BitsXor(ti, h, y, |p|);
  }

  lemma TwoParts(z: bv32, low: bv32, high: bv32)
    requires low == z & 0xff && high == z & 0xffff_ff00
    ensures z == low ^ high && high & 0xff == 0
  {
  }

  lemma LowPart(p: Bits, i: bv8, low: bv32, ti: bv32)
    requires |p| >= 8 && BitsOf(ti, |p|) == ByteRemainder(p, i as nat) && low == i as bv32
    ensures InBits(p, BitsOf(low, |p|), Zeros(8)) == BitsOf(ti, |p|)
  {
    BitsOfZero(|p|);
    ZeroXor(low);
    LoadByte(p, 0, i, low, low, |p|);
  }

  lemma ZeroXor(x: bv32)
    ensures x == 0 ^ x
  {
  }

  lemma XorSwap(a: bv32, b: bv32)
    ensures a ^ b == b ^ a
  {
  }

  /** Putting a byte into the low end of the register and shifting it through. */
  lemma LoadByte(p: Bits, x: bv32, d: bv8, e: bv32, z: bv32, w: nat)
    requires |p| == w >= 8 && e == d as bv32 && z == x ^ e
    ensures InBits(p, BitsOf(x, w), ByteBits(d)) == InBits(p, BitsOf(z, w), Zeros(8))
  {
    WordOfByte(d, e, 8);
    SmallByte(d);
    BitsWiden(e, 8, w);
    BitsXor(x, e, z, w);
    LoadThenShift(p, BitsOf(x, w), ByteBits(d));
  }

  lemma SmallByte(d: bv8)
    ensures d as bv32 <= 0xff
  {
  }

  lemma HighPart(p: Bits, w: nat, high: bv32, h: bv32)
    requires |p| == w && (w == 16 || w == 32) && Fits(high, w) && high & 0xff == 0 && h == high >> 8
    ensures InBits(p, BitsOf(high, w), Zeros(8)) == BitsOf(h, w)
  {
    Clear8(high);
    ShiftsDown(p, BitsOf(high, w), 8);
    BitsShr8(high, h, w);
  }
}
