/**
 * Bit-at-a-time reflected polynomial division, for any generator polynomial.
 *
 * A register is a sequence of bits, lowest first, as long as the polynomial; the polynomial's
 * last bit is set (that is the constant term, reflected). Bits of a message enter at the low
 * end and the register shifts towards it.
 */
module CrcTheory {

  type Bits = seq<bool>

  function Zeros(n: nat): (z: Bits)
    ensures |z| == n && forall i :: 0 <= i < n ==> !z[i]
  {
    seq(n, _ => false)
  }

  function Ones(n: nat): (z: Bits)
    ensures |z| == n && forall i :: 0 <= i < n ==> z[i]
  {
    seq(n, _ => true)
  }

  function Xor(a: Bits, b: Bits): (r: Bits)
    requires |a| == |b|
    ensures |r| == |a| && forall i :: 0 <= i < |r| ==> r[i] == (a[i] != b[i])
  {
    seq(|a|, i requires 0 <= i < |a| => a[i] != b[i])
  }

  ghost predicate Generator(p: Bits) {
    |p| > 0 && p[|p| - 1]
  }

  function Shift(p: Bits, r: Bits): (s: Bits)
    requires |r| == |p| > 0
    ensures |s| == |p|
  {
    if r[0] then Xor(r[1..] + [false], p) else r[1..] + [false]
  }

  function InBit(p: Bits, r: Bits, b: bool): (s: Bits)
    requires |r| == |p| > 0
    ensures |s| == |p|
  {
    Shift(p, r[0 := r[0] != b])
  }

  function InBits(p: Bits, r: Bits, bits: Bits): (s: Bits)
    requires |r| == |p| > 0
    ensures |s| == |p|
    decreases |bits|
  {
    if bits == [] then r else InBits(p, InBit(p, r, bits[0]), bits[1..])
  }

  lemma {:induction false} InBitsConcat(p: Bits, r: Bits, a: Bits, b: Bits)
    requires |r| == |p| > 0
    ensures InBits(p, r, a + b) == InBits(p, InBits(p, r, a), b)
    decreases |a|
  {
    if a == [] {
      assert a + b == b;
    } else {
      assert (a + b)[0] == a[0] && (a + b)[1..] == a[1..] + b;
      InBitsConcat(p, InBit(p, r, a[0]), a[1..], b);
    }
  }

  // ---------------------------------------------------------------------------------
  // Linearity and injectivity
  // ---------------------------------------------------------------------------------

  lemma ShiftLinear(p: Bits, r: Bits, s: Bits)
    requires |r| == |s| == |p| > 0
    ensures Shift(p, Xor(r, s)) == Xor(Shift(p, r), Shift(p, s))
  {
    var x := Xor(r, s);
    assert x[1..] + [false] == Xor(r[1..] + [false], s[1..] + [false]);
  }

  lemma {:induction false} InBitsLinear(p: Bits, r: Bits, s: Bits, a: Bits, b: Bits)
    requires |r| == |s| == |p| > 0 && |a| == |b|
    ensures InBits(p, Xor(r, s), Xor(a, b)) == Xor(InBits(p, r, a), InBits(p, s, b))
    decreases |a|
  {
    if a != [] {
      var r0, s0 := r[0 := r[0] != a[0]], s[0 := s[0] != b[0]];
      assert Xor(r, s)[0 := Xor(r, s)[0] != Xor(a, b)[0]] == Xor(r0, s0);
      ShiftLinear(p, r0, s0);
      assert Xor(a, b)[1..] == Xor(a[1..], b[1..]);
      InBitsLinear(p, InBit(p, r, a[0]), InBit(p, s, b[0]), a[1..], b[1..]);
    }
  }

  /** A register whose successor has its last bit clear was just shifted. */
  lemma ShiftBack(p: Bits, r: Bits)
    requires Generator(p) && |r| == |p|
    ensures Shift(p, r)[|p| - 1] == r[0]
    ensures !r[0] ==> r == [false] + Shift(p, r)[..|p| - 1]
  {
  }

  lemma ShiftZero(p: Bits, r: Bits)
    requires Generator(p) && |r| == |p|
    ensures Shift(p, r) == Zeros(|p|) <==> r == Zeros(|p|)
  {
    ShiftBack(p, r);
    var z := Zeros(|p|);
    assert z == [false] + z[..|p| - 1] && z == z[1..] + [false];
  }

  lemma {:induction false} ZerosKeepZero(p: Bits, r: Bits, n: nat)
    requires Generator(p) && |r| == |p|
    ensures InBits(p, r, Zeros(n)) == Zeros(|p|) <==> r == Zeros(|p|)
    decreases n
  {
    if n > 0 {
      assert Zeros(n)[1..] == Zeros(n - 1);
      assert r[0 := r[0] != false] == r;
      ShiftZero(p, r);
      ZerosKeepZero(p, Shift(p, r), n - 1);
    }
  }

  // ---------------------------------------------------------------------------------
  // Error detection
  // ---------------------------------------------------------------------------------

  /** No more bits than the register holds clear it exactly when they are what it holds. */
  lemma {:induction false} ClearedBy(p: Bits, r: Bits, bits: Bits)
    requires Generator(p) && |r| == |p| && |bits| <= |p|
    ensures InBits(p, r, bits) == Zeros(|p|) <==> r == bits + Zeros(|p| - |bits|)
    decreases |bits|
  {
    var w := |p|;
    if bits == [] {
      assert bits + Zeros(w) == Zeros(w);
    } else {
      var r0 := r[0 := r[0] != bits[0]];
      var next := Shift(p, r0);
      var rest := bits[1..];
      ClearedBy(p, next, rest);
      ShiftBack(p, r0);
      var held := bits + Zeros(w - |bits|);
      var heldNext := rest + Zeros(w - |rest|);
      if next == heldNext {
        assert next[w - 1] == false;
        assert r0 == [false] + heldNext[..w - 1];
        assert held[0] == bits[0];
        assert forall i :: 0 < i < w ==> r[i] == r0[i] == heldNext[i - 1] == held[i];
        assert r == held;
      }
      if r == held {
        assert !r0[0] && next == r0[1..] + [false];
        assert forall i :: 0 <= i < w - 1 ==> next[i] == held[i + 1] == heldNext[i];
        assert next == heldNext;
      }
    }
  }

  /** A nonzero error confined to as many consecutive bits as the register has. */
  ghost predicate Burst(e: Bits, width: nat) {
    exists before: nat, burst: Bits, after: nat ::
      e == Zeros(before) + burst + Zeros(after) && |burst| <= width && burst != Zeros(|burst|)
  }

  lemma ZeroPrefix(a: Bits, b: Bits)
    requires a + b == Zeros(|a| + |b|)
    ensures a == Zeros(|a|)
  {
    assert forall i :: 0 <= i < |a| ==> a[i] == (a + b)[i];
  }

  lemma BurstLeavesTrace(p: Bits, before: nat, burst: Bits, after: nat)
    requires Generator(p) && |burst| <= |p| && burst != Zeros(|burst|)
    ensures InBits(p, Zeros(|p|), Zeros(before) + burst + Zeros(after)) != Zeros(|p|)
  {
    var w := |p|;
    InBitsConcat(p, Zeros(w), Zeros(before) + burst, Zeros(after));
    InBitsConcat(p, Zeros(w), Zeros(before), burst);
    ZerosKeepZero(p, Zeros(w), before);
    ClearedBy(p, Zeros(w), burst);
    if Zeros(w) == burst + Zeros(w - |burst|) {
      ZeroPrefix(burst, Zeros(w - |burst|));
    }
    ZerosKeepZero(p, InBits(p, Zeros(w), burst), after);
  }

  /** An error changes the remainder by its own remainder. */
  lemma ErrorAdds(p: Bits, r: Bits, m: Bits, e: Bits)
    requires |r| == |p| > 0 && |m| == |e|
    ensures InBits(p, r, Xor(m, e)) == Xor(InBits(p, r, m), InBits(p, Zeros(|p|), e))
  {
    InBitsLinear(p, r, Zeros(|p|), m, e);
    assert Xor(r, Zeros(|p|)) == r;
  }

  lemma XorDiffers(a: Bits, b: Bits)
    requires |a| == |b| && Xor(a, b) == a
    ensures b == Zeros(|b|)
  {
    forall i | 0 <= i < |b|
      ensures !b[i]
    {
      assert Xor(a, b)[i] == a[i];
    }
  }

  /** Every burst no longer than the register is detected, in every message and from every start. */
  lemma BurstDetected(p: Bits, r: Bits, m: Bits, e: Bits)
    requires Generator(p) && |r| == |p| && |m| == |e| && Burst(e, |p|)
    ensures InBits(p, r, Xor(m, e)) != InBits(p, r, m)
  {
    ErrorAdds(p, r, m, e);
    var before: nat, burst: Bits, after: nat :|
      e == Zeros(before) + burst + Zeros(after) && |burst| <= |p| && burst != Zeros(|burst|);
    BurstLeavesTrace(p, before, burst, after);
    if InBits(p, r, Xor(m, e)) == InBits(p, r, m) {
      XorDiffers(InBits(p, r, m), InBits(p, Zeros(|p|), e));
    }
  }

  // ---------------------------------------------------------------------------------
  // Parity
  // ---------------------------------------------------------------------------------

  function Parity(b: Bits): bool {
    if b == [] then false else b[0] != Parity(b[1..])
  }

  lemma {:induction false} ParityConcat(a: Bits, b: Bits)
    ensures Parity(a + b) == (Parity(a) != Parity(b))
  {
    if a == [] {
      assert a + b == b;
    } else {
      assert (a + b)[1..] == a[1..] + b;
      ParityConcat(a[1..], b);
    }
  }

  lemma {:induction false} ParityXor(a: Bits, b: Bits)
    requires |a| == |b|
    ensures Parity(Xor(a, b)) == (Parity(a) != Parity(b))
  {
    if a != [] {
      assert Xor(a, b)[1..] == Xor(a[1..], b[1..]);
      ParityXor(a[1..], b[1..]);
    }
  }

  lemma ParityShift(p: Bits, r: Bits)
    requires |r| == |p| > 0 && Parity(p)
    ensures Parity(Shift(p, r)) == Parity(r)
  {
    var s := r[1..] + [false];
    ParityConcat(r[1..], [false]);
    assert [false][1..] == [];
    ParityXor(s, p);
  }

  /** With a polynomial of odd weight the register keeps count of the parity of the message. */
  lemma {:induction false} ParityKept(p: Bits, r: Bits, bits: Bits)
    requires |r| == |p| > 0 && Parity(p)
    ensures Parity(InBits(p, r, bits)) == (Parity(r) != Parity(bits))
    decreases |bits|
  {
    if bits != [] {
      var r0 := r[0 := r[0] != bits[0]];
      assert r0[1..] == r[1..];
      ParityShift(p, r0);
      ParityKept(p, InBit(p, r, bits[0]), bits[1..]);
    }
  }

  /** So every error of an odd number of bits is detected. */
  lemma OddErrorDetected(p: Bits, r: Bits, m: Bits, e: Bits)
    requires |r| == |p| > 0 && Parity(p) && |m| == |e| && Parity(e)
    ensures InBits(p, r, Xor(m, e)) != InBits(p, r, m)
  {
    ParityKept(p, r, m);
    ParityKept(p, r, Xor(m, e));
    ParityXor(m, e);
  }

  // ---------------------------------------------------------------------------------
  // Codewords
  // ---------------------------------------------------------------------------------

  /** A register fed with its own bits ends up clear. */
  lemma OwnBitsClear(p: Bits, r: Bits)
    requires Generator(p) && |r| == |p|
    ensures InBits(p, r, r) == Zeros(|p|)
  {
    ClearedBy(p, r, r);
    assert r + Zeros(0) == r;
  }

  lemma XorZero(r: Bits)
    ensures Xor(r, Zeros(|r|)) == r && Xor(Zeros(|r|), r) == r
  {
  }

  /** Fed with its own bits inverted, it ends up the same whatever it held. */
  lemma InvertedBitsResidue(p: Bits, r: Bits)
    requires Generator(p) && |r| == |p|
    ensures InBits(p, r, Xor(r, Ones(|p|))) == InBits(p, Zeros(|p|), Ones(|p|))
  {
    InBitsLinear(p, r, Zeros(|p|), r, Ones(|p|));
    XorZero(r);
    OwnBitsClear(p, r);
    XorZero(InBits(p, Zeros(|p|), Ones(|p|)));
  }

  /** Zero bits into a register whose low bits are clear only move it down. */
  lemma {:induction false} ShiftsDown(p: Bits, r: Bits, n: nat)
    requires |r| == |p| > 0 && n <= |p| && forall i :: 0 <= i < n ==> !r[i]
    ensures InBits(p, r, Zeros(n)) == r[n..] + Zeros(n)
    decreases n
  {
    if n > 0 {
      assert Zeros(n)[1..] == Zeros(n - 1);
      assert r[0 := r[0] != false] == r;
      ShiftsDown(p, Shift(p, r), n - 1);
      assert Shift(p, r) == r[1..] + [false];
      assert (r[1..] + [false])[n - 1..] + Zeros(n - 1) == r[n..] + Zeros(n);
    } else {
      assert r[0..] + Zeros(0) == r;
    }
  }

  /** Bits that fit in the register may be put in at once and shifted through afterwards. */
  lemma {:induction false} LoadThenShift(p: Bits, r: Bits, bits: Bits)
    requires |r| == |p| > 0 && |bits| <= |p|
    ensures InBits(p, r, bits) == InBits(p, Xor(r, bits + Zeros(|p| - |bits|)), Zeros(|bits|))
    decreases |bits|
  {
    var w, n := |p|, |bits|;
    if n == 0 {
      assert bits + Zeros(w) == Zeros(w);
      XorZero(r);
    } else {
      var r0 := r[0 := r[0] != bits[0]];
      var rest := bits[1..];
      var load := Xor(r, bits + Zeros(w - n));
      var later := [false] + rest + Zeros(w - n);
      assert load[0 := load[0] != false] == load == Xor(r0, later);
      ShiftLinear(p, r0, later);
      assert Shift(p, later) == rest + Zeros(w - |rest|);
      LoadThenShift(p, Shift(p, r0), rest);
      assert Zeros(n)[1..] == Zeros(n - 1);
    }
  }
}
