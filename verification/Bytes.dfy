/** Bytes, and how many of them one call moves. */
module Bytes {

  type Byte = x: int | 0 <= x < 256

  function Min(a: int, b: int): int {
    if a < b then a else b
  }

  /** Four bytes as a number, the highest first. */
  function BigEndian(b: seq<Byte>): (n: nat)
    requires |b| == 4
    ensures n < 0x1_0000_0000
  {
    b[0] as int * 0x100_0000 + b[1] as int * 0x1_0000 + b[2] as int * 0x100 + b[3] as int
  }

  /** a comes before b in a dictionary. */
  predicate Before(a: seq<Byte>, b: seq<Byte>)
    requires |a| == |b|
  {
    exists k :: 0 <= k < |a| && a[..k] == b[..k] && a[k] < b[k]
  }

  /**
   * The byte order, with no formula for it: among the numbers below 2^32 four bytes stand where they
   * stand in a dictionary. There is only one such numbering.
   */
  lemma BigEndianIsDictionaryOrder(a: seq<Byte>, b: seq<Byte>)
    requires |a| == |b| == 4
    ensures BigEndian(a) < BigEndian(b) <==> Before(a, b)
    ensures BigEndian(a) == BigEndian(b) <==> a == b
  {
  }
}
