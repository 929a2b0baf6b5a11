/**
 * How accepted descriptors travel to the workers (listenfd.cc, worker.cc): as 4-byte words,
 * lowest byte first, through a send buffer and a local stream socket.
 */
module Handoff {
  import opened Bytes

  const MAX_FD := 220 * 10 * 1024
  const MAX_ACCEPT := 1024
  const SEND_BUFFER := 4 * 30000
  const RECEIVE_BUFFER := 10 * 1024

  type Word = x: int | 0 <= x < 0x1_0000_0000

  function WordBytes(w: Word): (b: seq<Byte>)
    ensures |b| == 4
  {
    [w % 0x100, w / 0x100 % 0x100, w / 0x1_0000 % 0x100, w / 0x100_0000]
  }

  function WordAt(b: seq<Byte>): Word
    requires |b| >= 4
  {
    b[0] as int + b[1] as int * 0x100 + b[2] as int * 0x1_0000 + b[3] as int * 0x100_0000
  }

  function EncodeWords(words: seq<Word>): (b: seq<Byte>)
    ensures |b| == 4 * |words|
  {
    if words == [] then [] else WordBytes(words[0]) + EncodeWords(words[1..])
  }

  /** The lowest byte first: backwards, it is the number its bytes spell. */
  lemma LowestFirst(b: seq<Byte>)
    requires |b| >= 4
    ensures WordAt(b) == BigEndian([b[3], b[2], b[1], b[0]])
  {
  }

  /** The whole words in b. */
  function DecodeWords(b: seq<Byte>): (words: seq<Word>)
    ensures 4 * |words| <= |b| < 4 * |words| + 4
  {
    if |b| < 4 then [] else [WordAt(b)] + DecodeWords(b[4..])
  }

  /** The bytes after the last whole word. */
  function Leftover(b: seq<Byte>): (r: seq<Byte>)
    ensures |r| < 4 && |b| == 4 * |DecodeWords(b)| + |r|
  {
    b[4 * |DecodeWords(b)|..]
  }

  lemma WordRoundTrip(w: Word, more: seq<Byte>)
    ensures WordAt(WordBytes(w) + more) == w
  {
    assert w == w / 0x100 * 0x100 + w % 0x100;
    assert w / 0x100 == w / 0x1_0000 * 0x100 + w / 0x100 % 0x100;
    assert w / 0x1_0000 == w / 0x100_0000 * 0x100 + w / 0x1_0000 % 0x100;
  }

  lemma Digits(a: nat, b: nat, c: nat, d: nat, w: nat)
    requires a < 0x100 && b < 0x100 && c < 0x100 && w == a + 0x100 * (b + 0x100 * (c + 0x100 * d))
    ensures w % 0x100 == a && w / 0x100 % 0x100 == b && w / 0x1_0000 % 0x100 == c && w / 0x100_0000 == d
  {
    assert w / 0x100 == b + 0x100 * (c + 0x100 * d);
    assert w / 0x1_0000 == c + 0x100 * d;
  }

  lemma WordBytesOfWordAt(b: seq<Byte>)
    requires |b| >= 4
    ensures WordBytes(WordAt(b)) == b[..4]
  {
    Digits(b[0], b[1], b[2], b[3], WordAt(b));
  }

  lemma LeftoverNext(b: seq<Byte>)
    requires |b| >= 4
    ensures Leftover(b[4..]) == Leftover(b) && |DecodeWords(b)| == |DecodeWords(b[4..])| + 1
  {
  }

  lemma FrontOff<T>(front: seq<T>, rest: seq<T>, a: seq<T>, b: seq<T>)
    requires a + b == front + rest && |front| <= |a|
    ensures a == front + a[|front|..] && a[|front|..] + b == rest
  {
    var n := |front|;
    assert a[..n] == (a + b)[..n] == front;
    assert a[n..] + b == (a + b)[n..] == rest;
  }

  lemma OneWordOff(words: seq<Word>, a: seq<Byte>, b: seq<Byte>)
    requires a + b == EncodeWords(words) && |a| >= 4
    ensures words != [] && a[4..] + b == EncodeWords(words[1..]) && DecodeWords(a) == [words[0]] + DecodeWords(a[4..])
  {
    FrontOff(WordBytes(words[0]), EncodeWords(words[1..]), a, b);
    WordRoundTrip(words[0], a[4..]);
  }

  /** However a stream of words is cut, the words of the first part are the first words, and its odd bytes begin what is still to come. */
  lemma {:induction false} CutAnywhere(words: seq<Word>, a: seq<Byte>, b: seq<Byte>)
    requires a + b == EncodeWords(words)
    ensures DecodeWords(a) <= words && Leftover(a) + b == EncodeWords(words[|DecodeWords(a)|..])
    decreases |words|
  {
    if |a| < 4 {
      assert Leftover(a) == a && words[0..] == words;
    } else {
      OneWordOff(words, a, b);
      CutAnywhere(words[1..], a[4..], b);
      LeftoverNext(a);
      assert words[|DecodeWords(a)|..] == words[1..][|DecodeWords(a[4..])|..];
    }
  }

  lemma DecodeEncode(words: seq<Word>)
    ensures DecodeWords(EncodeWords(words)) == words
  {
    assert EncodeWords(words) + [] == EncodeWords(words);
    CutAnywhere(words, EncodeWords(words), []);
  }

  lemma {:induction false} EncodeConcat(a: seq<Word>, b: seq<Word>)
    ensures EncodeWords(a + b) == EncodeWords(a) + EncodeWords(b)
    decreases |a|
  {
    if a == [] {
      assert a + b == b;
    } else {
      assert (a + b)[1..] == a[1..] + b;
      EncodeConcat(a[1..], b);
    }
  }

  lemma {:induction false} DecodeConcat(a: seq<Byte>, b: seq<Byte>, k: nat)
    requires |a| == 4 * k
    ensures DecodeWords(a + b) == DecodeWords(a) + DecodeWords(b)
    decreases k
  {
    if k == 0 {
      assert a + b == b;
    } else {
      assert (a + b)[4..] == a[4..] + b;
      WordAtFront(a, b);
      DecodeConcat(a[4..], b, k - 1);
    }
  }

  lemma WordAtFront(a: seq<Byte>, b: seq<Byte>)
    requires |a| >= 4
    ensures WordAt(a + b) == WordAt(a)
  {
  }

  /** Any bytes, in words and odd bytes. */
  lemma {:induction false} EncodeDecode(b: seq<Byte>)
    ensures EncodeWords(DecodeWords(b)) + Leftover(b) == b
    decreases |b|
  {
    if |b| < 4 {
      assert b[0..] == b;
    } else {
      var rest := b[4..];
      EncodeDecode(rest);
      LeftoverNext(b);
      WordBytesOfWordAt(b);
      FirstWord(b, WordAt(b), rest);
    }
  }

  lemma EncodeCons(w: Word, words: seq<Word>)
    ensures EncodeWords([w] + words) == WordBytes(w) + EncodeWords(words)
  {
    hide WordBytes;
    assert ([w] + words)[1..] == words;
  }

  lemma Reassociate(a: seq<Byte>, b: seq<Byte>, c: seq<Byte>)
    ensures (a + b) + c == a + (b + c)
  {
  }

  lemma FirstWord(b: seq<Byte>, w: Word, rest: seq<Byte>)
    requires |b| >= 4 && w == WordAt(b) && WordBytes(w) == b[..4] && rest == b[4..]
    requires EncodeWords(DecodeWords(rest)) + Leftover(b) == rest
    ensures EncodeWords(DecodeWords(b)) + Leftover(b) == b
  {
    hide WordAt, WordBytes, EncodeWords, Leftover;
    assert DecodeWords(b) == [w] + DecodeWords(rest);
    EncodeCons(w, DecodeWords(rest));
    Reassociate(b[..4], EncodeWords(DecodeWords(rest)), Leftover(b));
  }

  // ---------------------------------------------------------------------------------
  // The worker's end
  // ---------------------------------------------------------------------------------

  lemma DecodeNext(b: seq<Byte>, n: nat, k: nat)
    requires n == 4 * k && n + 4 <= |b|
    ensures DecodeWords(b[..n + 4]) == DecodeWords(b[..n]) + [WordAt(b[n..n + 4])]
  {
    assert b[..n + 4] == b[..n] + b[n..n + 4];
    DecodeConcat(b[..n], b[n..n + 4], k);
    assert b[n..n + 4][4..] == [];
  }

  lemma DecodeWhole(b: seq<Byte>, n: nat, k: nat)
    requires n == 4 * k && n <= |b| < n + 4
    ensures DecodeWords(b) == DecodeWords(b[..n]) && Leftover(b) == b[n..]
  {
    var a, rest := b[..n], b[n..];
    assert b == a + rest;
    DecodeConcat(a, rest, k);
    assert DecodeWords(rest) == [];
    assert |DecodeWords(a)| == k;
  }

  /**
   * Registers every whole descriptor received and moves the odd bytes, fewer than four, to the
   * front. added stands for what is registered with epoll and given callbacks and a timer.
   */
  method ProcessConnection(buffer: array<Byte>, received: nat) returns (left: nat, added: seq<Word>)
    requires received <= buffer.Length
    modifies buffer
    ensures added == DecodeWords(old(buffer[..received]))
    ensures left < 4 && left <= buffer.Length && buffer[..left] == Leftover(old(buffer[..received]))
  {
    var processed := 0;
    ghost var all := buffer[..received];
    added := [];
    while processed + 4 <= received
      invariant processed == 4 * |added| <= received && buffer[..received] == all
      invariant added == DecodeWords(all[..processed])
    {
      DecodeNext(all, processed, |added|);
      added := added + [WordAt(buffer[processed..processed + 4])];
      processed := processed + 4;
    }
    DecodeWhole(all, processed, |added|);
    if processed == received {
      left := 0;
    } else {
      left := received - processed;
      ghost var odd := all[processed..];
      assert forall i :: 0 <= i < left ==> buffer[processed + i] == all[processed + i] == odd[i];
      forall i | 0 <= i < left {
        buffer[i] := buffer[processed + i];
      }
      assert forall i :: 0 <= i < left ==> buffer[i] == odd[i];
      assert buffer[..left] == odd;
    }
  }

  /** How a run of recv calls ends once everything that arrived is read: EAGAIN, end of stream, or another error. */
  datatype Ending = WouldBlock | HungUp | Broken

  /** A non-blocking stream socket: what arrives before the end of an event, and how much each recv brings at most. */
  class Inlet {
    var bytes: seq<Byte>
    var sizes: seq<nat>
    const ending: Ending

    constructor (data: seq<Byte>, chunks: seq<nat>, last: Ending)
      ensures bytes == data && sizes == chunks && ending == last
    {
      bytes, sizes, ending := data, chunks, last;
    }

    /** again is errno == EAGAIN. */
    method Recv(buffer: array<Byte>, off: nat, room: nat) returns (count: int, again: bool)
      requires 0 < room && off + room <= buffer.Length
      modifies this, buffer
      ensures old(bytes) == [] ==>
                && count == (if ending == HungUp then 0 else -1) && (again <==> ending == WouldBlock)
                && bytes == [] && buffer[..] == old(buffer[..])
      ensures old(bytes) != [] ==>
                && count == Brought(old(sizes), |old(bytes)|, room)
                && bytes == old(bytes)[count..] && sizes == Later(old(sizes))
                && buffer[..off + count] == old(buffer[..off]) + old(bytes)[..count]
    {
      if bytes == [] {
        return if ending == HungUp then 0 else -1, ending == WouldBlock;
      }
      count, again := Brought(sizes, |bytes|, room), false;
      forall i | 0 <= i < count {
        buffer[off + i] := bytes[i];
      }
      assert buffer[..off + count] == old(buffer[..off]) + bytes[..count];
      bytes, sizes := bytes[count..], Later(sizes);
    }
  }

  function Brought(sizes: seq<nat>, available: nat, room: nat): (n: nat)
    requires 0 < available && 0 < room
    ensures 0 < n <= available && n <= room
  {
    var size := if sizes == [] then available else if sizes[0] == 0 then 1 else sizes[0];
    Min(Min(size, available), room)
  }

  function Later(sizes: seq<nat>): seq<nat> {
    if sizes == [] then [] else sizes[1..]
  }

  /** What is left of n bytes when all whole words are taken. */
  function Odd(n: nat): (r: nat)
    ensures r < 4
  {
    if n < 4 then n else Odd(n - 4)
  }

  lemma {:induction false} OddIs(k: nat, r: nat)
    requires r < 4
    ensures Odd(4 * k + r) == r
    decreases k
  {
    if k > 0 {
      OddIs(k - 1, r);
    }
  }

  /** Every recv, together with the odd bytes kept, brings at least one whole word. */
  predicate NeverShort(odd: nat, available: nat, sizes: seq<nat>)
    requires odd < 4
    decreases available
  {
    available == 0 ||
    var n := Brought(sizes, available, RECEIVE_BUFFER - odd);
    odd + n >= 4 && NeverShort(Odd(odd + n), available - n, Later(sizes))
  }

  /** What the recv calls of one event return, as long as they are made. */
  function Counts(odd: nat, available: nat, sizes: seq<nat>): (c: seq<nat>)
    requires odd < 4
    ensures Sum(c) == available
    decreases available
  {
    if available == 0 then []
    else
      var n := Brought(sizes, available, RECEIVE_BUFFER - odd);
      [n] + Counts(Odd(odd + n), available - n, Later(sizes))
  }

  function Sum(c: seq<nat>): nat {
    if c == [] then 0 else c[0] + Sum(c[1..])
  }

  /** How many whole words n bytes hold. */
  function Words(n: nat): nat {
    n / 4
  }

  /** Every count, added to those before it, completes another word. */
  ghost predicate EachCompletesAWord(odd: nat, c: seq<nat>) {
    forall k :: 0 <= k < |c| ==> Words(odd + Sum(c[..k])) < Words(odd + Sum(c[..k + 1]))
  }

  lemma SumFirst(n: nat, c: seq<nat>, k: nat)
    requires k <= |c|
    ensures Sum(([n] + c)[..k + 1]) == n + Sum(c[..k])
  {
    assert ([n] + c)[..k + 1] == [n] + c[..k];
  }

  lemma WordsAfter(odd: nat, n: nat, m: nat, kept: nat, x: nat)
    requires odd < 4 && odd + n == 4 * m + kept && kept < 4
    ensures Words(odd + (n + x)) == m + Words(kept + x) && Words(odd) == 0 && Words(kept) == 0
  {
  }

  lemma CompletesNext(odd: nat, n: nat, m: nat, kept: nat, c: seq<nat>, k: nat)
    requires odd < 4 && odd + n == 4 * m + kept && kept < 4 && k < |c|
    ensures Words(odd + Sum(([n] + c)[..k + 1])) < Words(odd + Sum(([n] + c)[..k + 2]))
            <==> Words(kept + Sum(c[..k])) < Words(kept + Sum(c[..k + 1]))
  {
    hide Words, Sum;
    SumFirst(n, c, k);
    SumFirst(n, c, k + 1);
    WordsAfter(odd, n, m, kept, Sum(c[..k]));
    WordsAfter(odd, n, m, kept, Sum(c[..k + 1]));
  }

  lemma CompletesFirst(odd: nat, n: nat, m: nat, kept: nat, c: seq<nat>)
    requires odd < 4 && odd + n == 4 * m + kept && kept < 4
    ensures Words(odd + Sum(([n] + c)[..0])) < Words(odd + Sum(([n] + c)[..1])) <==> m > 0
  {
    SumFirst(n, c, 0);
    WordsAfter(odd, n, m, kept, 0);
    assert ([n] + c)[..0] == [] && c[..0] == [];
  }

  lemma Completes(odd: nat, n: nat, m: nat, kept: nat, c: seq<nat>)
    requires odd < 4 && odd + n == 4 * m + kept && kept < 4
    ensures EachCompletesAWord(odd, [n] + c) <==> m > 0 && EachCompletesAWord(kept, c)
  {
    hide Words, Sum;
    var all := [n] + c;
    CompletesFirst(odd, n, m, kept, c);
    forall k | 0 <= k < |c|
      ensures Words(odd + Sum(all[..k + 1])) < Words(odd + Sum(all[..k + 2]))
              <==> Words(kept + Sum(c[..k])) < Words(kept + Sum(c[..k + 1]))
    {
      CompletesNext(odd, n, m, kept, c, k);
    }
    if EachCompletesAWord(odd, all) {
      assert Words(odd + Sum(all[..0])) < Words(odd + Sum(all[..0 + 1]));
      forall k | 0 <= k < |c|
        ensures Words(kept + Sum(c[..k])) < Words(kept + Sum(c[..k + 1]))
      {
        assert Words(odd + Sum(all[..k + 1])) < Words(odd + Sum(all[..k + 1 + 1]));
      }
    }
    if m > 0 && EachCompletesAWord(kept, c) {
      forall k | 0 <= k < |all|
        ensures Words(odd + Sum(all[..k])) < Words(odd + Sum(all[..k + 1]))
      {
        if k > 0 {
          assert Words(kept + Sum(c[..k - 1])) < Words(kept + Sum(c[..k - 1 + 1]));
        }
      }
    }
  }

  lemma OddQuotient(n: nat) returns (m: nat)
    ensures n == 4 * m + Odd(n) && (m > 0 <==> n >= 4)
  {
    m := n / 4;
    OddIs(m, n % 4);
  }

  lemma NothingToComplete(odd: nat)
    ensures EachCompletesAWord(odd, [])
  {
  }

  /** An event goes without a short recv if and only if each of the counts recv returns completes at least one word. */
  lemma {:induction false} NeverShortIff(odd: nat, available: nat, sizes: seq<nat>)
    requires odd < 4
    ensures NeverShort(odd, available, sizes) <==> EachCompletesAWord(odd, Counts(odd, available, sizes))
    decreases available
  {
    hide EachCompletesAWord, Brought, Later;
    if available > 0 {
      var n := Brought(sizes, available, RECEIVE_BUFFER - odd);
      var rest := Counts(Odd(odd + n), available - n, Later(sizes));
      NeverShortIff(Odd(odd + n), available - n, Later(sizes));
      var m := OddQuotient(odd + n);
      Completes(odd, n, m, Odd(odd + n), rest);
    } else {
      NothingToComplete(odd);
    }
  }

  /** It does so for certain when whole words arrive and no recv is offered less than one. */
  lemma {:induction false} WholeWordsNeverShort(odd: nat, available: nat, sizes: seq<nat>, words: nat)
    requires odd < 4 && odd + available == 4 * words
    requires forall i :: 0 <= i < |sizes| ==> sizes[i] >= 4
    ensures NeverShort(odd, available, sizes)
    decreases available
  {
    if available > 0 {
      var n := Brought(sizes, available, RECEIVE_BUFFER - odd);
      var m := OddQuotient(odd + n);
      WholeWordsNeverShort(Odd(odd + n), available - n, Later(sizes), words - m);
    }
  }

  /** It does not when three bytes of a descriptor come first. */
  lemma ThreeBytesAreShort()
    ensures !NeverShort(0, 8, [3])
  {
    assert Brought([3], 8, RECEIVE_BUFFER) == 3;
  }

  lemma TakeMore(data: seq<Byte>, done: nat, added: seq<Word>, odd: seq<Byte>, chunk: seq<Byte>, n: nat)
    requires n == |chunk| && done + n <= |data| && chunk == data[done..done + n]
    requires added == DecodeWords(data[..done]) && odd == Leftover(data[..done])
    ensures added + DecodeWords(odd + chunk) == DecodeWords(data[..done + n]) && Leftover(odd + chunk) == Leftover(data[..done + n])
  {
    var k := |added|;
    var whole := data[..4 * k];
    assert data[..done] == whole + odd;
    assert data[..done + n] == whole + (odd + chunk);
    DecodeWhole(data[..done], 4 * k, k);
    assert data[..done][..4 * k] == whole;
    DecodeConcat(whole, odd + chunk, k);
  }

  lemma KeptCount(all: seq<Byte>, n: nat, kept: seq<Byte>)
    requires kept == Leftover(all) && |all| == n
    ensures |kept| == Odd(n)
  {
    OddIs(|DecodeWords(all)|, |kept|);
  }

  lemma PrefixDecoded(data: seq<Byte>, done: nat)
    requires done <= |data|
    ensures DecodeWords(data[..done]) <= DecodeWords(data)
  {
    hide DecodeWords, Leftover;
    var k := |DecodeWords(data[..done])|;
    var a, b := data[..4 * k], data[4 * k..];
    DecodeWhole(data[..done], 4 * k, k);
    assert data[..done][..4 * k] == a;
    assert data == a + b;
    DecodeConcat(a, b, k);
  }

  /**
   * An event under way: data arrives in chunks of these sizes, counts were returned so far, bytes and
   * sizes are still to come, the whole words are added and the odd bytes kept.
   */
  datatype Intake = Intake(data: seq<Byte>, chunks: seq<nat>, counts: seq<nat>,
                           bytes: seq<Byte>, sizes: seq<nat>, added: seq<Word>, odd: seq<Byte>)

  ghost predicate Taken(t: Intake) {
    var done := |t.data| - |t.bytes|;
    0 <= done && t.bytes == t.data[done..] && t.added == DecodeWords(t.data[..done]) && t.odd == Leftover(t.data[..done])
  }

  ghost predicate Progress(t: Intake) {
    && |t.odd| < 4 && Taken(t)
    && Counts(0, |t.data|, t.chunks) == t.counts + Counts(|t.odd|, |t.bytes|, t.sizes)
    && (NeverShort(|t.odd|, |t.bytes|, t.sizes) <==> NeverShort(0, |t.data|, t.chunks))
  }

  function Count(t: Intake): (n: nat)
    requires |t.odd| < 4 && t.bytes != []
    ensures n <= |t.bytes|
  {
    Brought(t.sizes, |t.bytes|, RECEIVE_BUFFER - |t.odd|)
  }

  /** One recv and process_connection later. */
  function Further(t: Intake): Intake
    requires |t.odd| < 4 && t.bytes != []
  {
    var n := Count(t);
    var all := t.odd + t.bytes[..n];
    t.(counts := t.counts + [n], bytes := t.bytes[n..], sizes := Later(t.sizes), added := t.added + DecodeWords(all), odd := Leftover(all))
  }

  lemma ShortStep(odd: nat, available: nat, sizes: seq<nat>, n: nat, kept: nat)
    requires odd < 4 && available > 0 && n == Brought(sizes, available, RECEIVE_BUFFER - odd) && kept == Odd(odd + n)
    ensures odd + n >= 4 ==> (NeverShort(odd, available, sizes) <==> NeverShort(kept, available - n, Later(sizes)))
    ensures odd + n < 4 ==> !NeverShort(odd, available, sizes)
    ensures Counts(odd, available, sizes) == [n] + Counts(kept, available - n, Later(sizes))
  {
  }

  lemma TakenFurther(t: Intake)
    requires |t.odd| < 4 && t.bytes != [] && Taken(t)
    ensures Taken(Further(t)) && |Further(t).odd| == Odd(|t.odd| + Count(t))
  {
    hide DecodeWords, Leftover, Odd, Brought;
    var n, done := Count(t), |t.data| - |t.bytes|;
    assert t.bytes[..n] == t.data[done..done + n];
    TakeMore(t.data, done, t.added, t.odd, t.bytes[..n], n);
    KeptCount(t.odd + t.bytes[..n], |t.odd| + n, Further(t).odd);
  }

  lemma ProgressStart(data: seq<Byte>, chunks: seq<nat>)
    ensures Progress(Intake(data, chunks, [], data, chunks, [], []))
  {
  }

  lemma ProgressOn(t: Intake)
    requires Progress(t) && t.bytes != [] && |t.odd| + Count(t) >= 4
    ensures Progress(Further(t))
  {
    hide DecodeWords, Leftover, Odd, Brought, NeverShort, Counts, Taken;
    TakenFurther(t);
    ShortStep(|t.odd|, |t.bytes|, t.sizes, Count(t), |Further(t).odd|);
  }

  lemma ProgressShort(t: Intake)
    requires Progress(t) && t.bytes != [] && |t.odd| + Count(t) < 4
    ensures !NeverShort(0, |t.data|, t.chunks) && t.added <= DecodeWords(t.data)
    ensures t.counts + [Count(t)] <= Counts(0, |t.data|, t.chunks)
  {
    ShortStep(|t.odd|, |t.bytes|, t.sizes, Count(t), Odd(|t.odd| + Count(t)));
    PrefixDecoded(t.data, |t.data| - |t.bytes|);
  }

  lemma ProgressDone(t: Intake)
    requires Progress(t) && t.bytes == []
    ensures NeverShort(0, |t.data|, t.chunks) && t.added == DecodeWords(t.data) && t.odd == Leftover(t.data)
    ensures t.counts == Counts(0, |t.data|, t.chunks)
  {
    assert t.data[..|t.data|] == t.data;
  }

  /**
   * One readable event at a worker. It ends well exactly when no recv is short of a whole word and the
   * event ends with EAGAIN; then it has registered every whole descriptor that arrived, whatever the
   * chunks, and lost the odd bytes at the end, which lived in its local buffer. failed is the
   * assert(false); counts are the positive returns of recv.
   */
  method GetConnections(inlet: Inlet) returns (added: seq<Word>, failed: bool, ghost lost: seq<Byte>, ghost counts: seq<nat>)
    modifies inlet
    ensures failed <==> !NeverShort(0, |old(inlet.bytes)|, old(inlet.sizes)) || inlet.ending != WouldBlock
    ensures !failed ==> added == DecodeWords(old(inlet.bytes)) && lost == Leftover(old(inlet.bytes)) && inlet.bytes == []
    ensures failed ==> added <= DecodeWords(old(inlet.bytes))
    ensures counts <= Counts(0, |old(inlet.bytes)|, old(inlet.sizes))
    ensures !failed ==> counts == Counts(0, |old(inlet.bytes)|, old(inlet.sizes))
  {
    hide Progress, NeverShort, Counts, DecodeWords, Leftover, Brought;
    var buffer := new Byte[RECEIVE_BUFFER](_ => 0);
    var received: nat := 0;
    ghost var t := Intake(inlet.bytes, inlet.sizes, [], inlet.bytes, inlet.sizes, [], []);
    added, failed, lost, counts := [], false, [], [];
    ProgressStart(inlet.bytes, inlet.sizes);
    while true
      invariant received == |t.odd| < 4 && buffer.Length == RECEIVE_BUFFER && fresh(buffer) && buffer[..received] == t.odd
      invariant t.bytes == inlet.bytes && t.sizes == inlet.sizes && t.added == added
      invariant t.data == old(inlet.bytes) && t.chunks == old(inlet.sizes) && Progress(t)
      decreases |inlet.bytes|
    {
      var rest := RECEIVE_BUFFER - received;
      var count, again := inlet.Recv(buffer, received, rest);
      if count > 0 && received + count >= 4 {
        received := received + count;
        var more;
        received, more := ProcessConnection(buffer, received);
        ProgressOn(t);
        added, t := added + more, Further(t);
      } else if count == -1 && again {
        ProgressDone(t);
        return added, false, t.odd, t.counts;
      } else {
        failed := true;
        if t.bytes == [] {
          ProgressDone(t);
          counts := t.counts;
        } else {
          ProgressShort(t);
          counts := t.counts + [Count(t)];
        }
        return;
      }
    }
  }

  // ---------------------------------------------------------------------------------
  // The dispatcher's end
  // ---------------------------------------------------------------------------------

  /** How many sends in a row move something before one does not. */
  function Successes(results: seq<int>): (n: nat)
    ensures n <= |results|
    ensures forall i :: 0 <= i < n ==> results[i] > 0
    ensures n < |results| ==> results[n] <= 0
  {
    if results == [] || results[0] <= 0 then 0 else 1 + Successes(results[1..])
  }

  lemma {:induction false} SumSnoc(c: seq<nat>, k: nat)
    requires k < |c|
    ensures Sum(c[..k + 1]) == Sum(c[..k]) + c[k]
    decreases k
  {
    assert c[..k + 1][1..] == c[1..][..k];
    if k > 0 {
      SumSnoc(c[1..], k - 1);
      assert c[..k][1..] == c[1..][..k - 1];
    }
  }

  lemma SumOfNone(c: seq<nat>)
    ensures Sum(c[..0]) == 0
  {
  }

  lemma {:induction false} SumGrows(c: seq<nat>, j: nat, k: nat)
    requires j <= k <= |c|
    ensures Sum(c[..j]) <= Sum(c[..k])
    decreases k
  {
    if j < k {
      SumGrows(c, j, k - 1);
      SumSnoc(c, k - 1);
    }
  }

  /** calls of the successful sends have been made, and sended bytes are gone. */
  ghost predicate SentBy(need: nat, results: seq<int>, calls: nat, sended: nat) {
    calls <= Successes(results) && sended == Min(need, Sum(results[..Successes(results)][..calls]))
  }

  lemma SentNothing(need: nat, results: seq<int>)
    ensures SentBy(need, results, 0, 0)
  {
    SumOfNone(results[..Successes(results)]);
  }

  lemma SentMore(need: nat, results: seq<int>, calls: nat, sended: nat, count: nat)
    requires SentBy(need, results, calls, sended) && sended < need
    requires calls < |results| && results[calls] > 0 && count == Min(results[calls], need - sended)
    ensures SentBy(need, results, calls + 1, sended + count)
  {
    hide Sum, Successes;
    SumSnoc(results[..Successes(results)], calls);
  }

  lemma SentAll(need: nat, results: seq<int>, calls: nat, sended: nat)
    requires SentBy(need, results, calls, sended)
    requires sended == need || calls == |results| || results[calls] <= 0
    ensures sended == Min(need, Sum(results[..Successes(results)]))
  {
    hide Sum, Successes;
    var gone: seq<nat> := results[..Successes(results)];
    SumGrows(gone, calls, |gone|);
    assert gone[..|gone|] == gone;
  }

  /** The buffer of bytes waiting for a worker's socket to take them. */
  class SendFdBuff {
    var needSendLen: nat
    var buff: array<Byte>

    ghost predicate Valid()
      reads this
    {
      needSendLen <= buff.Length == SEND_BUFFER
    }

    ghost function Waiting(): seq<Byte>
      reads this, buff
      requires Valid()
    {
      buff[..needSendLen]
    }

    constructor ()
      ensures Valid() && fresh(buff) && Waiting() == []
    {
      needSendLen := 0;
      buff := new Byte[SEND_BUFFER](_ => 0);
    }

    /** memmove of a batch behind what is waiting. It overruns the buffer unless the batch fits. */
    method Append(bytes: seq<Byte>)
      requires Valid() && needSendLen + |bytes| <= SEND_BUFFER
      modifies `needSendLen, buff
      ensures Valid() && Waiting() == old(Waiting()) + bytes
    {
      forall i | 0 <= i < |bytes| {
        buff[needSendLen + i] := bytes[i];
      }
      needSendLen := needSendLen + |bytes|;
    }

    /**
     * results[i] is what the i-th send would return if asked for enough; with none left the socket is
     * full. A result of 0 or less ends the visit, and those before it say how much has gone.
     */
    method SendConnectionsToWorker(results: seq<int>) returns (sended: nat, out: seq<Byte>)
      requires Valid()
      modifies `needSendLen, buff
      ensures Valid() && sended == Min(|old(Waiting())|, Sum(results[..Successes(results)]))
      ensures out == old(Waiting())[..sended] && Waiting() == old(Waiting())[sended..]
    {
      hide SentBy, Sum, Successes;
      var needSend := needSendLen;
      ghost var waiting := Waiting();
      var calls := 0;
      sended, out := 0, [];
      SentNothing(needSend, results);
      while needSend - sended > 0 && calls < |results|
        invariant sended <= needSend == needSendLen && calls <= |results|
        invariant Waiting() == waiting && out == waiting[..sended]
        invariant SentBy(needSend, results, calls, sended)
        decreases |results| - calls
      {
        if results[calls] <= 0 {
          break;
        }
        var count := Min(results[calls], needSend - sended);
        SentMore(needSend, results, calls, sended, count);
        out := out + buff[sended..sended + count];
        sended := sended + count;
        calls := calls + 1;
      }
      SentAll(needSend, results, calls, sended);
      Drop(sended);
    }

    /** The end of it: what was not sent moves to the front. */
    method Drop(sended: nat)
      requires Valid() && sended <= needSendLen
      modifies `needSendLen, buff
      ensures Valid() && Waiting() == old(Waiting())[sended..]
    {
      var left := needSendLen - sended;
      if left != 0 {
        forall i | 0 <= i < left {
          buff[i] := buff[sended + i];
        }
      }
      needSendLen := left;
    }
  }
}
