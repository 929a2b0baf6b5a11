/**
 * etcp.c: reading and writing exactly n bytes, length-prefixed records and lines over a
 * stream socket that may move fewer bytes than asked, be interrupted, or fail.
 */
module Etcp {
  import opened Bytes

  const INT_MAX := 0x7fff_ffff

  /** What one system call does: is interrupted, fails, or moves up to size bytes. */
  datatype Turn = Intr | Fail | Chunk(size: nat)

  /** A read from a blocking stream gives at least one byte unless the peer has closed. */
  function Given(turn: Turn, n: nat, available: nat): (g: nat)
    requires turn.Chunk?
    ensures g <= n && g <= available
  {
    Min(Min(if turn.size == 0 then 1 else turn.size, n), available)
  }

  /** The next turn; once the script has run out, every call moves all it can. */
  function Next(script: seq<Turn>, n: nat): Turn {
    if script == [] then Chunk(n) else script[0]
  }

  function Rest(script: seq<Turn>): seq<Turn> {
    if script == [] then [] else script[1..]
  }

  ghost predicate Stops(turn: Turn, writing: bool) {
    turn.Fail? || (writing && turn == Chunk(0))
  }

  /** The calls between before and after: if stopped, the last of them failed and no other did. */
  ghost predicate Ran(before: seq<Turn>, after: seq<Turn>, stopped: bool, writing: bool) {
    && |after| <= |before|
    && after == before[|before| - |after|..]
    && (stopped ==> |after| < |before|)
    && forall i :: 0 <= i < |before| - |after| ==> (Stops(before[i], writing) <==> stopped && i == |before| - |after| - 1)
  }

  lemma RanOn(a: seq<Turn>, b: seq<Turn>, c: seq<Turn>, stopped: bool, writing: bool)
    requires Ran(a, b, false, writing) && Ran(b, c, stopped, writing)
    ensures Ran(a, c, stopped, writing)
  {
    var n := |a| - |b|;
    forall i | n <= i < |a| - |c|
      ensures a[i] == b[i - n]
    {
    }
  }

  lemma OneTurn(a: seq<Turn>, turns: seq<Turn>, n: nat, writing: bool)
    requires Ran(a, turns, false, writing) && (writing ==> n > 0)
    ensures Ran(a, Rest(turns), Stops(Next(turns, n), writing), writing)
  {
    RanOn(a, turns, Rest(turns), Stops(Next(turns, n), writing), writing);
  }

  /** s with bytes laid over it from off. */
  function Laid<T>(s: seq<T>, off: nat, bytes: seq<T>): (r: seq<T>)
    requires off + |bytes| <= |s|
    ensures |r| == |s|
  {
    s[..off] + bytes + s[off + |bytes|..]
  }

  /** A socket and the buffer it is read into, at one moment. */
  datatype Transfer = Transfer(inbox: seq<Byte>, script: seq<Turn>, buf: seq<Byte>)

  /** got bytes have moved from the inbox into the buffer at off. */
  ghost predicate Moved(from: Transfer, to: Transfer, off: nat, got: nat) {
    && got <= |from.inbox| && to.inbox == from.inbox[got..]
    && off + got <= |from.buf| && to.buf == Laid(from.buf, off, from.inbox[..got])
  }

  class Socket {
    /** What the peer has sent and will send before closing. */
    var inbox: seq<Byte>
    var outbox: seq<Byte>
    var script: seq<Turn>

    constructor (data: seq<Byte>, turns: seq<Turn>)
      ensures inbox == data && script == turns && outbox == []
    {
      inbox, script, outbox := data, turns, [];
    }

    ghost function With(buf: seq<Byte>): Transfer
      reads this
    {
      Transfer(inbox, script, buf)
    }

    method Read(buf: array<Byte>, off: nat, n: nat) returns (r: int, interrupted: bool)
      requires off + n <= buf.Length
      modifies `inbox, `script, buf
      ensures script == Rest(old(script)) && r <= n
      ensures Moved(old(With(buf[..])), With(buf[..]), off, if r < 0 then 0 else r)
      ensures if Next(old(script), n).Chunk? then r == Given(Next(old(script), n), n, |old(inbox)|) else r == -1
      ensures interrupted <==> Next(old(script), n).Intr?
      ensures r < 0 ==> inbox == old(inbox) && buf[..] == old(buf[..])
      ensures r == 0 && n > 0 ==> inbox == []
    {
      var turn := Next(script, n);
      script := Rest(script);
      if !turn.Chunk? {
        assert buf[..] == Laid(buf[..], off, []);
        return -1, turn.Intr?;
      }
      r, interrupted := Given(turn, n, |inbox|), false;
      forall i | 0 <= i < r {
        buf[off + i] := inbox[i];
      }
      assert buf[..] == Laid(old(buf[..]), off, inbox[..r]);
      inbox := inbox[r..];
    }

    method Write(buf: array<Byte>, off: nat, n: nat) returns (r: int, interrupted: bool)
      requires off + n <= buf.Length
      modifies `outbox, `script
      ensures script == Rest(old(script)) && r <= n
      ensures !Next(old(script), n).Chunk? ==>
                r == -1 && (interrupted <==> Next(old(script), n).Intr?) && outbox == old(outbox)
      ensures Next(old(script), n).Chunk? ==>
                r == Min(Next(old(script), n).size, n) && !interrupted && outbox == old(outbox) + buf[off..off + r]
    {
      var turn := Next(script, n);
      script := Rest(script);
      if !turn.Chunk? {
        return -1, turn.Intr?;
      }
      r, interrupted := Min(turn.size, n), false;
      outbox := outbox + buf[off..off + r];
    }
  }

  // ---------------------------------------------------------------------------------
  // Exactly n bytes
  // ---------------------------------------------------------------------------------

  lemma LaidOn(s: seq<Byte>, off: nat, first: seq<Byte>, second: seq<Byte>)
    requires off + |first| + |second| <= |s|
    ensures Laid(Laid(s, off, first), off + |first|, second) == Laid(s, off, first + second)
  {
  }

  lemma MovedOn(a: Transfer, b: Transfer, c: Transfer, off: nat, got: nat, more: nat)
    requires Moved(a, b, off, got) && Moved(b, c, off + got, more)
    ensures Moved(a, c, off, got + more)
  {
    hide Laid;
    assert a.inbox[..got + more] == a.inbox[..got] + b.inbox[..more];
    LaidOn(a.buf, off, a.inbox[..got], b.inbox[..more]);
  }

  /** So far got bytes have moved and no call has failed. */
  ghost predicate Gathered(start: Transfer, now: Transfer, off: nat, got: nat) {
    Moved(start, now, off, got) && Ran(start.script, now.script, false, false)
  }

  lemma GatheredMore(start: Transfer, now: Transfer, next: Transfer, off: nat, got: nat, n: nat, more: nat)
    requires Gathered(start, now, off, got) && Moved(now, next, off + got, more)
    requires !Next(now.script, n).Fail? && next.script == Rest(now.script)
    ensures Gathered(start, next, off, got + more)
  {
    OneTurn(start.script, now.script, n, false);
    MovedOn(start, now, next, off, got, more);
  }

  lemma GatheredFails(start: Transfer, now: Transfer, off: nat, got: nat, n: nat)
    requires Gathered(start, now, off, got) && Next(now.script, n).Fail?
    ensures Ran(start.script, Rest(now.script), true, false)
  {
    OneTurn(start.script, now.script, n, false);
  }

  lemma GatheredStart(start: Transfer, off: nat)
    requires off <= |start.buf|
    ensures Gathered(start, start, off, 0)
  {
    assert Laid(start.buf, off, []) == start.buf;
  }

  lemma GatheredParts(start: Transfer, now: Transfer, off: nat, got: nat)
    requires Gathered(start, now, off, got)
    ensures Moved(start, now, off, got) && Ran(start.script, now.script, false, false) && got + |now.inbox| == |start.inbox|
  {
  }

  lemma Unmoved(start: Transfer, now: Transfer, other: Transfer, off: nat, got: nat)
    requires Moved(start, now, off, got) && other.inbox == now.inbox && other.buf == now.buf
    ensures Moved(start, other, off, got)
  {
  }

  /**
   * All len bytes, or all there are if the peer closes first, whatever the chunks and the
   * interruptions; or an error, after got bytes, when a call failed.
   */
  method ReadN(s: Socket, buf: array<Byte>, off: nat, len: nat) returns (r: int, ghost got: nat)
    requires off + len <= buf.Length
    modifies s`inbox, s`script, buf
    ensures Ran(old(s.script), s.script, r == -1, false)
    ensures Moved(old(s.With(buf[..])), s.With(buf[..]), off, got)
    ensures if r == -1 then got < len else r == got == Min(len, |old(s.inbox)|)
  {
    hide Gathered, Moved, Ran, Laid, Given;
    var totRead := 0;
    got := 0;
    ghost var start := s.With(buf[..]);
    GatheredStart(start, off);
    while totRead < len
      invariant totRead == got <= len
      invariant Gathered(start, s.With(buf[..]), off, got)
      decreases len - totRead, |s.script|
    {
      ghost var now := s.With(buf[..]);
      var numRead, interrupted := s.Read(buf, off + totRead, len - totRead);
      if numRead < 0 && !interrupted {
        GatheredFails(start, now, off, got, len - totRead);
        GatheredParts(start, now, off, got);
        Unmoved(start, now, s.With(buf[..]), off, got);
        return -1, got;
      }
      GatheredMore(start, now, s.With(buf[..]), off, got, len - totRead, if numRead < 0 then 0 else numRead);
      if numRead < 0 {
        continue;
      }
      if numRead == 0 {
        GatheredParts(start, s.With(buf[..]), off, got);
        return totRead, got;
      }
      totRead := totRead + numRead;
      got := totRead;
    }
    GatheredParts(start, s.With(buf[..]), off, got);
    r := totRead;
  }

  /** All len bytes go out, in order; or an error, after a strict prefix of them, when a call failed or moved nothing. */
  method WriteN(s: Socket, buf: array<Byte>, len: nat) returns (r: int, ghost sent: nat)
    requires len <= buf.Length
    modifies s`outbox, s`script
    ensures Ran(old(s.script), s.script, r == -1, true)
    ensures sent <= len && s.outbox == old(s.outbox) + buf[..sent]
    ensures if r == -1 then sent < len else r == sent == len
  {
    var totWritten := 0;
    sent := 0;
    while totWritten < len
      invariant totWritten == sent <= len
      invariant Ran(old(s.script), s.script, false, true)
      invariant s.outbox == old(s.outbox) + buf[..sent]
      decreases len - totWritten, |s.script|
    {
      ghost var turns := s.script;
      var numWritten, interrupted := s.Write(buf, totWritten, len - totWritten);
      OneTurn(old(s.script), turns, len - totWritten, true);
      if numWritten <= 0 {
        if numWritten == -1 && interrupted {
          continue;
        } else {
          return -1, sent;
        }
      }
      assert buf[..sent + numWritten] == buf[..sent] + buf[sent..sent + numWritten];
      totWritten := totWritten + numWritten;
      sent := totWritten;
    }
    r := totWritten;
  }

  // ---------------------------------------------------------------------------------
  // Records
  // ---------------------------------------------------------------------------------

  function Header(n: nat): (b: seq<Byte>)
    requires n < 0x1_0000_0000
    ensures |b| == 4
  {
    [n / 0x100_0000, n / 0x1_0000 % 0x100, n / 0x100 % 0x100, n % 0x100]
  }

  lemma HeaderRoundTrip(n: nat)
    requires n < 0x1_0000_0000
    ensures BigEndian(Header(n)) == n
  {
    assert n == n / 0x100 * 0x100 + n % 0x100;
    assert n / 0x100 == n / 0x1_0000 * 0x100 + n / 0x100 % 0x100;
    assert n / 0x1_0000 == n / 0x100_0000 * 0x100 + n / 0x1_0000 % 0x100;
  }

  /** Answers of readvrec when no call fails. Ended is a return of 0. */
  datatype Reply = Record(bytes: seq<Byte>) | TooBig | Ended

  /** A stream ends inside its next record, or before it. */
  predicate Truncated(data: seq<Byte>) {
    |data| < 4 || |data| - 4 < BigEndian(data[..4])
  }

  /** The answer to one call, and what is left of the stream. */
  function NextRecord(data: seq<Byte>, len: nat): (p: (Reply, seq<Byte>)) {
    if Truncated(data) then (Ended, [])
    else
      var n := BigEndian(data[..4]);
      (if n > len then TooBig else Record(data[4..4 + n]), data[4 + n..])
  }

  /** The discard loop of readvrec makes no progress without room: a whole header says there is a record, and nothing is read. */
  predicate Stuck(data: seq<Byte>, len: nat) {
    len == 0 && |data| >= 4 && BigEndian(data[..4]) > 0
  }

  /** The discard loop: the whole record goes, in pieces of the caller's length; it never underflows. */
  method Discard(s: Socket, bp: array<Byte>, len: nat, reclen: nat) returns (rc: int, tooBig: bool, ghost failed: bool)
    requires 0 < len < reclen && len <= bp.Length
    modifies s`inbox, s`script, bp
    ensures Ran(old(s.script), s.script, failed, false)
    ensures failed ==> rc == -1 && !tooBig
    ensures !failed && reclen <= |old(s.inbox)| ==> rc == -1 && tooBig && s.inbox == old(s.inbox)[reclen..]
    ensures !failed && reclen > |old(s.inbox)| ==> rc == 0 && !tooBig && s.inbox == []
  {
    hide Ran, Laid;
    var left, room := reclen, len;
    ghost var body, script, turns := s.inbox, s.script, s.script;
    NoneRan(script);
    while left > 0
      invariant (0 < room <= left && room <= len) || left == 0
      invariant left <= reclen && reclen - left <= |body| && s.inbox == body[reclen - left..]
      invariant Ran(script, s.script, false, false)
      decreases left
    {
      turns := s.script;
      ghost var got;
      rc, got := ReadN(s, bp, 0, room);
      RanOn(script, turns, s.script, rc == -1, false);
      if rc != room {
        return if rc < 0 then -1 else 0, false, rc == -1;
      }
      left := left - room;
      if left < room {
        room := left;
      }
    }
    return -1, true, false;
  }

  lemma NoneRan(script: seq<Turn>)
    ensures Ran(script, script, false, false)
  {
  }

  /** hangs is the loop that never ends; the call does not return then. */
  method ReadVRec(s: Socket, bp: array<Byte>, len: nat) returns (rc: int, tooBig: bool, hangs: bool, ghost failed: bool)
    requires len <= INT_MAX && len <= bp.Length
    modifies s`inbox, s`script, bp
    ensures Ran(old(s.script), s.script, failed, false)
    ensures failed ==> rc == -1 && !tooBig && !hangs
    ensures !failed ==> (hangs <==> Stuck(old(s.inbox), len))
    ensures !failed && !hangs ==>
              var (reply, rest) := NextRecord(old(s.inbox), len);
              && s.inbox == rest
              && (tooBig <==> reply == TooBig)
              && match reply
                 case Record(bytes) => rc == |bytes| && bp[..rc] == bytes
                 case TooBig => rc == -1
                 case Ended => rc == 0
  {
    hide Ran, BigEndian;
    var header := new Byte[4];
    ghost var got: nat, turns, body;
    ghost var data := s.inbox;
    rc, got := ReadN(s, header, 0, 4);
    tooBig, hangs, failed := false, false, rc == -1;
    if rc != 4 {
      return if rc < 0 then -1 else 0, false, false, failed;
    }
    assert header[..] == data[..4];
    var reclen := BigEndian(header[..]);
    turns, body := s.script, s.inbox;
    if reclen > len {
      if len == 0 {
        return -1, false, true, false;
      }
      rc, tooBig, failed := Discard(s, bp, len, reclen);
      RanOn(old(s.script), turns, s.script, failed, false);
      return rc, tooBig, false, failed;
    }
    rc, got := ReadN(s, bp, 0, reclen);
    RanOn(old(s.script), turns, s.script, rc == -1, false);
    if rc != reclen {
      return if rc < 0 then -1 else 0, false, false, rc == -1;
    }
    assert bp[..rc] == body[..rc] == data[4..4 + rc];
    failed := false;
  }

  // Streams of records

  function EncodeRecord(record: seq<Byte>): seq<Byte>
    requires |record| < 0x1_0000_0000
  {
    Header(|record|) + record
  }

  ghost predicate Sendable(records: seq<seq<Byte>>) {
    forall i :: 0 <= i < |records| ==> |records[i]| < 0x1_0000_0000
  }

  function EncodeAll(records: seq<seq<Byte>>): seq<Byte>
    requires Sendable(records)
  {
    if records == [] then [] else EncodeRecord(records[0]) + EncodeAll(records[1..])
  }

  /** What a reader with room for len bytes should be told of a record. */
  function Answer(record: seq<Byte>, len: nat): Reply {
    if |record| > len then TooBig else Record(record)
  }

  /** The answers to so many calls one after the other. */
  function Replies(data: seq<Byte>, len: nat, calls: nat): (r: seq<Reply>)
    ensures |r| == calls
    decreases calls
  {
    if calls == 0 then []
    else
      var (reply, rest) := NextRecord(data, len);
      [reply] + Replies(rest, len, calls - 1)
  }

  /** One call takes exactly one record off the stream, told or discarded. */
  lemma OneRecord(record: seq<Byte>, rest: seq<Byte>, len: nat)
    requires |record| < 0x1_0000_0000
    ensures NextRecord(EncodeRecord(record) + rest, len) == (Answer(record, len), rest)
  {
    var data := EncodeRecord(record) + rest;
    HeaderRoundTrip(|record|);
    assert data[..4] == Header(|record|);
    assert data[4..4 + |record|] == record && data[4 + |record|..] == rest;
  }

  /** Records come back in order, each told or refused by its own length; after the last, and at a broken one, the stream is over. */
  lemma {:induction false} RecordsInOrder(records: seq<seq<Byte>>, tail: seq<Byte>, len: nat, calls: nat, i: nat)
    requires Sendable(records) && Truncated(tail) && i < calls
    ensures Replies(EncodeAll(records) + tail, len, calls)[i] == if i < |records| then Answer(records[i], len) else Ended
    decreases calls
  {
    if records == [] {
      assert EncodeAll(records) + tail == tail;
      if i > 0 {
        assert EncodeAll([]) + [] == [];
        RecordsInOrder([], [], len, calls - 1, i - 1);
      }
    } else {
      var rest := EncodeAll(records[1..]) + tail;
      assert EncodeAll(records) + tail == EncodeRecord(records[0]) + rest;
      OneRecord(records[0], rest, len);
      if i > 0 {
        RecordsInOrder(records[1..], tail, len, calls - 1, i - 1);
      }
    }
  }

  lemma HeaderOfBigEndian(b: seq<Byte>)
    requires |b| == 4
    ensures Header(BigEndian(b)) == b
  {
    var n := BigEndian(b);
    assert n / 0x100 == b[0] as int * 0x1_0000 + b[1] as int * 0x100 + b[2] as int;
    assert n / 0x1_0000 == b[0] as int * 0x100 + b[1] as int;
    assert n / 0x100_0000 == b[0] as int;
  }

  /** Every stream is some records and a truncated rest, so the lemma above speaks of every stream. */
  lemma {:induction false} EveryStream(data: seq<Byte>) returns (records: seq<seq<Byte>>, tail: seq<Byte>)
    ensures Sendable(records) && Truncated(tail) && data == EncodeAll(records) + tail
    decreases |data|
  {
    if Truncated(data) {
      records, tail := [], data;
      assert data == EncodeAll([]) + data;
    } else {
      var n := BigEndian(data[..4]);
      var first := data[4..4 + n];
      var later;
      later, tail := EveryStream(data[4 + n..]);
      records := [first] + later;
      HeaderOfBigEndian(data[..4]);
      assert records[1..] == later;
      assert data == EncodeRecord(first) + data[4 + n..];
      assert data == (EncodeRecord(first) + EncodeAll(later)) + tail;
    }
  }

  /** Two different sequences of records never share an encoding. */
  lemma {:induction false} EncodingInjective(a: seq<seq<Byte>>, b: seq<seq<Byte>>)
    requires Sendable(a) && Sendable(b) && EncodeAll(a) == EncodeAll(b)
    ensures a == b
    decreases |a|
  {
    if a == [] || b == [] {
      assert a == [] && b == [];
    } else {
      OneRecord(a[0], EncodeAll(a[1..]), |a[0]| + |b[0]|);
      OneRecord(b[0], EncodeAll(b[1..]), |a[0]| + |b[0]|);
      EncodingInjective(a[1..], b[1..]);
      assert a == [a[0]] + a[1..] && b == [b[0]] + b[1..];
    }
  }

  /** readvrec returns 0. */
  predicate ReturnsZero(reply: Reply) {
    reply == Ended || reply == Record([])
  }

  /** A return of 0 is the end of the stream, on the records before it and on none of them. */
  ghost predicate ZeroMeansEnd(records: seq<seq<Byte>>, tail: seq<Byte>, len: nat)
    requires Sendable(records)
  {
    forall calls: nat, i: nat :: i < calls ==>
      (ReturnsZero(Replies(EncodeAll(records) + tail, len, calls)[i]) <==> i >= |records|)
  }

  lemma ZeroFromRecord(records: seq<seq<Byte>>, tail: seq<Byte>, len: nat, calls: nat, i: nat)
    requires Sendable(records) && Truncated(tail) && i < calls
    ensures ReturnsZero(Replies(EncodeAll(records) + tail, len, calls)[i]) <==> i >= |records| || records[i] == []
  {
    RecordsInOrder(records, tail, len, calls, i);
  }

  /** A reader can take a return of 0 for the end of the stream if and only if the sender sends no empty record. */
  lemma ZeroMeansEndIff(records: seq<seq<Byte>>, tail: seq<Byte>, len: nat)
    requires Sendable(records) && Truncated(tail)
    ensures ZeroMeansEnd(records, tail, len) <==> [] !in records
  {
    if [] in records {
      var i :| 0 <= i < |records| && records[i] == [];
      ZeroFromRecord(records, tail, len, i + 1, i);
    } else {
      forall calls: nat, i: nat | i < calls
        ensures ReturnsZero(Replies(EncodeAll(records) + tail, len, calls)[i]) <==> i >= |records|
      {
        ZeroFromRecord(records, tail, len, calls, i);
      }
    }
  }

  /** The two streams a reader cannot tell apart by its first call: one empty record with another behind it, and nothing. */
  lemma ZeroIsAmbiguous(len: nat)
    requires len > 0
    ensures var stream := EncodeAll([[], [7]]);
            && ReturnsZero(NextRecord(stream, len).0) && ReturnsZero(NextRecord([], len).0)
            && NextRecord(NextRecord(stream, len).1, len).0 == Record([7])
            && NextRecord(NextRecord([], len).1, len).0 == Ended
  {
    OneRecord([], EncodeAll([[7]]), len);
    OneRecord([7], [], len);
    assert EncodeAll([[7]]) == EncodeRecord([7]) + [];
    assert [[], [7]][1..] == [[7 as Byte]];
  }

  // ---------------------------------------------------------------------------------
  // Lines
  // ---------------------------------------------------------------------------------

  const NEWLINE: Byte := 10
  const LINE_BUFFER := 1500

  datatype LineReply = Line(count: nat) | TooLong | Closed

  /** The reference: a reader that takes the bytes one at a time and stops after a newline. */
  function ByteReader(data: seq<Byte>, room: nat): LineReply {
    if room == 0 then TooLong
    else if data == [] then Closed
    else if data[0] == NEWLINE then Line(1)
    else Later(ByteReader(data[1..], room - 1), 1)
  }

  function Later(reply: LineReply, k: nat): LineReply {
    if reply.Line? then Line(reply.count + k) else reply
  }

  lemma {:induction false} ReaderSkips(data: seq<Byte>, room: nat, k: nat)
    requires k <= room && k <= |data| && forall i :: 0 <= i < k ==> data[i] != NEWLINE
    ensures ByteReader(data, room) == Later(ByteReader(data[k..], room - k), k)
    decreases k
  {
    if k == 0 {
      assert data[0..] == data;
    } else {
      ReaderSkips(data[1..], room - 1, k - 1);
      assert data[1..][k - 1..] == data[k..];
    }
  }

  /** What the reference decides: the first newline within room, no newline in a full room, or a stream that ends before either. */
  lemma ReaderDecides(data: seq<Byte>, room: nat)
    ensures match ByteReader(data, room)
            case Line(n) => 0 < n <= room && n <= |data| && data[n - 1] == NEWLINE && NEWLINE !in data[..n - 1]
            case TooLong => room <= |data| && NEWLINE !in data[..room]
            case Closed => |data| < room && NEWLINE !in data
  {
    if room > 0 && data != [] && data[0] != NEWLINE {
      ReaderDecides(data[1..], room - 1);
    }
  }

  ghost predicate NoNewline(data: seq<Byte>, n: nat)
    requires n <= |data|
  {
    forall i :: 0 <= i < n ==> data[i] != NEWLINE
  }

  /** A readline under way: at bytes of data are handed out, pending ones wait in b from bp, the rest is in the inbox. */
  datatype Feed = Feed(data: seq<Byte>, inbox: seq<Byte>, b: seq<Byte>, at: nat, bp: nat, pending: nat)

  ghost predicate Reading(f: Feed) {
    && f.at <= |f.data| && f.bp + f.pending <= |f.b|
    && NoNewline(f.data, f.at)
    && f.data[f.at..] == f.b[f.bp..f.bp + f.pending] + f.inbox
  }

  lemma Refilled(f: Feed, from: Transfer, to: Transfer, cnt: nat)
    requires Reading(f) && f.pending == 0 && from.inbox == f.inbox && from.buf == f.b && Moved(from, to, 0, cnt)
    ensures Reading(Feed(f.data, to.inbox, to.buf, f.at, 0, cnt))
  {
    assert f.data[f.at..] == f.inbox;
    assert to.buf[0..0 + cnt] == f.inbox[..cnt];
  }

  lemma Handed(f: Feed)
    requires Reading(f) && 0 < f.pending
    ensures f.at < |f.data| && f.data[f.at] == f.b[f.bp]
    ensures f.data[f.at + 1..] == f.b[f.bp + 1..f.bp + f.pending] + f.inbox
    ensures f.b[f.bp] != NEWLINE ==> Reading(f.(at := f.at + 1, bp := f.bp + 1, pending := f.pending - 1))
  {
    assert f.data[f.at] == f.data[f.at..][0] == f.b[f.bp];
    assert f.data[f.at + 1..] == f.data[f.at..][1..];
  }

  /** What the reference reader is told, the line itself in buf with a NUL after it, the bytes received after it lost. */
  ghost predicate AsByteReader(data: seq<Byte>, inbox: seq<Byte>, buf: seq<Byte>, len: nat, r: int, tooLong: bool, lost: seq<Byte>)
    requires 0 < len <= |buf|
  {
    match ByteReader(data, len - 1)
    case Line(n) =>
      && r == n < len && n <= |data| && !tooLong
      && buf[..n] == data[..n] && buf[n] == 0
      && data[n..] == lost + inbox && |lost| < LINE_BUFFER
    case TooLong => r == -1 && tooLong
    case Closed => r == 0 && !tooLong
  }

  lemma SawClose(f: Feed, buf: seq<Byte>, len: nat)
    requires Reading(f) && f.inbox == [] && f.pending == 0 && f.at + 1 < len <= |buf|
    ensures AsByteReader(f.data, [], buf, len, 0, false, [])
  {
    assert f.data[f.at..] == [];
    ReaderSkips(f.data, len - 1, f.at);
  }

  lemma SawTooMuch(f: Feed, buf: seq<Byte>, len: nat)
    requires Reading(f) && f.at + 1 == len <= |buf|
    ensures AsByteReader(f.data, f.inbox, buf, len, -1, true, [])
  {
    ReaderSkips(f.data, len - 1, f.at);
  }

  lemma SawLine(data: seq<Byte>, inbox: seq<Byte>, at: nat, lost: seq<Byte>, buf: seq<Byte>, len: nat)
    requires 0 < at < len <= |buf| && at <= |data| && data[at - 1] == NEWLINE
    requires NoNewline(data, at - 1)
    requires buf[..at] == data[..at] && buf[at] == 0 && data[at..] == lost + inbox && |lost| < LINE_BUFFER
    ensures AsByteReader(data, inbox, buf, len, at, false, lost)
  {
    ReaderSkips(data, len - 1, at - 1);
  }

  /** The recv of readline, once everything received before has been handed out. */
  method Refill(s: Socket, b: array<Byte>, ghost f: Feed, ghost script: seq<Turn>) returns (cnt: int, interrupted: bool)
    requires b.Length == LINE_BUFFER && f.inbox == s.inbox && f.b == b[..] && f.pending == 0
    requires Reading(f) && Ran(script, s.script, false, false)
    modifies s`inbox, s`script, b
    ensures Ran(script, s.script, cnt < 0 && !interrupted, false)
    ensures cnt < 0 && interrupted ==> |s.script| < |old(s.script)|
    ensures cnt <= 0 ==> Reading(f.(inbox := s.inbox, b := b[..]))
    ensures cnt > 0 ==> Reading(Feed(f.data, s.inbox, b[..], f.at, 0, cnt))
    ensures cnt == 0 ==> s.inbox == []
  {
    ghost var before := s.With(b[..]);
    cnt, interrupted := s.Read(b, 0, LINE_BUFFER);
    OneTurn(script, before.script, LINE_BUFFER, false);
    if cnt > 0 {
      Refilled(f, before, s.With(b[..]), cnt);
    } else if cnt == 0 {
      assert Laid(before.buf, 0, []) == before.buf;
    }
  }

  /** Whether a byte was fetched, recv was interrupted, failed, or found the stream closed. */
  datatype Fetch = Got(c: Byte) | Again | Broken | AtEnd

  /** The part of readline that gets the next byte: cnt goes down, recv fills b if it must, bp goes up. */
  method NextByte(s: Socket, b: array<Byte>, bp: nat, cnt: int, ghost f: Feed, ghost script: seq<Turn>)
    returns (fetch: Fetch, bp': nat, cnt': int)
    requires b.Length == LINE_BUFFER && f == Feed(f.data, s.inbox, b[..], f.at, bp, if cnt > 0 then cnt - 1 else 0)
    requires Reading(f) && Ran(script, s.script, false, false)
    modifies s`inbox, s`script, b
    ensures Ran(script, s.script, fetch == Broken, false)
    ensures fetch == Again ==> |s.script| < |old(s.script)| && cnt' < 0 && Reading(Feed(f.data, s.inbox, b[..], f.at, bp', 0))
    ensures fetch == AtEnd ==> s.inbox == [] && Reading(Feed(f.data, [], b[..], f.at, bp', 0))
    ensures fetch.Got? ==>
              && cnt' > 0 && bp' + cnt' - 1 <= LINE_BUFFER && bp' > 0 && f.at < |f.data| && f.data[f.at] == fetch.c
              && f.data[f.at + 1..] == b[bp'..bp' + cnt' - 1] + s.inbox && NoNewline(f.data, f.at)
              && (fetch.c != NEWLINE ==> Reading(Feed(f.data, s.inbox, b[..], f.at + 1, bp', cnt' - 1)))
  {
    hide Ran, NoNewline;
    bp', cnt' := bp, cnt - 1;
    if cnt' <= 0 {
      var interrupted;
      cnt', interrupted := Refill(s, b, f, script);
      if cnt' < 0 {
        return if interrupted then Again else Broken, bp', cnt';
      }
      if cnt' == 0 {
        return AtEnd, bp', cnt';
      }
      bp' := 0;
    }
    Handed(Feed(f.data, s.inbox, b[..], f.at, bp', cnt'));
    return Got(b[bp']), bp' + 1, cnt';
  }

  lemma LineGrows(before: seq<Byte>, after: seq<Byte>, data: seq<Byte>, at: nat)
    requires at < |before| && at < |data| && after == before[at := data[at]] && before[..at] == data[..at]
    ensures after[..at + 1] == data[..at + 1]
  {
    assert after[..at + 1] == before[..at] + [data[at]];
  }

  lemma LineEnds(before: seq<Byte>, after: seq<Byte>, at: nat)
    requires at < |before| && after == before[at := 0]
    ensures after[..at] == before[..at] && after[at] == 0
  {
  }

  lemma NothingRead(data: seq<Byte>, script: seq<Turn>, b: seq<Byte>)
    ensures Reading(Feed(data, data, b, 0, 0, 0)) && Ran(script, script, false, false)
  {
  }

  method ReadLine(s: Socket, buf: array<Byte>, len: nat)
    returns (r: int, tooLong: bool, ghost failed: bool, ghost lost: seq<Byte>)
    requires 0 < len <= buf.Length
    modifies s`inbox, s`script, buf
    ensures Ran(old(s.script), s.script, failed, false)
    ensures failed ==> r == -1 && !tooLong
    ensures !failed ==> AsByteReader(old(s.inbox), s.inbox, buf[..], len, r, tooLong, lost)
  {
    hide Ran, AsByteReader, ByteReader, Reading, NoNewline, Later;
    var at, bp, cnt, left := 0, 0, 0, len;
    var b := new Byte[LINE_BUFFER];
    ghost var data, script, pending := s.inbox, s.script, 0;
    NothingRead(data, script, b[..]);
    while left - 1 > 0
      invariant 1 <= left && at + left == len && at <= |data| && buf[..at] == data[..at]
      invariant pending == if cnt > 0 then cnt - 1 else 0
      invariant Reading(Feed(data, s.inbox, b[..], at, bp, pending))
      invariant Ran(script, s.script, false, false)
      decreases left, |s.script|
    {
      left := left - 1;
      var fetch;
      fetch, bp, cnt := NextByte(s, b, bp, cnt, Feed(data, s.inbox, b[..], at, bp, pending), script);
      match fetch {
        case Again =>
          left, pending := left + 1, 0;
        case Broken =>
          return -1, false, true, [];
        case AtEnd =>
          SawClose(Feed(data, [], b[..], at, bp, 0), buf[..], len);
          return 0, false, false, [];
        case Got(c) =>
          ghost var before := buf[..];
          buf[at] := c;
          LineGrows(before, buf[..], data, at);
          at, pending := at + 1, cnt - 1;
          if c == NEWLINE {
            ghost var line := buf[..];
            buf[at] := 0;
            LineEnds(line, buf[..], at);
            SawLine(data, s.inbox, at, b[bp..bp + pending], buf[..], len);
            return at, false, false, b[bp..bp + pending];
          }
      }
    }
    SawTooMuch(Feed(data, s.inbox, b[..], at, bp, pending), buf[..], len);
    return -1, true, false, [];
  }
}
