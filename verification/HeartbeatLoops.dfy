/**
 * The two main loops of sockapi/demo/heartBeat1 as they are written, over a script of what
 * select and recv return, and the in-line reassembly of the server's messages.
 */
module HeartbeatLoops {
  import opened Bytes
  import opened Heartbeat

  const MSG_TYPE1 := 1
  const MSG_TYPE2 := 2
  const MSG_HEARTBEAT := 3

  /** One turn of a loop, as the system calls report it. */
  datatype Input =
    | TimedOut
    | Data(waited: nat, chunk: seq<Byte>)
    | Closed
    | Failed

  datatype Outcome = Running | ConnectionDead | PeerClosed | IoError | UnknownType

  /** The first field of a message, in network byte order. */
  function TypeOf(msg: seq<Byte>): nat
    requires |msg| >= 4
  {
    BigEndian(msg[..4])
  }

  // ---------------------------------------------------------------------------------
  // Specification: one turn, and all turns, on values.
  // ---------------------------------------------------------------------------------

  /** The bytes on the wire of the three types there are. */
  lemma TypeBytes(msg: seq<Byte>)
    requires |msg| >= 4
    ensures TypeOf(msg) == MSG_HEARTBEAT <==> msg[..4] == [0, 0, 0, 3]
    ensures Known(msg) <==> msg[..4] in {[0, 0, 0, 1], [0, 0, 0, 2], [0, 0, 0, 3]}
  {
    BigEndianIsDictionaryOrder(msg[..4], [0, 0, 0, 1]);
    BigEndianIsDictionaryOrder(msg[..4], [0, 0, 0, 2]);
    BigEndianIsDictionaryOrder(msg[..4], [0, 0, 0, 3]);
  }

  predicate Known(msg: seq<Byte>)
    requires |msg| >= 4
  {
    TypeOf(msg) in {MSG_TYPE1, MSG_TYPE2, MSG_HEARTBEAT}
  }

  /** partial holds the received part of the current message; output what was sent. */
  datatype Loop = Loop(peer: Peer, partial: seq<Byte>, output: seq<seq<Byte>>, outcome: Outcome)

  ghost predicate ValidLoop(l: Loop) {
    && ValidPeer(l.peer)
    && |l.partial| == MSG_SIZE - l.peer.cnt
    && (l.outcome.ConnectionDead? <==> l.peer.dead)
  }

  ghost predicate LegalInput(l: Loop, i: Input) {
    i.Data? ==> i.waited <= Micros(l.peer.tv) && 1 <= |i.chunk| <= l.peer.cnt
  }

  ghost function Handle(l: Loop, msg: seq<Byte>): Loop
    requires |msg| == MSG_SIZE
  {
    if TypeOf(msg) == MSG_HEARTBEAT then l.(output := l.output + [msg])
    else if TypeOf(msg) == MSG_TYPE1 || TypeOf(msg) == MSG_TYPE2 then l
    else l.(outcome := UnknownType)
  }

  ghost function ServerTurn(l: Loop, i: Input): (r: Loop)
    requires ValidLoop(l) && l.outcome.Running? && LegalInput(l, i)
    ensures ValidLoop(r)
  {
    match i
    case TimedOut =>
      var p := OnTimeout(Wait(l.peer, Micros(l.peer.tv)));
      l.(peer := p, outcome := if p.dead then ConnectionDead else Running)
    case Data(waited, chunk) =>
      var p := OnReceive(Wait(l.peer, waited), |chunk|, SERVER_IDLE);
      var whole := l.partial + chunk;
      if |whole| < MSG_SIZE then l.(peer := p, partial := whole)
      else Handle(l.(peer := p, partial := []), whole)
    case Closed => l.(outcome := PeerClosed)
    case Failed => l.(outcome := IoError)
  }

  ghost predicate LegalScript(l: Loop, script: seq<Input>)
    requires ValidLoop(l)
    decreases |script|
  {
    script == [] || !l.outcome.Running? ||
    (LegalInput(l, script[0]) && LegalScript(ServerTurn(l, script[0]), script[1..]))
  }

  ghost function ServerTurns(l: Loop, script: seq<Input>): (r: Loop)
    requires ValidLoop(l) && LegalScript(l, script)
    ensures ValidLoop(r)
    decreases |script|
  {
    if script == [] || !l.outcome.Running? then l
    else ServerTurns(ServerTurn(l, script[0]), script[1..])
  }

  // ---------------------------------------------------------------------------------
  // What the server does with a byte stream, whatever its chunks.
  // ---------------------------------------------------------------------------------

  ghost function Carried(i: Input): seq<Byte> {
    if i.Data? then i.chunk else []
  }

  ghost function Stream(script: seq<Input>): seq<Byte> {
    if script == [] then []
    else Carried(script[0]) + Stream(script[1..])
  }

  /** The heartbeats among the whole messages of a stream, up to the first of unknown type. */
  ghost function Echoes(stream: seq<Byte>): seq<seq<Byte>>
    decreases |stream|
  {
    if |stream| < MSG_SIZE then []
    else
      var msg, rest := stream[..MSG_SIZE], stream[MSG_SIZE..];
      if TypeOf(msg) == MSG_HEARTBEAT then [msg] + Echoes(rest)
      else if TypeOf(msg) == MSG_TYPE1 || TypeOf(msg) == MSG_TYPE2 then Echoes(rest)
      else []
  }

  lemma EchoesOfWhole(msg: seq<Byte>, rest: seq<Byte>)
    requires |msg| == MSG_SIZE
    ensures Echoes(msg + rest) ==
            if TypeOf(msg) == MSG_HEARTBEAT then [msg] + Echoes(rest)
            else if TypeOf(msg) == MSG_TYPE1 || TypeOf(msg) == MSG_TYPE2 then Echoes(rest) else []
  {
    var all := msg + rest;
    assert all[..MSG_SIZE] == msg && all[MSG_SIZE..] == rest;
  }

  lemma WholeEchoes(l: Loop, whole: seq<Byte>, rest: seq<Byte>)
    requires |whole| == MSG_SIZE && l.partial == [] && l.outcome.Running?
    ensures var r, all := Handle(l, whole), l.output + Echoes(whole + rest);
            && (r.outcome.Running? ==> r.output + Echoes(r.partial + rest) == all)
            && (r.outcome.UnknownType? ==> r.output == all)
  {
    EchoesOfWhole(whole, rest);
    assert [] + rest == rest;
    if TypeOf(whole) == MSG_HEARTBEAT {
      assert (l.output + [whole]) + Echoes(rest) == l.output + ([whole] + Echoes(rest));
    }
  }

  /** One turn moves its bytes, and no others, from the input to the partial message and the output. */
  lemma TurnEchoes(l: Loop, i: Input, rest: seq<Byte>)
    requires ValidLoop(l) && l.outcome.Running? && LegalInput(l, i)
    ensures var r, all := ServerTurn(l, i), l.output + Echoes(l.partial + (Carried(i) + rest));
            && (r.outcome.Running? ==> r.output + Echoes(r.partial + rest) == all)
            && (r.outcome.UnknownType? ==> r.output == all)
  {
    var whole := l.partial + Carried(i);
    assert l.partial + (Carried(i) + rest) == whole + rest;
    if i.Data? && |whole| == MSG_SIZE {
      var p := OnReceive(Wait(l.peer, i.waited), |i.chunk|, SERVER_IDLE);
      WholeEchoes(l.(peer := p, partial := []), whole, rest);
    } else {
      assert whole == if i.Data? then ServerTurn(l, i).partial else l.partial;
    }
  }

  /**
   * Reassembly. For every way of cutting the stream into chunks and mixing in timeouts, the
   * server sends back exactly the heartbeats among the stream's messages, byte for byte and
   * in order.
   */
  lemma {:induction false} RepliesAreTheHeartbeats(l: Loop, script: seq<Input>)
    requires ValidLoop(l) && l.outcome.Running? && LegalScript(l, script)
    requires ServerTurns(l, script).outcome.Running? || ServerTurns(l, script).outcome.UnknownType?
    ensures ServerTurns(l, script).output == l.output + Echoes(l.partial + Stream(script))
    decreases |script|
  {
    if script == [] {
      assert l.partial + Stream(script) == l.partial;
    } else {
      var l1 := ServerTurn(l, script[0]);
      TurnEchoes(l, script[0], Stream(script[1..]));
      if l1.outcome.Running? {
        RepliesAreTheHeartbeats(l1, script[1..]);
      }
    }
  }

  // ---------------------------------------------------------------------------------
  // What a turn is in time
  // ---------------------------------------------------------------------------------

  /** The events of Heartbeat.Event that one turn of either loop stands for. */
  ghost function EventsOf(p: Peer, i: Input): seq<Event> {
    match i
    case TimedOut => [Sleep(Micros(p.tv)), Expire]
    case Data(waited, chunk) => [Sleep(waited), Receive(|chunk|)]
    case _ => []
  }

  lemma TwoEvents(p: Peer, first: Event, second: Event, idle: nat)
    requires CanDo(p, first) && CanDo(Do(p, first, idle), second)
    ensures LegalEvents(p, [first, second], idle)
    ensures AfterEvents(p, [first, second], idle) == Do(Do(p, first, idle), second, idle)
  {
    var es := [first, second];
    var q := Do(p, first, idle);
    var r := Do(q, second, idle);
    assert es[1..] == [second] && es[1..][1..] == [];
    assert LegalEvents(r, [], idle) && AfterEvents(r, [], idle) == r;
    assert LegalEvents(q, es[1..], idle) && AfterEvents(q, es[1..], idle) == r;
  }

  /** A turn of the server takes as long, and leaves its counter and its timeout, as the timed model lets its wait and its expiry or receive. */
  lemma ServerTurnIsItsEvents(l: Loop, i: Input)
    requires ValidLoop(l) && l.outcome.Running? && LegalInput(l, i)
    ensures LegalEvents(l.peer, EventsOf(l.peer, i), SERVER_IDLE)
    ensures ServerTurn(l, i).peer == AfterEvents(l.peer, EventsOf(l.peer, i), SERVER_IDLE)
    ensures ServerTurn(l, i).outcome.ConnectionDead? <==> ServerTurn(l, i).peer.dead
  {
    match i
    case TimedOut => TwoEvents(l.peer, Sleep(Micros(l.peer.tv)), Expire, SERVER_IDLE);
    case Data(waited, chunk) => TwoEvents(l.peer, Sleep(waited), Receive(|chunk|), SERVER_IDLE);
    case _ =>
  }

  /** How many timeouts in a row end a script. */
  ghost function Trailing(script: seq<Input>): nat {
    if script == [] || !script[|script| - 1].TimedOut? then 0 else 1 + Trailing(script[..|script| - 1])
  }

  /** After n turns of a loop that began with none missed: what it counts are the timeouts that end the turns, and it goes on with at most three. */
  ghost predicate Counted(script: seq<Input>, n: nat, missed: nat, outcome: Outcome) {
    && n <= |script|
    && (outcome.Running? ==> missed == Trailing(script[..n]) < 4)
    && (outcome.ConnectionDead? ==> missed == Trailing(script[..n]) == 4)
    && (!outcome.Running? && !outcome.ConnectionDead? ==> Trailing(script[..n]) == 0)
    && forall m :: 0 <= m < n ==> Trailing(script[..m]) < 4
  }

  lemma CountNone(script: seq<Input>)
    ensures Counted(script, 0, 0, Running)
  {
  }

  lemma CountOn(script: seq<Input>, n: nat, before: nat, missed: nat, outcome: Outcome)
    requires Counted(script, n, before, Running) && n < |script|
    requires missed == match script[n]
                       case TimedOut => before + 1
                       case Data(_, _) => 0
                       case _ => before
    requires script[n].TimedOut? ==> outcome == if before < 3 then Running else ConnectionDead
    requires script[n].Data? ==> outcome.Running? || outcome.UnknownType?
    requires script[n].Closed? || script[n].Failed? ==> outcome.PeerClosed? || outcome.IoError?
    ensures Counted(script, n + 1, missed, outcome)
  {
    assert script[..n + 1][..n] == script[..n] && script[..n + 1][n] == script[n];
    assert forall m :: 0 <= m < n + 1 ==> Trailing(script[..m]) < 4;
  }

  // ---------------------------------------------------------------------------------
  // hb_server.c
  // ---------------------------------------------------------------------------------

  lemma TurnOn(l: Loop, script: seq<Input>)
    requires ValidLoop(l) && LegalScript(l, script) && script != [] && l.outcome.Running?
    ensures LegalInput(l, script[0]) && LegalScript(ServerTurn(l, script[0]), script[1..])
    ensures ServerTurns(ServerTurn(l, script[0]), script[1..]) == ServerTurns(l, script)
  {
  }

  lemma TurnsOver(l: Loop, script: seq<Input>)
    requires ValidLoop(l) && LegalScript(l, script) && (script == [] || !l.outcome.Running?)
    ensures ServerTurns(l, script) == l
  {
  }

  class HbServer {
    var missed: nat
    var tv: Timeval
    var cnt: nat
    var msg: array<Byte>
    var sent: seq<seq<Byte>>
    var outcome: Outcome

    ghost predicate Valid()
      reads this, msg
    {
      msg.Length == MSG_SIZE && ValidLoop(State())
    }

    ghost function State(): Loop
      reads this, msg
    {
      Loop(Peer(tv, missed, cnt, outcome.ConnectionDead?),
           if cnt <= MSG_SIZE == msg.Length then msg[..MSG_SIZE - cnt] else [], sent, outcome)
    }

    constructor ()
      ensures Valid() && fresh(msg)
      ensures State() == Loop(Peer(Timeval(T1 + T2, 0), 0, MSG_SIZE, false), [], [], Running)
    {
      missed, tv, cnt, sent, outcome := 0, Timeval(T1 + T2, 0), MSG_SIZE, [], Running;
      msg := new Byte[MSG_SIZE];
    }

    /** recv into the rest of msg. */
    method Store(chunk: seq<Byte>)
      requires Valid() && |chunk| <= cnt
      modifies msg
      ensures Valid() && msg[..MSG_SIZE - cnt + |chunk|] == old(msg[..MSG_SIZE - cnt]) + chunk
    {
      var start := MSG_SIZE - cnt;
      forall k | 0 <= k < |chunk| {
        msg[start + k] := chunk[k];
      }
    }

    /** What becomes of a whole message. */
    method HandleMessage()
      requires Valid() && cnt == MSG_SIZE && outcome.Running?
      modifies `sent, `outcome
      ensures Valid() && State() == Handle(old(State()), msg[..])
    {
      var t := TypeOf(msg[..]);
      if t == MSG_HEARTBEAT {
        sent := sent + [msg[..]];
      } else if t != MSG_TYPE1 && t != MSG_TYPE2 {
        outcome := UnknownType;
      }
    }

    /** Its branch for a readable socket. */
    method Receive(waited: nat, chunk: seq<Byte>)
      requires Valid() && outcome.Running? && LegalInput(State(), Data(waited, chunk))
      modifies this, msg
      ensures Valid() && msg == old(msg)
      ensures State() == ServerTurn(old(State()), Data(waited, chunk))
    {
      ghost var whole := State().partial + chunk;
      tv := Slept(tv, waited);
      Store(chunk);
      assert msg[..MSG_SIZE - cnt + |chunk|] == whole;
      missed := 0;
      tv := Timeval(T1 + T2, tv.usec);
      cnt := cnt - |chunk|;
      if cnt == 0 {
        assert msg[..] == msg[..MSG_SIZE] == whole;
        cnt := MSG_SIZE;
        HandleMessage();
      }
    }

    /** One pass through the for loop. The fourth timeout in a row gives up; anything received starts the count again. */
    method Turn(i: Input)
      requires Valid() && outcome.Running? && LegalInput(State(), i)
      modifies this, msg
      ensures Valid() && msg == old(msg)
      ensures State() == ServerTurn(old(State()), i)
      ensures missed == match i
                        case TimedOut => old(missed) + 1
                        case Data(_, _) => 0
                        case _ => old(missed)
      ensures !outcome.Running? ==>
                outcome == match i
                           case TimedOut => ConnectionDead
                           case Data(_, _) => UnknownType
                           case Closed => PeerClosed
                           case Failed => IoError
      ensures outcome.Running? <==> match i
                                    case TimedOut => old(missed) < 3
                                    case Data(_, chunk) => |chunk| < old(cnt) || Known(old(State().partial) + chunk)
                                    case _ => false
      ensures sent == old(sent)
                      + if i.Data? && |i.chunk| == old(cnt) && (old(State().partial) + i.chunk)[..4] == [0, 0, 0, 3]
                        then [old(State().partial) + i.chunk] else []
    {
      match i {
        case Failed =>
          outcome := IoError;
        case Closed =>
          outcome := PeerClosed;
        case TimedOut =>
          tv := Slept(tv, Micros(tv));
          missed := missed + 1;
          if missed > 3 {
            outcome := ConnectionDead;
          } else {
            tv := Timeval(T2, tv.usec);
          }
        case Data(waited, chunk) =>
          if |chunk| == cnt {
            TypeBytes(State().partial + chunk);
          }
          Receive(waited, chunk);
      }
    }

    /**
     * The for loop, for as long as the script lasts: n turns are made. The server gives up exactly
     * at the fourth timeout in a row.
     */
    method Serve(script: seq<Input>) returns (n: nat)
      requires Valid() && outcome.Running? && LegalScript(State(), script)
      modifies this, msg
      ensures Valid() && msg == old(msg)
      ensures State() == ServerTurns(old(State()), script)
      ensures outcome.Running? || outcome.UnknownType? ==>
                sent == old(sent) + Echoes(old(State().partial) + Stream(script))
      ensures n <= |script| && (outcome.Running? ==> n == |script|)
      ensures old(missed) == 0 ==> (outcome.ConnectionDead? <==> Trailing(script[..n]) == 4)
      ensures old(missed) == 0 ==> forall m :: 0 <= m < n ==> Trailing(script[..m]) < 4
    {
      hide ServerTurn, ServerTurns, LegalScript, LegalInput, Trailing;
      CountNone(script);
      ghost var start := State();
      n := 0;
      assert script[0..] == script;
      while n < |script| && outcome.Running?
        invariant n <= |script| && Valid() && msg == old(msg)
        invariant LegalScript(State(), script[n..])
        invariant ServerTurns(State(), script[n..]) == ServerTurns(start, script)
        invariant old(missed) == 0 ==> Counted(script, n, missed, outcome)
      {
        ghost var before := missed;
        assert script[n..][0] == script[n] && script[n..][1..] == script[n + 1..];
        TurnOn(State(), script[n..]);
        Turn(script[n]);
        if old(missed) == 0 {
          CountOn(script, n, before, missed, outcome);
        }
        n := n + 1;
      }
      TurnsOver(State(), script[n..]);
      if outcome.Running? || outcome.UnknownType? {
        RepliesAreTheHeartbeats(start, script);
      }
    }
  }

  // ---------------------------------------------------------------------------------
  // hb_client.c
  // ---------------------------------------------------------------------------------

  ghost predicate LegalClientInput(p: Peer, i: Input) {
    i.Data? ==> i.waited <= Micros(p.tv) && 1 <= |i.chunk| <= p.cnt
  }

  ghost function ClientTurn(p: Peer, i: Input): Peer
    requires !p.dead && LegalClientInput(p, i)
  {
    match i
    case TimedOut => OnTimeout(Wait(p, Micros(p.tv)))
    case Data(waited, chunk) => OnReceive(Wait(p, waited), |chunk|, CLIENT_IDLE)
    case _ => p
  }

  lemma ClientTurnIsItsEvents(p: Peer, i: Input)
    requires !p.dead && LegalClientInput(p, i)
    ensures LegalEvents(p, EventsOf(p, i), CLIENT_IDLE)
    ensures ClientTurn(p, i) == AfterEvents(p, EventsOf(p, i), CLIENT_IDLE)
  {
    match i
    case TimedOut => TwoEvents(p, Sleep(Micros(p.tv)), Expire, CLIENT_IDLE);
    case Data(waited, chunk) => TwoEvents(p, Sleep(waited), Receive(|chunk|), CLIENT_IDLE);
    case _ =>
  }

  ghost function Timeouts(script: seq<Input>): nat {
    if script == [] then 0
    else Timeouts(script[..|script| - 1]) + if script[|script| - 1].TimedOut? then 1 else 0
  }

  ghost predicate LegalClientScript(p: Peer, script: seq<Input>)
    decreases |script|
  {
    script == [] || p.dead || !(script[0].Data? || script[0].TimedOut?) ||
    (LegalClientInput(p, script[0]) && LegalClientScript(ClientTurn(p, script[0]), script[1..]))
  }

  class HbClient {
    var heartbeats: nat
    var tv: Timeval
    var cnt: nat
    var sends: nat          // heartbeats written to the socket
    var outcome: Outcome

    ghost function Self(): Peer
      reads this
    {
      Peer(tv, heartbeats, cnt, outcome.ConnectionDead?)
    }

    ghost predicate Valid()
      reads this
    {
      ValidPeer(Self()) && WellTimed(Self())
    }

    constructor ()
      ensures Valid() && outcome.Running? && sends == 0
      ensures Self() == Peer(Timeval(T1, 0), 0, MSG_SIZE, false)
    {
      heartbeats, tv, cnt, sends, outcome := 0, Timeval(T1, 0), MSG_SIZE, 0, Running;
    }

    /**
     * One pass through the for loop. A heartbeat goes out on each of the first three timeouts
     * in a row; the fourth gives up instead.
     */
    method Turn(i: Input)
      requires Valid() && outcome.Running? && LegalClientInput(Self(), i)
      modifies this
      ensures Valid() && Self() == ClientTurn(old(Self()), i)
      ensures sends == old(sends) + (if i.TimedOut? && old(heartbeats) < 3 then 1 else 0)
      ensures outcome == match i
                         case TimedOut => (if old(heartbeats) < 3 then Running else ConnectionDead)
                         case Data(_, _) => Running
                         case Closed => PeerClosed
                         case Failed => IoError
    {
      match i {
        case Failed =>
          outcome := IoError;
        case Closed =>
          outcome := PeerClosed;
        case TimedOut =>
          tv := Slept(tv, Micros(tv));
          heartbeats := heartbeats + 1;
          if heartbeats > 3 {
            outcome := ConnectionDead;
          } else {
            sends := sends + 1;
            tv := Timeval(T2, tv.usec);
          }
        case Data(waited, chunk) =>
          tv := Slept(tv, waited);
          heartbeats := 0;
          tv := Timeval(T1, tv.usec);
          cnt := cnt - |chunk|;
          if cnt == 0 {
            cnt := MSG_SIZE;
          }
      }
    }

    /**
     * The for loop, for as long as the script lasts: n turns are made. The client gives up
     * exactly at the fourth timeout in a row, and has sent a heartbeat on every other one.
     */
    method Run(script: seq<Input>) returns (n: nat)
      requires Valid() && outcome.Running? && heartbeats == 0 && LegalClientScript(Self(), script)
      modifies this
      ensures Valid() && n <= |script|
      ensures outcome.ConnectionDead? <==> Trailing(script[..n]) == 4
      ensures forall m :: 0 <= m < n ==> Trailing(script[..m]) < 4
      ensures outcome.Running? ==> n == |script|
      ensures sends == old(sends) + Timeouts(script[..n]) - (if outcome.ConnectionDead? then 1 else 0)
    {
      n := 0;
      while n < |script| && outcome.Running?
        invariant n <= |script| && Valid()
        invariant outcome.Running? ==> LegalClientScript(Self(), script[n..])
        invariant Counted(script, n, heartbeats, outcome)
        invariant sends == old(sends) + Timeouts(script[..n]) - (if outcome.ConnectionDead? then 1 else 0)
      {
        assert script[..n + 1][..n] == script[..n] && script[..n + 1][n] == script[n];
        assert script[n..][0] == script[n] && script[n..][1..] == script[n + 1..];
        ghost var before := heartbeats;
        Turn(script[n]);
        CountOn(script, n, before, heartbeats, outcome);
        n := n + 1;
      }
    }
  }
}
