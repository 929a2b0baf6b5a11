/**
 * The heartbeat protocol of sockapi/demo/heartBeat1: two timed loops joined by two
 * delayed byte streams. Time is counted in microseconds.
 *
 * Both loops keep the same four things (a timeout, a counter of consecutive timeouts,
 * the bytes missing from the current message, and whether the loop has given up), so one
 * datatype serves for both; they differ in the timeout they restore on a receive.
 */
module Heartbeat {

  const MICROS := 1_000_000
  const T1 := 60            // heartbeat.h: idle time before a heartbeat
  const T2 := 10            // heartbeat.h: time to wait for a response
  const MSG_SIZE := 2004    // heartbeat.h: a 4-byte type and 2000 bytes of data
  const CLIENT_IDLE := T1
  const SERVER_IDLE := T1 + T2

  datatype Timeval = Timeval(sec: nat, usec: nat)

  function Micros(tv: Timeval): nat {
    tv.sec * MICROS + tv.usec
  }

  /** What select leaves in its timeout after sleeping for d microseconds. */
  function Slept(tv: Timeval, d: nat): (r: Timeval)
    requires d <= Micros(tv)
    ensures Micros(r) == Micros(tv) - d
    ensures r.usec < MICROS
  {
    Timeval((Micros(tv) - d) / MICROS, (Micros(tv) - d) % MICROS)
  }

  datatype Peer = Peer(tv: Timeval, count: nat, cnt: nat, dead: bool)

  ghost predicate ValidPeer(p: Peer) {
    p.tv.usec < MICROS && 1 <= p.cnt <= MSG_SIZE
  }

  function Wait(p: Peer, d: nat): Peer
    requires d <= Micros(p.tv)
  {
    p.(tv := Slept(p.tv, d))
  }

  /** select returned 0. Only tv_sec is assigned again. */
  function OnTimeout(p: Peer): Peer {
    if p.count + 1 > 3
    then p.(count := p.count + 1, dead := true)
    else p.(count := p.count + 1, tv := p.tv.(sec := T2))
  }

  /** recv returned k > 0 bytes. Only tv_sec is assigned again, so leftover microseconds stay. */
  function OnReceive(p: Peer, k: nat, idle: nat): Peer
    requires k <= p.cnt
  {
    p.(count := 0, tv := p.tv.(sec := idle), cnt := if p.cnt == k then MSG_SIZE else p.cnt - k)
  }

  // ---------------------------------------------------------------------------------
  // One loop on its own: how long silence is tolerated.
  // ---------------------------------------------------------------------------------

  datatype Event = Sleep(d: nat) | Expire | Receive(k: nat)

  ghost predicate CanDo(p: Peer, e: Event) {
    && !p.dead
    && match e
       case Sleep(d) => d <= Micros(p.tv)
       case Expire => Micros(p.tv) == 0
       case Receive(k) => 1 <= k <= p.cnt
  }

  function Do(p: Peer, e: Event, idle: nat): Peer
    requires CanDo(p, e)
  {
    match e
    case Sleep(d) => Wait(p, d)
    case Expire => OnTimeout(p)
    case Receive(k) => OnReceive(p, k, idle)
  }

  ghost predicate LegalEvents(p: Peer, es: seq<Event>, idle: nat)
    decreases |es|
  {
    es == [] || (CanDo(p, es[0]) && LegalEvents(Do(p, es[0], idle), es[1..], idle))
  }

  ghost function AfterEvents(p: Peer, es: seq<Event>, idle: nat): Peer
    requires LegalEvents(p, es, idle)
    decreases |es|
  {
    if es == [] then p else AfterEvents(Do(p, es[0], idle), es[1..], idle)
  }

  ghost function Elapsed(es: seq<Event>): nat {
    if es == [] then 0 else (if es[0].Sleep? then es[0].d else 0) + Elapsed(es[1..])
  }

  ghost predicate Silent(es: seq<Event>) {
    forall i :: 0 <= i < |es| ==> !es[i].Receive?
  }

  /** Time left until a loop that hears nothing gives up. */
  ghost function Patience(p: Peer): int {
    if p.dead then 0 else Micros(p.tv) + (3 - p.count) * T2 * MICROS
  }

  /** Well-timed: what a loop is after its start, a receive, a sleep or a timeout. */
  ghost predicate WellTimed(p: Peer) {
    p.count <= 4 && (!p.dead ==> p.count <= 3) && (p.dead ==> p.count == 4 && Micros(p.tv) == 0) && p.tv.usec < MICROS
  }

  lemma {:induction false} SilencePatience(p: Peer, es: seq<Event>, idle: nat)
    requires WellTimed(p) && LegalEvents(p, es, idle) && Silent(es)
    ensures WellTimed(AfterEvents(p, es, idle))
    ensures Patience(AfterEvents(p, es, idle)) == Patience(p) - Elapsed(es)
    decreases |es|
  {
    if es != [] {
      assert es[0] in es;
      var q := Do(p, es[0], idle);
      assert WellTimed(q);
      assert Patience(q) == Patience(p) - (if es[0].Sleep? then es[0].d else 0);
      assert Silent(es[1..]);
      SilencePatience(q, es[1..], idle);
    }
  }

  /**
   * Exact detection time. From any receive on, in any schedule without another one, a loop
   * gives up exactly idle + 3 * T2 seconds (and the leftover microseconds) later: never
   * sooner, and no legal schedule is silent for longer.
   */
  lemma DetectionIsExact(p: Peer, k: nat, idle: nat, es: seq<Event>)
    requires ValidPeer(p) && !p.dead && 1 <= k <= p.cnt
    requires LegalEvents(OnReceive(p, k, idle), es, idle) && Silent(es)
    ensures var bound := (idle + 3 * T2) * MICROS + p.tv.usec;
            && Elapsed(es) <= bound
            && (AfterEvents(OnReceive(p, k, idle), es, idle).dead ==> Elapsed(es) == bound)
            && bound < (idle + 3 * T2 + 1) * MICROS
  {
    SilencePatience(OnReceive(p, k, idle), es, idle);
  }

  // ---------------------------------------------------------------------------------
  // Both loops and the two byte streams between them.
  // ---------------------------------------------------------------------------------

  datatype Kind = Application | HeartbeatMsg

  /** A message under way: the bytes not yet received, and when it was sent. */
  datatype Packet = Packet(kind: Kind, left: nat, sentAt: int)

  /** heard is when the server last received anything (or was started). */
  datatype World = World(
    now: int, client: Peer, server: Peer, toServer: seq<Packet>, toClient: seq<Packet>, heard: int)

  datatype Step =
    | Tick(d: nat)
    | ClientTimeout
    | ServerTimeout
    | ClientRecv(k: nat)
    | ServerRecv(k: nat)
    | ClientSends          // an application message; the client loop itself sends only heartbeats

  function Received(ch: seq<Packet>, k: nat): seq<Packet>
    requires ch != [] && k <= ch[0].left
  {
    if k == ch[0].left then ch[1..] else ch[0 := ch[0].(left := ch[0].left - k)]
  }

  /** What select and recv allow two live peers to do next. */
  ghost predicate Possible(w: World, s: Step) {
    && !w.client.dead && !w.server.dead
    && match s
       case Tick(d) => d <= Micros(w.client.tv) && d <= Micros(w.server.tv)
       case ClientTimeout => Micros(w.client.tv) == 0
       case ServerTimeout => Micros(w.server.tv) == 0
       case ClientRecv(k) => w.toClient != [] && 1 <= k <= w.client.cnt && k <= w.toClient[0].left
       case ServerRecv(k) => w.toServer != [] && 1 <= k <= w.server.cnt && k <= w.toServer[0].left
       case ClientSends => true
  }

  /** Bounded delay: time does not pass the moment when some message must have arrived. */
  ghost predicate Enabled(delay: nat, w: World, s: Step) {
    && Possible(w, s)
    && (s.Tick? ==>
          && (forall i :: 0 <= i < |w.toServer| ==> w.now + s.d <= w.toServer[i].sentAt + delay)
          && (forall i :: 0 <= i < |w.toClient| ==> w.now + s.d <= w.toClient[i].sentAt + delay))
  }

  function Next(w: World, s: Step): World
    requires Possible(w, s)
  {
    match s
    case Tick(d) =>
      w.(now := w.now + d, client := Wait(w.client, d), server := Wait(w.server, d))
    case ClientTimeout =>
      var c := OnTimeout(w.client);
      w.(client := c, toServer := if c.dead then w.toServer else w.toServer + [Packet(HeartbeatMsg, MSG_SIZE, w.now)])
    case ServerTimeout =>
      w.(server := OnTimeout(w.server))
    case ClientRecv(k) =>
      w.(client := OnReceive(w.client, k, CLIENT_IDLE), toClient := Received(w.toClient, k))
    case ServerRecv(k) =>
      w.(server := OnReceive(w.server, k, SERVER_IDLE),
         toServer := Received(w.toServer, k),
         toClient := if k == w.server.cnt && w.toServer[0].kind.HeartbeatMsg?
                     then w.toClient + [Packet(HeartbeatMsg, MSG_SIZE, w.now)] else w.toClient,
         heard := w.now)
    case ClientSends =>
      w.(toServer := w.toServer + [Packet(Application, MSG_SIZE, w.now)])
  }

  /** Each loop was started, with its initial timeout, at most delay ago; nothing was sent yet. */
  ghost predicate Init(delay: nat, w: World) {
    && w.toServer == [] && w.toClient == []
    && w.heard <= w.now <= w.heard + delay
    && (exists skew: nat :: skew <= delay && skew <= T1 * MICROS
         && w.client == Wait(Peer(Timeval(CLIENT_IDLE, 0), 0, MSG_SIZE, false), skew))
    && w.now - w.heard <= T1 * MICROS
    && w.server == Wait(Peer(Timeval(SERVER_IDLE, 0), 0, MSG_SIZE, false), w.now - w.heard)
  }

  ghost predicate LegalRun(delay: nat, w: World, steps: seq<Step>)
    decreases |steps|
  {
    steps == [] || (Enabled(delay, w, steps[0]) && LegalRun(delay, Next(w, steps[0]), steps[1..]))
  }

  ghost function After(delay: nat, w: World, steps: seq<Step>): World
    requires LegalRun(delay, w, steps)
    decreases |steps|
  {
    if steps == [] then w else After(delay, Next(w, steps[0]), steps[1..])
  }

  ghost predicate NoneDead(w: World) {
    !w.client.dead && !w.server.dead
  }

  // ---------------------------------------------------------------------------------
  // The invariant.
  // ---------------------------------------------------------------------------------

  /** recv never reads across a message: the first message still owes exactly cnt bytes. */
  ghost predicate Aligned(ch: seq<Packet>, cnt: nat) {
    && 1 <= cnt <= MSG_SIZE
    && (ch == [] ==> cnt == MSG_SIZE)
    && (ch != [] ==> ch[0].left == cnt)
    && (forall i :: 0 < i < |ch| ==> ch[i].left == MSG_SIZE)
  }

  ghost predicate Fresh(delay: nat, now: int, ch: seq<Packet>) {
    forall i :: 0 <= i < |ch| ==> ch[i].sentAt <= now <= ch[i].sentAt + delay
  }

  /** A message (of one of the given kinds) sent no later than latest is under way. */
  ghost predicate UnderWay(ch: seq<Packet>, heartbeatOnly: bool, latest: int) {
    exists i :: 0 <= i < |ch| && ch[i].sentAt <= latest && (heartbeatOnly ==> ch[i].kind.HeartbeatMsg?)
  }

  ghost predicate ClientInv(delay: nat, w: World) {
    && w.client.tv.usec < MICROS
    && Micros(w.client.tv) < (T1 + 1) * MICROS
    && w.client.count <= 3
    && (w.client.count > 0 ==>
          // first: when the first of the unanswered heartbeats was sent
          var first := w.now + Micros(w.client.tv) - w.client.count * T2 * MICROS;
          UnderWay(w.toServer, true, first) || UnderWay(w.toClient, false, first + delay))
  }

  ghost predicate ServerInv(delay: nat, w: World) {
    && w.server.tv.usec < MICROS
    && w.server.count <= 3
    && w.heard <= w.now
    && w.now + Micros(w.server.tv) >= w.heard + (SERVER_IDLE + w.server.count * T2) * MICROS
    && (forall i :: 0 <= i < |w.toClient| ==> w.toClient[i].sentAt <= w.heard)
    // latest: when at the latest the client speaks again
    && var latest := w.heard + delay + (T1 + 1) * MICROS;
       w.now + Micros(w.client.tv) <= latest || UnderWay(w.toServer, false, latest)
  }

  ghost predicate Inv(delay: nat, w: World) {
    && NoneDead(w)
    && Aligned(w.toServer, w.server.cnt) && Aligned(w.toClient, w.client.cnt)
    && Fresh(delay, w.now, w.toServer) && Fresh(delay, w.now, w.toClient)
    && ClientInv(delay, w) && ServerInv(delay, w)
  }

  lemma InitInv(delay: nat, w: World)
    requires Init(delay, w)
    ensures Inv(delay, w)
  {
  }

  lemma UnderWayAppend(ch: seq<Packet>, p: Packet, heartbeatOnly: bool, latest: int)
    ensures UnderWay(ch, heartbeatOnly, latest) ==> UnderWay(ch + [p], heartbeatOnly, latest)
    ensures p.sentAt <= latest && (heartbeatOnly ==> p.kind.HeartbeatMsg?) ==> UnderWay(ch + [p], heartbeatOnly, latest)
  {
    var r := ch + [p];
    if UnderWay(ch, heartbeatOnly, latest) {
      var i :| 0 <= i < |ch| && ch[i].sentAt <= latest && (heartbeatOnly ==> ch[i].kind.HeartbeatMsg?);
      assert r[i] == ch[i];
    }
    assert r[|ch|] == p;
  }

  lemma TickInv(delay: nat, w: World, d: nat)
    requires Inv(delay, w) && Enabled(delay, w, Tick(d))
    ensures Inv(delay, Next(w, Tick(d)))
  {
  }

  /** A client that times out has not used up its three heartbeats: a reply would be overdue. */
  lemma ClientTimeoutInv(delay: nat, w: World)
    requires 2 * delay < 3 * T2 * MICROS
    requires Inv(delay, w) && Enabled(delay, w, ClientTimeout)
    ensures Inv(delay, Next(w, ClientTimeout))
  {
    var p := Packet(HeartbeatMsg, MSG_SIZE, w.now);
    assert w.client.count < 3;
    var v := Next(w, ClientTimeout);
    assert v.toServer == w.toServer + [p];
    var first := v.now + Micros(v.client.tv) - v.client.count * T2 * MICROS;
    assert w.client.count > 0 ==> first == w.now + Micros(w.client.tv) - w.client.count * T2 * MICROS;
    UnderWayAppend(w.toServer, p, true, first);
    UnderWayAppend(w.toServer, p, false, w.heard + delay + (T1 + 1) * MICROS);
  }

  /** A server that times out has not missed three heartbeats: one would be overdue. */
  lemma ServerTimeoutInv(delay: nat, w: World)
    requires 2 * delay < 3 * T2 * MICROS
    requires Inv(delay, w) && Enabled(delay, w, ServerTimeout)
    ensures Inv(delay, Next(w, ServerTimeout))
  {
    assert w.server.count < 3;
  }

  lemma ClientRecvInv(delay: nat, w: World, k: nat)
    requires Inv(delay, w) && Enabled(delay, w, ClientRecv(k))
    ensures Inv(delay, Next(w, ClientRecv(k)))
  {
    assert w.toClient[0].sentAt <= w.heard;
  }

  lemma ServerRecvInv(delay: nat, w: World, k: nat)
    requires Inv(delay, w) && Enabled(delay, w, ServerRecv(k))
    ensures Inv(delay, Next(w, ServerRecv(k)))
  {
    var v := Next(w, ServerRecv(k));
    var reply := Packet(HeartbeatMsg, MSG_SIZE, w.now);
    if w.client.count > 0 {
      var first := w.now + Micros(w.client.tv) - w.client.count * T2 * MICROS;
      UnderWayAppend(w.toClient, reply, false, first + delay);
      if UnderWay(w.toServer, true, first) && !UnderWay(w.toClient, false, first + delay) {
        var i :| 0 <= i < |w.toServer| && w.toServer[i].sentAt <= first && w.toServer[i].kind.HeartbeatMsg?;
        if k == w.server.cnt {
          if i > 0 {
            assert v.toServer[i - 1] == w.toServer[i];
          }
        } else {
          assert v.toServer[i].sentAt == w.toServer[i].sentAt && v.toServer[i].kind == w.toServer[i].kind;
        }
      }
    }
  }

  lemma ClientSendsInv(delay: nat, w: World)
    requires Inv(delay, w) && Enabled(delay, w, ClientSends)
    ensures Inv(delay, Next(w, ClientSends))
  {
    var p := Packet(Application, MSG_SIZE, w.now);
    UnderWayAppend(w.toServer, p, false, w.heard + delay + (T1 + 1) * MICROS);
    if w.client.count > 0 {
      UnderWayAppend(w.toServer, p, true, w.now + Micros(w.client.tv) - w.client.count * T2 * MICROS);
    }
  }

  lemma StepInv(delay: nat, w: World, s: Step)
    requires 2 * delay < 3 * T2 * MICROS
    requires Inv(delay, w) && Enabled(delay, w, s)
    ensures Inv(delay, Next(w, s))
  {
    match s
    case Tick(d) => TickInv(delay, w, d);
    case ClientTimeout => ClientTimeoutInv(delay, w);
    case ServerTimeout => ServerTimeoutInv(delay, w);
    case ClientRecv(k) => ClientRecvInv(delay, w, k);
    case ServerRecv(k) => ServerRecvInv(delay, w, k);
    case ClientSends => ClientSendsInv(delay, w);
  }

  lemma {:induction false} RunInv(delay: nat, w: World, steps: seq<Step>)
    requires 2 * delay < 3 * T2 * MICROS
    requires Inv(delay, w) && LegalRun(delay, w, steps)
    ensures Inv(delay, After(delay, w, steps))
    decreases |steps|
  {
    if steps != [] {
      StepInv(delay, w, steps[0]);
      RunInv(delay, Next(w, steps[0]), steps[1..]);
    }
  }

  /** The bounds of the invariant are not met by stopping the clock: some step other than waiting 0 is always enabled. */
  lemma NeverStuck(delay: nat, w: World) returns (s: Step)
    requires Inv(delay, w)
    ensures Enabled(delay, w, s) && s != Tick(0) && s != ClientSends
  {
    s := if w.toServer != [] then ServerRecv(1)
         else if w.toClient != [] then ClientRecv(1)
         else if Micros(w.client.tv) == 0 then ClientTimeout
         else if Micros(w.server.tv) == 0 then ServerTimeout
         else Tick(1);
  }

  // ---------------------------------------------------------------------------------
  // The exact condition for "no live peer is ever declared dead".
  // ---------------------------------------------------------------------------------

  ghost predicate Safe(delay: nat) {
    forall w: World, steps: seq<Step> :: Init(delay, w) && LegalRun(delay, w, steps) ==> NoneDead(After(delay, w, steps))
  }

  lemma {:induction false} RunExtend(delay: nat, w: World, steps: seq<Step>, s: Step)
    requires LegalRun(delay, w, steps) && Enabled(delay, After(delay, w, steps), s)
    ensures LegalRun(delay, w, steps + [s])
    ensures After(delay, w, steps + [s]) == Next(After(delay, w, steps), s)
    decreases |steps|
  {
    var all := steps + [s];
    if steps == [] {
      assert all[1..] == [];
    } else {
      assert all[0] == steps[0] && all[1..] == steps[1..] + [s];
      RunExtend(delay, Next(w, steps[0]), steps[1..], s);
    }
  }

  function SlowStart(): World {
    World(0, Peer(Timeval(CLIENT_IDLE, 0), 0, MSG_SIZE, false), Peer(Timeval(SERVER_IDLE, 0), 0, MSG_SIZE, false), [], [], 0)
  }

  /** The state after the first n steps of a run of slow messages. */
  function SlowState(n: nat): World {
    var hb60, hb70, hb80 := Packet(HeartbeatMsg, MSG_SIZE, 60 * MICROS), Packet(HeartbeatMsg, MSG_SIZE, 70 * MICROS), Packet(HeartbeatMsg, MSG_SIZE, 80 * MICROS);
    var re75, re85 := Packet(HeartbeatMsg, MSG_SIZE, 75 * MICROS), Packet(HeartbeatMsg, MSG_SIZE, 85 * MICROS);
    match n
    case 0 => SlowStart()
    case 1 => At(60, 0, 0, 10, 0, [], [], 0)
    case 2 => At(60, 10, 1, 10, 0, [hb60], [], 0)
    case 3 => At(70, 0, 1, 0, 0, [hb60], [], 0)
    case 4 => At(70, 10, 2, 0, 0, [hb60, hb70], [], 0)
    case 5 => At(70, 10, 2, 10, 1, [hb60, hb70], [], 0)
    case 6 => At(75, 5, 2, 5, 1, [hb60, hb70], [], 0)
    case 7 => At(75, 5, 2, 70, 0, [hb70], [re75], 75)
    case 8 => At(80, 0, 2, 65, 0, [hb70], [re75], 75)
    case 9 => At(80, 10, 3, 65, 0, [hb70, hb80], [re75], 75)
    case 10 => At(85, 5, 3, 60, 0, [hb70, hb80], [re75], 75)
    case 11 => At(85, 5, 3, 70, 0, [hb80], [re75, re85], 85)
    case 12 => At(90, 0, 3, 65, 0, [hb80], [re75, re85], 85)
    case _ => At(90, 0, 3, 65, 0, [hb80], [re75, re85], 85).(client := Peer(Timeval(0, 0), 4, MSG_SIZE, true))
  }

  function At(now: nat, clientLeft: nat, sent: nat, serverLeft: nat, missed: nat,
              toServer: seq<Packet>, toClient: seq<Packet>, heard: nat): World {
    World(now * MICROS, Peer(Timeval(clientLeft, 0), sent, MSG_SIZE, false),
          Peer(Timeval(serverLeft, 0), missed, MSG_SIZE, false), toServer, toClient, heard * MICROS)
  }

  /** Step n of that run. */
  function SlowStep(n: nat): Step {
    match n
    case 0 => Tick(60 * MICROS)
    case 1 => ClientTimeout
    case 2 => Tick(10 * MICROS)
    case 3 => ClientTimeout
    case 4 => ServerTimeout
    case 6 => ServerRecv(MSG_SIZE)
    case 8 => ClientTimeout
    case 10 => ServerRecv(MSG_SIZE)
    case 12 => ClientTimeout
    case _ => Tick(5 * MICROS)
  }

  lemma SlowTickGoes(delay: nat, n: nat)
    requires 2 * delay >= 3 * T2 * MICROS && n < 13 && SlowStep(n).Tick?
    ensures Enabled(delay, SlowState(n), SlowStep(n))
    ensures Next(SlowState(n), SlowStep(n)) == SlowState(n + 1)
  {
    var w, s := SlowState(n), SlowStep(n);
    assert Slept(w.client.tv, s.d) == SlowState(n + 1).client.tv;
    assert Slept(w.server.tv, s.d) == SlowState(n + 1).server.tv;
  }

  lemma SlowEventGoes(delay: nat, n: nat)
    requires 2 * delay >= 3 * T2 * MICROS && n < 13 && !SlowStep(n).Tick?
    ensures Enabled(delay, SlowState(n), SlowStep(n))
    ensures Next(SlowState(n), SlowStep(n)) == SlowState(n + 1)
  {
  }

  lemma SlowStepGoes(delay: nat, n: nat)
    requires 2 * delay >= 3 * T2 * MICROS && n < 13
    ensures Enabled(delay, SlowState(n), SlowStep(n))
    ensures Next(SlowState(n), SlowStep(n)) == SlowState(n + 1)
  {
    if SlowStep(n).Tick? {
      SlowTickGoes(delay, n);
    } else {
      SlowEventGoes(delay, n);
    }
  }

  /**
   * A round trip as long as three heartbeat intervals: the heartbeats of second 60 and 70
   * reach the server at 75 and 85, and at 90, when the first reply is due, the client's
   * fourth timeout comes first.
   */
  lemma SlowRun(delay: nat) returns (steps: seq<Step>)
    requires 2 * delay >= 3 * T2 * MICROS
    ensures LegalRun(delay, SlowStart(), steps)
    ensures After(delay, SlowStart(), steps).client.dead
  {
    steps := [];
    for n := 0 to 13
      invariant LegalRun(delay, SlowStart(), steps)
      invariant After(delay, SlowStart(), steps) == SlowState(n)
    {
      SlowStepGoes(delay, n);
      RunExtend(delay, SlowStart(), steps, SlowStep(n));
      steps := steps + [SlowStep(n)];
    }
  }

  /**
   * No false alarm in any run of two live peers whose start-up skew and one-way delays are
   * at most delay, if and only if a round trip takes less than three heartbeat intervals.
   */
  lemma NoFalseDeathIff(delay: nat)
    ensures Safe(delay) <==> 2 * delay < 3 * T2 * MICROS
  {
    if 2 * delay < 3 * T2 * MICROS {
      forall w: World, steps: seq<Step> | Init(delay, w) && LegalRun(delay, w, steps)
        ensures NoneDead(After(delay, w, steps))
      {
        InitInv(delay, w);
        RunInv(delay, w, steps);
      }
    } else {
      var steps := SlowRun(delay);
      assert Init(delay, SlowStart()) by {
        assert SlowStart().client == Wait(Peer(Timeval(CLIENT_IDLE, 0), 0, MSG_SIZE, false), 0);
      }
    }
  }

  // ---------------------------------------------------------------------------------
  // When one of the two stops.
  // ---------------------------------------------------------------------------------

  /** Who is left. */
  datatype Side = ClientAlive | ServerAlive

  function Survivor(w: World, side: Side): Peer {
    if side == ClientAlive then w.client else w.server
  }

  /** What is under way to it. */
  function Incoming(w: World, side: Side): seq<Packet> {
    if side == ClientAlive then w.toClient else w.toServer
  }

  function IdleOf(side: Side): nat {
    if side == ClientAlive then CLIENT_IDLE else SERVER_IDLE
  }

  /** The steps of the survivor: the other loop takes none and holds nothing up. */
  ghost predicate EnabledAlone(delay: nat, w: World, s: Step, side: Side) {
    && NoneDead(w)
    && match s
       case Tick(d) =>
         && d <= Micros(Survivor(w, side).tv)
         && forall i :: 0 <= i < |Incoming(w, side)| ==> w.now + d <= Incoming(w, side)[i].sentAt + delay
       case ClientTimeout => side == ClientAlive && Possible(w, s)
       case ClientRecv(_) => side == ClientAlive && Possible(w, s)
       case ServerTimeout => side == ServerAlive && Possible(w, s)
       case ServerRecv(_) => side == ServerAlive && Possible(w, s)
       case ClientSends => side == ClientAlive
  }

  function NextAlone(w: World, s: Step, side: Side): World
    requires if s.Tick? then s.d <= Micros(Survivor(w, side).tv) else Possible(w, s)
  {
    if !s.Tick? then Next(w, s)
    else if side == ClientAlive then w.(now := w.now + s.d, client := Wait(w.client, s.d))
    else w.(now := w.now + s.d, server := Wait(w.server, s.d))
  }

  ghost predicate RunAlone(delay: nat, w: World, steps: seq<Step>, side: Side)
    decreases |steps|
  {
    steps == [] || (EnabledAlone(delay, w, steps[0], side) && RunAlone(delay, NextAlone(w, steps[0], side), steps[1..], side))
  }

  ghost function AfterAlone(delay: nat, w: World, steps: seq<Step>, side: Side): World
    requires RunAlone(delay, w, steps, side)
    decreases |steps|
  {
    if steps == [] then w else AfterAlone(delay, NextAlone(w, steps[0], side), steps[1..], side)
  }

  /** How long a loop is silent at the most, plus the second that tv_usec can add. */
  function Limit(idle: nat): nat {
    (idle + 3 * T2 + 1) * MICROS
  }

  ghost predicate Timely(p: Peer, idle: nat) {
    WellTimed(p) && Patience(p) < Limit(idle)
  }

  /** Holds in every run, whatever the delay. */
  ghost predicate Calm(delay: nat, w: World) {
    && Timely(w.client, CLIENT_IDLE) && Timely(w.server, SERVER_IDLE)
    && Aligned(w.toServer, w.server.cnt) && Aligned(w.toClient, w.client.cnt)
    && Fresh(delay, w.now, w.toServer) && Fresh(delay, w.now, w.toClient)
  }

  lemma InitCalm(delay: nat, w: World)
    requires Init(delay, w)
    ensures Calm(delay, w)
  {
  }

  lemma WaitTimely(p: Peer, idle: nat, d: nat)
    requires Timely(p, idle) && !p.dead && d <= Micros(p.tv)
    ensures Timely(Wait(p, d), idle) && Patience(Wait(p, d)) == Patience(p) - d
  {
  }

  lemma TimeoutTimely(p: Peer, idle: nat)
    requires Timely(p, idle) && !p.dead && Micros(p.tv) == 0
    ensures Timely(OnTimeout(p), idle) && Patience(OnTimeout(p)) == Patience(p)
  {
  }

  lemma ReceiveTimely(p: Peer, idle: nat, k: nat)
    requires Timely(p, idle) && !p.dead && k <= p.cnt
    ensures Timely(OnReceive(p, k, idle), idle)
  {
  }

  lemma ReceivedAligned(ch: seq<Packet>, cnt: nat, k: nat)
    requires Aligned(ch, cnt) && ch != [] && 1 <= k <= cnt
    ensures Aligned(Received(ch, k), if k == cnt then MSG_SIZE else cnt - k)
  {
  }

  lemma CalmStep(delay: nat, w: World, s: Step)
    requires Calm(delay, w) && Enabled(delay, w, s)
    ensures Calm(delay, Next(w, s))
  {
    hide Timely, Micros, Slept, Patience, WellTimed;
    match s
    case Tick(d) =>
      WaitTimely(w.client, CLIENT_IDLE, d);
      WaitTimely(w.server, SERVER_IDLE, d);
    case ClientTimeout => TimeoutTimely(w.client, CLIENT_IDLE);
    case ServerTimeout => TimeoutTimely(w.server, SERVER_IDLE);
    case ClientRecv(k) =>
      ReceiveTimely(w.client, CLIENT_IDLE, k);
      ReceivedAligned(w.toClient, w.client.cnt, k);
    case ServerRecv(k) =>
      ReceiveTimely(w.server, SERVER_IDLE, k);
      ReceivedAligned(w.toServer, w.server.cnt, k);
    case ClientSends =>
  }

  lemma {:induction false} CalmRun(delay: nat, w: World, steps: seq<Step>)
    requires Calm(delay, w) && LegalRun(delay, w, steps)
    ensures Calm(delay, After(delay, w, steps))
    decreases |steps|
  {
    if steps != [] {
      CalmStep(delay, w, steps[0]);
      CalmRun(delay, Next(w, steps[0]), steps[1..]);
    }
  }

  /** stop: when the other one stopped; everything still under way was sent before, and patience runs out before the bound. */
  ghost predicate Waiting(delay: nat, w: World, side: Side, stop: int) {
    && Timely(Survivor(w, side), IdleOf(side))
    && Aligned(Incoming(w, side), Survivor(w, side).cnt)
    && Fresh(delay, w.now, Incoming(w, side))
    && (forall i :: 0 <= i < |Incoming(w, side)| ==> Incoming(w, side)[i].sentAt <= stop)
    && w.now + Patience(Survivor(w, side)) < stop + delay + Limit(IdleOf(side))
  }

  lemma WaitingReceives(delay: nat, w: World, side: Side, stop: int, k: nat)
    requires Waiting(delay, w, side, stop) && Incoming(w, side) != [] && 1 <= k <= Survivor(w, side).cnt && !Survivor(w, side).dead
    ensures var p := OnReceive(Survivor(w, side), k, IdleOf(side));
            && Timely(p, IdleOf(side)) && w.now + Patience(p) < stop + delay + Limit(IdleOf(side))
            && Aligned(Received(Incoming(w, side), k), p.cnt)
            && (forall i :: 0 <= i < |Received(Incoming(w, side), k)| ==> Received(Incoming(w, side), k)[i].sentAt <= stop)
            && Fresh(delay, w.now, Received(Incoming(w, side), k))
  {
    var p := OnReceive(Survivor(w, side), k, IdleOf(side));
    ReceiveTimely(Survivor(w, side), IdleOf(side), k);
    ReceivedAligned(Incoming(w, side), Survivor(w, side).cnt, k);
    assert w.now <= Incoming(w, side)[0].sentAt + delay <= stop + delay;
    assert Patience(p) < Limit(IdleOf(side));
  }

  lemma WaitingStep(delay: nat, w: World, s: Step, side: Side, stop: int)
    requires Waiting(delay, w, side, stop) && EnabledAlone(delay, w, s, side)
    ensures Waiting(delay, NextAlone(w, s, side), side, stop)
  {
    hide Timely, Patience, Slept, Micros;
    var p := Survivor(w, side);
    match s
    case Tick(d) => WaitTimely(p, IdleOf(side), d);
    case ClientTimeout => TimeoutTimely(p, IdleOf(side));
    case ServerTimeout => TimeoutTimely(p, IdleOf(side));
    case ClientRecv(k) => WaitingReceives(delay, w, side, stop, k);
    case ServerRecv(k) => WaitingReceives(delay, w, side, stop, k);
    case ClientSends =>
  }

  lemma {:induction false} WaitingRun(delay: nat, w: World, steps: seq<Step>, side: Side, stop: int)
    requires Waiting(delay, w, side, stop) && RunAlone(delay, w, steps, side)
    ensures Waiting(delay, AfterAlone(delay, w, steps, side), side, stop)
    decreases |steps|
  {
    if steps != [] {
      WaitingStep(delay, w, steps[0], side, stop);
      WaitingRun(delay, NextAlone(w, steps[0], side), steps[1..], side, stop);
    }
  }

  lemma CanGoOn(delay: nat, w: World, side: Side, stop: int) returns (s: Step)
    requires Waiting(delay, w, side, stop) && NoneDead(w)
    ensures EnabledAlone(delay, w, s, side) && s != Tick(0) && s != ClientSends
  {
    if side == ClientAlive {
      s := if w.toClient != [] then ClientRecv(1) else if Micros(w.client.tv) == 0 then ClientTimeout else Tick(1);
    } else {
      s := if w.toServer != [] then ServerRecv(1) else if Micros(w.server.tv) == 0 then ServerTimeout else Tick(1);
    }
  }

  /**
   * Detection. When either peer stops, in any run of both with delays of at most delay, the other
   * declares the connection dead within delay + idle + 3 * T2 seconds and less than one more: as long
   * as it has not, that time is not over, and there is a step of its own to take.
   */
  lemma DetectedInTime(delay: nat, start: World, before: seq<Step>, side: Side, steps: seq<Step>)
    requires Init(delay, start) && LegalRun(delay, start, before) && NoneDead(After(delay, start, before))
    requires RunAlone(delay, After(delay, start, before), steps, side)
    ensures var w := After(delay, start, before);
            var v := AfterAlone(delay, w, steps, side);
            && v.now < w.now + delay + Limit(IdleOf(side))
            && (NoneDead(v) ==> exists s: Step :: EnabledAlone(delay, v, s, side) && s != Tick(0) && s != ClientSends)
  {
    InitCalm(delay, start);
    CalmRun(delay, start, before);
    var w := After(delay, start, before);
    assert Waiting(delay, w, side, w.now);
    WaitingRun(delay, w, steps, side, w.now);
    var v := AfterAlone(delay, w, steps, side);
    PatienceNatural(Survivor(v, side));
    if NoneDead(v) {
      var s := CanGoOn(delay, v, side, w.now);
    }
  }

  lemma PatienceNatural(p: Peer)
    requires WellTimed(p)
    ensures Patience(p) >= 0
  {
  }
}
