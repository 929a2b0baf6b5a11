/**
 * The connection table of the poll server (poll/serverModel.c): the slots in pClients, the
 * entries of watchedfds behind the service ones, and the counter connectionsActive.
 */
module ConnTable {
  import opened Multisets

  datatype State = Idle | New | Received

  datatype Conn = Conn(inUse: bool, socket: int, state: State, idleTime: int, running: bool)

  /** A slot after Initialize or CloseConnection. */
  const EMPTY := Conn(false, -1, Idle, 0, false)

  /** reserve slots are kept for other kinds of connection; the first service entries watch listening sockets. */
  datatype Table = Table(clients: seq<Conn>, watched: seq<int>, active: int, reserve: nat, service: nat)

  // ---------------------------------------------------------------------------------
  // What each function does to the table
  // ---------------------------------------------------------------------------------

  /** The first entry from the given one on that holds fd. */
  function IndexOf(w: seq<int>, from: nat, fd: int): (k: int)
    ensures k == -1 || from <= k < |w|
    ensures k == -1 ==> forall j :: from <= j < |w| ==> w[j] != fd
    ensures k >= 0 ==> w[k] == fd && forall j :: from <= j < k ==> w[j] != fd
    decreases |w| - from
  {
    if from >= |w| then -1 else if w[from] == fd then from else IndexOf(w, from + 1, fd)
  }

  function Unwatched(w: seq<int>, from: nat, fd: int): (r: seq<int>)
    ensures |r| == |w|
  {
    var k := IndexOf(w, from, fd);
    if k < 0 then w else w[k := -1]
  }

  function Watching(w: seq<int>, from: nat, fd: int): (r: seq<int>)
    ensures |r| == |w|
  {
    var k := IndexOf(w, from, -1);
    if k < 0 then w else w[k := fd]
  }

  function Closed(t: Table, i: nat): Table
    requires i < |t.clients|
  {
    if t.active == 0 then t
    else t.(watched := Unwatched(t.watched, t.service, t.clients[i].socket), clients := t.clients[i := EMPTY], active := t.active - 1)
  }

  /** May be closed to make room. */
  predicate Candidate(c: Conn) {
    c.state in {Idle, New} && !c.running
  }

  /** The one among the slots from .. n to close: of the candidates idle longest, the first; none if all have idle time 0. */
  function Stale(clients: seq<Conn>, from: nat, n: nat): (k: int)
    requires from <= n <= |clients|
    ensures k == -1 || (from <= k < n && Candidate(clients[k]) && clients[k].idleTime > 0)
    ensures forall j :: from <= j < n && Candidate(clients[j]) ==> clients[j].idleTime <= if k < 0 then 0 else clients[k].idleTime
    ensures k >= 0 ==> forall j :: from <= j < k && Candidate(clients[j]) ==> clients[j].idleTime < clients[k].idleTime
    decreases n
  {
    if n == from then -1
    else
      var k := Stale(clients, from, n - 1);
      var c := clients[n - 1];
      if (if k < 0 then 0 else clients[k].idleTime) < c.idleTime && Candidate(c) then n - 1 else k
  }

  predicate Full(t: Table) {
    t.active + t.reserve >= |t.clients|
  }

  /** The table once NewConnection has made room, if it had to and could. */
  function MadeRoom(t: Table): (r: Table)
    requires t.reserve <= |t.clients|
    ensures |r.clients| == |t.clients| && r.reserve == t.reserve && r.service == t.service
  {
    var k := Stale(t.clients, t.reserve, |t.clients|);
    if Full(t) && k >= 0 then Closed(t, k) else t
  }

  function FirstFree(clients: seq<Conn>, from: nat): (k: int)
    ensures k == -1 || from <= k < |clients|
    ensures k == -1 ==> forall j :: from <= j < |clients| ==> clients[j].inUse
    ensures k >= 0 ==> !clients[k].inUse && forall j :: from <= j < k ==> clients[j].inUse
    decreases |clients| - from
  {
    if from >= |clients| then -1 else if !clients[from].inUse then from else FirstFree(clients, from + 1)
  }

  function Stored(t: Table, i: nat, fd: int): Table
    requires i < |t.clients|
  {
    t.(clients := t.clients[i := Conn(true, fd, New, 0, false)], watched := Watching(t.watched, t.service, fd), active := t.active + 1)
  }

  /** NewConnection, when accept returns fd. */
  function Created(t: Table, fd: int): (p: (Table, int))
    requires t.reserve <= |t.clients|
  {
    if Full(t) && Stale(t.clients, t.reserve, |t.clients|) < 0 then (t, -1)
    else
      var m := MadeRoom(t);
      var i := FirstFree(m.clients, m.reserve);
      if i < 0 then (m, -1)
      else if fd < 0 then (m, fd)
      else (Stored(m, i, fd), fd)
  }

  /** ReceiveLoop over the slots from i on; bytes[i] is what recv returns for slot i. */
  function ReceivedFrom(t: Table, bytes: seq<int>, i: nat): (r: Table)
    requires |bytes| == |t.clients|
    ensures |r.clients| == |t.clients| && |r.watched| == |t.watched| && r.reserve == t.reserve && r.service == t.service
    decreases |t.clients| - i
  {
    if i >= |t.clients| then t
    else ReceivedFrom(ReceivedOne(t, bytes[i], i), bytes, i + 1)
  }

  function ReceivedOne(t: Table, bytes: int, i: nat): (r: Table)
    requires i < |t.clients|
    ensures |r.clients| == |t.clients| && |r.watched| == |t.watched| && r.reserve == t.reserve && r.service == t.service
  {
    var c := t.clients[i];
    if !c.inUse then t
    else if bytes > 0 then t.(clients := t.clients[i := c.(state := Received)])
    else Closed(t, i)
  }

  function AfterReceive(t: Table, bytes: seq<int>): Table
    requires |bytes| == |t.clients|
  {
    if t.active == 0 then t else ReceivedFrom(t, bytes, 0)
  }

  function TickedConn(c: Conn): Conn {
    if !c.inUse then c
    else if c.state in {Idle, New} then c.(idleTime := c.idleTime + 1)
    else c.(idleTime := 0)
  }

  /** The idle accounting of one pass of ServerRun. */
  function Ticked(t: Table): Table {
    t.(clients := seq(|t.clients|, i requires 0 <= i < |t.clients| => TickedConn(t.clients[i])))
  }

  // ---------------------------------------------------------------------------------
  // The invariant
  // ---------------------------------------------------------------------------------

  /** The sockets of the slots in use, with multiplicity. */
  function Sockets(clients: seq<Conn>): multiset<int> {
    if clients == [] then multiset{}
    else Sockets(clients[..|clients| - 1]) + SocketOf(clients[|clients| - 1])
  }

  function SocketOf(c: Conn): multiset<int> {
    if c.inUse then multiset{c.socket} else multiset{}
  }

  /** The sockets watched, with multiplicity. */
  function Watched(w: seq<int>): multiset<int> {
    if w == [] then multiset{}
    else Watched(w[..|w| - 1]) + WatchedAt(w[|w| - 1])
  }

  function WatchedAt(fd: int): multiset<int> {
    if fd == -1 then multiset{} else multiset{fd}
  }

  ghost predicate SlotInv(t: Table, i: nat)
    requires i < |t.clients|
  {
    var c := t.clients[i];
    && (c.inUse ==> i >= t.reserve && c.socket >= 0 && c.idleTime >= 0)
    && (!c.inUse ==> c == EMPTY)
  }

  ghost predicate Inv(t: Table) {
    && t.reserve < |t.clients| && 0 < t.service && |t.watched| == |t.clients| + t.service
    && (forall i :: 0 <= i < |t.clients| ==> SlotInv(t, i))
    && Sockets(t.clients) == Watched(t.watched[t.service..])
    && (forall fd :: Sockets(t.clients)[fd] <= 1)
    && |Sockets(t.clients)| == t.active <= |t.clients| - t.reserve
  }

  lemma {:induction false} SocketsUpdate(clients: seq<Conn>, i: nat, c: Conn)
    requires i < |clients|
    ensures Sockets(clients[i := c]) + SocketOf(clients[i]) == Sockets(clients) + SocketOf(c)
    decreases |clients|
  {
    hide SocketOf;
    var n := |clients| - 1;
    if i < n {
      SocketsUpdate(clients[..n], i, c);
      assert clients[i := c][..n] == clients[..n][i := c];
      AddBoth(Sockets(clients[..n][i := c]), SocketOf(clients[i]), Sockets(clients[..n]), SocketOf(c), SocketOf(clients[n]));
    } else {
      assert clients[i := c][..n] == clients[..n];
      Exchange(Sockets(clients[..n]), SocketOf(clients[i]), SocketOf(c));
    }
  }

  lemma {:induction false} WatchedUpdate(w: seq<int>, i: nat, fd: int)
    requires i < |w|
    ensures Watched(w[i := fd]) + WatchedAt(w[i]) == Watched(w) + WatchedAt(fd)
    decreases |w|
  {
    hide WatchedAt;
    var n := |w| - 1;
    if i < n {
      WatchedUpdate(w[..n], i, fd);
      assert w[i := fd][..n] == w[..n][i := fd];
      AddBoth(Watched(w[..n][i := fd]), WatchedAt(w[i]), Watched(w[..n]), WatchedAt(fd), WatchedAt(w[n]));
    } else {
      assert w[i := fd][..n] == w[..n];
      Exchange(Watched(w[..n]), WatchedAt(w[i]), WatchedAt(fd));
    }
  }

  lemma {:induction false} SocketsMember(clients: seq<Conn>, fd: int)
    ensures fd in Sockets(clients) <==> exists i :: 0 <= i < |clients| && clients[i].inUse && clients[i].socket == fd
    decreases |clients|
  {
    if clients != [] {
      var n := |clients| - 1;
      SocketsMember(clients[..n], fd);
      if i :| 0 <= i < |clients| && clients[i].inUse && clients[i].socket == fd {
        assert i == n || clients[..n][i] == clients[i];
      }
      if i :| 0 <= i < n && clients[..n][i].inUse && clients[..n][i].socket == fd {
        assert clients[i] == clients[..n][i];
      }
    }
  }

  lemma {:induction false} WatchedMember(w: seq<int>, fd: int)
    requires fd != -1
    ensures fd in Watched(w) <==> fd in w
    decreases |w|
  {
    if w != [] {
      var n := |w| - 1;
      WatchedMember(w[..n], fd);
      assert w == w[..n] + [w[n]];
    }
  }

  /** Pigeonhole: fewer sockets than entries leave an entry free. */
  lemma {:induction false} FreeEntry(w: seq<int>)
    ensures |Watched(w)| <= |w|
    ensures |Watched(w)| < |w| ==> -1 in w
    decreases |w|
  {
    if w != [] {
      var n := |w| - 1;
      FreeEntry(w[..n]);
      assert w == w[..n] + [w[n]];
    }
  }

  lemma {:induction false} FreeSlot(clients: seq<Conn>, reserve: nat)
    requires reserve <= |clients| && forall i :: 0 <= i < reserve ==> !clients[i].inUse
    ensures |Sockets(clients)| <= |clients| - reserve
    ensures |Sockets(clients)| < |clients| - reserve ==> exists i :: reserve <= i < |clients| && !clients[i].inUse
    decreases |clients|
  {
    var n := |clients| - 1;
    if reserve <= n {
      FreeSlot(clients[..n], reserve);
      if i :| reserve <= i < n && !clients[..n][i].inUse {
        assert !clients[i].inUse;
      }
    } else if clients != [] {
      FreeSlot(clients[..n], n);
    }
  }

  // ---------------------------------------------------------------------------------
  // Every operation keeps it
  // ---------------------------------------------------------------------------------

  lemma TailUpdate(w: seq<int>, from: nat, k: nat, fd: int)
    requires from <= k < |w|
    ensures w[k := fd][from..] == w[from..][k - from := fd]
  {
  }

  /** In every slot in use there is a socket, watched at exactly one entry. */
  lemma SlotWatched(t: Table, i: nat) returns (k: nat)
    requires Inv(t) && i < |t.clients| && t.clients[i].inUse
    ensures t.service <= k < |t.watched| && t.watched[k] == t.clients[i].socket >= 0
    ensures k == IndexOf(t.watched, t.service, t.clients[i].socket)
    ensures t.clients[i].socket in Sockets(t.clients) && t.active > 0 && t.service > 0
  {
    var fd := t.clients[i].socket;
    assert SlotInv(t, i);
    SocketsMember(t.clients, fd);
    WatchedMember(t.watched[t.service..], fd);
    var j :| 0 <= j < |t.watched[t.service..]| && t.watched[t.service..][j] == fd;
    assert t.watched[t.service + j] == fd;
    k := IndexOf(t.watched, t.service, fd);
    assert |Sockets(t.clients)| > 0;
  }

  // One socket more or less, in the slots and among the watched entries.

  lemma SlotAdds(clients: seq<Conn>, i: nat, c: Conn)
    requires i < |clients| && !clients[i].inUse && c.inUse
    ensures Sockets(clients[i := c]) == Sockets(clients) + multiset{c.socket}
  {
    SocketsUpdate(clients, i, c);
  }

  lemma SlotDrops(clients: seq<Conn>, i: nat)
    requires i < |clients| && clients[i].inUse
    ensures Sockets(clients) == Sockets(clients[i := EMPTY]) + multiset{clients[i].socket}
  {
    SocketsUpdate(clients, i, EMPTY);
  }

  lemma EntryAdds(w: seq<int>, from: nat, k: nat, fd: int)
    requires from <= k < |w| && w[k] == -1 != fd
    ensures Watched(w[k := fd][from..]) == Watched(w[from..]) + multiset{fd}
  {
    hide Watched;
    TailUpdate(w, from, k, fd);
    WatchedUpdate(w[from..], k - from, fd);
  }

  lemma EntryDrops(w: seq<int>, from: nat, k: nat)
    requires from <= k < |w| && w[k] != -1
    ensures Watched(w[from..]) == Watched(w[k := -1][from..]) + multiset{w[k]}
  {
    hide Watched;
    TailUpdate(w, from, k, -1);
    WatchedUpdate(w[from..], k - from, -1);
  }

  lemma SlotsKept(t: Table, i: nat, r: Table)
    requires i < |t.clients| && |r.clients| == |t.clients| && r.clients == t.clients[i := r.clients[i]] && r.reserve == t.reserve
    requires (forall j :: 0 <= j < |t.clients| ==> SlotInv(t, j)) && SlotInv(r, i)
    ensures forall j :: 0 <= j < |r.clients| ==> SlotInv(r, j)
  {
    forall j | 0 <= j < |r.clients|
      ensures SlotInv(r, j)
    {
      assert SlotInv(t, j);
    }
  }

  lemma Cancel(a: multiset<int>, b: multiset<int>, c: multiset<int>, fd: int)
    requires c == a + multiset{fd} && c == b + multiset{fd} && forall x :: c[x] <= 1
    ensures a == b && |a| == |c| - 1 && forall x :: a[x] <= 1
  {
    assert a == c - multiset{fd} && b == c - multiset{fd};
    assert forall x :: c[x] == a[x] + multiset{fd}[x];
  }

  lemma CloseKeepsInv(t: Table, i: nat)
    requires Inv(t) && i < |t.clients| && t.clients[i].inUse
    ensures Inv(Closed(t, i)) && t.active > 0
  {
    var fd := t.clients[i].socket;
    var k := SlotWatched(t, i);
    var r := Closed(t, i);
    SlotDrops(t.clients, i);
    EntryDrops(t.watched, t.service, k);
    Cancel(Sockets(r.clients), Watched(r.watched[t.service..]), Sockets(t.clients), fd);
    SlotsKept(t, i, r);
  }

  /**
   * Closing a slot that is not in use breaks the table as soon as any connection is open: the
   * counter goes down and nothing else changes. So CloseConnection is right exactly on slots in use.
   */
  lemma CloseRightIff(t: Table, i: nat)
    requires Inv(t) && i < |t.clients|
    ensures Inv(Closed(t, i)) <==> t.clients[i].inUse || t.active == 0
  {
    if t.clients[i].inUse {
      CloseKeepsInv(t, i);
    } else if t.active > 0 {
      assert SlotInv(t, i);
      assert t.clients[i := EMPTY] == t.clients;
    }
  }

  lemma MadeRoomKeepsInv(t: Table)
    requires Inv(t)
    ensures Inv(MadeRoom(t))
    ensures !Full(MadeRoom(t)) || MadeRoom(t) == t
  {
    var k := Stale(t.clients, t.reserve, |t.clients|);
    if Full(t) && k >= 0 {
      assert SlotInv(t, k);
      CloseKeepsInv(t, k);
    }
  }

  /** The kernel does not hand out a descriptor that is open. */
  ghost predicate Fresh(t: Table, fd: int) {
    fd == -1 || (fd >= 0 && fd !in Sockets(t.clients))
  }

  lemma SlotFound(t: Table)
    requires Inv(t) && !Full(t)
    ensures var i := FirstFree(t.clients, t.reserve); t.reserve <= i < |t.clients| && t.clients[i] == EMPTY
  {
    forall i | 0 <= i < t.reserve
      ensures !t.clients[i].inUse
    {
      assert SlotInv(t, i);
    }
    FreeSlot(t.clients, t.reserve);
    var free :| t.reserve <= free < |t.clients| && !t.clients[free].inUse;
    assert SlotInv(t, FirstFree(t.clients, t.reserve));
  }

  lemma EntryFound(t: Table)
    requires Inv(t) && !Full(t)
    ensures var k := IndexOf(t.watched, t.service, -1); t.service <= k < |t.watched| && t.watched[k] == -1
  {
    var w := t.watched[t.service..];
    FreeEntry(w);
    var j :| 0 <= j < |w| && w[j] == -1;
    assert t.watched[t.service + j] == -1;
  }

  /** Once the capacity check has passed there is a slot for the connection and an entry to watch it. */
  lemma RoomForOneMore(t: Table)
    requires Inv(t) && !Full(t)
    ensures var i := FirstFree(t.clients, t.reserve); t.reserve <= i < |t.clients| && t.clients[i] == EMPTY
    ensures var k := IndexOf(t.watched, t.service, -1); t.service <= k < |t.watched| && t.watched[k] == -1
  {
    SlotFound(t);
    EntryFound(t);
  }

  lemma OneMore(a: multiset<int>, b: multiset<int>, fd: int)
    requires a == b + multiset{fd} && fd !in b && forall x :: b[x] <= 1
    ensures |a| == |b| + 1 && forall x :: a[x] <= 1
  {
    forall x
      ensures a[x] <= 1
    {
      assert a[x] == b[x] + multiset{fd}[x];
    }
  }

  lemma AddKeepsInv(t: Table, fd: int, i: nat, k: nat, r: Table)
    requires Inv(t) && !Full(t) && fd >= 0 && Fresh(t, fd)
    requires t.reserve <= i < |t.clients| && t.clients[i] == EMPTY && t.service <= k < |t.watched| && t.watched[k] == -1
    requires r == t.(clients := t.clients[i := Conn(true, fd, New, 0, false)], watched := t.watched[k := fd], active := t.active + 1)
    ensures Inv(r)
  {
    SlotAdds(t.clients, i, r.clients[i]);
    EntryAdds(t.watched, t.service, k, fd);
    OneMore(Sockets(r.clients), Sockets(t.clients), fd);
    SlotsKept(t, i, r);
  }

  /** NewConnection keeps the table whole, and an accepted connection is always stored and watched. */
  lemma CreateKeepsInv(t: Table, fd: int)
    requires Inv(t) && Fresh(MadeRoom(t), fd)
    ensures Inv(Created(t, fd).0)
    ensures Created(t, fd).1 >= 0 ==> Created(t, fd).1 == fd && fd in Sockets(Created(t, fd).0.clients)
    ensures Created(t, fd).1 < 0 <= fd ==> Full(t) && Created(t, fd).0 == t
  {
    MadeRoomKeepsInv(t);
    var m := MadeRoom(t);
    if !(Full(t) && m == t) {
      RoomForOneMore(m);
      var i, k := FirstFree(m.clients, m.reserve), IndexOf(m.watched, m.service, -1);
      if fd >= 0 {
        var r := Created(t, fd).0;
        AddKeepsInv(m, fd, i, k, r);
        assert r.clients[i].inUse && r.clients[i].socket == fd;
        SocketsMember(r.clients, fd);
      }
    }
  }

  /** Below capacity a new connection takes the first free slot behind the reserved ones, new and not idle, and moves no other. */
  lemma NewSlot(t: Table, fd: int) returns (i: nat)
    requires Inv(t) && t.active + t.reserve < |t.clients|
    ensures t.reserve <= i < |t.clients| && !t.clients[i].inUse && forall j :: t.reserve <= j < i ==> t.clients[j].inUse
    ensures Created(t, fd).1 == fd
    ensures fd < 0 ==> Created(t, fd).0 == t
    ensures fd >= 0 ==> Created(t, fd).0.clients == t.clients[i := Conn(true, fd, New, 0, false)]
  {
    SlotFound(t);
    i := FirstFree(t.clients, t.reserve);
  }

  lemma SameSocketKeepsInv(t: Table, i: nat, c: Conn, r: Table)
    requires Inv(t) && i < |t.clients| && t.clients[i].inUse && r == t.(clients := t.clients[i := c])
    requires c.inUse && c.socket == t.clients[i].socket && c.idleTime >= 0
    ensures Inv(r)
  {
    SocketsUpdate(t.clients, i, c);
    Undo(Sockets(r.clients), Sockets(t.clients), c.socket);
    assert SlotInv(t, i);
    SlotsKept(t, i, r);
  }

  lemma Undo(a: multiset<int>, b: multiset<int>, fd: int)
    requires a + multiset{fd} == b + multiset{fd}
    ensures a == b
  {
    assert a == a + multiset{fd} - multiset{fd};
    assert b == b + multiset{fd} - multiset{fd};
  }

  /** What one ReceiveLoop should make of a slot. */
  function Served(c: Conn, bytes: int): Conn {
    if !c.inUse then c else if bytes > 0 then c.(state := Received) else EMPTY
  }

  lemma ReceivedOneKeepsInv(t: Table, bytes: int, i: nat)
    requires Inv(t) && i < |t.clients|
    ensures Inv(ReceivedOne(t, bytes, i))
    ensures ReceivedOne(t, bytes, i).clients == t.clients[i := Served(t.clients[i], bytes)]
  {
    var c := t.clients[i];
    assert SlotInv(t, i);
    if c.inUse && bytes <= 0 {
      CloseKeepsInv(t, i);
    } else if c.inUse {
      SameSocketKeepsInv(t, i, c.(state := Received), ReceivedOne(t, bytes, i));
    }
  }

  /**
   * One ReceiveLoop: a slot in use stays open exactly when its recv brings something. The test on
   * the poll result cannot fail, so a connection with nothing to read is closed too.
   */
  lemma {:induction false} ReceiveOutcome(t: Table, bytes: seq<int>, i: nat, j: nat)
    requires Inv(t) && |bytes| == |t.clients| && j < |t.clients|
    ensures Inv(ReceivedFrom(t, bytes, i))
    ensures ReceivedFrom(t, bytes, i).clients[j] == if j < i then t.clients[j] else Served(t.clients[j], bytes[j])
    decreases |t.clients| - i
  {
    hide Inv, ReceivedOne;
    if i < |t.clients| {
      var next := ReceivedOne(t, bytes[i], i);
      ReceivedOneKeepsInv(t, bytes[i], i);
      ReceiveOutcome(next, bytes, i + 1, j);
      assert next.clients[j] == if j == i then Served(t.clients[j], bytes[j]) else t.clients[j];
    }
  }

  lemma NoneInUse(t: Table, i: nat)
    requires Inv(t) && t.active == 0 && i < |t.clients|
    ensures t.clients[i] == EMPTY
  {
    assert SlotInv(t, i);
    SocketsMember(t.clients, t.clients[i].socket);
    assert Sockets(t.clients) == multiset{};
  }

  lemma ReceiveKeepsInv(t: Table, bytes: seq<int>, j: nat)
    requires Inv(t) && |bytes| == |t.clients| && j < |t.clients|
    ensures Inv(AfterReceive(t, bytes))
    ensures AfterReceive(t, bytes).clients[j] ==
            if !t.clients[j].inUse then t.clients[j]
            else if bytes[j] > 0 then t.clients[j].(state := Received)
            else Conn(false, -1, Idle, 0, false)
  {
    ReceiveOutcome(t, bytes, 0, j);
    if t.active == 0 {
      NoneInUse(t, j);
    }
  }

  lemma {:induction false} SameSockets(a: seq<Conn>, b: seq<Conn>)
    requires |a| == |b| && forall i :: 0 <= i < |a| ==> SocketOf(a[i]) == SocketOf(b[i])
    ensures Sockets(a) == Sockets(b)
    decreases |a|
  {
    if a != [] {
      SameSockets(a[..|a| - 1], b[..|a| - 1]);
    }
  }

  lemma TickSlot(t: Table, r: Table, j: nat)
    requires j < |t.clients| && SlotInv(t, j)
    requires |r.clients| == |t.clients| && r.reserve == t.reserve && r.clients[j] == TickedConn(t.clients[j])
    ensures SlotInv(r, j) && SocketOf(t.clients[j]) == SocketOf(r.clients[j])
  {
  }

  lemma TickSlots(t: Table, r: Table)
    requires (forall j :: 0 <= j < |t.clients| ==> SlotInv(t, j)) && r == Ticked(t)
    ensures forall j :: 0 <= j < |r.clients| ==> SlotInv(r, j)
    ensures Sockets(t.clients) == Sockets(r.clients)
  {
    forall j | 0 <= j < |r.clients|
      ensures SlotInv(r, j) && SocketOf(t.clients[j]) == SocketOf(r.clients[j])
    {
      TickSlot(t, r, j);
    }
    SameSockets(t.clients, r.clients);
  }

  lemma TickKeepsInv(t: Table)
    requires Inv(t)
    ensures Inv(Ticked(t))
  {
    TickSlots(t, Ticked(t));
  }

  // ---------------------------------------------------------------------------------
  // Whole runs
  // ---------------------------------------------------------------------------------

  /** Handled is what request handling does to a slot in use: state, callback flag, idle time cleared or not. */
  datatype Step =
    | Accept(fd: int)
    | Close(slot: nat)
    | Receive(bytes: seq<int>)
    | Tick
    | Handled(slot: nat, state: State, running: bool, answered: bool)

  ghost predicate Possible(t: Table, step: Step)
    requires t.reserve <= |t.clients|
  {
    match step
    case Accept(fd) => Fresh(MadeRoom(t), fd)
    case Close(i) => i < |t.clients| && t.clients[i].inUse
    case Receive(bytes) => |bytes| == |t.clients|
    case Tick => true
    case Handled(i, _, _, _) => i < |t.clients| && t.clients[i].inUse
  }

  ghost function Next(t: Table, step: Step): (r: Table)
    requires t.reserve <= |t.clients| && Possible(t, step)
    ensures |r.clients| == |t.clients| && r.reserve == t.reserve
  {
    match step
    case Accept(fd) => Created(t, fd).0
    case Close(i) => Closed(t, i)
    case Receive(bytes) => AfterReceive(t, bytes)
    case Tick => Ticked(t)
    case Handled(i, state, running, answered) =>
      var c := t.clients[i];
      t.(clients := t.clients[i := c.(state := state, running := running, idleTime := if answered then 0 else c.idleTime)])
  }

  function Initial(slots: nat, reserve: nat, service: nat): Table {
    Table(seq(slots, _ => EMPTY), seq(slots + service, _ => -1), 0, reserve, service)
  }

  lemma {:induction false} NothingOpen(clients: seq<Conn>)
    requires forall i :: 0 <= i < |clients| ==> clients[i] == EMPTY
    ensures Sockets(clients) == multiset{}
    decreases |clients|
  {
    if clients != [] {
      NothingOpen(clients[..|clients| - 1]);
    }
  }

  lemma {:induction false} NothingWatched(w: seq<int>)
    requires forall i :: 0 <= i < |w| ==> w[i] == -1
    ensures Watched(w) == multiset{}
    decreases |w|
  {
    if w != [] {
      NothingWatched(w[..|w| - 1]);
    }
  }

  lemma InitInv(slots: nat, reserve: nat, service: nat)
    requires reserve < slots && 0 < service
    ensures Inv(Initial(slots, reserve, service))
  {
    var t := Initial(slots, reserve, service);
    NothingOpen(t.clients);
    NothingWatched(t.watched[service..]);
  }

  lemma StepInv(t: Table, step: Step)
    requires Inv(t) && Possible(t, step)
    ensures Inv(Next(t, step))
  {
    match step
    case Accept(fd) => CreateKeepsInv(t, fd);
    case Close(i) => CloseKeepsInv(t, i);
    case Receive(bytes) => ReceiveKeepsInv(t, bytes, 0);
    case Tick => TickKeepsInv(t);
    case Handled(i, state, running, answered) =>
      assert SlotInv(t, i);
      SameSocketKeepsInv(t, i, Next(t, step).clients[i], Next(t, step));
  }

  ghost predicate LegalRun(t: Table, steps: seq<Step>)
    decreases |steps|
  {
    steps == [] || (t.reserve <= |t.clients| && Possible(t, steps[0]) && LegalRun(Next(t, steps[0]), steps[1..]))
  }

  ghost function After(t: Table, steps: seq<Step>): Table
    requires LegalRun(t, steps)
    decreases |steps|
  {
    if steps == [] then t else After(Next(t, steps[0]), steps[1..])
  }

  /** The table is whole after every run. */
  lemma {:induction false} RunInv(t: Table, steps: seq<Step>)
    requires Inv(t) && LegalRun(t, steps)
    ensures Inv(After(t, steps))
    decreases |steps|
  {
    if steps != [] {
      StepInv(t, steps[0]);
      RunInv(Next(t, steps[0]), steps[1..]);
    }
  }

  /** Sockets in use and watched entries correspond one to one, so of two slots in use each has its own entry. */
  lemma OneToOne(t: Table, k: nat) returns (i: nat)
    requires Inv(t) && t.service <= k < |t.watched| && t.watched[k] != -1
    ensures i < |t.clients| && t.clients[i].inUse && t.clients[i].socket == t.watched[k]
    ensures forall j :: 0 <= j < |t.clients| && t.clients[j].inUse && t.clients[j].socket == t.watched[k] ==> j == i
    ensures forall j :: t.service <= j < |t.watched| && t.watched[j] == t.watched[k] ==> j == k
  {
    var fd, w := t.watched[k], t.watched[t.service..];
    assert w[k - t.service] == fd;
    WatchedMember(w, fd);
    SocketsMember(t.clients, fd);
    i :| 0 <= i < |t.clients| && t.clients[i].inUse && t.clients[i].socket == fd;
    forall j | 0 <= j < |t.clients| && t.clients[j].inUse && t.clients[j].socket == fd
      ensures j == i
    {
      if j != i {
        TwoSlots(t.clients, i, j, fd);
      }
    }
    forall j | t.service <= j < |t.watched| && t.watched[j] == fd
      ensures j == k
    {
      if j != k {
        TwoEntries(w, k - t.service, j - t.service, fd);
      }
    }
  }

  lemma TwoSlots(clients: seq<Conn>, i: nat, j: nat, fd: int)
    requires i < |clients| && j < |clients| && i != j
    requires clients[i].inUse && clients[j].inUse && clients[i].socket == clients[j].socket == fd
    ensures Sockets(clients)[fd] >= 2
  {
    SlotDrops(clients, i);
    var less := clients[i := EMPTY];
    assert less[j].inUse;
    SocketsMember(less, fd);
    assert Sockets(less)[fd] >= 1;
  }

  lemma TwoEntries(w: seq<int>, i: nat, j: nat, fd: int)
    requires i < |w| && j < |w| && i != j && w[i] == w[j] == fd != -1
    ensures Watched(w)[fd] >= 2
  {
    assert w[0..] == w && w[i := -1][0..] == w[i := -1];
    EntryDrops(w, 0, i);
    var less := w[i := -1];
    assert less[j] == fd;
    WatchedMember(less, fd);
    assert Watched(less)[fd] >= 1;
  }

  /** At capacity every slot behind the reserved ones is in use. */
  lemma NoSlotFree(t: Table, i: nat)
    requires Inv(t) && t.active + t.reserve >= |t.clients| && t.reserve <= i < |t.clients|
    ensures t.clients[i].inUse
  {
    if !t.clients[i].inUse {
      var more := t.clients[i := Conn(true, 0, New, 0, false)];
      SlotAdds(t.clients, i, more[i]);
      forall j | 0 <= j < t.reserve
        ensures !more[j].inUse
      {
        assert SlotInv(t, j);
      }
      FreeSlot(more, t.reserve);
      assert false;
    }
  }

  /** Closing the one to make room leaves that slot the only free one. */
  lemma OnlyFree(t: Table, k: nat)
    requires Inv(t) && t.active + t.reserve >= |t.clients| && t.reserve <= k < |t.clients|
    ensures t.clients[k].inUse && t.active > 0
    ensures FirstFree(t.clients[k := EMPTY], t.reserve) == k
  {
    hide Inv, FirstFree, Closed;
    forall i | t.reserve <= i < |t.clients|
      ensures t.clients[i].inUse
    {
      NoSlotFree(t, i);
    }
    CloseKeepsInv(t, k);
    OnlyOneFree(t.clients[k := EMPTY], t.reserve, k);
  }

  lemma OnlyOneFree(clients: seq<Conn>, from: nat, k: nat)
    requires from <= k < |clients|
    requires forall i :: from <= i < |clients| ==> (clients[i].inUse <==> i != k)
    ensures FirstFree(clients, from) == k
  {
    assert !clients[k].inUse;
  }

  lemma IdleIsBehind(t: Table, k: nat)
    requires Inv(t) && k < |t.clients| && t.clients[k].idleTime > 0
    ensures t.reserve <= k
  {
    assert SlotInv(t, k);
  }

  lemma StaleIsIdlest(t: Table, j: nat) returns (k: nat)
    requires Inv(t) && j < |t.clients| && Candidate(t.clients[j]) && t.clients[j].idleTime > 0
    ensures k == Stale(t.clients, t.reserve, |t.clients|) && t.reserve <= k < |t.clients|
    ensures Candidate(t.clients[k]) && t.clients[k].idleTime > 0
    ensures forall i :: 0 <= i < |t.clients| && Candidate(t.clients[i]) ==> t.clients[i].idleTime <= t.clients[k].idleTime
    ensures forall i :: 0 <= i < k && Candidate(t.clients[i]) ==> t.clients[i].idleTime < t.clients[k].idleTime
  {
    IdleIsBehind(t, j);
    assert Stale(t.clients, t.reserve, |t.clients|) >= 0;
    k := Stale(t.clients, t.reserve, |t.clients|);
    forall i | 0 <= i < t.reserve
      ensures t.clients[i] == EMPTY
    {
      assert SlotInv(t, i);
    }
  }

  /**
   * Eviction. At capacity, when some connection that is idle or new and runs no callback has been idle at
   * all, the first of those idle longest is closed and its slot is the new connection's; nothing else moves.
   */
  lemma EvictsIdlest(t: Table, fd: int, j: nat) returns (k: nat)
    requires Inv(t) && t.active + t.reserve >= |t.clients|
    requires j < |t.clients| && t.clients[j].state in {Idle, New} && !t.clients[j].running && t.clients[j].idleTime > 0
    ensures k < |t.clients| && t.clients[k].inUse && t.clients[k].state in {Idle, New} && !t.clients[k].running && t.clients[k].idleTime > 0
    ensures forall i :: 0 <= i < |t.clients| && t.clients[i].state in {Idle, New} && !t.clients[i].running ==>
              t.clients[i].idleTime <= t.clients[k].idleTime && (i < k ==> t.clients[i].idleTime < t.clients[k].idleTime)
    ensures Created(t, fd).1 == fd
    ensures Created(t, fd).0.clients == t.clients[k := if fd < 0 then Conn(false, -1, Idle, 0, false) else Conn(true, fd, New, 0, false)]
    ensures Created(t, fd).0.active == t.active - if fd < 0 then 1 else 0
  {
    hide Stale, FirstFree, Inv;
    k := StaleIsIdlest(t, j);
    OnlyFree(t, k);
  }

  /** At capacity the table is left as it is and the call answers -1 if and only if none of them has been idle at all. */
  lemma RefusesIff(t: Table, fd: int)
    requires Inv(t) && t.active + t.reserve >= |t.clients|
    ensures Created(t, fd) == (t, -1) <==>
              forall j :: 0 <= j < |t.clients| && t.clients[j].state in {Idle, New} && !t.clients[j].running ==> t.clients[j].idleTime == 0
  {
    if j :| 0 <= j < |t.clients| && t.clients[j].state in {Idle, New} && !t.clients[j].running && t.clients[j].idleTime != 0 {
      assert SlotInv(t, j);
      var k := EvictsIdlest(t, fd, j);
      assert Created(t, fd).0.clients[k] != t.clients[k];
    }
  }

  // ---------------------------------------------------------------------------------
  // What the idle time means
  // ---------------------------------------------------------------------------------

  /** The step stores a connection in slot i, answers its request, or ticks while it is busy. */
  ghost predicate Resets(t: Table, step: Step, i: nat)
    requires t.reserve <= |t.clients| && i < |t.clients| && Possible(t, step)
  {
    match step
    case Accept(fd) => Created(t, fd).1 >= 0 && FirstFree(MadeRoom(t).clients, t.reserve) == i
    case Tick => t.clients[i].state == Received
    case Handled(k, _, _, answered) => k == i && answered
    case _ => false
  }

  /** The ticks of a run since slot i was last reset, n having gone before. */
  ghost function IdleTicks(t: Table, steps: seq<Step>, i: nat, n: nat): nat
    requires LegalRun(t, steps) && i < |t.clients|
    decreases |steps|
  {
    if steps == [] then n
    else IdleTicks(Next(t, steps[0]), steps[1..], i, if Resets(t, steps[0], i) then 0 else if steps[0].Tick? then n + 1 else n)
  }

  lemma RoomMadeAt(t: Table, i: nat)
    requires Inv(t) && i < |t.clients|
    ensures MadeRoom(t).clients[i] == t.clients[i] || MadeRoom(t).clients[i] == EMPTY
  {
  }

  lemma AcceptIdle(t: Table, fd: int, i: nat)
    requires Inv(t) && Possible(t, Accept(fd)) && i < |t.clients|
    ensures var c, r := t.clients[i], Next(t, Accept(fd)).clients[i];
            r.inUse ==> if Resets(t, Accept(fd), i) then r.idleTime == 0 else c.inUse && r.idleTime == c.idleTime
  {
    RoomMadeAt(t, i);
  }

  lemma StepIdle(t: Table, step: Step, i: nat)
    requires Inv(t) && Possible(t, step) && i < |t.clients|
    ensures var c, r := t.clients[i], Next(t, step).clients[i];
            r.inUse ==> if Resets(t, step, i) then r.idleTime == 0
                        else c.inUse && r.idleTime == c.idleTime + if step.Tick? then 1 else 0
  {
    match step
    case Accept(fd) => AcceptIdle(t, fd, i);
    case Receive(bytes) => ReceiveKeepsInv(t, bytes, i);
    case _ =>
  }

  /**
   * In every run the idle time of a slot in use is the number of ticks since its connection was
   * stored, was last answered, or was last found busy by a tick.
   */
  lemma {:induction false} IdleTimeCounts(t: Table, steps: seq<Step>, i: nat, n: nat)
    requires Inv(t) && LegalRun(t, steps) && i < |t.clients| && (t.clients[i].inUse ==> t.clients[i].idleTime == n)
    ensures |After(t, steps).clients| == |t.clients|
    ensures After(t, steps).clients[i].inUse ==> After(t, steps).clients[i].idleTime == IdleTicks(t, steps, i, n)
    decreases |steps|
  {
    hide Inv, Resets, Possible, Next;
    if steps != [] {
      StepInv(t, steps[0]);
      StepIdle(t, steps[0], i);
      IdleTimeCounts(Next(t, steps[0]), steps[1..], i,
                     if Resets(t, steps[0], i) then 0 else if steps[0].Tick? then n + 1 else n);
    }
  }

  lemma RunFromStart(slots: nat, reserve: nat, service: nat, steps: seq<Step>)
    requires reserve < slots && 0 < service && LegalRun(Initial(slots, reserve, service), steps)
    ensures Inv(After(Initial(slots, reserve, service), steps))
    ensures |After(Initial(slots, reserve, service), steps).clients| == slots
  {
    InitInv(slots, reserve, service);
    RunInv(Initial(slots, reserve, service), steps);
    IdleTimeCounts(Initial(slots, reserve, service), steps, 0, 0);
  }

  ghost predicate MayGo(start: Table, steps: seq<Step>, j: nat)
    requires LegalRun(start, steps)
  {
    var t := After(start, steps);
    j < |t.clients| == |start.clients| && t.clients[j].inUse && t.clients[j].state in {Idle, New} && !t.clients[j].running
  }

  /**
   * So, in every run, the connection that gives its slot to a new one has in fact been idle for at least
   * one tick, and for at least as many as any other that could have been closed.
   */
  lemma EvictedWasIdlest(slots: nat, reserve: nat, service: nat, steps: seq<Step>, fd: nat, j: nat) returns (k: nat)
    requires reserve < slots && 0 < service && LegalRun(Initial(slots, reserve, service), steps)
    requires var start := Initial(slots, reserve, service);
             var t := After(start, steps);
             MayGo(start, steps, j) && IdleTicks(start, steps, j, 0) > 0 && t.active + t.reserve >= |t.clients|
    ensures var start := Initial(slots, reserve, service);
            var t := After(start, steps);
            && t.reserve <= |t.clients|
            && MayGo(start, steps, k) && IdleTicks(start, steps, k, 0) > 0
            && (forall i :: 0 <= i < slots && MayGo(start, steps, i) ==> IdleTicks(start, steps, i, 0) <= IdleTicks(start, steps, k, 0))
            && Created(t, fd).1 == fd && Created(t, fd).0.clients == t.clients[k := Conn(true, fd, New, 0, false)]
  {
    hide Created, LegalRun, After, IdleTicks;
    var start := Initial(slots, reserve, service);
    var t := After(start, steps);
    RunFromStart(slots, reserve, service, steps);
    InitInv(slots, reserve, service);
    forall i | 0 <= i < slots && t.clients[i].inUse
      ensures t.clients[i].idleTime == IdleTicks(start, steps, i, 0)
    {
      IdleTimeCounts(start, steps, i, 0);
    }
    k := EvictsIdlest(t, fd, j);
  }

  // ---------------------------------------------------------------------------------
  // Where it goes wrong
  // ---------------------------------------------------------------------------------

  /** The first connection of a server. */
  lemma FirstRoom(slots: nat, reserve: nat, service: nat, fd: nat)
    requires reserve < slots && 0 < service
    ensures var start := Initial(slots, reserve, service);
            Possible(start, Accept(fd)) && MadeRoom(start) == start && FirstFree(start.clients, reserve) == reserve
  {
    NothingOpen(Initial(slots, reserve, service).clients);
  }

  lemma OneConnection(slots: nat, reserve: nat, service: nat, fd: nat) returns (t: Table)
    requires reserve < slots && 0 < service
    ensures LegalRun(Initial(slots, reserve, service), [Accept(fd)]) && t == After(Initial(slots, reserve, service), [Accept(fd)])
    ensures Inv(t) && t.active == 1 && |t.clients| == slots
    ensures forall i :: 0 <= i < slots ==> (t.clients[i].inUse <==> i == reserve)
    ensures t.clients[reserve].socket == fd
  {
    hide Inv, MadeRoom, FirstFree, Possible, LegalRun, After;
    var start := Initial(slots, reserve, service);
    InitInv(slots, reserve, service);
    FirstRoom(slots, reserve, service, fd);
    CreateKeepsInv(start, fd);
    t := Next(start, Accept(fd));
    OneStep(start, Accept(fd));
  }

  lemma OneStep(t: Table, step: Step)
    requires t.reserve <= |t.clients| && Possible(t, step)
    ensures LegalRun(t, [step]) && After(t, [step]) == Next(t, step)
  {
    assert [step][1..] == [];
  }

  /** Closing one of its free slots spoils the table; a receive loop that finds nothing to read closes the connection. */
  lemma OneConnectionSpoilt(bytes: seq<int>) returns (t: Table)
    requires |bytes| == 10 && bytes[2] <= 0
    ensures LegalRun(Initial(10, 2, 3), [Accept(7)]) && t == After(Initial(10, 2, 3), [Accept(7)])
    ensures Inv(t) && |t.clients| == 10 && !Inv(Closed(t, 3))
    ensures |AfterReceive(t, bytes).clients| == 10 && t.clients[2].inUse && !AfterReceive(t, bytes).clients[2].inUse
  {
    t := OneConnection(10, 2, 3, 7);
    CloseRightIff(t, 3);
    ReceiveKeepsInv(t, bytes, 2);
  }

  /** findIndex asserts that the socket is not 0, and its result is used as an index. */
  predicate Asserts(t: Table, i: nat)
    requires i < |t.clients|
  {
    t.clients[i].inUse && (t.clients[i].socket == 0 || IndexOf(t.watched, t.service, t.clients[i].socket) <= 0)
  }

  /** A receive loop from slot i on stops at such a slot. */
  predicate StopsFrom(t: Table, bytes: seq<int>, i: nat)
    requires |bytes| == |t.clients|
    decreases |t.clients| - i
  {
    i < |t.clients| && (Asserts(t, i) || StopsFrom(ReceivedOne(t, bytes[i], i), bytes, i + 1))
  }

  predicate Stops(t: Table, bytes: seq<int>)
    requires |bytes| == |t.clients|
  {
    t.active != 0 && StopsFrom(t, bytes, 0)
  }

  lemma {:induction false} StopsFromIff(t: Table, bytes: seq<int>, i: nat)
    requires Inv(t) && |bytes| == |t.clients|
    ensures StopsFrom(t, bytes, i) <==> exists j :: i <= j < |t.clients| && t.clients[j].inUse && t.clients[j].socket == 0
    decreases |t.clients| - i
  {
    hide Inv, ReceivedOne;
    if i < |t.clients| {
      var next := ReceivedOne(t, bytes[i], i);
      ReceivedOneKeepsInv(t, bytes[i], i);
      StopsFromIff(next, bytes, i + 1);
      if t.clients[i].inUse {
        var k := SlotWatched(t, i);
      }
      assert forall j :: i < j < |t.clients| ==> next.clients[j] == t.clients[j];
    }
  }

  /** In a whole table that happens if and only if some connection has descriptor 0. */
  lemma StopsIff(t: Table, bytes: seq<int>)
    requires Inv(t) && |bytes| == |t.clients|
    ensures Stops(t, bytes) <==> 0 in Sockets(t.clients)
  {
    StopsFromIff(t, bytes, 0);
    SocketsMember(t.clients, 0);
    if t.active == 0 {
      assert Sockets(t.clients) == multiset{};
    }
  }

  // ---------------------------------------------------------------------------------
  // The code
  // ---------------------------------------------------------------------------------

  lemma ReceiveStep(t: Table, bytes: seq<int>, i: nat)
    requires |bytes| == |t.clients| && i < |t.clients|
    ensures StopsFrom(t, bytes, i) <==> Asserts(t, i) || StopsFrom(ReceivedOne(t, bytes[i], i), bytes, i + 1)
    ensures ReceivedFrom(t, bytes, i) == ReceivedFrom(ReceivedOne(t, bytes[i], i), bytes, i + 1)
  {
  }

  lemma ReceiveEnd(t: Table, bytes: seq<int>)
    requires |bytes| == |t.clients|
    ensures !StopsFrom(t, bytes, |bytes|) && ReceivedFrom(t, bytes, |bytes|) == t
  {
  }

  /** And such a table is reached by one accept. */
  lemma DescriptorZeroStops(bytes: seq<int>) returns (t: Table)
    requires |bytes| == 10
    ensures LegalRun(Initial(10, 2, 3), [Accept(0)]) && t == After(Initial(10, 2, 3), [Accept(0)])
    ensures |t.clients| == 10 && Stops(t, bytes)
  {
    t := OneConnection(10, 2, 3, 0);
    SocketsMember(t.clients, 0);
    StopsIff(t, bytes);
  }

  class Server {
    const reserve: nat
    const service: nat
    var clients: array<Conn>
    var watched: array<int>
    var active: int

    ghost function View(): Table
      reads this, clients, watched
    {
      Table(clients[..], watched[..], active, reserve, service)
    }

    /** Initialize. */
    constructor (slots: nat, reserved: nat, services: nat)
      requires reserved < slots && 0 < services
      ensures fresh(clients) && fresh(watched)
      ensures View() == Initial(slots, reserved, services) && Inv(View())
    {
      reserve, service, active := reserved, services, 0;
      watched := new int[slots + services](_ => 0);
      clients := new Conn[slots](_ => Conn(false, 0, Idle, 0, false));
      new;
      for i := 0 to watched.Length
        invariant watched.Length == slots + services && clients.Length == slots && active == 0 && fresh(watched) && fresh(clients)
        invariant forall j :: 0 <= j < i ==> watched[j] == -1
        invariant forall j :: 0 <= j < slots ==> clients[j] == Conn(false, 0, Idle, 0, false)
      {
        watched[i] := -1;
      }
      for i := 0 to clients.Length
        invariant watched.Length == slots + services && clients.Length == slots && active == 0 && fresh(watched) && fresh(clients)
        invariant forall j :: 0 <= j < watched.Length ==> watched[j] == -1
        invariant forall j :: 0 <= j < slots ==> clients[j] == if j < i then EMPTY else Conn(false, 0, Idle, 0, false)
      {
        clients[i] := clients[i].(socket := -1);
      }
      assert View() == Initial(slots, reserved, services);
      InitInv(slots, reserved, services);
    }

    /** Both asserts of findIndex hold when the socket is the one of a slot in use. */
    method FindIndex(socket: int) returns (index: int)
      requires socket != 0 && service > 0
      ensures index == IndexOf(watched[..], service, socket)
    {
      index := -1;
      var i := service;
      while i < watched.Length
        invariant service <= i
        invariant IndexOf(watched[..], service, socket) == IndexOf(watched[..], i, socket)
      {
        if socket == watched[i] {
          index := i;
          break;
        }
        i := i + 1;
      }
      assert index != 0;
    }

    method CloseConnection(slot: nat)
      requires slot < clients.Length
      modifies clients, watched, `active
      ensures View() == Closed(old(View()), slot)
      ensures old(active) == 0 ==> View() == old(View())
      ensures old(active) != 0 ==>
                && active == old(active) - 1 && clients[..] == old(clients[..])[slot := Conn(false, -1, Idle, 0, false)]
                && forall i :: 0 <= i < watched.Length ==>
                     watched[i] == if i == IndexOf(old(watched[..]), service, old(clients[slot].socket)) then -1 else old(watched[i])
    {
      if active == 0 {
        return;
      }
      ghost var t := View();
      var i := service;
      while i < watched.Length
        invariant service <= i && View() == t
        invariant IndexOf(watched[..], service, clients[slot].socket) == IndexOf(watched[..], i, clients[slot].socket)
      {
        if clients[slot].socket == watched[i] {
          break;
        }
        i := i + 1;
      }
      if i < watched.Length {
        watched[i] := -1;
      }
      clients[slot] := EMPTY;
      active := active - 1;
      assert watched[..] == Unwatched(t.watched, service, t.clients[slot].socket);
      assert clients[..] == t.clients[slot := EMPTY];
    }

    /** The first loop of NewConnection. */
    method FindStale() returns (staleIndex: int)
      requires reserve <= clients.Length
      ensures staleIndex == Stale(clients[..], reserve, clients.Length)
    {
      var longestIdle := 0;
      staleIndex := -1;
      for i := reserve to clients.Length
        invariant staleIndex == Stale(clients[..], reserve, i)
        invariant longestIdle == if staleIndex < 0 then 0 else clients[staleIndex].idleTime
      {
        if longestIdle < clients[i].idleTime && clients[i].state in {Idle, New} && !clients[i].running {
          staleIndex, longestIdle := i, clients[i].idleTime;
        }
      }
    }

    /** Its second loop. */
    method FindFree() returns (indexToUse: int)
      ensures indexToUse == FirstFree(clients[..], reserve)
    {
      indexToUse := -1;
      var i := reserve;
      while i < clients.Length
        invariant reserve <= i
        invariant FirstFree(clients[..], reserve) == FirstFree(clients[..], i)
      {
        if !clients[i].inUse {
          indexToUse := i;
          break;
        }
        i := i + 1;
      }
    }

    method Store(slot: nat, socket: int)
      requires slot < clients.Length
      modifies clients, watched, `active
      ensures View() == Stored(old(View()), slot, socket)
    {
      clients[slot] := Conn(true, socket, New, 0, false);
      Watch(socket);
      active := active + 1;
    }

    /** accepted is what accept returns, if it is called. */
    method NewConnection(accepted: int) returns (peerSocket: int)
      requires reserve <= clients.Length
      modifies clients, watched, `active
      ensures (View(), peerSocket) == Created(old(View()), accepted)
    {
      ghost var t := View();
      peerSocket := -1;
      if active + reserve >= clients.Length {
        var staleIndex := FindStale();
        if staleIndex != -1 {
          CloseConnection(staleIndex);
        } else {
          return -1;
        }
      }
      assert View() == MadeRoom(t);
      var indexToUse := FindFree();
      if indexToUse != -1 {
        peerSocket := accepted;
        if peerSocket >= 0 {
          Store(indexToUse, peerSocket);
        }
      }
    }

    /** Its last loop. */
    method Watch(socket: int)
      modifies watched
      ensures watched[..] == Watching(old(watched[..]), service, socket)
    {
      ghost var w := watched[..];
      var i := service;
      while i < watched.Length
        invariant service <= i && watched[..] == w
        invariant IndexOf(w, service, -1) == IndexOf(w, i, -1)
      {
        if watched[i] == -1 {
          watched[i] := socket;
          return;
        }
        i := i + 1;
      }
    }

    /**
     * bytes[i] is what recv returns for slot i. The poll result or-ed with POLLIN is never 0, so it
     * decides nothing. stopped is an assertion of findIndex that fails, or an index it cannot give.
     */
    method ReceiveLoop(bytes: seq<int>) returns (stopped: bool)
      requires |bytes| == clients.Length && service > 0
      modifies clients, watched, `active
      ensures stopped <==> Stops(old(View()), bytes)
      ensures !stopped ==> View() == AfterReceive(old(View()), bytes)
    {
      hide ReceivedFrom, StopsFrom;
      if active == 0 {
        return false;
      }
      ghost var t := View();
      for i := 0 to clients.Length
        invariant ReceivedFrom(t, bytes, 0) == ReceivedFrom(View(), bytes, i)
        invariant StopsFrom(t, bytes, 0) <==> StopsFrom(View(), bytes, i)
      {
        ReceiveStep(View(), bytes, i);
        if clients[i].inUse {
          if clients[i].socket == 0 {
            return true;
          }
          var index := FindIndex(clients[i].socket);
          if index == -1 {
            return true;
          }
          Serve(i, bytes[i]);
        }
      }
      ReceiveEnd(View(), bytes);
      return false;
    }

    /** Its turn for a slot in use. */
    method Serve(i: nat, bytes: int)
      requires i < clients.Length && clients[i].inUse
      modifies clients, watched, `active
      ensures View() == ReceivedOne(old(View()), bytes, i)
    {
      ghost var t := View();
      if bytes > 0 {
        clients[i] := clients[i].(state := Received);
        assert clients[..] == t.clients[i := t.clients[i].(state := Received)];
      } else {
        CloseConnection(i);
      }
    }

    /** The idle accounting of ServerRun. */
    method CountIdle()
      modifies clients
      ensures View() == Ticked(old(View()))
      ensures forall i :: 0 <= i < clients.Length ==>
                var c := old(clients[i]);
                clients[i] == if !c.inUse then c else c.(idleTime := if c.state in {Idle, New} then c.idleTime + 1 else 0)
    {
      for i := 0 to clients.Length
        invariant forall j :: 0 <= j < clients.Length ==> clients[j] == if j < i then TickedConn(old(clients[j])) else old(clients[j])
      {
        if clients[i].inUse {
          if clients[i].state in {Idle, New} {
            clients[i] := clients[i].(idleTime := clients[i].idleTime + 1);
          } else {
            clients[i] := clients[i].(idleTime := 0);
          }
        }
      }
      assert clients[..] == Ticked(old(View())).clients;
    }
  }
}
