/**
 * process_event.cc and the connection callbacks of worker.cc: what the event loop of each
 * worker does to the table of connections and to the worker's own timers.
 */
module EventLoop {
  import opened Timers

  const TIMER_PERIOD := 10 * 1000   // worker.cc: every timer is set 10 s ahead
  const PRESEND := 500              // worker.cc: bytes of one round of output

  /** An FDITEM: whether the four client callbacks are set, m_sended and m_activeclose. */
  datatype FdItem = FdItem(registered: bool, sended: nat, activeClose: bool)

  type Table = seq<FdItem>

  /** The address of each FDITEM, and of its slot in gFDITEM. */
  datatype Layout = Layout(addr: seq<int>, slot: seq<int>)

  ghost predicate ValidLayout(l: Layout) {
    && |l.addr| == |l.slot|
    && (forall i, j :: 0 <= i < j < |l.addr| ==> l.addr[i] != l.addr[j])
    && (forall i, j :: 0 <= i < |l.addr| && 0 <= j < |l.slot| ==> l.addr[i] != l.slot[j])
  }

  /** What epoll_wait and the socket report for one connection. */
  datatype FdEvent = FdEvent(readable: bool, eof: bool, writable: bool, wrote: int, hangup: bool)

  predicate CanWrite(it: FdItem, len: int) {
    -1 <= len <= PRESEND - it.sended
  }

  // ---------------------------------------------------------------------------------
  // Specification on values
  // ---------------------------------------------------------------------------------

  /** client_writefun and client_timeoutfun after write returned len. */
  function Wrote(it: FdItem, len: int): FdItem {
    if len == 0 then it.(activeClose := true)
    else if len > 0 then it.(sended := if it.sended + len == PRESEND then 0 else it.sended + len)
    else it
  }

  function AfterRead(it: FdItem, ev: FdEvent): FdItem {
    if !it.activeClose && ev.readable && ev.eof then it.(activeClose := true) else it
  }

  function AfterWrite(it: FdItem, ev: FdEvent): FdItem {
    if !it.activeClose && ev.writable then Wrote(it, ev.wrote) else it
  }

  function AfterHangup(it: FdItem, ev: FdEvent): FdItem {
    if !it.activeClose && ev.hangup then it.(activeClose := true) else it
  }

  function AfterEvent(it: FdItem, ev: FdEvent): FdItem {
    AfterHangup(AfterWrite(AfterRead(it, ev), ev), ev)
  }

  /** The table, and the time index of one worker's timers. */
  datatype View = View(items: Table, timers: MultiMap)

  ghost function Registered(v: View, l: Layout, fd: nat, now: int): View
    requires fd < |v.items| == |l.addr| && Sorted(v.timers)
  {
    View(v.items[fd := v.items[fd].(registered := true)], Insert(v.timers, now + TIMER_PERIOD, l.addr[fd]))
  }

  ghost function Handled(v: View, l: Layout, fd: nat, ev: FdEvent): View
    requires fd < |v.items| == |l.addr|
  {
    var it := AfterEvent(v.items[fd], ev);
    if it.activeClose then View(v.items[fd := FdItem(false, 0, false)], Without(v.timers, l.addr[fd]))
    else View(v.items[fd := it], v.timers)
  }

  // ---------------------------------------------------------------------------------
  // How many entries an item has
  // ---------------------------------------------------------------------------------

  ghost function Count(m: MultiMap, item: int): nat {
    if m == [] then 0 else (if m[0].1 == item then 1 else 0) + Count(m[1..], item)
  }

  lemma {:induction false} CountConcat(a: MultiMap, b: MultiMap, item: int)
    ensures Count(a + b, item) == Count(a, item) + Count(b, item)
  {
    if a == [] {
      assert a + b == b;
    } else {
      assert (a + b)[1..] == a[1..] + b;
      CountConcat(a[1..], b, item);
    }
  }

  lemma {:induction false} CountZero(m: MultiMap, item: int)
    ensures Count(m, item) == 0 <==> forall e :: e in m ==> e.1 != item
  {
    if m != [] {
      CountZero(m[1..], item);
      assert forall e :: e in m <==> e == m[0] || e in m[1..];
    }
  }

  lemma CountInsert(m: MultiMap, t: int, added: int, item: int)
    requires Sorted(m)
    ensures Count(Insert(m, t, added), item) == Count(m, item) + if added == item then 1 else 0
  {
    hide Count;
    var n := UpperBound(m, t);
    assert m == m[..n] + m[n..];
    CountConcat(m[..n], m[n..], item);
    CountConcat(m[..n] + [(t, added)], m[n..], item);
    CountConcat(m[..n], [(t, added)], item);
    CountOne(t, added, item);
  }

  lemma CountOne(t: int, added: int, item: int)
    ensures Count([(t, added)], item) == if added == item then 1 else 0
  {
    assert [(t, added)][1..] == [];
  }

  lemma {:induction false} CountWithout(m: MultiMap, gone: int, item: int)
    ensures Count(Without(m, gone), item) == if gone == item then 0 else Count(m, item)
  {
    if m != [] {
      CountWithout(m[1..], gone, item);
      if m[0].1 == gone {
        assert [] + Without(m[1..], gone) == Without(m[1..], gone);
      } else {
        CountConcat([m[0]], Without(m[1..], gone), item);
        assert [m[0]][1..] == [];
      }
    }
  }

  // ---------------------------------------------------------------------------------
  // The invariant of one worker
  // ---------------------------------------------------------------------------------

  ghost predicate Owned(l: Layout, m: MultiMap, mine: set<nat>) {
    forall e :: e in m ==> exists fd :: fd in mine && fd < |l.addr| && l.addr[fd] == e.1
  }

  /** mine: the open connections handed to this worker. Each has one timer, nothing else has any. */
  ghost predicate WorkerInv(l: Layout, v: View, mine: set<nat>) {
    && ValidLayout(l) && |v.items| == |l.addr| && Sorted(v.timers)
    && (forall fd :: fd in mine ==> fd < |v.items| && v.items[fd].registered && Count(v.timers, l.addr[fd]) == 1)
    && Owned(l, v.timers, mine)
    && (forall fd :: 0 <= fd < |v.items| ==> v.items[fd].sended < PRESEND)
  }

  lemma RegisterCounts(l: Layout, v: View, mine: set<nat>, fd: nat, t: int)
    requires WorkerInv(l, v, mine) && fd < |v.items| && fd !in mine
    ensures forall f :: f in mine + {fd} ==> Count(Insert(v.timers, t, l.addr[fd]), l.addr[f]) == 1
  {
    forall e | e in v.timers
      ensures e.1 != l.addr[fd]
    {
      var f :| f in mine && f < |l.addr| && l.addr[f] == e.1;
    }
    CountZero(v.timers, l.addr[fd]);
    forall f | f in mine + {fd}
      ensures Count(Insert(v.timers, t, l.addr[fd]), l.addr[f]) == 1
    {
      CountInsert(v.timers, t, l.addr[fd], l.addr[f]);
    }
  }

  /** A pair found in an updated index was there before or belongs to the item just added. */
  lemma RegisterOwned(l: Layout, m: MultiMap, mine: set<nat>, fd: nat, t: int)
    requires Owned(l, m, mine) && Sorted(m) && fd < |l.addr|
    ensures Owned(l, Insert(m, t, l.addr[fd]), mine + {fd})
  {
    InsertIs(m, t, l.addr[fd]);
    forall e | e in Insert(m, t, l.addr[fd])
      ensures exists f :: f in mine + {fd} && f < |l.addr| && l.addr[f] == e.1
    {
      assert e in multiset(Insert(m, t, l.addr[fd]));
      if e == (t, l.addr[fd]) {
        assert fd in mine + {fd};
      } else {
        assert e in m;
        var f :| f in mine && f < |l.addr| && l.addr[f] == e.1;
        assert f in mine + {fd};
      }
    }
  }

  lemma RegisterInv(l: Layout, v: View, mine: set<nat>, fd: nat, now: int)
    requires WorkerInv(l, v, mine) && fd < |v.items| && fd !in mine
    ensures WorkerInv(l, Registered(v, l, fd, now), mine + {fd})
  {
    InsertSorted(v.timers, now + TIMER_PERIOD, l.addr[fd]);
    RegisterCounts(l, v, mine, fd, now + TIMER_PERIOD);
    RegisterOwned(l, v.timers, mine, fd, now + TIMER_PERIOD);
  }

  lemma WroteInRange(it: FdItem, len: int)
    requires it.sended < PRESEND && CanWrite(it, len)
    ensures Wrote(it, len).sended < PRESEND && Wrote(it, len).registered == it.registered
  {
  }

  lemma CloseOwned(l: Layout, m: MultiMap, mine: set<nat>, fd: nat)
    requires Owned(l, m, mine) && fd < |l.addr|
    ensures Owned(l, Without(m, l.addr[fd]), mine - {fd})
  {
    KeepMembers(m, l.addr[fd], ALWAYS);
    forall e | e in Without(m, l.addr[fd])
      ensures exists f :: f in mine - {fd} && f < |l.addr| && l.addr[f] == e.1
    {
      assert e in m && e.1 != l.addr[fd];
      var f :| f in mine && f < |l.addr| && l.addr[f] == e.1;
      assert f in mine - {fd};
    }
  }

  lemma CloseInv(l: Layout, v: View, mine: set<nat>, fd: nat)
    requires WorkerInv(l, v, mine) && fd in mine
    ensures WorkerInv(l, View(v.items[fd := FdItem(false, 0, false)], Without(v.timers, l.addr[fd])), mine - {fd})
  {
    KeepSorted(v.timers, l.addr[fd], ALWAYS);
    CloseOwned(l, v.timers, mine, fd);
    forall f | f in mine - {fd}
      ensures Count(Without(v.timers, l.addr[fd]), l.addr[f]) == 1
    {
      CountWithout(v.timers, l.addr[fd], l.addr[f]);
    }
  }

  lemma AfterEventInRange(it: FdItem, ev: FdEvent)
    requires it.sended < PRESEND && CanWrite(it, ev.wrote)
    ensures AfterEvent(it, ev).sended < PRESEND && AfterEvent(it, ev).registered == it.registered
  {
  }

  /** When an event closes a connection, and what else it does. */
  lemma EventOutcome(it: FdItem, ev: FdEvent)
    requires it.sended < PRESEND && CanWrite(it, ev.wrote)
    ensures AfterEvent(it, ev).activeClose <==>
              it.activeClose || (ev.readable && ev.eof) || (ev.writable && ev.wrote == 0) || ev.hangup
    ensures !AfterEvent(it, ev).activeClose ==>
              && AfterEvent(it, ev).registered == it.registered
              && AfterEvent(it, ev).sended == (it.sended + if ev.writable && ev.wrote > 0 then ev.wrote else 0) % 500
  {
    Rounds(it.sended, if ev.wrote > 0 then ev.wrote else 0);
  }

  lemma WithoutIs(m: MultiMap, item: int)
    ensures forall e :: multiset(Without(m, item))[e] == if e.1 == item then 0 else multiset(m)[e]
  {
    KeepMembers(m, item, ALWAYS);
  }

  lemma Rounds(sended: nat, wrote: int)
    requires sended < 500 && 0 <= sended + wrote <= 500
    ensures (sended + wrote) % 500 == if sended + wrote == 500 then 0 else sended + wrote
    ensures (sended + 0) % 500 == sended
  {
  }

  /** What that means for the table and the timers. */
  lemma HandledIs(v: View, l: Layout, fd: nat, ev: FdEvent)
    requires fd < |v.items| == |l.addr| && v.items[fd].sended < PRESEND && CanWrite(v.items[fd], ev.wrote)
    ensures var it, r := v.items[fd], Handled(v, l, fd, ev);
            && |r.items| == |v.items| && (forall f :: 0 <= f < |v.items| && f != fd ==> r.items[f] == v.items[f])
            && if it.activeClose || (ev.readable && ev.eof) || (ev.writable && ev.wrote == 0) || ev.hangup
               then
                 && r.items[fd] == FdItem(false, 0, false)
                 && forall e :: multiset(r.timers)[e] == if e.1 == l.addr[fd] then 0 else multiset(v.timers)[e]
               else
                 && r.items[fd].registered == it.registered && !r.items[fd].activeClose
                 && r.items[fd].sended == (it.sended + if ev.writable && ev.wrote > 0 then ev.wrote else 0) % 500
                 && r.timers == v.timers
    ensures Handled(v, l, fd, ev) ==
            var it := AfterEvent(v.items[fd], ev);
            if it.activeClose then View(v.items[fd := FdItem(false, 0, false)], Without(v.timers, l.addr[fd]))
            else View(v.items[fd := it], v.timers)
  {
    hide AfterEvent, Without;
    EventOutcome(v.items[fd], ev);
    WithoutIs(v.timers, l.addr[fd]);
  }

  lemma HandleInv(l: Layout, v: View, mine: set<nat>, fd: nat, ev: FdEvent)
    requires WorkerInv(l, v, mine) && fd in mine && CanWrite(v.items[fd], ev.wrote)
    ensures WorkerInv(l, Handled(v, l, fd, ev), if AfterEvent(v.items[fd], ev).activeClose then mine - {fd} else mine)
  {
    if AfterEvent(v.items[fd], ev).activeClose {
      CloseInv(l, v, mine, fd);
    } else {
      AfterEventInRange(v.items[fd], ev);
    }
  }

  /** Every entry belongs to some item. */
  ghost predicate AllItems(l: Layout, m: MultiMap) {
    forall i :: 0 <= i < |m| ==> m[i].1 in l.addr
  }

  /** The slot of an item is not the item: removing it from the timers removes nothing. */
  lemma SlotHasNoTimer(l: Layout, m: MultiMap, fd: nat)
    requires ValidLayout(l) && AllItems(l, m) && fd < |l.slot|
    ensures Without(m, l.slot[fd]) == m
  {
    forall i | 0 <= i < |m|
      ensures m[i].1 != l.slot[fd]
    {
      assert m[i].1 in l.addr;
    }
    KeepAll(m, l.slot[fd], ALWAYS);
  }

  // ---------------------------------------------------------------------------------
  // The timer drain
  // ---------------------------------------------------------------------------------

  /** The entries due at ts, earliest first. */
  ghost function Due(m: MultiMap, ts: int): MultiMap
    requires Sorted(m)
  {
    m[..UpperBound(m, ts)]
  }

  ghost function NotDue(m: MultiMap, ts: int): MultiMap
    requires Sorted(m)
  {
    m[UpperBound(m, ts)..]
  }

  lemma InsertBehind(r: MultiMap, t: int, item: int)
    requires Sorted(r) && r != [] && r[0].0 <= t
    ensures Insert(r, t, item) == [r[0]] + Insert(r[1..], t, item)
  {
    assert UpperBound(r, t) == 1 + UpperBound(r[1..], t);
  }

  /** An entry in the future changes what is due neither by itself nor for the others. */
  lemma {:induction false} DueOfInsert(r: MultiMap, ts: int, t: int, item: int)
    requires Sorted(r) && ts < t
    ensures Sorted(Insert(r, t, item)) && Sorted(NotDue(r, ts))
    ensures Due(Insert(r, t, item), ts) == Due(r, ts)
    ensures NotDue(Insert(r, t, item), ts) == Insert(NotDue(r, ts), t, item)
  {
    InsertIs(r, t, item);
    if r != [] && r[0].0 <= ts {
      DueOfInsert(r[1..], ts, t, item);
      DueOfInsertBehind(r, ts, t, item);
    } else {
      var m := Insert(r, t, item);
      assert UpperBound(r, ts) == 0 && UpperBound(m, ts) == 0;
      assert m[0..] == m && r[0..] == r;
    }
  }

  lemma DueOfInsertBehind(r: MultiMap, ts: int, t: int, item: int)
    requires Sorted(r) && ts < t && r != [] && r[0].0 <= ts
    requires Sorted(Insert(r[1..], t, item)) && Sorted(Insert(r, t, item)) && Sorted(NotDue(r[1..], ts))
    requires Due(Insert(r[1..], t, item), ts) == Due(r[1..], ts)
    requires NotDue(Insert(r[1..], t, item), ts) == Insert(NotDue(r[1..], ts), t, item)
    ensures Sorted(NotDue(r, ts))
    ensures Due(Insert(r, t, item), ts) == Due(r, ts)
    ensures NotDue(Insert(r, t, item), ts) == Insert(NotDue(r, ts), t, item)
  {
    hide Insert, Due, NotDue, UpperBound;
    var m := Insert(r, t, item);
    InsertBehind(r, t, item);
    assert m[0] == r[0] && m[1..] == Insert(r[1..], t, item);
    DueOfCons(r, ts);
    DueOfCons(m, ts);
  }

  lemma DueOfCons(m: MultiMap, ts: int)
    requires Sorted(m) && m != [] && m[0].0 <= ts
    ensures Sorted(m[1..]) && Due(m, ts) == [m[0]] + Due(m[1..], ts) && NotDue(m, ts) == NotDue(m[1..], ts)
  {
    assert UpperBound(m, ts) == 1 + UpperBound(m[1..], ts);
  }

  lemma DueOfRearmed(m: MultiMap, ts: int, item: int)
    requires Sorted(m) && m != [] && m[0].0 <= ts
    ensures Sorted(m[1..]) && Sorted(NotDue(m, ts)) && Sorted(Insert(m[1..], ts + TIMER_PERIOD, item))
    ensures Due(m, ts) == [m[0]] + Due(Insert(m[1..], ts + TIMER_PERIOD, item), ts)
    ensures NotDue(Insert(m[1..], ts + TIMER_PERIOD, item), ts) == Insert(NotDue(m, ts), ts + TIMER_PERIOD, item)
  {
    DueOfCons(m, ts);
    DueOfInsert(m[1..], ts, ts + TIMER_PERIOD, item);
  }

  /** Re-arming all of a batch of fired entries, in firing order. */
  ghost function Rearmed(m: MultiMap, fired: MultiMap, ts: int): (r: MultiMap)
    requires Sorted(m)
    ensures Sorted(r)
    decreases |fired|
  {
    if fired == [] then m
    else (InsertIs(m, ts + TIMER_PERIOD, fired[0].1);
          Rearmed(Insert(m, ts + TIMER_PERIOD, fired[0].1), fired[1..], ts))
  }

  /** The same items, all due at t. */
  function Retimed(m: MultiMap, t: int): (r: MultiMap)
    ensures |r| == |m| && forall i :: 0 <= i < |m| ==> r[i] == (t, m[i].1)
  {
    seq(|m|, i requires 0 <= i < |m| => (t, m[i].1))
  }

  lemma RetimedCons(m: MultiMap, t: int)
    requires m != []
    ensures multiset(Retimed(m, t)) == multiset{(t, m[0].1)} + multiset(Retimed(m[1..], t))
  {
    assert Retimed(m, t) == [(t, m[0].1)] + Retimed(m[1..], t);
  }

  lemma {:induction false} RearmedIs(m: MultiMap, fired: MultiMap, ts: int)
    requires Sorted(m)
    ensures multiset(Rearmed(m, fired, ts)) == multiset(m) + multiset(Retimed(fired, ts + 10_000))
    decreases |fired|
  {
    if fired == [] {
      assert Retimed(fired, ts + 10_000) == [];
    } else {
      hide Insert, Retimed;
      var t := ts + TIMER_PERIOD;
      InsertIs(m, t, fired[0].1);
      RearmedIs(Insert(m, t, fired[0].1), fired[1..], ts);
      RetimedCons(fired, t);
    }
  }

  lemma {:induction false} RearmedCounts(m: MultiMap, fired: MultiMap, ts: int, item: int)
    requires Sorted(m)
    ensures Count(Rearmed(m, fired, ts), item) == Count(m, item) + Count(fired, item)
    decreases |fired|
  {
    if fired != [] {
      InsertIs(m, ts + TIMER_PERIOD, fired[0].1);
      CountInsert(m, ts + TIMER_PERIOD, fired[0].1, item);
      RearmedCounts(Insert(m, ts + TIMER_PERIOD, fired[0].1), fired[1..], ts, item);
    }
  }

  /**
   * A drain keeps every item's number of timers; afterwards nothing is due, and an item that
   * fired is due exactly one period later.
   */
  lemma DrainKeepsCounts(m: MultiMap, ts: int, item: int)
    requires Sorted(m)
    ensures Sorted(NotDue(m, ts)) && Count(Rearmed(NotDue(m, ts), Due(m, ts), ts), item) == Count(m, item)
  {
    hide Count, Rearmed;
    RearmedCounts(NotDue(m, ts), Due(m, ts), ts, item);
    CountConcat(Due(m, ts), NotDue(m, ts), item);
    assert m == Due(m, ts) + NotDue(m, ts);
  }

  /** A fired timer belongs to an open connection of this worker, so its callback is set. */
  lemma FiredIsOpen(l: Layout, v: View, mine: set<nat>, i: nat) returns (fd: nat)
    requires WorkerInv(l, v, mine) && i < |v.timers|
    ensures fd in mine && fd < |v.items| && l.addr[fd] == v.timers[i].1 && v.items[fd].registered
  {
    assert v.timers[i] in v.timers;
    fd :| fd in mine && fd < |l.addr| && l.addr[fd] == v.timers[i].1;
  }

  /** After a drain nothing is due at its time. */
  lemma {:induction false} NothingDue(m: MultiMap, fired: MultiMap, ts: int)
    requires Sorted(m) && Due(m, ts) == []
    ensures Due(Rearmed(m, fired, ts), ts) == []
    decreases |fired|
  {
    if fired != [] {
      InsertIs(m, ts + TIMER_PERIOD, fired[0].1);
      DueOfInsert(m, ts, ts + TIMER_PERIOD, fired[0].1);
      NothingDue(Insert(m, ts + TIMER_PERIOD, fired[0].1), fired[1..], ts);
    }
  }

  lemma {:induction false} RearmedOwned(l: Layout, m: MultiMap, fired: MultiMap, ts: int, mine: set<nat>)
    requires Sorted(m) && Owned(l, m, mine) && Owned(l, fired, mine)
    ensures Owned(l, Rearmed(m, fired, ts), mine)
    decreases |fired|
  {
    if fired != [] {
      assert fired[0] in fired;
      InsertIs(m, ts + TIMER_PERIOD, fired[0].1);
      InsertOwned(l, m, ts + TIMER_PERIOD, fired[0].1, mine);
      assert forall e :: e in fired[1..] ==> e in fired;
      RearmedOwned(l, Insert(m, ts + TIMER_PERIOD, fired[0].1), fired[1..], ts, mine);
    }
  }

  lemma InsertOwned(l: Layout, m: MultiMap, t: int, item: int, mine: set<nat>)
    requires Sorted(m) && Owned(l, m, mine)
    requires exists fd :: fd in mine && fd < |l.addr| && l.addr[fd] == item
    ensures Owned(l, Insert(m, t, item), mine)
  {
    var n := UpperBound(m, t);
    forall e | e in Insert(m, t, item)
      ensures exists fd :: fd in mine && fd < |l.addr| && l.addr[fd] == e.1
    {
      if e != (t, item) {
        assert e in m[..n] || e in m[n..];
        assert e in m;
      }
    }
  }

  lemma DrainInv(l: Layout, v: View, mine: set<nat>, ts: int, after: Table, fired: seq<nat>)
    requires WorkerInv(l, v, mine) && Spared(v.items, after, fired)
    requires forall f :: 0 <= f < |after| ==> after[f].sended < PRESEND
    ensures Sorted(NotDue(v.timers, ts))
    ensures WorkerInv(l, View(after, Rearmed(NotDue(v.timers, ts), Due(v.timers, ts), ts)), mine)
  {
    hide Rearmed, Count;
    var m := v.timers;
    assert forall e :: e in NotDue(m, ts) ==> e in m;
    assert forall e :: e in Due(m, ts) ==> e in m;
    RearmedOwned(l, NotDue(m, ts), Due(m, ts), ts, mine);
    forall f | f in mine
      ensures Count(Rearmed(NotDue(m, ts), Due(m, ts), ts), l.addr[f]) == 1
    {
      DrainKeepsCounts(m, ts, l.addr[f]);
    }
  }

  // ---------------------------------------------------------------------------------
  // One worker
  // ---------------------------------------------------------------------------------

  class Worker {
    const layout: Layout
    const items: array<FdItem>
    const timer: Timer

    ghost function State(): View
      reads items, timer
    {
      View(items[..], timer.timeArg)
    }

    ghost predicate Valid()
      reads items, timer
    {
      && timer.Valid() && items.Length == |layout.addr| == |layout.slot|
      && AllItems(layout, timer.timeArg)
      && forall i :: 0 <= i < items.Length ==> items[i].sended < PRESEND
    }

    constructor (layout: Layout, items: array<FdItem>)
      requires items.Length == |layout.addr| == |layout.slot|
      requires forall i :: 0 <= i < items.Length ==> items[i].sended < PRESEND
      ensures Valid() && State() == View(items[..], []) && this.items == items && this.layout == layout && fresh(timer)
    {
      this.layout, this.items := layout, items;
      timer := new Timer();
    }

    /** process_connection for one descriptor: its callbacks are set, and a timer 10 s ahead. */
    method Register(fd: nat, now: int)
      requires Valid() && fd < items.Length
      modifies items, timer
      ensures Valid() && State() == Registered(old(State()), layout, fd, now)
      ensures items[..] == old(items[..])[fd := FdItem(true, old(items[fd]).sended, old(items[fd]).activeClose)]
      ensures multiset(timer.timeArg) == multiset(old(timer.timeArg)) + multiset{(now + 10_000, layout.addr[fd])}
    {
      InsertIs(timer.timeArg, now + TIMER_PERIOD, layout.addr[fd]);
      AllItemsInsert(layout, timer.timeArg, now + TIMER_PERIOD, layout.addr[fd]);
      items[fd] := items[fd].(registered := true);
      timer.AddTimer(layout.addr[fd], now + TIMER_PERIOD);
    }

    /**
     * process_one_event for a client connection. It is closed, and all its timers and no others go, when
     * it was about to be closed, the peer has ended its stream or hung up, or a write moved nothing;
     * otherwise the bytes written count towards rounds of 500.
     */
    method ProcessOneEvent(fd: nat, ev: FdEvent)
      requires Valid() && ValidLayout(layout) && fd < items.Length && CanWrite(items[fd], ev.wrote)
      modifies items, timer
      ensures Valid() && State() == Handled(old(State()), layout, fd, ev)
      ensures var it, r := old(items[fd]), State();
              && (forall f :: 0 <= f < items.Length && f != fd ==> r.items[f] == old(State()).items[f])
              && if it.activeClose || (ev.readable && ev.eof) || (ev.writable && ev.wrote == 0) || ev.hangup
                 then
                   && r.items[fd] == FdItem(false, 0, false)
                   && forall e :: multiset(r.timers)[e] == if e.1 == layout.addr[fd] then 0 else multiset(old(timer.timeArg))[e]
                 else
                   && r.items[fd].registered == it.registered && !r.items[fd].activeClose
                   && r.items[fd].sended == (it.sended + if ev.writable && ev.wrote > 0 then ev.wrote else 0) % 500
                   && r.timers == old(timer.timeArg)
    {
      hide AfterEvent, Without, Handled, AllItems, ValidLayout, CanWrite, Sorted, Mirror;
      ghost var was := State();
      HandledIs(was, layout, fd, ev);
      ServeEvent(fd, ev);
      CloseIfAsked(fd);
      assert State() == Handled(was, layout, fd, ev);
    }

    /** Its end. */
    method CloseIfAsked(fd: nat)
      requires Valid() && ValidLayout(layout) && fd < items.Length
      modifies items, timer
      ensures Valid()
      ensures State() == if !old(items[fd]).activeClose then old(State())
                         else View(old(items[..])[fd := FdItem(false, 0, false)], Without(old(timer.timeArg), layout.addr[fd]))
    {
      hide Without;
      if items[fd].activeClose {
        SlotHasNoTimer(layout, timer.timeArg, fd);
        timer.RemoveTimer(layout.slot[fd]);
        CloseFun(fd);
      }
    }

    /** The part of it that reads, writes and sees a hangup. */
    method ServeEvent(fd: nat, ev: FdEvent)
      requires Valid() && fd < items.Length && CanWrite(items[fd], ev.wrote)
      modifies items
      ensures Valid() && State() == View(old(items[..])[fd := AfterEvent(old(items[fd]), ev)], timer.timeArg)
    {
      AfterEventInRange(items[fd], ev);
      if !items[fd].activeClose && ev.readable {
        if ev.eof {
          items[fd] := items[fd].(activeClose := true);
        }
      }
      if !items[fd].activeClose && ev.writable {
        items[fd] := Wrote(items[fd], ev.wrote);
      }
      if !items[fd].activeClose && ev.hangup {
        items[fd] := items[fd].(activeClose := true);
      }
    }

    /** client_closefun. */
    method CloseFun(fd: nat)
      requires Valid() && fd < items.Length
      modifies items, timer
      ensures Valid()
      ensures State() == View(old(items[..])[fd := FdItem(false, 0, false)], Without(old(timer.timeArg), layout.addr[fd]))
    {
      AllItemsWithout(layout, timer.timeArg, layout.addr[fd]);
      timer.RemoveTimer(layout.addr[fd]);
      items[fd] := FdItem(false, 0, false);
    }

    /** client_timeoutfun; what write returns, len, is up to the socket. */
    method TimeoutFun(fd: nat, tnow: int) returns (len: int)
      requires Valid() && fd < items.Length
      modifies items, timer
      ensures Valid()
      ensures CanWrite(old(items[fd]), len)
      ensures items[fd] == FdItem(old(items[fd]).registered, (old(items[fd]).sended + if len > 0 then len else 0) % 500,
                                  old(items[fd]).activeClose || len == 0)
      ensures forall f :: 0 <= f < items.Length && f != fd ==> items[f] == old(items[f])
      ensures timer.timeArg == Insert(old(timer.timeArg), tnow + 10_000, layout.addr[fd])
    {
      AllItemsInsert(layout, timer.timeArg, tnow + TIMER_PERIOD, layout.addr[fd]);
      len := WriteResult(items[fd]);
      WroteInRange(items[fd], len);
      Rounds(items[fd].sended, if len > 0 then len else 0);
      items[fd] := Wrote(items[fd], len);
      timer.AddTimer(layout.addr[fd], tnow + TIMER_PERIOD);
    }

    /** One pass of the timer loop of process_event. */
    method FireOne(ts: int) returns (fired: Option<nat>)
      requires Valid()
      modifies items, timer
      ensures Valid()
      ensures fired.None? ==> State() == old(State()) && Due(timer.timeArg, ts) == []
      ensures fired.Some? ==>
                && Fired(old(timer.timeArg), timer.timeArg, ts)
                && fired.value < items.Length && layout.addr[fired.value] == old(timer.timeArg)[0].1
                && Spared(old(items[..]), items[..], [fired.value])
    {
      ghost var m := timer.timeArg;
      var next := timer.GetTimer(ts);
      if next.None? {
        NoneDue(m, ts);
        return None;
      }
      assert m[0].1 in layout.addr;
      var fd := FdOf(layout, next.value);
      var _ := TimeoutFun(fd, ts);
      return Some(fd);
    }

    /**
     * The drain of process_event at the fixed time ts: fired are the connections whose
     * callback ran. They are exactly the due ones, earliest first, each re-armed one period on.
     */
    method RunTimers(ts: int) returns (fired: seq<nat>)
      requires Valid()
      modifies items, timer
      ensures Valid()
      ensures timer.timeArg == Rearmed(NotDue(old(timer.timeArg), ts), Due(old(timer.timeArg), ts), ts)
      ensures multiset(timer.timeArg) ==
              multiset(NotDue(old(timer.timeArg), ts)) + multiset(Retimed(Due(old(timer.timeArg), ts), ts + 10_000))
      ensures |fired| == |Due(old(timer.timeArg), ts)| && Belong(layout, Due(old(timer.timeArg), ts), fired)
      ensures Spared(old(items[..]), items[..], fired)
    {
      hide Draining, Rearmed, NotDue, Retimed;
      ghost var m0, items0 := timer.timeArg, items[..];
      DrainingStarts(m0, ts);
      fired := [];
      while true
        invariant Valid() && Draining(m0, timer.timeArg, |fired|, ts)
        invariant Belong(layout, Due(m0, ts), fired)
        invariant Spared(items0, items[..], fired)
        decreases |Due(timer.timeArg, ts)|
      {
        ghost var m, was := timer.timeArg, items[..];
        var next := FireOne(ts);
        if next.None? {
          break;
        }
        DrainingGoesOn(m0, m, timer.timeArg, |fired|, ts);
        SparedTwice(items0, was, items[..], fired, [next.value]);
        fired := fired + [next.value];
      }
      DrainingEnds(m0, timer.timeArg, |fired|, ts);
    }

    /** process_event: the events of one epoll_wait, then the timers due at timeStamp. */
    method ProcessEvent(events: seq<(nat, FdEvent)>, timeStamp: int) returns (fired: seq<nat>)
      requires Valid() && ValidLayout(layout)
      requires forall i :: 0 <= i < |events| ==> events[i].0 < items.Length && CanWrite(items[events[i].0], events[i].1.wrote)
      requires forall i, j :: 0 <= i < j < |events| ==> events[i].0 != events[j].0
      modifies items, timer
      ensures Valid() && Due(timer.timeArg, timeStamp) == []
      ensures var v := AllHandled(old(State()), layout, events);
              && |v.items| == items.Length && Sorted(v.timers)
              && timer.timeArg == Rearmed(NotDue(v.timers, timeStamp), Due(v.timers, timeStamp), timeStamp)
              && Spared(v.items, items[..], fired)
              && |fired| == |Due(v.timers, timeStamp)| && Belong(layout, Due(v.timers, timeStamp), fired)
    {
      ghost var v0 := State();
      for i := 0 to |events|
        invariant Valid() && State() == AllHandled(v0, layout, events[..i])
        invariant forall j :: i <= j < |events| ==> items[events[j].0] == v0.items[events[j].0]
      {
        assert events[..i + 1][..i] == events[..i];
        ProcessOneEvent(events[i].0, events[i].1);
      }
      assert events[..|events|] == events;
      ghost var m := timer.timeArg;
      fired := RunTimers(timeStamp);
      DrainLeavesNothing(m, timeStamp);
    }
  }

  ghost function AllHandled(v: View, l: Layout, events: seq<(nat, FdEvent)>): (r: View)
    requires |v.items| == |l.addr| && forall i :: 0 <= i < |events| ==> events[i].0 < |v.items|
    ensures |r.items| == |v.items|
  {
    if events == [] then v
    else
      var n := |events| - 1;
      Handled(AllHandled(v, l, events[..n]), l, events[n].0, events[n].1)
  }

  lemma DrainLeavesNothing(m: MultiMap, ts: int)
    requires Sorted(m)
    ensures Sorted(NotDue(m, ts)) && Due(Rearmed(NotDue(m, ts), Due(m, ts), ts), ts) == []
  {
    var rest := NotDue(m, ts);
    forall e | e in rest
      ensures e.0 > ts
    {
    }
    NoneDue(rest, ts);
    NothingDue(rest, Due(m, ts), ts);
  }

  lemma AllItemsInsert(l: Layout, m: MultiMap, t: int, item: int)
    requires Sorted(m) && AllItems(l, m) && item in l.addr
    ensures AllItems(l, Insert(m, t, item))
  {
  }

  lemma AllItemsWithout(l: Layout, m: MultiMap, item: int)
    requires AllItems(l, m)
    ensures AllItems(l, Without(m, item))
  {
    KeepMembers(m, item, ALWAYS);
    forall i | 0 <= i < |Without(m, item)|
      ensures Without(m, item)[i].1 in l.addr
    {
      assert Without(m, item)[i] in m;
    }
  }

  /** The first entry was due at ts; it is gone, and its item has a new one. */
  ghost predicate Fired(m: MultiMap, m': MultiMap, ts: int) {
    && m != [] && m[0].0 <= ts && Sorted(m) && Sorted(m[1..])
    && m' == Insert(m[1..], ts + TIMER_PERIOD, m[0].1)
  }

  /** count entries of m0 have fired; finishing the job from here gives the same result. */
  ghost predicate Draining(m0: MultiMap, m: MultiMap, count: nat, ts: int) {
    && Sorted(m0) && Sorted(m)
    && count <= |Due(m0, ts)| && Due(m0, ts)[count..] == Due(m, ts)
    && Sorted(NotDue(m0, ts)) && Sorted(NotDue(m, ts))
    && Rearmed(NotDue(m, ts), Due(m, ts), ts) == Rearmed(NotDue(m0, ts), Due(m0, ts), ts)
  }

  /** Callbacks open and close nothing, and touch only the connections they run for. */
  ghost predicate Spared(before: Table, after: Table, fired: seq<nat>) {
    && |before| == |after|
    && (forall f :: 0 <= f < |before| ==> after[f].registered == before[f].registered)
    && (forall f :: 0 <= f < |before| && f !in fired ==> after[f] == before[f])
  }

  lemma SparedTwice(a: Table, b: Table, c: Table, first: seq<nat>, second: seq<nat>)
    requires Spared(a, b, first) && Spared(b, c, second)
    ensures Spared(a, c, first + second)
  {
  }

  /** The callbacks ran for the items of the first entries, in that order. */
  ghost predicate Belong(l: Layout, due: MultiMap, fired: seq<nat>) {
    && |fired| <= |due|
    && forall i :: 0 <= i < |fired| ==> fired[i] < |l.addr| && l.addr[fired[i]] == due[i].1
  }

  lemma DrainingStarts(m0: MultiMap, ts: int)
    requires Sorted(m0)
    ensures Draining(m0, m0, 0, ts)
  {
    assert Due(m0, ts)[0..] == Due(m0, ts);
  }

  lemma DrainingEnds(m0: MultiMap, m: MultiMap, count: nat, ts: int)
    requires Draining(m0, m, count, ts) && Due(m, ts) == []
    ensures count == |Due(m0, ts)| && m == Rearmed(NotDue(m0, ts), Due(m0, ts), ts)
    ensures multiset(m) == multiset(NotDue(m0, ts)) + multiset(Retimed(Due(m0, ts), ts + 10_000))
  {
    RearmedIs(NotDue(m0, ts), Due(m0, ts), ts);
    assert NotDue(m, ts) == m;
  }

  lemma DrainingGoesOn(m0: MultiMap, m: MultiMap, m': MultiMap, count: nat, ts: int)
    requires Draining(m0, m, count, ts) && Fired(m, m', ts)
    ensures count < |Due(m0, ts)| && Due(m0, ts)[count] == m[0]
    ensures Draining(m0, m', count + 1, ts) && |Due(m', ts)| < |Due(m, ts)|
  {
    DueOfRearmed(m, ts, m[0].1);
    assert Due(m0, ts)[count..][1..] == Due(m0, ts)[count + 1..];
    assert Due(m, ts)[1..] == Due(m', ts);
  }

  /** The fd field of the item at an address. */
  method FdOf(l: Layout, item: int) returns (fd: nat)
    requires item in l.addr
    ensures fd < |l.addr| && l.addr[fd] == item
  {
    fd :| fd < |l.addr| && l.addr[fd] == item;
  }

  /** Whatever write returns for what is left of a round. */
  method WriteResult(it: FdItem) returns (len: int)
    requires it.sended < PRESEND
    ensures CanWrite(it, len)
  {
    len :| -1 <= len <= PRESEND - it.sended;
  }

  lemma NoneDue(m: MultiMap, ts: int)
    requires Sorted(m) && forall e :: e in m ==> e.0 > ts
    ensures Due(m, ts) == [] && NotDue(m, ts) == m
  {
    if m != [] {
      assert m[0] in m;
    }
  }

  // ---------------------------------------------------------------------------------
  // All workers over one table of connections
  // ---------------------------------------------------------------------------------

  /** owned[i]: the open connections that were handed to worker i. */
  datatype World = World(items: Table, timers: seq<MultiMap>, owned: seq<set<nat>>)

  datatype Step =
    | Opens(i: nat, fd: nat, now: int)
    | Handles(i: nat, fd: nat, ev: FdEvent)
    | Drains(i: nat, ts: int, after: Table, fired: seq<nat>)

  ghost predicate Shape(l: Layout, w: World) {
    && |w.timers| == |w.owned| && |w.items| == |l.addr|
    && forall i :: 0 <= i < |w.timers| ==> Sorted(w.timers[i])
  }

  ghost predicate Enabled(l: Layout, w: World, s: Step)
    requires Shape(l, w)
  {
    && s.i < |w.timers|
    && match s
       case Opens(i, fd, now) => fd < |w.items| && !w.items[fd].registered
       case Handles(i, fd, ev) => fd in w.owned[i] && fd < |w.items| && CanWrite(w.items[fd], ev.wrote)
       case Drains(i, ts, after, fired) =>
         && Belong(l, Due(w.timers[i], ts), fired) && |fired| == |Due(w.timers[i], ts)|
         && Spared(w.items, after, fired)
         && forall f :: 0 <= f < |after| ==> after[f].sended < PRESEND
  }

  ghost function Next(l: Layout, w: World, s: Step): World
    requires Shape(l, w) && Enabled(l, w, s)
  {
    match s
    case Opens(i, fd, now) =>
      var v := Registered(View(w.items, w.timers[i]), l, fd, now);
      World(v.items, w.timers[i := v.timers], w.owned[i := w.owned[i] + {fd}])
    case Handles(i, fd, ev) =>
      var v := Handled(View(w.items, w.timers[i]), l, fd, ev);
      World(v.items, w.timers[i := v.timers],
            if AfterEvent(w.items[fd], ev).activeClose then w.owned[i := w.owned[i] - {fd}] else w.owned)
    case Drains(i, ts, after, fired) =>
      DueIsSorted(w.timers[i], ts);
      World(after, w.timers[i := Rearmed(NotDue(w.timers[i], ts), Due(w.timers[i], ts), ts)], w.owned)
  }

  lemma DueIsSorted(m: MultiMap, ts: int)
    requires Sorted(m)
    ensures Sorted(Due(m, ts)) && Sorted(NotDue(m, ts))
    ensures forall e :: e in Due(m, ts) ==> e.0 <= ts
    ensures forall e :: e in NotDue(m, ts) ==> e.0 > ts
  {
  }

  ghost predicate HasOwner(w: World, fd: nat) {
    exists i :: 0 <= i < |w.owned| && fd in w.owned[i]
  }

  ghost predicate WorldInv(l: Layout, w: World) {
    && Shape(l, w)
    && (forall i :: 0 <= i < |w.timers| ==> WorkerInv(l, View(w.items, w.timers[i]), w.owned[i]))
    && (forall i, j :: 0 <= i < j < |w.owned| ==> w.owned[i] !! w.owned[j])
    && (forall fd :: 0 <= fd < |w.items| && w.items[fd].registered ==> HasOwner(w, fd))
  }

  /** Another worker does not see a change to a connection it does not own. */
  lemma Undisturbed(l: Layout, items: Table, after: Table, m: MultiMap, mine: set<nat>)
    requires WorkerInv(l, View(items, m), mine) && |after| == |items|
    requires forall f :: f in mine && f < |items| ==> after[f].registered
    requires forall f :: 0 <= f < |after| ==> after[f].sended < PRESEND
    ensures WorkerInv(l, View(after, m), mine)
  {
  }

  lemma ClosedIsNotOwned(l: Layout, w: World, fd: nat)
    requires WorldInv(l, w) && fd < |w.items| && !w.items[fd].registered
    ensures forall j :: 0 <= j < |w.owned| ==> fd !in w.owned[j]
  {
    forall j | 0 <= j < |w.owned|
      ensures fd !in w.owned[j]
    {
      assert WorkerInv(l, View(w.items, w.timers[j]), w.owned[j]);
    }
  }

  lemma OpensWorkers(l: Layout, w: World, s: Step)
    requires WorldInv(l, w) && Enabled(l, w, s) && s.Opens?
    ensures var w' := Next(l, w, s);
            forall j :: 0 <= j < |w'.timers| ==> WorkerInv(l, View(w'.items, w'.timers[j]), w'.owned[j])
  {
    var w' := Next(l, w, s);
    ClosedIsNotOwned(l, w, s.fd);
    forall j | 0 <= j < |w'.timers|
      ensures WorkerInv(l, View(w'.items, w'.timers[j]), w'.owned[j])
    {
      if j != s.i {
        Undisturbed(l, w.items, w'.items, w.timers[j], w.owned[j]);
      } else {
        RegisterInv(l, View(w.items, w.timers[s.i]), w.owned[s.i], s.fd, s.now);
      }
    }
  }

  lemma OpensOwners(l: Layout, w: World, s: Step)
    requires WorldInv(l, w) && Enabled(l, w, s) && s.Opens?
    ensures var w' := Next(l, w, s);
            && (forall i, j :: 0 <= i < j < |w'.owned| ==> w'.owned[i] !! w'.owned[j])
            && (forall fd :: 0 <= fd < |w'.items| && w'.items[fd].registered ==> HasOwner(w', fd))
  {
    var w' := Next(l, w, s);
    ClosedIsNotOwned(l, w, s.fd);
    OwnersKept(w, w', s.fd, s.i);
    assert HasOwner(w', s.fd) by { assert s.fd in w'.owned[s.i]; }
  }

  lemma OpensInv(l: Layout, w: World, s: Step)
    requires WorldInv(l, w) && Enabled(l, w, s) && s.Opens?
    ensures WorldInv(l, Next(l, w, s))
  {
    OpensOwners(l, w, s);
    OpensWorkers(l, w, s);
    InsertIs(w.timers[s.i], s.now + TIMER_PERIOD, l.addr[s.fd]);
  }

  /** Changing who owns fd at one worker changes no other connection's owner. */
  lemma OwnersKept(w: World, w': World, fd: nat, i: nat)
    requires |w'.owned| == |w.owned| && i < |w.owned|
    requires forall j :: 0 <= j < |w.owned| && j != i ==> w'.owned[j] == w.owned[j]
    requires w.owned[i] - {fd} <= w'.owned[i]
    ensures forall f :: f != fd && HasOwner(w, f) ==> HasOwner(w', f)
  {
    forall f | f != fd && HasOwner(w, f)
      ensures HasOwner(w', f)
    {
      var j :| 0 <= j < |w.owned| && f in w.owned[j];
      assert f in w'.owned[j];
    }
  }

  lemma HandlesOther(l: Layout, items: Table, after: Table, m: MultiMap, mine: set<nat>, fd: nat)
    requires WorkerInv(l, View(items, m), mine) && fd < |items| && fd !in mine
    requires |after| == |items| && after == items[fd := after[fd]] && after[fd].sended < PRESEND
    ensures WorkerInv(l, View(after, m), mine)
  {
    Undisturbed(l, items, after, m, mine);
  }

  lemma HandledInRange(v: View, l: Layout, fd: nat, ev: FdEvent)
    requires fd < |v.items| == |l.addr| && v.items[fd].sended < PRESEND && CanWrite(v.items[fd], ev.wrote)
    ensures var items := Handled(v, l, fd, ev).items; items == v.items[fd := items[fd]] && items[fd].sended < PRESEND
  {
    AfterEventInRange(v.items[fd], ev);
  }

  lemma HandlesWorkers(l: Layout, w: World, s: Step)
    requires WorldInv(l, w) && Enabled(l, w, s) && s.Handles?
    ensures var w' := Next(l, w, s);
            forall j :: 0 <= j < |w'.timers| ==> WorkerInv(l, View(w'.items, w'.timers[j]), w'.owned[j])
  {
    hide AfterEvent, Without;
    var w' := Next(l, w, s);
    HandleInv(l, View(w.items, w.timers[s.i]), w.owned[s.i], s.fd, s.ev);
    HandledInRange(View(w.items, w.timers[s.i]), l, s.fd, s.ev);
    forall j | 0 <= j < |w'.timers|
      ensures WorkerInv(l, View(w'.items, w'.timers[j]), w'.owned[j])
    {
      if j != s.i {
        assert s.fd !in w.owned[j];
        HandlesOther(l, w.items, w'.items, w.timers[j], w.owned[j], s.fd);
      }
    }
  }

  lemma HandlesOwners(l: Layout, w: World, s: Step)
    requires WorldInv(l, w) && Enabled(l, w, s) && s.Handles?
    ensures var w' := Next(l, w, s);
            forall fd :: 0 <= fd < |w'.items| && w'.items[fd].registered ==> HasOwner(w', fd)
  {
    hide WorkerInv;
    var w' := Next(l, w, s);
    OwnersKept(w, w', s.fd, s.i);
    if !AfterEvent(w.items[s.fd], s.ev).activeClose {
      assert HasOwner(w', s.fd) by { assert s.fd in w'.owned[s.i]; }
    }
  }

  lemma HandlesDisjoint(l: Layout, w: World, s: Step)
    requires WorldInv(l, w) && Enabled(l, w, s) && s.Handles?
    ensures var w' := Next(l, w, s);
            forall i, j :: 0 <= i < j < |w'.owned| ==> w'.owned[i] !! w'.owned[j]
  {
    hide WorkerInv;
  }

  lemma HandlesInv(l: Layout, w: World, s: Step)
    requires WorldInv(l, w) && Enabled(l, w, s) && s.Handles?
    ensures WorldInv(l, Next(l, w, s))
  {
    HandlesWorkers(l, w, s);
    HandlesOwners(l, w, s);
    HandlesDisjoint(l, w, s);
  }

  lemma DrainsInv(l: Layout, w: World, s: Step)
    requires WorldInv(l, w) && Enabled(l, w, s) && s.Drains?
    ensures WorldInv(l, Next(l, w, s))
  {
    var w' := Next(l, w, s);
    DrainInv(l, View(w.items, w.timers[s.i]), w.owned[s.i], s.ts, s.after, s.fired);
    forall j | 0 <= j < |w'.timers|
      ensures WorkerInv(l, View(w'.items, w'.timers[j]), w'.owned[j])
    {
      if j != s.i {
        Undisturbed(l, w.items, w'.items, w.timers[j], w.owned[j]);
      }
    }
    forall fd: nat | HasOwner(w, fd)
      ensures HasOwner(w', fd)
    {
    }
  }

  ghost predicate LegalRun(l: Layout, w: World, steps: seq<Step>)
    requires WorldInv(l, w)
    decreases |steps|
  {
    steps == [] || (Enabled(l, w, steps[0]) && (StepInv(l, w, steps[0]); LegalRun(l, Next(l, w, steps[0]), steps[1..])))
  }

  lemma StepInv(l: Layout, w: World, s: Step)
    requires WorldInv(l, w) && Enabled(l, w, s)
    ensures WorldInv(l, Next(l, w, s))
  {
    match s
    case Opens(_, _, _) => OpensInv(l, w, s);
    case Handles(_, _, _) => HandlesInv(l, w, s);
    case Drains(_, _, _, _) => DrainsInv(l, w, s);
  }

  ghost function After(l: Layout, w: World, steps: seq<Step>): (r: World)
    requires WorldInv(l, w) && LegalRun(l, w, steps)
    ensures WorldInv(l, r)
    decreases |steps|
  {
    if steps == [] then w else (StepInv(l, w, steps[0]); After(l, Next(l, w, steps[0]), steps[1..]))
  }

  /** No connection open, no timer set. */
  ghost predicate Init(l: Layout, w: World) {
    && ValidLayout(l) && |w.items| == |l.addr| && |w.timers| == |w.owned|
    && (forall i :: 0 <= i < |w.timers| ==> w.timers[i] == [] && w.owned[i] == {})
    && (forall f :: 0 <= f < |w.items| ==> w.items[f] == FdItem(false, 0, false))
  }

  lemma InitInv(l: Layout, w: World)
    requires Init(l, w)
    ensures WorldInv(l, w)
  {
  }

  lemma TimersOfWorker(l: Layout, v: View, mine: set<nat>, fd: nat)
    requires WorkerInv(l, v, mine) && fd < |v.items|
    ensures Count(v.timers, l.addr[fd]) == (if fd in mine then 1 else 0)
    ensures fd in mine ==> v.items[fd].registered
  {
    if fd !in mine {
      CountZero(v.timers, l.addr[fd]);
      forall e | e in v.timers
        ensures e.1 != l.addr[fd]
      {
        var f :| f in mine && f < |l.addr| && l.addr[f] == e.1;
      }
    }
  }

  /**
   * At every head of every worker's event loop: an open connection has exactly one timer, in
   * the worker it was handed to and in no other; a closed one has none anywhere.
   */
  lemma OneTimerPerConnection(l: Layout, start: World, steps: seq<Step>, fd: nat, i: nat)
    requires Init(l, start) && WorldInv(l, start) && LegalRun(l, start, steps)
    requires fd < |After(l, start, steps).items| && i < |After(l, start, steps).timers|
    ensures var w := After(l, start, steps);
            && Count(w.timers[i], l.addr[fd]) == (if fd in w.owned[i] then 1 else 0)
            && (w.items[fd].registered <==> HasOwner(w, fd))
            && (forall j :: 0 <= j < |w.owned| && j != i && fd in w.owned[i] ==> fd !in w.owned[j])
  {
    var w := After(l, start, steps);
    forall j | 0 <= j < |w.owned|
      ensures Count(w.timers[j], l.addr[fd]) == (if fd in w.owned[j] then 1 else 0)
      ensures fd in w.owned[j] ==> w.items[fd].registered
    {
      TimersOfWorker(l, View(w.items, w.timers[j]), w.owned[j], fd);
    }
  }

  /** So the timeout callback of a fired entry is always set. */
  lemma FiredCallbackIsSet(l: Layout, start: World, steps: seq<Step>, i: nat, k: nat) returns (fd: nat)
    requires Init(l, start) && WorldInv(l, start) && LegalRun(l, start, steps)
    requires i < |After(l, start, steps).timers| && k < |After(l, start, steps).timers[i]|
    ensures var w := After(l, start, steps);
            fd < |w.items| == |l.addr| && l.addr[fd] == w.timers[i][k].1 && w.items[fd].registered && fd in w.owned[i]
  {
    var w := After(l, start, steps);
    fd := FiredIsOpen(l, View(w.items, w.timers[i]), w.owned[i], k);
  }

  // ---------------------------------------------------------------------------------
  // A pass of the loop as steps
  // ---------------------------------------------------------------------------------

  function Handling(i: nat, events: seq<(nat, FdEvent)>): seq<Step> {
    if events == [] then []
    else
      var n := |events| - 1;
      Handling(i, events[..n]) + [Handles(i, events[n].0, events[n].1)]
  }

  lemma {:induction false} RunSnoc(l: Layout, w: World, steps: seq<Step>, s: Step)
    requires WorldInv(l, w) && LegalRun(l, w, steps) && Enabled(l, After(l, w, steps), s)
    ensures LegalRun(l, w, steps + [s]) && After(l, w, steps + [s]) == Next(l, After(l, w, steps), s)
    decreases |steps|
  {
    hide WorkerInv, Enabled, Next;
    StepInv(l, After(l, w, steps), s);
    var all := steps + [s];
    if steps == [] {
      assert all[1..] == [];
    } else {
      StepInv(l, w, steps[0]);
      assert all[0] == steps[0] && all[1..] == steps[1..] + [s];
      RunSnoc(l, Next(l, w, steps[0]), steps[1..], s);
    }
  }

  /** Events of one epoll_wait: of connections of this worker, each at most once. */
  ghost predicate Reported(w: World, i: nat, events: seq<(nat, FdEvent)>) {
    && i < |w.owned|
    && (forall j :: 0 <= j < |events| ==>
          events[j].0 in w.owned[i] && events[j].0 < |w.items| && CanWrite(w.items[events[j].0], events[j].1.wrote))
    && (forall j, k :: 0 <= j < k < |events| ==> events[j].0 != events[k].0)
  }

  /** r is w after these events: worker i's part of it as AllHandled says, and nothing changed for other connections. */
  ghost predicate AfterHandling(l: Layout, w: World, r: World, i: nat, events: seq<(nat, FdEvent)>)
    requires WorldInv(l, w) && Reported(w, i, events)
  {
    && WorldInv(l, r) && |r.timers| == |w.timers| && |r.items| == |w.items|
    && View(r.items, r.timers[i]) == AllHandled(View(w.items, w.timers[i]), l, events)
    && (forall f :: 0 <= f < |w.items| && (forall j :: 0 <= j < |events| ==> events[j].0 != f) ==>
          r.items[f] == w.items[f] && (f in w.owned[i] ==> f in r.owned[i]))
  }

  /** What a Handles step does to the worker's part of the world and to the other connections. */
  lemma HandledStep(l: Layout, r: World, i: nat, fd: nat, ev: FdEvent)
    requires WorldInv(l, r) && i < |r.owned| && fd in r.owned[i] && fd < |r.items| && CanWrite(r.items[fd], ev.wrote)
    ensures Enabled(l, r, Handles(i, fd, ev))
    ensures var q := Next(l, r, Handles(i, fd, ev));
            && WorldInv(l, q) && |q.timers| == |r.timers| && |q.items| == |r.items| && |q.owned| == |r.owned|
            && View(q.items, q.timers[i]) == Handled(View(r.items, r.timers[i]), l, fd, ev)
            && (forall f :: 0 <= f < |r.items| && f != fd ==> q.items[f] == r.items[f] && (f in r.owned[i] ==> f in q.owned[i]))
  {
    hide WorkerInv;
    StepInv(l, r, Handles(i, fd, ev));
  }

  lemma OneHandled(l: Layout, w: World, r: World, i: nat, events: seq<(nat, FdEvent)>, n: nat)
    requires WorldInv(l, w) && Reported(w, i, events) && n + 1 == |events|
    requires Reported(w, i, events[..n]) && AfterHandling(l, w, r, i, events[..n])
    ensures var s := Handles(i, events[n].0, events[n].1);
            Enabled(l, r, s) && AfterHandling(l, w, Next(l, r, s), i, events)
  {
    hide WorkerInv, Handled, Next, Enabled;
    var fd := events[n].0;
    assert forall j :: 0 <= j < n ==> events[..n][j].0 != fd;
    HandledStep(l, r, i, fd, events[n].1);
    forall f | 0 <= f < |w.items| && (forall j :: 0 <= j < |events| ==> events[j].0 != f)
      ensures r.items[f] == w.items[f] && f != fd && (f in w.owned[i] ==> f in r.owned[i])
    {
      assert forall j :: 0 <= j < n ==> events[..n][j].0 != f;
    }
  }

  lemma HandlingSnoc(l: Layout, w: World, i: nat, events: seq<(nat, FdEvent)>, n: nat)
    requires WorldInv(l, w) && Reported(w, i, events) && n + 1 == |events| && Reported(w, i, events[..n])
    requires LegalRun(l, w, Handling(i, events[..n])) && AfterHandling(l, w, After(l, w, Handling(i, events[..n])), i, events[..n])
    ensures LegalRun(l, w, Handling(i, events)) && AfterHandling(l, w, After(l, w, Handling(i, events)), i, events)
  {
    hide WorldInv, Enabled, Next, AllHandled, AfterHandling, LegalRun, After, Reported;
    var r := After(l, w, Handling(i, events[..n]));
    OneHandled(l, w, r, i, events, n);
    RunSnoc(l, w, Handling(i, events[..n]), Handles(i, events[n].0, events[n].1));
  }

  lemma ReportedBefore(w: World, i: nat, events: seq<(nat, FdEvent)>, n: nat)
    requires Reported(w, i, events) && n <= |events|
    ensures Reported(w, i, events[..n])
  {
  }

  lemma {:induction false} HandlingIsRun(l: Layout, w: World, i: nat, events: seq<(nat, FdEvent)>)
    requires WorldInv(l, w) && Reported(w, i, events)
    ensures LegalRun(l, w, Handling(i, events)) && AfterHandling(l, w, After(l, w, Handling(i, events)), i, events)
    decreases |events|
  {
    if events != [] {
      hide *;
      var n := |events| - 1;
      ReportedBefore(w, i, events, n);
      HandlingIsRun(l, w, i, events[..n]);
      HandlingSnoc(l, w, i, events, n);
    }
  }

  /**
   * A pass of process_event is a run of the state machine: its events are Handles steps and its timer
   * loop is one Drains, whatever the callbacks wrote, and they lead to the same table and timers.
   */
  lemma PassIsSteps(l: Layout, w: World, i: nat, events: seq<(nat, FdEvent)>, ts: int, after: Table, fired: seq<nat>)
    requires WorldInv(l, w) && Reported(w, i, events)
    requires var v := AllHandled(View(w.items, w.timers[i]), l, events);
             && Sorted(v.timers) && Spared(v.items, after, fired)
             && |fired| == |Due(v.timers, ts)| && Belong(l, Due(v.timers, ts), fired)
             && forall f :: 0 <= f < |after| ==> after[f].sended < PRESEND
    ensures var v := AllHandled(View(w.items, w.timers[i]), l, events);
            var steps := Handling(i, events) + [Drains(i, ts, after, fired)];
            && LegalRun(l, w, steps)
            && var r := After(l, w, steps);
               && Sorted(NotDue(v.timers, ts)) && |r.timers| == |w.timers|
               && r.items == after && r.timers[i] == Rearmed(NotDue(v.timers, ts), Due(v.timers, ts), ts)
  {
    hide WorkerInv, Rearmed, Handled, Handling, LegalRun, After;
    HandlingIsRun(l, w, i, events);
    var r := After(l, w, Handling(i, events));
    DueIsSorted(r.timers[i], ts);
    RunSnoc(l, w, Handling(i, events), Drains(i, ts, after, fired));
  }
}
