/**
 * timers.cc: the timer index, two multimaps that must hold the same (time, item) pairs.
 *
 * A multimap is a sequence of (key, value) pairs sorted by key, equal keys in order of
 * insertion. Items are addresses.
 */
module Timers {

  type MultiMap = seq<(int, int)>

  datatype Option<T> = None | Some(value: T)

  const MIN_TIMER := 1000

  ghost predicate Sorted(m: MultiMap) {
    forall i, j :: 0 <= i < j < |m| ==> m[i].0 <= m[j].0
  }

  /** How many keys are below k, or not above it: where lower_bound and upper_bound point. */
  function LowerBound(m: MultiMap, k: int): (n: nat)
    requires Sorted(m)
    ensures n <= |m|
    ensures forall i :: 0 <= i < n ==> m[i].0 < k
    ensures forall i :: n <= i < |m| ==> m[i].0 >= k
  {
    if m == [] || m[0].0 >= k then 0 else 1 + LowerBound(m[1..], k)
  }

  function UpperBound(m: MultiMap, k: int): (n: nat)
    requires Sorted(m)
    ensures n <= |m|
    ensures forall i :: 0 <= i < n ==> m[i].0 <= k
    ensures forall i :: n <= i < |m| ==> m[i].0 > k
    ensures LowerBound(m, k) <= n
  {
    if m == [] || m[0].0 > k then 0 else 1 + UpperBound(m[1..], k)
  }

  lemma {:induction false} BoundsAre(m: MultiMap, k: int, lo: nat, hi: nat)
    requires Sorted(m) && lo <= hi <= |m|
    requires forall i :: 0 <= i < lo ==> m[i].0 < k
    requires forall i :: lo <= i < hi ==> m[i].0 == k
    requires forall i :: hi <= i < |m| ==> m[i].0 > k
    ensures LowerBound(m, k) == lo && UpperBound(m, k) == hi
  {
    if hi > 0 {
      BoundsAre(m[1..], k, if lo > 0 then lo - 1 else 0, hi - 1);
    }
  }

  function Insert(m: MultiMap, k: int, v: int): MultiMap
    requires Sorted(m)
  {
    var n := UpperBound(m, k);
    m[..n] + [(k, v)] + m[n..]
  }

  function Erase(m: MultiMap, n: nat): MultiMap
    requires n < |m|
  {
    m[..n] + m[n + 1..]
  }

  function Swap(p: (int, int)): (int, int) { (p.1, p.0) }

  function Swapped(m: MultiMap): (s: MultiMap)
    ensures |s| == |m| && forall i :: 0 <= i < |m| ==> s[i] == Swap(m[i])
  {
    seq(|m|, i requires 0 <= i < |m| => Swap(m[i]))
  }

  /** The same pairs, the same number of times each. */
  ghost predicate Mirror(a: MultiMap, b: MultiMap) {
    multiset(a) == multiset(Swapped(b))
  }

  lemma MultisetOf(a: MultiMap, x: (int, int), b: MultiMap)
    ensures multiset(a + [x] + b) == multiset(a + b) + multiset{x}
  {
    assert multiset(a + [x]) == multiset(a) + multiset{x};
  }

  lemma InsertSorted(m: MultiMap, k: int, v: int)
    requires Sorted(m)
    ensures Sorted(Insert(m, k, v))
  {
    var n, s := UpperBound(m, k), Insert(m, k, v);
    forall i, j | 0 <= i < j < |s|
      ensures s[i].0 <= s[j].0
    {
      assert s[i] == if i < n then m[i] else if i == n then (k, v) else m[i - 1];
      assert s[j] == if j < n then m[j] else if j == n then (k, v) else m[j - 1];
    }
  }

  lemma InsertAdds(m: MultiMap, n: nat, k: int, v: int)
    requires n <= |m|
    ensures multiset(m[..n] + [(k, v)] + m[n..]) == multiset(m) + multiset{(k, v)}
  {
    MultisetOf(m[..n], (k, v), m[n..]);
    assert m == m[..n] + m[n..];
  }

  lemma InsertIs(m: MultiMap, k: int, v: int)
    requires Sorted(m)
    ensures Sorted(Insert(m, k, v))
    ensures multiset(Insert(m, k, v)) == multiset(m) + multiset{(k, v)}
  {
    InsertSorted(m, k, v);
    InsertAdds(m, UpperBound(m, k), k, v);
  }

  lemma EraseIs(m: MultiMap, n: nat)
    requires n < |m|
    ensures Sorted(m) ==> Sorted(Erase(m, n))
    ensures multiset(m) == multiset(Erase(m, n)) + multiset{m[n]}
    ensures Swapped(Erase(m, n)) == Erase(Swapped(m), n)
  {
    MultisetOf(m[..n], m[n], m[n + 1..]);
    assert m == m[..n] + [m[n]] + m[n + 1..];
  }

  lemma MirrorInsert(a: MultiMap, b: MultiMap, t: int, item: int)
    requires Sorted(a) && Sorted(b) && Mirror(a, b)
    ensures Mirror(Insert(a, t, item), Insert(b, item, t))
  {
    InsertIs(a, t, item);
    SwappedInsert(b, item, t);
  }

  lemma SwappedInsert(b: MultiMap, item: int, t: int)
    requires Sorted(b)
    ensures multiset(Swapped(Insert(b, item, t))) == multiset(Swapped(b)) + multiset{(t, item)}
  {
    var n := UpperBound(b, item);
    var s := Swapped(b);
    assert Swapped(Insert(b, item, t)) == s[..n] + [(t, item)] + s[n..];
    MultisetOf(s[..n], (t, item), s[n..]);
    assert s == s[..n] + s[n..];
  }

  lemma MultisetCancel(a: multiset<(int, int)>, b: multiset<(int, int)>, e: (int, int))
    requires a + multiset{e} == b + multiset{e}
    ensures a == b
  {
    assert a == (a + multiset{e}) - multiset{e};
    assert b == (b + multiset{e}) - multiset{e};
  }

  lemma MirrorErase(a: MultiMap, b: MultiMap, i: nat, j: nat)
    requires Mirror(a, b) && i < |a| && j < |b| && a[i] == Swap(b[j])
    ensures Mirror(Erase(a, i), Erase(b, j))
  {
    EraseIs(a, i);
    EraseIs(b, j);
    EraseIs(Swapped(b), j);
    MultisetCancel(multiset(Erase(a, i)), multiset(Erase(Swapped(b), j)), a[i]);
  }

  /** A pair of one index is found in the other, between the bounds of its key. */
  lemma MirrorFinds(a: MultiMap, b: MultiMap, i: nat) returns (j: nat)
    requires Sorted(b) && Mirror(a, b) && i < |a|
    ensures LowerBound(b, a[i].1) <= j < UpperBound(b, a[i].1) && b[j] == Swap(a[i])
  {
    assert a[i] in multiset(Swapped(b));
    j :| 0 <= j < |b| && Swapped(b)[j] == a[i];
  }

  // ---------------------------------------------------------------------------------
  // Filters
  // ---------------------------------------------------------------------------------

  /** m without item's entries at the given times. */
  ghost function Keep(m: MultiMap, item: int, times: iset<int>): MultiMap {
    if m == [] then []
    else (if m[0].1 == item && m[0].0 in times then [] else [m[0]]) + Keep(m[1..], item, times)
  }

  lemma Reassociate(x: MultiMap, y: MultiMap, z: MultiMap)
    ensures x + (y + z) == (x + y) + z
  {
  }

  lemma {:induction false} KeepConcat(a: MultiMap, b: MultiMap, item: int, times: iset<int>)
    ensures Keep(a + b, item, times) == Keep(a, item, times) + Keep(b, item, times)
  {
    if a == [] {
      assert a + b == b;
    } else {
      assert (a + b)[0] == a[0] && (a + b)[1..] == a[1..] + b;
      KeepConcat(a[1..], b, item, times);
      var first := if a[0].1 == item && a[0].0 in times then [] else [a[0]];
      Reassociate(first, Keep(a[1..], item, times), Keep(b, item, times));
    }
  }

  lemma {:induction false} KeepAll(m: MultiMap, item: int, times: iset<int>)
    requires forall i :: 0 <= i < |m| ==> m[i].1 != item || m[i].0 !in times
    ensures Keep(m, item, times) == m
  {
    if m != [] {
      KeepAll(m[1..], item, times);
    }
  }

  lemma {:induction false} KeepTwice(m: MultiMap, item: int, first: iset<int>, second: iset<int>)
    ensures Keep(Keep(m, item, first), item, second) == Keep(m, item, first + second)
  {
    if m != [] {
      var head := if m[0].1 == item && m[0].0 in first then [] else [m[0]];
      KeepConcat(head, Keep(m[1..], item, first), item, second);
      KeepTwice(m[1..], item, first, second);
      if head != [] {
        assert head[1..] == [];
      }
    }
  }

  lemma {:induction false} KeepSame(m: MultiMap, item: int, some: iset<int>, others: iset<int>)
    requires forall i :: 0 <= i < |m| && m[i].1 == item ==> (m[i].0 in some <==> m[i].0 in others)
    ensures Keep(m, item, some) == Keep(m, item, others)
  {
    if m != [] {
      KeepSame(m[1..], item, some, others);
    }
  }

  lemma {:induction false} KeepMembers(m: MultiMap, item: int, times: iset<int>)
    ensures forall e :: e in Keep(m, item, times) <==> (e in m && !(e.1 == item && e.0 in times))
    ensures forall e :: multiset(Keep(m, item, times))[e] == if e.1 == item && e.0 in times then 0 else multiset(m)[e]
  {
    if m != [] {
      KeepMembers(m[1..], item, times);
      assert m == [m[0]] + m[1..];
    }
  }

  lemma {:induction false} KeepSorted(m: MultiMap, item: int, times: iset<int>)
    requires Sorted(m)
    ensures Sorted(Keep(m, item, times))
  {
    if m != [] {
      KeepSorted(m[1..], item, times);
      KeepMembers(m[1..], item, times);
      var rest := Keep(m[1..], item, times);
      forall j | 0 <= j < |rest|
        ensures m[0].0 <= rest[j].0
      {
        assert rest[j] in m[1..];
      }
    }
  }

  ghost const ALWAYS: iset<int> := iset t: int | true

  /** The pairs of m that do not belong to item. */
  ghost function Without(m: MultiMap, item: int): MultiMap {
    Keep(m, item, ALWAYS)
  }

  lemma {:induction false} KeepStep(m: MultiMap, n: nat, item: int, times: iset<int>)
    requires n < |m|
    ensures Keep(m[..n + 1], item, times) ==
            Keep(m[..n], item, times) + if m[n].1 == item && m[n].0 in times then [] else [m[n]]
  {
    assert m[..n + 1] == m[..n] + [m[n]];
    KeepConcat(m[..n], [m[n]], item, times);
    assert [m[n]][1..] == [];
  }

  /** Keeping the same pairs of the same pairs. */
  lemma KeepMirror(a: MultiMap, s: MultiMap, item: int)
    requires multiset(a) == multiset(s)
    ensures multiset(Without(a, item)) == multiset(Without(s, item))
  {
    KeepMembers(a, item, ALWAYS);
    KeepMembers(s, item, ALWAYS);
  }

  lemma WithoutRange(x: MultiMap, y: MultiMap, z: MultiMap, item: int)
    requires forall i :: 0 <= i < |x| ==> x[i].1 != item
    requires forall i :: 0 <= i < |y| ==> y[i].1 == item
    requires forall i :: 0 <= i < |z| ==> z[i].1 != item
    ensures Without(x + y + z, item) == x + z
  {
    KeepConcat(x + y, z, item, ALWAYS);
    KeepConcat(x, y, item, ALWAYS);
    KeepAll(x, item, ALWAYS);
    KeepAll(z, item, ALWAYS);
    KeepNone(y, item);
    assert x + [] == x;
  }

  lemma SwappedWithout(b: MultiMap, item: int, lo: nat, hi: nat)
    requires Sorted(b) && lo == LowerBound(b, item) && hi == UpperBound(b, item)
    ensures Without(Swapped(b), item) == Swapped(b)[..lo] + Swapped(b)[hi..]
  {
    var s := Swapped(b);
    var x, y, z := s[..lo], s[lo..hi], s[hi..];
    assert s == x + y + z;
    WithoutRange(x, y, z, item);
  }

  /** Dropping a key's whole range from one index mirrors dropping that item from the other. */
  lemma MirrorWithout(a: MultiMap, b: MultiMap, item: int)
    requires Sorted(b) && Mirror(a, b)
    ensures Mirror(Without(a, item), b[..LowerBound(b, item)] + b[UpperBound(b, item)..])
  {
    var lo, hi := LowerBound(b, item), UpperBound(b, item);
    KeepMirror(a, Swapped(b), item);
    SwappedWithout(b, item, lo, hi);
    SwappedParts(b, lo, hi);
  }

  lemma SwappedParts(b: MultiMap, lo: nat, hi: nat)
    requires lo <= hi <= |b|
    ensures Swapped(b[..lo] + b[hi..]) == Swapped(b)[..lo] + Swapped(b)[hi..]
  {
  }

  lemma {:induction false} KeepNone(m: MultiMap, item: int)
    requires forall i :: 0 <= i < |m| ==> m[i].1 == item
    ensures Keep(m, item, ALWAYS) == []
  {
    if m != [] {
      KeepNone(m[1..], item);
    }
  }

  // ---------------------------------------------------------------------------------
  // The loops of remove_timer
  // ---------------------------------------------------------------------------------

  /** The first done pairs of before have been looked at; iter points behind those that stay. */
  ghost predicate Erasing(before: MultiMap, done: nat, m: MultiMap, iter: nat, t: int, item: int) {
    && done <= |before|
    && iter == |Keep(before[..done], item, iset{t})|
    && m == Keep(before[..done], item, iset{t}) + before[done..]
    && Sorted(m) && LowerBound(m, t) <= iter <= UpperBound(m, t)
  }

  lemma ErasingStarts(before: MultiMap, t: int, item: int)
    requires Sorted(before)
    ensures Erasing(before, LowerBound(before, t), before, LowerBound(before, t), t, item)
  {
    var n := LowerBound(before, t);
    KeepAll(before[..n], item, iset{t});
    assert before == before[..n] + before[n..];
  }

  lemma ErasingGoesOn(before: MultiMap, done: nat, m: MultiMap, iter: nat, t: int, item: int)
    requires Erasing(before, done, m, iter, t, item) && iter != UpperBound(m, t)
    ensures done < |before| && iter < |m|
    ensures if m[iter].1 == item then Erasing(before, done + 1, Erase(m, iter), iter, t, item)
            else Erasing(before, done + 1, m, iter + 1, t, item)
  {
    var kept := Keep(before[..done], item, iset{t});
    assert before[done..] == [before[done]] + before[done + 1..];
    assert m[iter] == before[done] && before[done].0 == t;
    KeepStep(before, done, item, iset{t});
    if m[iter].1 == item {
      EraseMiddle(kept, before[done], before[done + 1..]);
      EraseBounds(m, t, iter);
    } else {
      assert m == (kept + [before[done]]) + before[done + 1..];
    }
  }

  lemma EraseBounds(m: MultiMap, t: int, n: nat)
    requires Sorted(m) && LowerBound(m, t) <= n < UpperBound(m, t)
    ensures Sorted(Erase(m, n))
    ensures LowerBound(Erase(m, n), t) == LowerBound(m, t) && UpperBound(Erase(m, n), t) == UpperBound(m, t) - 1
  {
    BoundsAre(Erase(m, n), t, LowerBound(m, t), UpperBound(m, t) - 1);
  }

  lemma EraseMiddle(x: MultiMap, e: (int, int), y: MultiMap)
    ensures Erase(x + ([e] + y), |x|) == x + y
  {
  }

  lemma ErasingEnds(before: MultiMap, done: nat, m: MultiMap, iter: nat, t: int, item: int)
    requires Erasing(before, done, m, iter, t, item) && iter == UpperBound(m, t)
    ensures m == Keep(before, item, iset{t})
  {
    assert m[iter..] == before[done..];
    KeepAll(m[iter..], item, iset{t});
    KeepConcat(before[..done], before[done..], item, iset{t});
    assert before == before[..done] + before[done..];
  }

  lemma BoundsOf(a0: MultiMap, item: int, lo: nat)
    requires Sorted(a0) && lo == LowerBound(a0, item)
    ensures Removing(a0, lo, a0, iset{}, item)
  {
    assert a0 == a0[..lo] + a0[lo..];
  }

  /** Of item's range in a0, the pairs before next are gone, and their times are known. */
  ghost predicate Removing(a0: MultiMap, next: nat, a: MultiMap, times: iset<int>, item: int) {
    && Sorted(a0) && Sorted(a)
    && LowerBound(a0, item) <= next <= UpperBound(a0, item)
    && a == a0[..LowerBound(a0, item)] + a0[next..]
    && UpperBound(a, item) == LowerBound(a0, item) + (UpperBound(a0, item) - next)
    && (forall j :: LowerBound(a0, item) <= j < next ==> a0[j].1 in times)
  }

  lemma RemovingGoesOn(a0: MultiMap, next: nat, a: MultiMap, times: iset<int>, item: int)
    requires Removing(a0, next, a, times, item) && LowerBound(a0, item) != UpperBound(a, item)
    ensures var lo := LowerBound(a0, item);
            && next < UpperBound(a0, item) && lo < |a|
            && Removing(a0, next + 1, Erase(a, lo), times + iset{a[lo].1}, item)
  {
    var lo, hi := LowerBound(a0, item), UpperBound(a0, item);
    assert a[lo] == a0[next];
    assert Erase(a, lo) == a0[..lo] + a0[next + 1..];
    BoundsAre(a, item, lo, lo + (hi - next));
    EraseBounds(a, item, lo);
  }

  lemma RemovedAll(t0: MultiMap, a0: MultiMap, next: nat, a: MultiMap, times: iset<int>, item: int)
    requires Mirror(t0, a0) && Removing(a0, next, a, times, item) && next == UpperBound(a0, item)
    ensures Keep(t0, item, times) == Without(t0, item)
  {
    forall i | 0 <= i < |t0| && t0[i].1 == item
      ensures t0[i].0 in times
    {
      var j := MirrorFinds(t0, a0, i);
    }
    KeepSame(t0, item, times, ALWAYS);
  }

  lemma RemovingEnds(t0: MultiMap, a0: MultiMap, next: nat, a: MultiMap, times: iset<int>, item: int)
    requires Mirror(t0, a0) && Sorted(t0)
    requires Removing(a0, next, a, times, item) && LowerBound(a0, item) == UpperBound(a, item)
    ensures Keep(t0, item, times) == Without(t0, item) && Mirror(Without(t0, item), a)
  {
    RemovedAll(t0, a0, next, a, times, item);
    MirrorWithout(t0, a0, item);
  }

  // ---------------------------------------------------------------------------------
  // timers.cc
  // ---------------------------------------------------------------------------------

  class Timer {
    var timeArg: MultiMap
    var argTime: MultiMap

    ghost predicate Valid()
      reads this
    {
      Sorted(timeArg) && Sorted(argTime) && Mirror(timeArg, argTime)
    }

    constructor ()
      ensures Valid() && timeArg == []
    {
      timeArg, argTime := [], [];
      new;
      assert Swapped(argTime) == [];
    }

    method AddTimer(item: int, timeStamp: int)
      requires Valid()
      modifies this
      ensures Valid() && timeArg == Insert(old(timeArg), timeStamp, item)
      ensures exists n ::
                && 0 <= n <= |old(timeArg)| && timeArg == old(timeArg)[..n] + [(timeStamp, item)] + old(timeArg)[n..]
                && (forall i :: 0 <= i < n ==> old(timeArg)[i].0 <= timeStamp)
                && (forall i :: n <= i < |old(timeArg)| ==> timeStamp < old(timeArg)[i].0)
    {
      assert old(timeArg) == timeArg;
      ghost var n := UpperBound(timeArg, timeStamp);
      InsertIs(timeArg, timeStamp, item);
      InsertIs(argTime, item, timeStamp);
      MirrorInsert(timeArg, argTime, timeStamp, item);
      timeArg := Insert(timeArg, timeStamp, item);
      argTime := Insert(argTime, item, timeStamp);
    }

    /** The earliest entry if it is due, removed from both indexes; of equal times the one added first. */
    method GetTimer(timeStamp: int) returns (item: Option<int>)
      requires Valid()
      modifies this
      ensures Valid()
      ensures item.None? <==> forall e :: e in old(timeArg) ==> e.0 > timeStamp
      ensures item.None? ==> timeArg == old(timeArg) && argTime == old(argTime)
      ensures item.Some? ==>
                && old(timeArg) != [] && item.value == old(timeArg)[0].1
                && timeArg == old(timeArg)[1..]
                && forall e :: e in old(timeArg) ==> old(timeArg)[0].0 <= e.0
    {
      if timeArg == [] {
        return None;
      }
      var t, fditem := timeArg[0].0, timeArg[0].1;
      if t > timeStamp {
        return None;
      }
      ghost var before := timeArg;
      ghost var at := MirrorFinds(timeArg, argTime, 0);
      timeArg := Erase(timeArg, 0);
      assert timeArg == before[1..];
      var pos := LowerBound(argTime, fditem);
      while pos != UpperBound(argTime, fditem)
        invariant LowerBound(argTime, fditem) <= pos <= at
        invariant argTime == old(argTime) && timeArg == before[1..]
        decreases UpperBound(argTime, fditem) - pos
      {
        if argTime[pos].1 == t {
          MirrorErase(before, argTime, 0, pos);
          EraseIs(argTime, pos);
          EraseIs(before, 0);
          argTime := Erase(argTime, pos);
          return Some(fditem);
        }
        pos := pos + 1;
      }
      assert false;
    }

    /** The inner loop of remove_timer: all of item's entries at time t leave the time index. */
    method EraseAt(t: int, item: int)
      requires Sorted(timeArg)
      modifies this`timeArg
      ensures timeArg == Keep(old(timeArg), item, iset{t}) && Sorted(timeArg)
    {
      ghost var before := timeArg;
      var iter: nat := LowerBound(timeArg, t);
      ghost var done: nat := iter;
      ErasingStarts(before, t, item);
      while iter != UpperBound(timeArg, t)
        invariant Erasing(before, done, timeArg, iter, t, item)
        decreases |before| - done
      {
        ErasingGoesOn(before, done, timeArg, iter, t, item);
        if timeArg[iter].1 == item {
          timeArg := Erase(timeArg, iter);
        } else {
          iter := iter + 1;
        }
        done := done + 1;
      }
      ErasingEnds(before, done, timeArg, iter, t, item);
    }

    /** All of item's entries leave both indexes, and nothing else does. */
    method RemoveTimer(item: int)
      requires Valid()
      modifies this
      ensures Valid() && timeArg == Without(old(timeArg), item)
    {
      ghost var t0, a0 := timeArg, argTime;
      var pos := LowerBound(argTime, item);
      ghost var next: nat, times: iset<int> := pos, iset{};
      KeepAll(t0, item, times);
      BoundsOf(a0, item, pos);
      while pos != UpperBound(argTime, item)
        invariant pos == LowerBound(a0, item) && Removing(a0, next, argTime, times, item)
        invariant timeArg == Keep(t0, item, times) && Sorted(timeArg)
        decreases UpperBound(a0, item) - next
      {
        RemovingGoesOn(a0, next, argTime, times, item);
        var t := argTime[pos].1;
        EraseAt(t, item);
        KeepTwice(t0, item, times, iset{t});
        times := times + iset{t};
        argTime := Erase(argTime, pos);
        next := next + 1;
      }
      RemovingEnds(t0, a0, next, argTime, times, item);
    }

    /** How long epoll_wait may sleep: until the earliest entry, or not at all when one is due. */
    method GetMinTimer(now: int) returns (wait: int)
      requires Valid()
      ensures timeArg == [] ==> wait == 1000
      ensures timeArg != [] ==>
                && wait >= 0
                && (wait == 0 <==> exists e :: e in timeArg && e.0 <= now)
                && (wait > 0 ==> (exists e :: e in timeArg && e.0 == now + wait) && forall e :: e in timeArg ==> e.0 >= now + wait)
    {
      if |timeArg| == 0 {
        return MIN_TIMER;
      }
      var t := now - timeArg[0].0;
      assert timeArg[0] in timeArg;
      if t >= 0 {
        return 0;
      }
      return -t;
    }
  }
}
