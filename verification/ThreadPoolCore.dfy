/**
 * The pool object of threadpool.c: the fields guarded by its mutex, what each critical
 * section does to them, and the ring buffer that refines a queue.
 */
module ThreadPoolCore {

  const MAX_THREADS := 64
  const MAX_QUEUE := 65536

  const INVALID := -1
  const LOCK_FAILURE := -2
  const QUEUE_FULL := -3
  const SHUTDOWN := -4

  /** A function pointer (0 is NULL) and its argument. */
  datatype Task = Task(fn: nat, argument: int)

  datatype Mode = Open | Immediate | Graceful

  // ---------------------------------------------------------------------------------
  // The ring
  // ---------------------------------------------------------------------------------

  datatype Ring = Ring(queue: seq<Task>, head: nat, tail: nat, count: nat)

  function Wrap(i: nat, size: nat): nat
    requires i < 2 * size
  {
    if i < size then i else i - size
  }

  predicate ValidRing(r: Ring) {
    && r.head < |r.queue| && r.tail < |r.queue| && r.count <= |r.queue|
    && r.tail == Wrap(r.head + r.count, |r.queue|)
  }

  /** The pending tasks, oldest first. */
  function Pending(r: Ring): (s: seq<Task>)
    requires ValidRing(r)
    ensures |s| == r.count
  {
    seq(r.count, i requires 0 <= i < r.count => r.queue[Wrap(r.head + i, |r.queue|)])
  }

  function Put(r: Ring, t: Task): Ring
    requires ValidRing(r) && r.count < |r.queue|
  {
    var next := r.tail + 1;
    Ring(r.queue[r.tail := t], r.head, if next == |r.queue| then 0 else next, r.count + 1)
  }

  function Dropped(r: Ring): Ring
    requires ValidRing(r) && r.count > 0
  {
    var next := r.head + 1;
    r.(head := if next == |r.queue| then 0 else next, count := r.count - 1)
  }

  lemma PutAppends(r: Ring, t: Task)
    requires ValidRing(r) && r.count < |r.queue|
    ensures ValidRing(Put(r, t)) && Pending(Put(r, t)) == Pending(r) + [t]
  {
    var p, s := Put(r, t), Pending(r) + [t];
    forall i | 0 <= i < p.count
      ensures Pending(p)[i] == s[i]
    {
      assert Pending(p)[i] == p.queue[Wrap(r.head + i, |r.queue|)];
    }
  }

  lemma DropTakesFirst(r: Ring)
    requires ValidRing(r) && r.count > 0
    ensures ValidRing(Dropped(r)) && Pending(r) == [r.queue[r.head]] + Pending(Dropped(r))
  {
    var d := Dropped(r);
    var s := [r.queue[r.head]] + Pending(d);
    forall i | 0 <= i < r.count
      ensures Pending(r)[i] == s[i]
    {
      assert Pending(r)[i] == r.queue[Wrap(r.head + i, |r.queue|)];
      if i > 0 {
        assert s[i] == Pending(d)[i - 1] == r.queue[Wrap(d.head + (i - 1), |r.queue|)];
      }
    }
  }

  // ---------------------------------------------------------------------------------
  // The critical sections
  // ---------------------------------------------------------------------------------

  datatype Core = Core(ring: Ring, mode: Mode, started: nat)

  /** What a worker that holds the lock decides between its loop test and taking a task. */
  datatype Verdict = MustWait | MustExit | MustRun(task: Task)

  function AddError(c: Core): int {
    if c.ring.count == |c.ring.queue| then QUEUE_FULL
    else if !c.mode.Open? then SHUTDOWN
    else 0
  }

  function Added(c: Core, t: Task): Core
    requires ValidRing(c.ring)
  {
    if AddError(c) == 0 then c.(ring := Put(c.ring, t)) else c
  }

  function Decide(c: Core): Verdict
    requires ValidRing(c.ring)
  {
    if c.ring.count == 0 && c.mode.Open? then MustWait
    else if c.mode.Immediate? || (c.mode.Graceful? && c.ring.count == 0) then MustExit
    else MustRun(c.ring.queue[c.ring.head])
  }

  function Decided(c: Core): Core
    requires ValidRing(c.ring) && (Decide(c).MustExit? ==> c.started > 0)
  {
    match Decide(c)
    case MustWait => c
    case MustExit => c.(started := c.started - 1)
    case MustRun(_) => c.(ring := Dropped(c.ring))
  }

  function ShutDown(c: Core, graceful: bool): Core {
    if c.mode.Open? then c.(mode := if graceful then Graceful else Immediate) else c
  }

  // ---------------------------------------------------------------------------------
  // threadpool.c
  // ---------------------------------------------------------------------------------

  class ThreadPool {
    const queue: array<Task>
    var threadCount: nat
    var head: nat
    var tail: nat
    var count: nat
    var mode: Mode
    var started: nat

    ghost function State(): Core
      reads this, queue
    {
      Core(Ring(queue[..], head, tail, count), mode, started)
    }

    ghost predicate Valid()
      reads this, queue
    {
      ValidRing(State().ring)
    }

    constructor (queueSize: nat)
      requires 0 < queueSize
      ensures Valid() && fresh(queue) && queue.Length == queueSize && threadCount == started == 0
      ensures Pending(State().ring) == [] && mode == Open
    {
      queue := new Task[queueSize](_ => Task(0, 0));
      threadCount, head, tail, count, mode, started := 0, 0, 0, 0, Open, 0;
    }

    /**
     * threadpool_create. memory says whether every allocation and initialisation succeeds, threads how
     * many threads can be started; with too few the pool made so far is shut down and NULL returned.
     */
    static method Create(threadCount: int, queueSize: int, memory: bool, threads: nat) returns (pool: ThreadPool?)
      ensures pool == null <==>
                !(0 < threadCount <= MAX_THREADS && 0 < queueSize <= MAX_QUEUE && memory && threadCount <= threads)
      ensures pool != null ==>
                && fresh(pool) && fresh(pool.queue) && pool.Valid() && pool.queue.Length == queueSize
                && Pending(pool.State().ring) == [] && pool.mode == Open
                && pool.started == pool.threadCount == threadCount
    {
      if threadCount <= 0 || threadCount > MAX_THREADS || queueSize <= 0 || queueSize > MAX_QUEUE || !memory {
        return null;
      }
      pool := new ThreadPool(queueSize);
      for i := 0 to threadCount
        invariant fresh(pool) && fresh(pool.queue) && pool.Valid() && pool.queue.Length == queueSize
        invariant Pending(pool.State().ring) == [] && pool.mode == Open
        invariant pool.started == pool.threadCount == i <= threads
      {
        if i >= threads {
          var _, _ := pool.BeginDestroy(false, true, true, true);
          return null;
        }
        pool.threadCount := pool.threadCount + 1;
        pool.started := pool.started + 1;
      }
    }

    /**
     * threadpool_add, when the mutex can be locked, the condition signalled and the mutex unlocked as
     * said; held is the mutex still locked on return. A failed signal or unlock is reported although
     * the task is queued.
     */
    method Add(task: Task, locked: bool, signalled: bool, unlocked: bool) returns (err: int, held: bool)
      requires Valid()
      modifies this, queue
      ensures Valid()
      ensures State() == if task.fn != 0 && locked then Added(old(State()), task) else old(State())
      ensures err == if task.fn == 0 then INVALID
                     else if !locked || !unlocked then LOCK_FAILURE
                     else if old(count) == queue.Length then QUEUE_FULL
                     else if old(mode) != Open then SHUTDOWN
                     else if !signalled then LOCK_FAILURE
                     else 0
      ensures held <==> task.fn != 0 && locked && !unlocked
      ensures Pending(State().ring) ==
              old(Pending(State().ring))
              + (if task.fn != 0 && locked && old(count) < queue.Length && old(mode) == Open then [task] else [])
    {
      ghost var before := State();
      if task.fn == 0 {
        return INVALID, false;
      }
      if !locked {
        return LOCK_FAILURE, false;
      }
      var next := tail + 1;
      next := if next == queue.Length then 0 else next;
      if count == queue.Length {
        err := QUEUE_FULL;
      } else if mode != Open {
        err := SHUTDOWN;
      } else {
        queue[tail] := task;
        tail := next;
        count := count + 1;
        err := if signalled then 0 else LOCK_FAILURE;
        PutAppends(before.ring, task);
        assert queue[..] == before.ring.queue[before.ring.tail := task];
      }
      if !unlocked {
        err := LOCK_FAILURE;
      }
      held := !unlocked;
    }

    /** threadpool_thread from the loop test to the unlock. */
    method Next() returns (v: Verdict)
      requires Valid() && (Decide(State()).MustExit? ==> started > 0)
      modifies this
      ensures Valid() && v == Decide(old(State())) && State() == Decided(old(State()))
      ensures v.MustRun? ==> old(Pending(State().ring)) == [v.task] + Pending(State().ring)
      ensures !v.MustRun? ==> Pending(State().ring) == old(Pending(State().ring))
      ensures v.MustWait? <==> old(mode) == Open && old(Pending(State().ring)) == []
      ensures v.MustExit? <==> old(mode) == Immediate || (old(mode) == Graceful && old(Pending(State().ring)) == [])
      ensures mode == old(mode) && started == old(started) - if v.MustExit? then 1 else 0
    {
      ghost var before := State();
      if count == 0 && mode == Open {
        return MustWait;
      }
      if mode == Immediate || (mode == Graceful && count == 0) {
        started := started - 1;
        return MustExit;
      }
      var task := queue[head];
      head := head + 1;
      head := if head == queue.Length then 0 else head;
      count := count - 1;
      DropTakesFirst(before.ring);
      return MustRun(task);
    }

    /** threadpool_destroy up to the joins; held is the mutex still locked on its way out. */
    method BeginDestroy(graceful: bool, locked: bool, broadcast: bool, unlocked: bool) returns (err: int, held: bool)
      requires Valid()
      modifies `mode
      ensures Valid() && State() == if locked then ShutDown(old(State()), graceful) else old(State())
      ensures mode == if !locked || old(mode) != Open then old(mode) else if graceful then Graceful else Immediate
      ensures err == if !locked then LOCK_FAILURE
                     else if !old(mode).Open? then SHUTDOWN
                     else if !broadcast || !unlocked then LOCK_FAILURE else 0
      ensures held <==> locked && err != 0
    {
      if !locked {
        return LOCK_FAILURE, false;
      }
      if mode != Open {
        return SHUTDOWN, true;
      }
      mode := if graceful then Graceful else Immediate;
      if !broadcast || !unlocked {
        return LOCK_FAILURE, true;
      }
      return 0, false;
    }
  }
}
