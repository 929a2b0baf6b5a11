/**
 * All interleavings of a thread pool: workers, callers of threadpool_add and
 * threadpool_destroy, one mutex and one condition variable.
 *
 * A step takes the mutex, or is a whole critical section (which ends by releasing the mutex
 * or by waiting), or happens outside any lock. Signals wake one waiter, waits may also end
 * spuriously, and a woken worker must take the mutex again before it looks at the pool.
 */
module ThreadPoolRuns {
  import opened ThreadPoolCore

  /** Where a worker is. A running task carries its ticket: its place among all tasks taken. */
  datatype Worker =
    | AtLock                            // about to take the mutex, or woken inside pthread_cond_wait
    | Testing                           // holds the mutex and tests whether to wait
    | Blocked                           // inside pthread_cond_wait
    | Working(ticket: nat, task: Task)  // runs a task, outside the mutex
    | Exited

  datatype Call = AddCall(task: Task) | DestroyCall(graceful: bool)

  /** Leaked: a caller returned without unlocking. */
  datatype Lock = Free | ByWorker(i: nat) | ByClient(call: Call) | Leaked

  datatype Joiner = NotJoining | Joining(next: nat) | Returned(freed: bool)

  /** accepted, taken, finished and destroys are history: what was enqueued, and what became of it. */
  datatype Pool = Pool(
    core: Core, lock: Lock, workers: seq<Worker>, joiner: Joiner,
    accepted: seq<Task>, taken: nat, finished: set<nat>, destroys: nat)

  datatype Step =
    | ClientLocks(call: Call)
    | ClientActs(woken: nat)
    | WorkerLocks(i: nat)
    | WorkerTests(i: nat)
    | WorkerFinishes(i: nat)
    | SpuriousWakeup(i: nat)
    | JoinerMoves

  ghost predicate Init(p: Pool) {
    && ValidRing(p.core.ring) && p.core.ring.count == 0
    && p.core.mode.Open? && p.core.started == |p.workers|
    && (forall i :: 0 <= i < |p.workers| ==> p.workers[i] == AtLock)
    && p.lock.Free? && p.joiner.NotJoining?
    && p.accepted == [] && p.taken == 0 && p.finished == {} && p.destroys == 0
  }

  ghost predicate AnyBlocked(ws: seq<Worker>) {
    exists i :: 0 <= i < |ws| && ws[i].Blocked?
  }

  ghost predicate Enabled(p: Pool, s: Step) {
    match s
    case ClientLocks(call) => p.lock.Free? && !p.joiner.Returned? && (call.AddCall? ==> call.task.fn != 0)
    case ClientActs(woken) =>
      && p.lock.ByClient?
      && (AnyBlocked(p.workers) ==> woken < |p.workers| && p.workers[woken].Blocked?)
    case WorkerLocks(i) => i < |p.workers| && p.workers[i].AtLock? && p.lock.Free?
    case WorkerTests(i) => i < |p.workers| && p.workers[i].Testing? && p.lock == ByWorker(i)
    case WorkerFinishes(i) => i < |p.workers| && p.workers[i].Working?
    case SpuriousWakeup(i) => i < |p.workers| && p.workers[i].Blocked?
    case JoinerMoves =>
      p.joiner.Joining? && (p.joiner.next < |p.workers| ==> p.workers[p.joiner.next].Exited?)
  }

  function WakeAll(ws: seq<Worker>): seq<Worker> {
    seq(|ws|, i requires 0 <= i < |ws| => if ws[i].Blocked? then AtLock else ws[i])
  }

  function Signal(ws: seq<Worker>, woken: nat): seq<Worker> {
    if woken < |ws| && ws[woken].Blocked? then ws[woken := AtLock] else ws
  }

  ghost function Next(p: Pool, s: Step): Pool
    requires ValidRing(p.core.ring) && Enabled(p, s)
    requires s.WorkerTests? && Decide(p.core).MustExit? ==> p.core.started > 0
  {
    match s
    case ClientLocks(call) => p.(lock := ByClient(call))
    case ClientActs(woken) =>
      (match p.lock.call
       case AddCall(task) =>
         if AddError(p.core) != 0 then p.(lock := Free)
         else p.(core := Added(p.core, task), workers := Signal(p.workers, woken),
                 accepted := p.accepted + [task], lock := Free)
       case DestroyCall(graceful) =>
         if p.core.mode.Open?
         then p.(core := ShutDown(p.core, graceful), workers := WakeAll(p.workers),
                 joiner := Joining(0), destroys := p.destroys + 1, lock := Free)
         else p.(destroys := p.destroys + 1, lock := Leaked))
    case WorkerLocks(i) => p.(workers := p.workers[i := Testing], lock := ByWorker(i))
    case WorkerTests(i) =>
      (match Decide(p.core)
       case MustWait => p.(workers := p.workers[i := Blocked], lock := Free)
       case MustExit => p.(core := Decided(p.core), workers := p.workers[i := Exited], lock := Free)
       case MustRun(task) =>
         p.(core := Decided(p.core), workers := p.workers[i := Working(p.taken, task)],
            taken := p.taken + 1, lock := Free))
    case WorkerFinishes(i) =>
      p.(workers := p.workers[i := AtLock], finished := p.finished + {p.workers[i].ticket})
    case SpuriousWakeup(i) => p.(workers := p.workers[i := AtLock])
    case JoinerMoves =>
      p.(joiner := if p.joiner.next < |p.workers| then Joining(p.joiner.next + 1) else Returned(p.core.started == 0))
  }

  // ---------------------------------------------------------------------------------
  // Sums over the workers
  // ---------------------------------------------------------------------------------

  function Awake(w: Worker): nat { if w.AtLock? || w.Testing? then 1 else 0 }

  function Live(w: Worker): nat { if w.Exited? then 0 else 1 }

  /** How many own steps a worker is from exiting, if it finds no further task. */
  function ToExit(w: Worker): nat {
    match w
    case AtLock => 2
    case Testing => 1
    case Blocked => 3
    case Working(_, _) => 3
    case Exited => 0
  }

  function Sum(ws: seq<Worker>, f: Worker -> nat): nat {
    if ws == [] then 0 else f(ws[0]) + Sum(ws[1..], f)
  }

  lemma {:induction false} SumUpdate(ws: seq<Worker>, f: Worker -> nat, i: nat, w: Worker)
    requires i < |ws|
    ensures Sum(ws[i := w], f) + f(ws[i]) == Sum(ws, f) + f(w)
  {
    if i == 0 {
      assert ws[i := w][1..] == ws[1..];
    } else {
      assert ws[i := w][1..] == ws[1..][i - 1 := w];
      SumUpdate(ws[1..], f, i - 1, w);
    }
  }

  lemma {:induction false} SumPointwise(ws: seq<Worker>, vs: seq<Worker>, f: Worker -> nat)
    requires |ws| == |vs| && forall i :: 0 <= i < |ws| ==> f(ws[i]) == f(vs[i])
    ensures Sum(ws, f) == Sum(vs, f)
  {
    if ws != [] {
      SumPointwise(ws[1..], vs[1..], f);
    }
  }

  lemma {:induction false} SumZero(ws: seq<Worker>, f: Worker -> nat)
    ensures Sum(ws, f) == 0 <==> forall i :: 0 <= i < |ws| ==> f(ws[i]) == 0
  {
    if ws != [] {
      SumZero(ws[1..], f);
      assert forall i :: 0 < i < |ws| ==> ws[i] == ws[1..][i - 1];
    }
  }

  // ---------------------------------------------------------------------------------
  // The invariant
  // ---------------------------------------------------------------------------------

  ghost predicate LockInv(p: Pool) {
    && (p.lock.ByWorker? ==> p.lock.i < |p.workers|)
    && (forall i :: 0 <= i < |p.workers| ==> (p.workers[i].Testing? <==> p.lock == ByWorker(i)))
  }

  /** Everything accepted is either taken, in order, or still in the ring, in order. */
  ghost predicate QueueInv(p: Pool) {
    && ValidRing(p.core.ring)
    && p.taken <= |p.accepted|
    && Pending(p.core.ring) == p.accepted[p.taken..]
  }

  /** Every ticket is with exactly one worker or finished; a worker runs the task of its ticket. */
  ghost predicate TicketInv(p: Pool) {
    && p.taken <= |p.accepted|
    && (forall i :: 0 <= i < |p.workers| && p.workers[i].Working? ==>
          && p.workers[i].ticket < p.taken && p.workers[i].ticket !in p.finished
          && p.workers[i].task == p.accepted[p.workers[i].ticket])
    && (forall i, j :: 0 <= i < j < |p.workers| && p.workers[i].Working? && p.workers[j].Working? ==>
          p.workers[i].ticket != p.workers[j].ticket)
    && (forall k :: k in p.finished ==> k < p.taken)
    && (forall k :: 0 <= k < p.taken ==> k in p.finished || Running(p.workers, k))
  }

  ghost predicate Running(ws: seq<Worker>, ticket: nat) {
    exists i :: 0 <= i < |ws| && ws[i].Working? && ws[i].ticket == ticket
  }

  /** While a worker sleeps, the pool is open and every pending task has an awake worker of its own. */
  ghost predicate WakeupInv(p: Pool) {
    AnyBlocked(p.workers) ==> p.core.mode.Open? && p.core.ring.count <= Sum(p.workers, Awake)
  }

  ghost predicate ShutdownInv(p: Pool) {
    && p.core.started == Sum(p.workers, Live)
    && (forall i :: 0 <= i < |p.workers| && p.workers[i].Exited? ==>
          !p.core.mode.Open? && (p.core.mode.Graceful? ==> p.core.ring.count == 0))
    && (p.core.mode.Open? <==> p.destroys == 0) && (p.core.mode.Open? <==> p.joiner.NotJoining?)
    && (p.lock.Leaked? <==> p.destroys >= 2)
    && (p.joiner.Joining? ==>
          && p.joiner.next <= |p.workers|
          && forall i :: 0 <= i < p.joiner.next ==> p.workers[i].Exited?)
    && (p.joiner.Returned? ==>
          && p.joiner.freed
          && forall i :: 0 <= i < |p.workers| ==> p.workers[i].Exited?)
  }

  ghost predicate Inv(p: Pool) {
    LockInv(p) && QueueInv(p) && TicketInv(p) && WakeupInv(p) && ShutdownInv(p)
  }

  lemma InitInv(p: Pool)
    requires Init(p)
    ensures Inv(p)
  {
    var ws := p.workers;
    SumAtLock(ws);
  }

  lemma {:induction false} SumAtLock(ws: seq<Worker>)
    requires forall i :: 0 <= i < |ws| ==> ws[i] == AtLock
    ensures Sum(ws, Live) == |ws|
  {
    if ws != [] {
      SumAtLock(ws[1..]);
    }
  }

  /** A worker that must exit is counted in started. */
  lemma CanTest(p: Pool, i: nat)
    requires ShutdownInv(p) && i < |p.workers| && p.workers[i].Testing?
    ensures p.core.started > 0
  {
    SumZero(p.workers, Live);
  }

  lemma StepLock(p: Pool, s: Step)
    requires Inv(p) && Enabled(p, s) && (s.WorkerTests? ==> p.core.started > 0)
    ensures LockInv(Next(p, s))
  {
    hide QueueInv, TicketInv, WakeupInv, ShutdownInv;
  }

  lemma StepQueue(p: Pool, s: Step)
    requires Inv(p) && Enabled(p, s) && (s.WorkerTests? ==> p.core.started > 0)
    ensures QueueInv(Next(p, s))
  {
    match s
    case ClientActs(woken) =>
      if p.lock.call.AddCall? && AddError(p.core) == 0 {
        PutAppends(p.core.ring, p.lock.call.task);
      }
    case WorkerTests(i) =>
      if Decide(p.core).MustRun? {
        DropTakesFirst(p.core.ring);
        assert p.accepted[p.taken..][1..] == p.accepted[p.taken + 1..];
      }
    case _ =>
  }

  /** A task offered to an open pool with room in its queue is accepted and wakes one sleeper, if there is any; no other task is. */
  lemma AcceptsIff(p: Pool, woken: nat)
    requires Inv(p) && Enabled(p, ClientActs(woken)) && p.lock.call.AddCall?
    ensures var q, task := Next(p, ClientActs(woken)), p.lock.call.task;
            if p.core.mode.Open? && p.core.ring.count < |p.core.ring.queue|
            then
              && q.accepted == p.accepted + [task] && Pending(q.core.ring) == Pending(p.core.ring) + [task]
              && q.workers == if AnyBlocked(p.workers) then p.workers[woken := AtLock] else p.workers
            else q == p.(lock := Free)
  {
    if p.core.mode.Open? && p.core.ring.count < |p.core.ring.queue| {
      PutAppends(p.core.ring, p.lock.call.task);
    }
  }

  /** Moving a worker that runs nothing to a place where it runs nothing keeps what is running. */
  lemma RunningKept(ws: seq<Worker>, vs: seq<Worker>)
    requires |ws| == |vs|
    requires forall i :: 0 <= i < |ws| && (ws[i].Working? || vs[i].Working?) ==> ws[i] == vs[i]
    ensures forall k: nat :: Running(ws, k) <==> Running(vs, k)
  {
    forall k: nat
      ensures Running(ws, k) <==> Running(vs, k)
    {
      if Running(ws, k) {
        var i :| 0 <= i < |ws| && ws[i].Working? && ws[i].ticket == k;
        assert vs[i].Working? && vs[i].ticket == k;
      }
      if Running(vs, k) {
        var i :| 0 <= i < |vs| && vs[i].Working? && vs[i].ticket == k;
        assert ws[i].Working? && ws[i].ticket == k;
      }
    }
  }

  lemma TakeTicket(p: Pool, i: nat)
    requires Inv(p) && Enabled(p, WorkerTests(i)) && Decide(p.core).MustRun?
    ensures TicketInv(Next(p, WorkerTests(i)))
  {
    var q := Next(p, WorkerTests(i));
    DropTakesFirst(p.core.ring);
    assert q.workers[i].task == Pending(p.core.ring)[0] == p.accepted[p.taken];
    forall k: nat | k < q.taken
      ensures k in q.finished || Running(q.workers, k)
    {
      if k == p.taken {
        assert q.workers[i].ticket == k;
      } else if k !in q.finished {
        assert Running(p.workers, k);
        var j :| 0 <= j < |p.workers| && p.workers[j].Working? && p.workers[j].ticket == k;
        assert q.workers[j] == p.workers[j];
      }
    }
  }

  lemma FinishTicket(p: Pool, i: nat)
    requires Inv(p) && Enabled(p, WorkerFinishes(i))
    ensures TicketInv(Next(p, WorkerFinishes(i)))
  {
    var q := Next(p, WorkerFinishes(i));
    forall k: nat | k < q.taken && k !in q.finished
      ensures Running(q.workers, k)
    {
      assert Running(p.workers, k);
      var j :| 0 <= j < |p.workers| && p.workers[j].Working? && p.workers[j].ticket == k;
      assert q.workers[j] == p.workers[j];
    }
  }

  lemma StepTicket(p: Pool, s: Step)
    requires Inv(p) && Enabled(p, s) && (s.WorkerTests? ==> p.core.started > 0)
    ensures TicketInv(Next(p, s))
  {
    hide LockInv, WakeupInv, ShutdownInv;
    if s.WorkerTests? && Decide(p.core).MustRun? {
      TakeTicket(p, s.i);
    } else if s.WorkerFinishes? {
      FinishTicket(p, s.i);
    } else {
      RunningKept(p.workers, Next(p, s).workers);
    }
  }

  lemma ActsWakeup(p: Pool, woken: nat)
    requires Inv(p) && Enabled(p, ClientActs(woken))
    ensures WakeupInv(Next(p, ClientActs(woken)))
  {
    if woken < |p.workers| {
      SumUpdate(p.workers, Awake, woken, AtLock);
    }
  }

  lemma TestsWakeup(p: Pool, i: nat)
    requires Inv(p) && Enabled(p, WorkerTests(i)) && p.core.started > 0
    ensures WakeupInv(Next(p, WorkerTests(i)))
  {
    SumUpdate(p.workers, Awake, i, Next(p, WorkerTests(i)).workers[i]);
  }

  lemma StepWakeup(p: Pool, s: Step)
    requires Inv(p) && Enabled(p, s) && (s.WorkerTests? ==> p.core.started > 0)
    ensures WakeupInv(Next(p, s))
  {
    match s
    case ClientActs(woken) => ActsWakeup(p, woken);
    case WorkerTests(i) => TestsWakeup(p, i);
    case WorkerLocks(i) => SumUpdate(p.workers, Awake, i, Testing);
    case WorkerFinishes(i) => SumUpdate(p.workers, Awake, i, AtLock);
    case SpuriousWakeup(i) => SumUpdate(p.workers, Awake, i, AtLock);
    case ClientLocks(_) =>
    case JoinerMoves =>
  }

  lemma TestsShutdown(p: Pool, i: nat)
    requires Inv(p) && Enabled(p, WorkerTests(i)) && p.core.started > 0
    ensures ShutdownInv(Next(p, WorkerTests(i)))
  {
    SumUpdate(p.workers, Live, i, Next(p, WorkerTests(i)).workers[i]);
  }

  lemma ActsShutdown(p: Pool, woken: nat)
    requires Inv(p) && Enabled(p, ClientActs(woken))
    ensures ShutdownInv(Next(p, ClientActs(woken)))
  {
    SumPointwise(p.workers, Next(p, ClientActs(woken)).workers, Live);
  }

  lemma StepShutdown(p: Pool, s: Step)
    requires Inv(p) && Enabled(p, s) && (s.WorkerTests? ==> p.core.started > 0)
    ensures ShutdownInv(Next(p, s))
  {
    hide LockInv, QueueInv, TicketInv, WakeupInv;
    match s
    case ClientLocks(_) =>
    case ClientActs(woken) => ActsShutdown(p, woken);
    case WorkerTests(i) => TestsShutdown(p, i);
    case WorkerLocks(i) => SumUpdate(p.workers, Live, i, Testing);
    case WorkerFinishes(i) => SumUpdate(p.workers, Live, i, AtLock);
    case SpuriousWakeup(i) => SumUpdate(p.workers, Live, i, AtLock);
    case JoinerMoves => SumZero(p.workers, Live);
  }

  lemma StepInv(p: Pool, s: Step)
    requires Inv(p) && Enabled(p, s)
    ensures s.WorkerTests? ==> p.core.started > 0
    ensures Inv(Next(p, s))
  {
    if s.WorkerTests? {
      CanTest(p, s.i);
    }
    StepLock(p, s);
    StepQueue(p, s);
    StepTicket(p, s);
    StepWakeup(p, s);
    StepShutdown(p, s);
  }

  // ---------------------------------------------------------------------------------
  // Runs
  // ---------------------------------------------------------------------------------

  ghost predicate LegalRun(p: Pool, steps: seq<Step>)
    requires Inv(p)
    decreases |steps|
  {
    steps == [] || (Enabled(p, steps[0]) && (StepInv(p, steps[0]); LegalRun(Next(p, steps[0]), steps[1..])))
  }

  ghost function After(p: Pool, steps: seq<Step>): (q: Pool)
    requires Inv(p) && LegalRun(p, steps)
    ensures Inv(q)
    decreases |steps|
  {
    if steps == [] then p else (StepInv(p, steps[0]); After(Next(p, steps[0]), steps[1..]))
  }

  ghost predicate Reachable(p: Pool) {
    exists start: Pool, steps: seq<Step> :: Init(start) && Inv(start) && LegalRun(start, steps) && p == After(start, steps)
  }

  /** In every reachable state each accepted task is in exactly one place, and tasks leave in the order they came. */
  lemma EveryTaskInOnePlace(p: Pool, k: nat)
    requires Reachable(p) && k < |p.accepted|
    ensures ValidRing(p.core.ring) && |p.accepted| == p.taken + p.core.ring.count
    // pending, at its place in the queue
    ensures k >= p.taken ==> Pending(p.core.ring)[k - p.taken] == p.accepted[k] && k !in p.finished && !Running(p.workers, k)
    // or taken: finished, or running in one worker as the task it was accepted as
    ensures k < p.taken ==> (k in p.finished <==> !Running(p.workers, k))
    ensures forall i :: 0 <= i < |p.workers| && p.workers[i].Working? && p.workers[i].ticket == k ==>
              p.workers[i].task == p.accepted[k]
    ensures forall i, j :: (0 <= i < |p.workers| && 0 <= j < |p.workers| && p.workers[i].Working? && p.workers[j].Working?
              && p.workers[i].ticket == k == p.workers[j].ticket) ==> i == j
  {
    assert Inv(p);
  }

  /** While some worker sleeps, the pending tasks are no more than the workers awake to take them; after shutdown none sleeps. */
  lemma NoLostWakeup(p: Pool)
    requires Reachable(p) && AnyBlocked(p.workers)
    ensures p.core.mode.Open? && p.core.ring.count <= Sum(p.workers, Awake)
    ensures p.core.ring.count > 0 ==> exists i :: 0 <= i < |p.workers| && (p.workers[i].AtLock? || p.workers[i].Testing?)
  {
    assert Inv(p);
    SumZero(p.workers, Awake);
  }

  /** After shutdown nothing more is accepted, whoever asks, and the mode stays. */
  lemma {:induction false} ShutdownIsFinal(p: Pool, steps: seq<Step>)
    requires Inv(p) && LegalRun(p, steps) && !p.core.mode.Open?
    ensures After(p, steps).accepted == p.accepted && After(p, steps).core.mode == p.core.mode
    decreases |steps|
  {
    if steps != [] {
      StepInv(p, steps[0]);
      ShutdownIsFinal(Next(p, steps[0]), steps[1..]);
    }
  }

  ghost predicate WorkerStep(s: Step) {
    s.WorkerLocks? || s.WorkerTests? || s.WorkerFinishes?
  }

  ghost function WorkerSteps(steps: seq<Step>): nat {
    if steps == [] then 0 else (if WorkerStep(steps[0]) then 1 else 0) + WorkerSteps(steps[1..])
  }

  /** Own steps the workers still have to make before they have all exited. */
  ghost function Distance(p: Pool): nat {
    3 * p.core.ring.count + Sum(p.workers, ToExit)
  }

  lemma StepDistance(p: Pool, s: Step)
    requires Inv(p) && Enabled(p, s) && !p.core.mode.Open? && (s.WorkerTests? ==> p.core.started > 0)
    ensures Distance(Next(p, s)) == Distance(p) - (if WorkerStep(s) then 1 else 0)
  {
    var q := Next(p, s);
    match s
    case WorkerLocks(i) => SumUpdate(p.workers, ToExit, i, Testing);
    case WorkerTests(i) =>
      assert !Decide(p.core).MustWait?;
      SumUpdate(p.workers, ToExit, i, q.workers[i]);
    case WorkerFinishes(i) => SumUpdate(p.workers, ToExit, i, AtLock);
    case _ =>
  }

  /** After shutdown, every step of a worker brings the pool one closer to its end, and nothing else moves it. */
  lemma {:induction false} DrainCountdown(p: Pool, steps: seq<Step>)
    requires Inv(p) && LegalRun(p, steps) && !p.core.mode.Open?
    ensures Distance(After(p, steps)) == Distance(p) - WorkerSteps(steps)
    decreases |steps|
  {
    if steps != [] {
      StepInv(p, steps[0]);
      StepDistance(p, steps[0]);
      DrainCountdown(Next(p, steps[0]), steps[1..]);
    }
  }

  ghost predicate WorkerCanMove(p: Pool) {
    exists s: Step :: WorkerStep(s) && Enabled(p, s)
  }

  // ---------------------------------------------------------------------------------
  // What the flag of threadpool_destroy decides
  // ---------------------------------------------------------------------------------

  ghost predicate Destroys(s: Step) {
    s.ClientLocks? && s.call.DestroyCall?
  }

  /** The first call of threadpool_destroy to get the mutex asked for this kind of shutdown. */
  ghost predicate FirstDestroy(steps: seq<Step>, graceful: bool) {
    exists n :: 0 <= n < |steps| && steps[n] == ClientLocks(DestroyCall(graceful)) && forall j :: 0 <= j < n ==> !Destroys(steps[j])
  }

  /** Such a call has the mutex, or has set the mode. */
  ghost predicate Settled(p: Pool, graceful: bool) {
    || p.core.mode == (if graceful then Graceful else Immediate)
    || (p.core.mode == Open && p.lock == ByClient(DestroyCall(graceful)))
  }

  lemma StaysSettled(p: Pool, s: Step, graceful: bool)
    requires Inv(p) && Enabled(p, s) && (s.WorkerTests? ==> p.core.started > 0) && Settled(p, graceful)
    ensures Settled(Next(p, s), graceful)
  {
  }

  lemma {:induction false} StillSettled(p: Pool, steps: seq<Step>, graceful: bool)
    requires Inv(p) && LegalRun(p, steps) && Settled(p, graceful)
    ensures Settled(After(p, steps), graceful)
    decreases |steps|
  {
    hide Settled, Enabled, Next;
    if steps != [] {
      StepInv(p, steps[0]);
      StaysSettled(p, steps[0], graceful);
      StillSettled(Next(p, steps[0]), steps[1..], graceful);
    }
  }

  /** The pool is open, and no call of threadpool_destroy has the mutex. */
  ghost predicate Unsettled(p: Pool) {
    p.core.mode == Open && !(p.lock.ByClient? && p.lock.call.DestroyCall?)
  }

  lemma Decides(p: Pool, s: Step)
    requires Inv(p) && Enabled(p, s) && (s.WorkerTests? ==> p.core.started > 0) && Unsettled(p)
    ensures if Destroys(s) then Settled(Next(p, s), s.call.graceful) else Unsettled(Next(p, s))
  {
  }

  lemma {:induction false} FlagDecides(p: Pool, steps: seq<Step>)
    requires Inv(p) && LegalRun(p, steps) && Unsettled(p)
    ensures forall graceful :: FirstDestroy(steps, graceful) ==> Settled(After(p, steps), graceful)
    ensures After(p, steps).core.mode != Open ==> exists graceful :: FirstDestroy(steps, graceful)
    decreases |steps|
  {
    hide Settled, Enabled, Next;
    if steps != [] {
      StepInv(p, steps[0]);
      Decides(p, steps[0]);
      if Destroys(steps[0]) {
        StillSettled(Next(p, steps[0]), steps[1..], steps[0].call.graceful);
        assert FirstDestroy(steps, steps[0].call.graceful);
      } else {
        FlagDecides(Next(p, steps[0]), steps[1..]);
        LaterDestroy(steps);
      }
    }
  }

  lemma LaterDestroy(steps: seq<Step>)
    requires steps != [] && !Destroys(steps[0])
    ensures forall graceful :: FirstDestroy(steps, graceful) <==> FirstDestroy(steps[1..], graceful)
  {
    forall graceful
      ensures FirstDestroy(steps, graceful) <==> FirstDestroy(steps[1..], graceful)
    {
      if FirstDestroy(steps, graceful) {
        var n :| 0 <= n < |steps| && steps[n] == ClientLocks(DestroyCall(graceful)) && forall j :: 0 <= j < n ==> !Destroys(steps[j]);
        assert steps[1..][n - 1] == steps[n];
      }
      if FirstDestroy(steps[1..], graceful) {
        var n :| 0 <= n < |steps[1..]| && steps[1..][n] == ClientLocks(DestroyCall(graceful))
                 && forall j :: 0 <= j < n ==> !Destroys(steps[1..][j]);
        assert steps[n + 1] == steps[1..][n];
        assert forall j :: 0 < j < n + 1 ==> steps[j] == steps[1..][j - 1];
      }
    }
  }

  /** In every run the mode is the one the first call of threadpool_destroy asked for, from the moment it gives the mutex back. */
  lemma FirstFlagDecides(start: Pool, steps: seq<Step>, graceful: bool)
    requires Init(start) && Inv(start) && LegalRun(start, steps)
    ensures FirstDestroy(steps, graceful) && !After(start, steps).lock.ByClient? ==>
              After(start, steps).core.mode == if graceful then Graceful else Immediate
    ensures After(start, steps).core.mode != Open ==> FirstDestroy(steps, true) || FirstDestroy(steps, false)
  {
    FlagDecides(start, steps);
  }

  lemma TakesNothing(p: Pool, s: Step)
    requires Inv(p) && Enabled(p, s) && (s.WorkerTests? ==> p.core.started > 0) && p.core.mode == Immediate
    ensures var q := Next(p, s);
            q.core.mode == Immediate && q.taken == p.taken && q.accepted == p.accepted && Pending(q.core.ring) == Pending(p.core.ring)
  {
  }

  lemma {:induction false} TakesNothingMore(p: Pool, steps: seq<Step>)
    requires Inv(p) && LegalRun(p, steps) && p.core.mode == Immediate
    ensures var q := After(p, steps);
            q.taken == p.taken && q.accepted == p.accepted && Pending(q.core.ring) == Pending(p.core.ring)
    decreases |steps|
  {
    hide Enabled, Next, Pending;
    if steps != [] {
      StepInv(p, steps[0]);
      TakesNothing(p, steps[0]);
      TakesNothingMore(Next(p, steps[0]), steps[1..]);
    }
  }

  /** After a first threadpool_destroy without the flag, the pending tasks stay in the ring for good, and no task is taken any more. */
  lemma ImmediateLeavesPending(start: Pool, steps: seq<Step>, more: seq<Step>)
    requires Init(start) && Inv(start) && LegalRun(start, steps) && LegalRun(After(start, steps), more)
    requires FirstDestroy(steps, false) && !After(start, steps).lock.ByClient?
    ensures var p, q := After(start, steps), After(After(start, steps), more);
            q.taken == p.taken && q.accepted == p.accepted && Pending(q.core.ring) == Pending(p.core.ring)
  {
    FirstFlagDecides(start, steps, false);
    TakesNothingMore(After(start, steps), more);
  }

  /**
   * The end of a shutdown. If nobody outside holds the mutex, the workers can move until all have
   * exited; then started is 0, and if the first call of threadpool_destroy had the flag set, the ring
   * is empty and every accepted task has run exactly once.
   */
  lemma DrainedWhenStuck(start: Pool, steps: seq<Step>, graceful: bool)
    requires Init(start) && Inv(start) && LegalRun(start, steps) && FirstDestroy(steps, graceful)
    requires !After(start, steps).lock.ByClient? && !After(start, steps).lock.Leaked?
    ensures var p := After(start, steps);
            && (!WorkerCanMove(p) <==> forall i :: 0 <= i < |p.workers| ==> p.workers[i].Exited?)
            && (!WorkerCanMove(p) ==> p.core.started == 0)
            && (!WorkerCanMove(p) && graceful && |p.workers| > 0 ==>
                 && Pending(p.core.ring) == []
                 && forall k :: k in p.finished <==> 0 <= k < |p.accepted|)
  {
    FirstFlagDecides(start, steps, graceful);
    StuckIsDone(After(start, steps));
  }

  lemma StuckIsDone(p: Pool)
    requires Reachable(p) && !p.core.mode.Open? && !p.lock.ByClient? && !p.lock.Leaked?
    ensures !WorkerCanMove(p) <==> forall i :: 0 <= i < |p.workers| ==> p.workers[i].Exited?
    ensures !WorkerCanMove(p) ==> p.core.started == 0
    ensures !WorkerCanMove(p) && p.core.mode.Graceful? && |p.workers| > 0 ==>
              && Pending(p.core.ring) == []
              && forall k :: k in p.finished <==> 0 <= k < |p.accepted|
  {
    assert Inv(p);
    SumZero(p.workers, Live);
    forall i | 0 <= i < |p.workers| && !p.workers[i].Exited?
      ensures WorkerCanMove(p)
    {
      if p.workers[i].Working? {
        assert Enabled(p, WorkerFinishes(i));
      } else if p.workers[i].Testing? {
        assert Enabled(p, WorkerTests(i));
      } else if p.lock.ByWorker? {
        assert Enabled(p, WorkerTests(p.lock.i));
      } else {
        assert !AnyBlocked(p.workers);
        assert Enabled(p, WorkerLocks(i));
      }
    }
    if !WorkerCanMove(p) && p.core.mode.Graceful? && |p.workers| > 0 {
      assert p.workers[0].Exited?;
      forall k: nat | k < |p.accepted|
        ensures k in p.finished
      {
        EveryTaskInOnePlace(p, k);
      }
    }
  }

  /** threadpool_free, called by the destroyer after its joins, always finds no thread started. */
  lemma FreeGuardPasses(p: Pool)
    requires Reachable(p) && p.joiner.Returned?
    ensures p.joiner.freed && p.core.started == 0
  {
    assert Inv(p);
    SumZero(p.workers, Live);
  }

  /** How many calls of threadpool_destroy got the mutex in a run. */
  ghost function DestroyCalls(p: Pool, steps: seq<Step>): nat
    requires Inv(p) && LegalRun(p, steps)
    decreases |steps|
  {
    if steps == [] then 0
    else (if steps[0].ClientActs? && p.lock.call.DestroyCall? then 1 else 0)
         + (StepInv(p, steps[0]); DestroyCalls(Next(p, steps[0]), steps[1..]))
  }

  lemma {:induction false} DestroysCounted(p: Pool, steps: seq<Step>)
    requires Inv(p) && LegalRun(p, steps)
    ensures After(p, steps).destroys == p.destroys + DestroyCalls(p, steps)
    decreases |steps|
  {
    if steps != [] {
      StepInv(p, steps[0]);
      DestroysCounted(Next(p, steps[0]), steps[1..]);
    }
  }

  /**
   * The mutex is always handed back, if and only if threadpool_destroy runs at most once: a
   * second call returns "already shutting down" without unlocking.
   */
  lemma MutexLeaksIff(start: Pool, steps: seq<Step>)
    requires Init(start) && Inv(start) && LegalRun(start, steps)
    ensures After(start, steps).lock.Leaked? <==> DestroyCalls(start, steps) >= 2
  {
    DestroysCounted(start, steps);
  }

  /** Such a run of four steps: destroy gets the mutex, shuts the pool down, gets the mutex again, and returns. */
  lemma SecondDestroyLeaks(start: Pool)
    requires Init(start)
    ensures var steps := [ClientLocks(DestroyCall(true)), ClientActs(0), ClientLocks(DestroyCall(true)), ClientActs(0)];
            Inv(start) && LegalRun(start, steps) && After(start, steps).lock.Leaked?
  {
    InitInv(start);
    var destroy := ClientLocks(DestroyCall(true));
    var p1 := Next(start, destroy);
    StepInv(start, destroy);
    var p2 := Next(p1, ClientActs(0));
    StepInv(p1, ClientActs(0));
    var p3 := Next(p2, destroy);
    StepInv(p2, destroy);
    assert LegalRun(p3, [ClientActs(0)]);
    assert [destroy, ClientActs(0)][1..] == [ClientActs(0)];
    assert LegalRun(p2, [destroy, ClientActs(0)]);
    assert [ClientActs(0), destroy, ClientActs(0)][1..] == [destroy, ClientActs(0)];
    assert LegalRun(p1, [ClientActs(0), destroy, ClientActs(0)]);
    assert [destroy, ClientActs(0), destroy, ClientActs(0)][1..] == [ClientActs(0), destroy, ClientActs(0)];
  }

  /** A pool to start from. */
  lemma SmallPool(threads: nat)
    ensures Init(Pool(Core(Ring([Task(0, 0)], 0, 0, 0), Open, threads), Free, seq(threads, _ => AtLock), NotJoining, [], 0, {}, 0))
  {
  }

  /** After the second call no worker takes a task, exits, or can be joined any more. */
  lemma {:induction false} LeakFreezesWorkers(p: Pool, steps: seq<Step>)
    requires Inv(p) && LegalRun(p, steps) && p.lock.Leaked?
    ensures After(p, steps).lock.Leaked? && After(p, steps).taken == p.taken
    ensures After(p, steps).core == p.core
    decreases |steps|
  {
    if steps != [] {
      StepInv(p, steps[0]);
      LeakFreezesWorkers(Next(p, steps[0]), steps[1..]);
    }
  }
}
