/**
 * The hand-off pipeline as a state machine: the accepting thread, the dispatching thread and the
 * workers take steps in any order, sends and receives move any number of bytes.
 */
module HandoffRuns {
  import opened Bytes
  import opened Handoff
  import opened Multisets

  /** Bytes on their way to one worker, front first: in its buffer, in the socket, in the send buffer. */
  datatype Channel = Channel(odd: seq<Byte>, sock: seq<Byte>, queue: seq<Byte>, registered: seq<Word>)

  /**
   * batch is the buffer of accept_readfun, shared the list under the mutex, private the list the
   * dispatcher took. accepted and dispatched record the past; their sizes are not real state,
   * except that sum in dispatch_conn is the number of batches dispatched.
   */
  datatype World = World(
    accepted: multiset<Word>,
    batch: seq<Word>,
    shared: seq<seq<Word>>,
    private: seq<seq<Word>>,
    dispatched: seq<seq<Word>>,
    channels: seq<Channel>)

  datatype Step =
    | Accept(fd: int)                  // accept gives a descriptor
    | Again                            // accept would block
    | Take                             // the dispatcher takes the shared list
    | Dispatch(sent: nat)              // and passes its first batch on, sending so many bytes
    | Flush(channel: nat, sent: nat)   // the rest of a send buffer is tried again
    | Receive(channel: nat, n: nat)    // a worker's recv brings n bytes
    | Leave(channel: nat)              // a worker's recv would block

  // ---------------------------------------------------------------------------------
  // Steps
  // ---------------------------------------------------------------------------------

  /** A batch goes to the front of the shared list when it is full. */
  function Accepted(batch: seq<Word>, shared: seq<seq<Word>>, fd: Word): (seq<Word>, seq<seq<Word>>) {
    if fd >= MAX_FD then (batch, shared)
    else if |batch| + 1 < MAX_ACCEPT then (batch + [fd], shared)
    else ([], [batch + [fd]] + shared)
  }

  function Pushed(batch: seq<Word>, shared: seq<seq<Word>>): seq<seq<Word>> {
    if batch == [] then shared else [batch] + shared
  }

  function Send(ch: Channel, sent: nat): Channel
    requires sent <= |ch.queue|
  {
    ch.(sock := ch.sock + ch.queue[..sent], queue := ch.queue[sent..])
  }

  /** recv of n bytes followed by process_connection. */
  function Got(ch: Channel, n: nat): Channel
    requires n <= |ch.sock|
  {
    var buffer := ch.odd + ch.sock[..n];
    ch.(odd := Leftover(buffer), sock := ch.sock[n..], registered := ch.registered + DecodeWords(buffer))
  }

  /** Round robin over the workers. */
  function Turn(w: World): nat
    requires w.channels != []
  {
    |w.dispatched| % |w.channels|
  }

  ghost predicate Enabled(w: World, step: Step) {
    match step
    case Accept(fd) => 0 < fd < 0x8000_0000
    case Again => true
    case Take => w.private == [] && w.shared != []
    case Dispatch(sent) =>
      && w.private != []
      && (w.channels != [] ==> sent <= |w.channels[Turn(w)].queue| + 4 * |w.private[0]|)
    case Flush(c, sent) => c < |w.channels| && sent <= |w.channels[c].queue|
    case Receive(c, n) => c < |w.channels| && 0 < n <= |w.channels[c].sock| && |w.channels[c].odd| + n <= RECEIVE_BUFFER
    case Leave(c) => c < |w.channels| && w.channels[c].sock == []
  }

  /**
   * What the code does not guard against: no worker at all (division by zero), a batch that does
   * not fit the send buffer, a recv that leaves less than a word (assert(false)), and odd bytes in
   * the worker's local buffer when it returns. Runs go on past the second and third as if the
   * buffer were longer and the assertion were not there.
   */
  ghost predicate Harm(w: World, step: Step)
    requires Enabled(w, step)
  {
    match step
    case Dispatch(_) => w.channels == [] || |w.channels[Turn(w)].queue| + 4 * |w.private[0]| > SEND_BUFFER
    case Receive(c, n) => |w.channels[c].odd| + n < 4
    case Leave(c) => w.channels[c].odd != []
    case _ => false
  }

  ghost predicate HasNext(w: World, step: Step) {
    Enabled(w, step) && (step.Dispatch? ==> w.channels != [])
  }

  ghost function Next(w: World, step: Step): World
    requires HasNext(w, step)
  {
    match step
    case Accept(fd) =>
      var (batch, shared) := Accepted(w.batch, w.shared, fd);
      w.(accepted := if fd < MAX_FD then w.accepted + multiset{fd} else w.accepted, batch := batch, shared := shared)
    case Again => w.(batch := [], shared := Pushed(w.batch, w.shared))
    case Take => w.(private := w.shared, shared := [])
    case Dispatch(sent) =>
      var c := Turn(w);
      var ch := w.channels[c];
      w.(private := w.private[1..], dispatched := w.dispatched + [w.private[0]],
         channels := w.channels[c := Send(ch.(queue := ch.queue + EncodeWords(w.private[0])), sent)])
    case Flush(c, sent) => w.(channels := w.channels[c := Send(w.channels[c], sent)])
    case Receive(c, n) => w.(channels := w.channels[c := Got(w.channels[c], n)])
    case Leave(c) => w.(channels := w.channels[c := w.channels[c].(odd := [])])
  }

  const QUIET := Channel([], [], [], [])

  function Init(workers: nat): World {
    World(multiset{}, [], [], [], [], seq(workers, _ => QUIET))
  }

  // ---------------------------------------------------------------------------------
  // The invariant
  // ---------------------------------------------------------------------------------

  function AllOf(batches: seq<seq<Word>>): multiset<Word> {
    if batches == [] then multiset{} else multiset(batches[0]) + AllOf(batches[1..])
  }

  /** What worker c of n is given: the batches dispatched in its turns, one after the other. */
  function Share(dispatched: seq<seq<Word>>, n: nat, c: nat): seq<Word>
    requires n > 0
  {
    if dispatched == [] then []
    else
      var k := |dispatched| - 1;
      Share(dispatched[..k], n, c) + if k % n == c then dispatched[k] else []
  }

  /** The bytes on a channel are exactly the words given to the worker and not yet registered. */
  ghost predicate ChannelInv(ch: Channel, given: seq<Word>) {
    && |ch.odd| < 4 && |ch.registered| <= |given|
    && ch.registered == given[..|ch.registered|]
    && ch.odd + ch.sock + ch.queue == EncodeWords(given[|ch.registered|..])
  }

  ghost predicate Channels(w: World) {
    forall c :: 0 <= c < |w.channels| ==> ChannelInv(w.channels[c], Share(w.dispatched, |w.channels|, c))
  }

  ghost predicate Tally(w: World) {
    w.accepted == multiset(w.batch) + AllOf(w.shared) + AllOf(w.private) + AllOf(w.dispatched)
  }

  ghost predicate Inv(w: World) {
    && Channels(w) && Tally(w) && |w.batch| < MAX_ACCEPT
    && (w.channels == [] ==> w.dispatched == [])
    && (forall fd :: fd in w.accepted ==> 0 < fd < MAX_FD)
  }

  lemma InitInv(workers: nat)
    ensures Inv(Init(workers))
  {
    var w := Init(workers);
    forall c | 0 <= c < |w.channels|
      ensures ChannelInv(w.channels[c], Share(w.dispatched, |w.channels|, c))
    {
      assert EncodeWords([]) == [];
    }
  }

  // Each step on the batches

  lemma AllOfSnoc(batches: seq<seq<Word>>, b: seq<Word>)
    ensures AllOf(batches + [b]) == AllOf(batches) + multiset(b)
    decreases |batches|
  {
    if batches == [] {
      assert batches + [b] == [b];
    } else {
      assert (batches + [b])[1..] == batches[1..] + [b];
      AllOfSnoc(batches[1..], b);
    }
  }

  lemma AcceptTally(w: World, fd: Word, batch: seq<Word>, shared: seq<seq<Word>>)
    requires fd < MAX_FD && (batch, shared) == Accepted(w.batch, w.shared, fd)
    ensures multiset(batch) + AllOf(shared) == multiset(w.batch) + AllOf(w.shared) + multiset{fd}
  {
    if |w.batch| + 1 >= MAX_ACCEPT {
      assert shared[1..] == w.shared;
    }
  }

  lemma AgainTally(batch: seq<Word>, shared: seq<seq<Word>>)
    ensures AllOf(Pushed(batch, shared)) == multiset(batch) + AllOf(shared)
  {
    if batch != [] {
      assert Pushed(batch, shared)[1..] == shared;
    }
  }

  // Each step on a channel

  lemma SendKeeps(ch: Channel, given: seq<Word>, sent: nat)
    requires ChannelInv(ch, given) && sent <= |ch.queue|
    ensures ChannelInv(Send(ch, sent), given)
  {
    var r := Send(ch, sent);
    assert r.odd + r.sock + r.queue == ch.odd + ch.sock + ch.queue;
  }

  lemma QueueKeeps(ch: Channel, given: seq<Word>, batch: seq<Word>)
    requires ChannelInv(ch, given)
    ensures ChannelInv(ch.(queue := ch.queue + EncodeWords(batch)), given + batch)
  {
    var k := |ch.registered|;
    SplitGiven(given, batch, k);
    EncodeConcat(given[k..], batch);
    Behind(ch.odd + ch.sock, ch.queue, EncodeWords(batch));
  }

  lemma SplitGiven(given: seq<Word>, batch: seq<Word>, k: nat)
    requires k <= |given|
    ensures (given + batch)[k..] == given[k..] + batch && (given + batch)[..k] == given[..k]
  {
  }

  lemma Behind(a: seq<Byte>, b: seq<Byte>, c: seq<Byte>)
    ensures a + (b + c) == (a + b) + c
  {
  }

  lemma Regroup(odd: seq<Byte>, sock: seq<Byte>, queue: seq<Byte>, n: nat)
    requires n <= |sock|
    ensures odd + sock + queue == (odd + sock[..n]) + (sock[n..] + queue)
  {
    assert sock == sock[..n] + sock[n..];
  }

  lemma Advance(given: seq<Word>, k: nat, words: seq<Word>)
    requires k <= |given| && words <= given[k..]
    ensures k + |words| <= |given| && given[..k] + words == given[..k + |words|]
    ensures given[k..][|words|..] == given[k + |words|..]
  {
    assert words == given[k..][..|words|] == given[k..k + |words|];
  }

  lemma GotKeeps(ch: Channel, given: seq<Word>, n: nat)
    requires ChannelInv(ch, given) && n <= |ch.sock|
    ensures ChannelInv(Got(ch, n), given)
  {
    hide DecodeWords, EncodeWords, Leftover;
    var k, buffer, rest := |ch.registered|, ch.odd + ch.sock[..n], ch.sock[n..] + ch.queue;
    Regroup(ch.odd, ch.sock, ch.queue, n);
    CutAnywhere(given[k..], buffer, rest);
    Advance(given, k, DecodeWords(buffer));
    Assembled(Got(ch, n), given, k + |DecodeWords(buffer)|, rest);
  }

  lemma Assembled(r: Channel, given: seq<Word>, k: nat, rest: seq<Byte>)
    requires k <= |given| && r.registered == given[..k] && |r.odd| < 4 && rest == r.sock + r.queue
    requires r.odd + rest == EncodeWords(given[k..])
    ensures ChannelInv(r, given)
  {
    Behind(r.odd, r.sock, r.queue);
  }

  lemma ChannelStep(w: World, c: nat, ch: Channel)
    requires Inv(w) && c < |w.channels| && ChannelInv(ch, Share(w.dispatched, |w.channels|, c))
    ensures Inv(w.(channels := w.channels[c := ch]))
  {
  }

  lemma ShareNext(dispatched: seq<seq<Word>>, batch: seq<Word>, n: nat, c: nat)
    requires n > 0
    ensures Share(dispatched + [batch], n, c) == Share(dispatched, n, c) + if |dispatched| % n == c then batch else []
  {
    assert (dispatched + [batch])[..|dispatched|] == dispatched;
  }

  lemma DispatchChannels(w: World, r: World, sent: nat)
    requires Channels(w) && HasNext(w, Dispatch(sent)) && r == Next(w, Dispatch(sent))
    ensures Channels(r)
  {
    var turn, batch, n := Turn(w), w.private[0], |w.channels|;
    forall c | 0 <= c < n
      ensures ChannelInv(r.channels[c], Share(r.dispatched, n, c))
    {
      var ch, given := w.channels[c], Share(w.dispatched, n, c);
      assert ChannelInv(ch, given);
      ShareNext(w.dispatched, batch, n, c);
      if c == turn {
        QueueKeeps(ch, given, batch);
        SendKeeps(ch.(queue := ch.queue + EncodeWords(batch)), given + batch, sent);
      } else {
        assert given + [] == given;
      }
    }
  }

  lemma DispatchTally(w: World, r: World, sent: nat)
    requires Tally(w) && HasNext(w, Dispatch(sent)) && r == Next(w, Dispatch(sent))
    ensures Tally(r)
  {
    AllOfSnoc(w.dispatched, w.private[0]);
    assert AllOf(w.private) == multiset(w.private[0]) + AllOf(r.private);
  }

  lemma AcceptInv(w: World, fd: int)
    requires Inv(w) && Enabled(w, Accept(fd))
    ensures Inv(Next(w, Accept(fd)))
  {
    hide AllOf, Share, ChannelInv;
    var r := Next(w, Accept(fd));
    if fd < MAX_FD {
      AcceptTally(w, fd, r.batch, r.shared);
    }
  }

  lemma AgainInv(w: World)
    requires Inv(w)
    ensures Inv(Next(w, Again))
  {
    AgainTally(w.batch, w.shared);
  }

  lemma TakeInv(w: World)
    requires Inv(w) && Enabled(w, Take)
    ensures Inv(Next(w, Take))
  {
    assert AllOf([]) == multiset{};
  }

  lemma DispatchInv(w: World, sent: nat)
    requires Inv(w) && HasNext(w, Dispatch(sent))
    ensures Inv(Next(w, Dispatch(sent)))
  {
    var r := Next(w, Dispatch(sent));
    DispatchChannels(w, r, sent);
    DispatchTally(w, r, sent);
  }

  lemma FlushInv(w: World, c: nat, sent: nat)
    requires Inv(w) && Enabled(w, Flush(c, sent))
    ensures Inv(Next(w, Flush(c, sent)))
  {
    var given := Share(w.dispatched, |w.channels|, c);
    assert ChannelInv(w.channels[c], given);
    SendKeeps(w.channels[c], given, sent);
    ChannelStep(w, c, Send(w.channels[c], sent));
  }

  lemma ReceiveInv(w: World, c: nat, n: nat)
    requires Inv(w) && Enabled(w, Receive(c, n))
    ensures Inv(Next(w, Receive(c, n)))
  {
    var given := Share(w.dispatched, |w.channels|, c);
    assert ChannelInv(w.channels[c], given);
    GotKeeps(w.channels[c], given, n);
    ChannelStep(w, c, Got(w.channels[c], n));
  }

  /** Every step keeps the invariant, except a worker's return with odd bytes. */
  lemma StepInv(w: World, step: Step)
    requires Inv(w) && HasNext(w, step) && (step.Leave? ==> !Harm(w, step))
    ensures Inv(Next(w, step))
  {
    match step
    case Accept(fd) => AcceptInv(w, fd);
    case Again => AgainInv(w);
    case Take => TakeInv(w);
    case Dispatch(sent) => DispatchInv(w, sent);
    case Flush(c, sent) => FlushInv(w, c, sent);
    case Receive(c, n) => ReceiveInv(w, c, n);
    case Leave(c) => assert Next(w, step).channels == w.channels;
  }

  // ---------------------------------------------------------------------------------
  // Round robin
  // ---------------------------------------------------------------------------------

  lemma RemainderIs(k: nat, n: nat, q: nat, r: nat)
    requires r < n && k == q * n + r
    ensures k % n == r
  {
    var d := k / n - q;
    assert d * n == r - k % n;
    Multiples(d, n);
  }

  lemma Multiples(d: int, n: int)
    requires n > 0
    ensures d >= 1 ==> d * n >= n
    ensures d <= -1 ==> d * n <= 0 - n
  {
  }

  lemma SameTurn(k: nat, n: nat)
    requires n > 0 && k >= n
    ensures k % n == (k - n) % n
  {
    var q, r := (k - n) / n, (k - n) % n;
    assert k == (q + 1) * n + r;
    RemainderIs(k, n, q + 1, r);
  }

  lemma ShareSnoc(dispatched: seq<seq<Word>>, n: nat, c: nat, k: nat)
    requires n > 0 && |dispatched| == k + 1
    ensures Share(dispatched, n, c) == Share(dispatched[..k], n, c) + if k % n == c then dispatched[k] else []
  {
  }

  lemma {:induction false} ShareOfFew(dispatched: seq<seq<Word>>, n: nat, c: nat)
    requires |dispatched| <= c < n
    ensures Share(dispatched, n, c) == []
    decreases |dispatched|
  {
    if dispatched != [] {
      hide Share;
      var k := |dispatched| - 1;
      ShareOfFew(dispatched[..k], n, c);
      RemainderIs(k, n, 0, k);
      ShareSnoc(dispatched, n, c, k);
    }
  }

  lemma ShareOfRound(dispatched: seq<seq<Word>>, n: nat, c: nat, k: nat)
    requires c <= k < n && |dispatched| == k + 1
    requires k > c ==> Share(dispatched[..k], n, c) == dispatched[..k][c]
    ensures Share(dispatched, n, c) == dispatched[c]
  {
    hide Share;
    RemainderIs(k, n, 0, k);
    ShareSnoc(dispatched, n, c, k);
    if k == c {
      ShareOfFew(dispatched[..c], n, c);
    }
  }

  lemma ShareOfLater(dispatched: seq<seq<Word>>, n: nat, c: nat, k: nat)
    requires c < n <= k && |dispatched| == k + 1
    requires Share(dispatched[..k], n, c) == dispatched[c] + Share(dispatched[..k][n..], n, c)
    ensures Share(dispatched, n, c) == dispatched[c] + Share(dispatched[n..], n, c)
  {
    hide Share;
    var later := dispatched[n..];
    SameTurn(k, n);
    ShareSnoc(dispatched, n, c, k);
    ShareSnoc(later, n, c, k - n);
    assert later[..k - n] == dispatched[..k][n..];
    var last := if k % n == c then dispatched[k] else [];
    WordsRegroup(dispatched[c], Share(later[..k - n], n, c), last);
  }

  lemma WordsRegroup(a: seq<Word>, b: seq<Word>, c: seq<Word>)
    ensures (a + b) + c == a + (b + c)
  {
  }

  /** Worker c is given batch c and then every n-th one. */
  lemma {:induction false} ShareIsEveryNth(dispatched: seq<seq<Word>>, n: nat, c: nat)
    requires c < n
    ensures |dispatched| <= c ==> Share(dispatched, n, c) == []
    ensures c < |dispatched| <= n ==> Share(dispatched, n, c) == dispatched[c]
    ensures n < |dispatched| ==> Share(dispatched, n, c) == dispatched[c] + Share(dispatched[n..], n, c)
    decreases |dispatched|
  {
    hide Share;
    if |dispatched| <= c {
      ShareOfFew(dispatched, n, c);
    } else {
      var k := |dispatched| - 1;
      ShareIsEveryNth(dispatched[..k], n, c);
      if k < n {
        ShareOfRound(dispatched, n, c, k);
      } else {
        if k == n {
          assert dispatched[..k][n..] == [];
          ShareOfFew([], n, c);
          assert dispatched[c] + [] == dispatched[c];
        }
        ShareOfLater(dispatched, n, c, k);
      }
    }
  }

  /**
   * The batch dispatched as number k goes to worker k modulo their number: it stands behind what waits for that
   * worker, of which so many bytes go into its socket. No other worker's channel changes.
   */
  lemma DispatchIs(w: World, sent: nat)
    requires HasNext(w, Dispatch(sent))
    ensures var r, c := Next(w, Dispatch(sent)), |w.dispatched| % |w.channels|;
            && r.dispatched == w.dispatched + [w.private[0]] && r.private == w.private[1..] && |r.channels| == |w.channels|
            && (forall d :: 0 <= d < |w.channels| && d != c ==> r.channels[d] == w.channels[d])
            && r.channels[c].odd == w.channels[c].odd && r.channels[c].registered == w.channels[c].registered
            && |r.channels[c].sock| == |w.channels[c].sock| + sent && w.channels[c].sock <= r.channels[c].sock
            && r.channels[c].sock + r.channels[c].queue == w.channels[c].sock + w.channels[c].queue + EncodeWords(w.private[0])
  {
    hide EncodeWords;
    var c := |w.dispatched| % |w.channels|;
    var ch, more := w.channels[c], EncodeWords(w.private[0]);
    var queue := ch.queue + more;
    assert queue == queue[..sent] + queue[sent..];
    Behind(ch.sock, queue[..sent], queue[sent..]);
    Behind(ch.sock, ch.queue, more);
  }

  // ---------------------------------------------------------------------------------
  // Whole runs
  // ---------------------------------------------------------------------------------

  ghost predicate Run(w: World, steps: seq<Step>)
    decreases |steps|
  {
    steps == [] || (HasNext(w, steps[0]) && Run(Next(w, steps[0]), steps[1..]))
  }

  ghost function After(w: World, steps: seq<Step>): World
    requires Run(w, steps)
    decreases |steps|
  {
    if steps == [] then w else After(Next(w, steps[0]), steps[1..])
  }

  /** A worker returns with odd bytes in its buffer. */
  ghost predicate Loses(w: World, step: Step)
    requires HasNext(w, step)
  {
    step.Leave? && Harm(w, step)
  }

  ghost predicate Lossless(w: World, steps: seq<Step>)
    requires Run(w, steps)
    decreases |steps|
  {
    steps == [] || (!Loses(w, steps[0]) && Lossless(Next(w, steps[0]), steps[1..]))
  }

  lemma {:induction false} RunInv(w: World, steps: seq<Step>)
    requires Inv(w) && Run(w, steps) && Lossless(w, steps)
    ensures Inv(After(w, steps))
    decreases |steps|
  {
    if steps != [] {
      StepInv(w, steps[0]);
      RunInv(Next(w, steps[0]), steps[1..]);
    }
  }

  /** The descriptors a channel holds: registered, and still in its bytes. */
  function Held(ch: Channel): multiset<Word> {
    multiset(ch.registered) + multiset(DecodeWords(ch.odd + ch.sock + ch.queue))
  }

  function Union(ms: seq<multiset<Word>>): multiset<Word> {
    if ms == [] then multiset{} else Union(ms[..|ms| - 1]) + ms[|ms| - 1]
  }

  function AllHeld(channels: seq<Channel>): multiset<Word> {
    Union(seq(|channels|, c requires 0 <= c < |channels| => Held(channels[c])))
  }

  /** What each of n workers is given. */
  function Given(dispatched: seq<seq<Word>>, n: nat): (ms: seq<multiset<Word>>)
    requires n > 0
    ensures |ms| == n && forall c :: 0 <= c < n ==> ms[c] == multiset(Share(dispatched, n, c))
  {
    seq(n, c requires 0 <= c < n => multiset(Share(dispatched, n, c)))
  }

  lemma {:induction false} UnionReplaced(ms: seq<multiset<Word>>, c: nat, m: multiset<Word>)
    requires c < |ms|
    ensures Union(ms[c := m]) + ms[c] == Union(ms) + m
    decreases |ms|
  {
    var k := |ms| - 1;
    if c < k {
      UnionReplaced(ms[..k], c, m);
      assert ms[c := m][..k] == ms[..k][c := m];
      AddBoth(Union(ms[..k][c := m]), ms[c], Union(ms[..k]), m, ms[k]);
    } else {
      assert ms[c := m][..k] == ms[..k];
      Exchange(Union(ms[..k]), ms[c], m);
    }
  }

  lemma {:induction false} UnionOfNone(ms: seq<multiset<Word>>)
    requires forall c :: 0 <= c < |ms| ==> ms[c] == multiset{}
    ensures Union(ms) == multiset{}
    decreases |ms|
  {
    if ms != [] {
      UnionOfNone(ms[..|ms| - 1]);
    }
  }

  lemma {:induction false} UnionAt(ms: seq<multiset<Word>>, a: nat, fd: Word)
    requires a < |ms|
    ensures Union(ms)[fd] >= ms[a][fd]
    decreases |ms|
  {
    var k := |ms| - 1;
    if a < k {
      UnionAt(ms[..k], a, fd);
    }
  }

  lemma {:induction false} UnionTwice(ms: seq<multiset<Word>>, a: nat, b: nat, fd: Word)
    requires a < b < |ms|
    ensures Union(ms)[fd] >= ms[a][fd] + ms[b][fd]
    decreases |ms|
  {
    var k := |ms| - 1;
    if b < k {
      UnionTwice(ms[..k], a, b, fd);
    } else {
      UnionAt(ms[..k], a, fd);
    }
  }

  lemma Cut(given: seq<Word>, k: nat)
    requires k <= |given|
    ensures multiset(given) == multiset(given[..k]) + multiset(given[k..])
  {
    assert given == given[..k] + given[k..];
  }

  lemma HeldIsGiven(ch: Channel, given: seq<Word>)
    requires ChannelInv(ch, given)
    ensures Held(ch) == multiset(given)
  {
    DecodeEncode(given[|ch.registered|..]);
    Cut(given, |ch.registered|);
  }

  lemma AllHeldIsGiven(w: World)
    requires Channels(w) && w.channels != []
    ensures AllHeld(w.channels) == Union(Given(w.dispatched, |w.channels|))
  {
    var n := |w.channels|;
    var held := seq(n, c requires 0 <= c < n => Held(w.channels[c]));
    forall c | 0 <= c < n
      ensures held[c] == Given(w.dispatched, n)[c]
    {
      assert ChannelInv(w.channels[c], Share(w.dispatched, n, c));
      HeldIsGiven(w.channels[c], Share(w.dispatched, n, c));
    }
    assert held == Given(w.dispatched, n);
  }

  lemma GivenAt(dispatched: seq<seq<Word>>, batch: seq<Word>, n: nat, c: nat)
    requires n > 0
    ensures multiset(Share(dispatched + [batch], n, c)) ==
            if c == |dispatched| % n then multiset(Share(dispatched, n, c)) + multiset(batch) else multiset(Share(dispatched, n, c))
  {
    ShareNext(dispatched, batch, n, c);
    assert Share(dispatched, n, c) + [] == Share(dispatched, n, c);
  }

  lemma GivenNext(dispatched: seq<seq<Word>>, batch: seq<Word>, n: nat, turn: nat)
    requires n > 0 && turn == |dispatched| % n
    ensures var ms := Given(dispatched, n); Given(dispatched + [batch], n) == ms[turn := ms[turn] + multiset(batch)]
  {
    var ms, next := Given(dispatched, n), Given(dispatched + [batch], n);
    forall c | 0 <= c < n
      ensures next[c] == if c == turn then ms[c] + multiset(batch) else ms[c]
    {
      GivenAt(dispatched, batch, n, c);
    }
  }

  lemma Cancel(a: multiset<Word>, o: multiset<Word>, b: multiset<Word>, m: multiset<Word>)
    requires a + o == b + (o + m)
    ensures a == b + m
  {
    assert a == (a + o) - o == (b + (o + m)) - o;
    assert b + (o + m) == (b + m) + o;
  }

  /** The workers together are given every batch once. */
  lemma {:induction false} AllGiven(dispatched: seq<seq<Word>>, n: nat)
    requires n > 0
    ensures Union(Given(dispatched, n)) == AllOf(dispatched)
    decreases |dispatched|
  {
    if dispatched == [] {
      UnionOfNone(Given([], n));
    } else {
      var k := |dispatched| - 1;
      var before, batch, turn := dispatched[..k], dispatched[k], k % n;
      var ms := Given(before, n);
      assert dispatched == before + [batch];
      AllGiven(before, n);
      GivenNext(before, batch, n, turn);
      UnionReplaced(ms, turn, ms[turn] + multiset(batch));
      Cancel(Union(Given(dispatched, n)), ms[turn], Union(ms), multiset(batch));
      AllOfSnoc(before, batch);
    }
  }

  /** All descriptors there are: in the batch, on the two lists, registered, and in the bytes of the channels. */
  function Total(w: World): multiset<Word> {
    multiset(w.batch) + AllOf(w.shared) + AllOf(w.private) + AllHeld(w.channels)
  }

  lemma Conserved(w: World)
    requires Inv(w)
    ensures w.accepted == Total(w)
  {
    if w.channels != [] {
      AllHeldIsGiven(w);
      AllGiven(w.dispatched, |w.channels|);
    }
  }

  /** What a worker has registered is the beginning of what it was given, in that order; its channel holds the rest. */
  lemma RegisteredInOrder(workers: nat, steps: seq<Step>, c: nat)
    requires Run(Init(workers), steps) && Lossless(Init(workers), steps) && c < |After(Init(workers), steps).channels|
    ensures var w := After(Init(workers), steps);
            var ch, given := w.channels[c], Share(w.dispatched, |w.channels|, c);
            ch.registered <= given && DecodeWords(ch.odd + ch.sock + ch.queue) == given[|ch.registered|..] && |ch.odd| < 4
  {
    InitInv(workers);
    RunInv(Init(workers), steps);
    var w := After(Init(workers), steps);
    assert ChannelInv(w.channels[c], Share(w.dispatched, |w.channels|, c));
    DecodeEncode(Share(w.dispatched, |w.channels|, c)[|w.channels[c].registered|..]);
  }

  lemma HeldTwice(channels: seq<Channel>, a: nat, b: nat, fd: Word)
    requires a < b < |channels|
    ensures AllHeld(channels)[fd] >= Held(channels[a])[fd] + Held(channels[b])[fd]
  {
    UnionTwice(seq(|channels|, c requires 0 <= c < |channels| => Held(channels[c])), a, b, fd);
  }

  /** A descriptor accepted once is never with two workers, nor with one and still on its way to another. */
  lemma NeverTwoWorkers(workers: nat, steps: seq<Step>, a: nat, b: nat, fd: Word)
    requires Run(Init(workers), steps) && Lossless(Init(workers), steps)
    requires var w := After(Init(workers), steps);
             a < b < |w.channels| && w.accepted[fd] <= 1 && fd in Held(w.channels[a])
    ensures fd !in Held(After(Init(workers), steps).channels[b])
  {
    InitInv(workers);
    RunInv(Init(workers), steps);
    Conserved(After(Init(workers), steps));
    HeldTwice(After(Init(workers), steps).channels, a, b, fd);
  }

  ghost predicate Drained(w: World) {
    && w.batch == [] && w.shared == [] && w.private == []
    && forall c :: 0 <= c < |w.channels| ==> w.channels[c].odd + w.channels[c].sock + w.channels[c].queue == []
  }

  function AllRegistered(channels: seq<Channel>): multiset<Word> {
    Union(seq(|channels|, c requires 0 <= c < |channels| => multiset(channels[c].registered)))
  }

  lemma HeldWhenEmpty(channels: seq<Channel>)
    requires forall c :: 0 <= c < |channels| ==> channels[c].odd + channels[c].sock + channels[c].queue == []
    ensures AllHeld(channels) == AllRegistered(channels)
  {
    var n := |channels|;
    var held := seq(n, c requires 0 <= c < n => Held(channels[c]));
    var registered := seq(n, c requires 0 <= c < n => multiset(channels[c].registered));
    forall c | 0 <= c < n
      ensures held[c] == registered[c]
    {
      assert DecodeWords([]) == [];
    }
    assert held == registered;
  }

  /** Once everything has drained, the workers have registered exactly what was accepted. */
  lemma AllDelivered(workers: nat, steps: seq<Step>)
    requires Run(Init(workers), steps) && Lossless(Init(workers), steps) && Drained(After(Init(workers), steps))
    ensures var w := After(Init(workers), steps); w.accepted == AllRegistered(w.channels)
  {
    InitInv(workers);
    RunInv(Init(workers), steps);
    Conserved(After(Init(workers), steps));
    HeldWhenEmpty(After(Init(workers), steps).channels);
  }

  // ---------------------------------------------------------------------------------
  // When the odd bytes are lost
  // ---------------------------------------------------------------------------------

  lemma OddCount(odd: nat, queue: nat, whole: nat)
    requires odd + queue == 4 * whole && odd < 4
    ensures odd != 0 <==> queue % 4 != 0
  {
  }

  /**
   * A worker whose socket is empty loses bytes on returning exactly when the dispatcher's send buffer
   * for it ends in the middle of a word: a send was cut there and the rest has not been sent.
   */
  lemma LosesIff(w: World, c: nat)
    requires Inv(w) && Enabled(w, Leave(c))
    ensures Harm(w, Leave(c)) <==> |w.channels[c].queue| % 4 != 0
  {
    var ch, given := w.channels[c], Share(w.dispatched, |w.channels|, c);
    assert ChannelInv(ch, given);
    assert ch.odd + ch.sock + ch.queue == ch.odd + ch.queue;
    OddCount(|ch.odd|, |ch.queue|, |given| - |ch.registered|);
  }

  /** Bytes of whole descriptors, registered or not, and odd ones. */
  function Weight(ch: Channel): nat {
    4 * |ch.registered| + |ch.odd| + |ch.sock| + |ch.queue|
  }

  /** Holds in every run, with losses or without: a channel has no more than its worker was given. */
  ghost predicate Bounded(w: World) {
    && Tally(w) && (w.channels == [] ==> w.dispatched == [])
    && forall c :: 0 <= c < |w.channels| ==> Weight(w.channels[c]) <= 4 * |Share(w.dispatched, |w.channels|, c)|
  }

  /** A channel has less. */
  ghost predicate Lacks(w: World, c: nat) {
    c < |w.channels| && Weight(w.channels[c]) < 4 * |Share(w.dispatched, |w.channels|, c)|
  }

  lemma InvBounded(w: World)
    requires Inv(w)
    ensures Bounded(w)
  {
    forall c | 0 <= c < |w.channels|
      ensures Weight(w.channels[c]) == 4 * |Share(w.dispatched, |w.channels|, c)|
    {
      GivenWeight(w.channels[c], Share(w.dispatched, |w.channels|, c));
    }
  }

  lemma GivenWeight(ch: Channel, given: seq<Word>)
    requires ChannelInv(ch, given)
    ensures Weight(ch) == 4 * |given|
  {
    assert |ch.odd + ch.sock + ch.queue| == |EncodeWords(given[|ch.registered|..])|;
  }

  lemma GotWeight(ch: Channel, n: nat)
    requires n <= |ch.sock|
    ensures Weight(Got(ch, n)) == Weight(ch)
  {
    var buffer := ch.odd + ch.sock[..n];
    assert |buffer| == 4 * |DecodeWords(buffer)| + |Leftover(buffer)|;
  }

  lemma TallyKept(w: World, step: Step)
    requires Tally(w) && HasNext(w, step)
    ensures Tally(Next(w, step))
  {
    var r := Next(w, step);
    match step
    case Accept(fd) =>
      if fd < MAX_FD {
        AcceptTally(w, fd, r.batch, r.shared);
      }
    case Again => AgainTally(w.batch, w.shared);
    case Take => assert AllOf([]) == multiset{};
    case Dispatch(sent) => DispatchTally(w, r, sent);
    case _ =>
  }

  /** A step moves the weight of a channel and what its worker was given alike; only a return with odd bytes takes weight away. */
  lemma WeightStep(w: World, step: Step, c: nat)
    requires HasNext(w, step) && c < |w.channels|
    ensures |Next(w, step).channels| == |w.channels|
    ensures var r, n := Next(w, step), |w.channels|;
            Weight(r.channels[c]) - 4 * |Share(r.dispatched, n, c)| ==
            Weight(w.channels[c]) - 4 * |Share(w.dispatched, n, c)| - (if step == Leave(c) then |w.channels[c].odd| else 0)
  {
    match step
    case Dispatch(sent) => ShareNext(w.dispatched, w.private[0], |w.channels|, c);
    case Receive(k, n) =>
      if k == c {
        GotWeight(w.channels[c], n);
      }
    case _ =>
  }

  lemma BoundedStep(w: World, step: Step)
    requires Bounded(w) && HasNext(w, step)
    ensures Bounded(Next(w, step))
  {
    hide Weight, Share, Tally, Next;
    TallyKept(w, step);
    StillEmpty(w, step);
    forall c | 0 <= c < |Next(w, step).channels|
      ensures Weight(Next(w, step).channels[c]) <= 4 * |Share(Next(w, step).dispatched, |w.channels|, c)|
    {
      WeightStep(w, step, c);
    }
  }

  lemma StillEmpty(w: World, step: Step)
    requires HasNext(w, step) && (w.channels == [] ==> w.dispatched == [])
    ensures |Next(w, step).channels| == |w.channels|
    ensures Next(w, step).channels == [] ==> Next(w, step).dispatched == []
  {
  }

  lemma {:induction false} LackStays(w: World, c: nat, steps: seq<Step>)
    requires Bounded(w) && Lacks(w, c) && Run(w, steps)
    ensures Bounded(After(w, steps)) && Lacks(After(w, steps), c)
    decreases |steps|
  {
    if steps != [] {
      BoundedStep(w, steps[0]);
      WeightStep(w, steps[0], c);
      LackStays(Next(w, steps[0]), c, steps[1..]);
    }
  }

  lemma HeldFits(ch: Channel)
    ensures 4 * |Held(ch)| <= Weight(ch)
  {
    var bytes := ch.odd + ch.sock + ch.queue;
    assert 4 * |DecodeWords(bytes)| <= |bytes|;
  }

  lemma {:induction false} UnionSize(a: seq<multiset<Word>>, b: seq<multiset<Word>>)
    requires |a| == |b| && forall c :: 0 <= c < |a| ==> |a[c]| <= |b[c]|
    ensures |Union(a)| <= |Union(b)|
    ensures (exists c :: 0 <= c < |a| && |a[c]| < |b[c]|) ==> |Union(a)| < |Union(b)|
    decreases |a|
  {
    if a != [] {
      var k := |a| - 1;
      UnionSize(a[..k], b[..k]);
      if c :| 0 <= c < |a| && |a[c]| < |b[c]| {
        assert c == k || (a[..k][c] == a[c] && b[..k][c] == b[c]);
      }
    }
  }

  lemma SubsetSize(a: multiset<Word>, b: multiset<Word>)
    requires forall x :: b[x] <= a[x]
    ensures |b| <= |a|
  {
    assert a == b + (a - b);
  }

  lemma SomeMissing(a: multiset<Word>, b: multiset<Word>) returns (fd: Word)
    requires |a| < |b|
    ensures a[fd] < b[fd]
  {
    if forall x :: b[x] <= a[x] {
      SubsetSize(a, b);
    }
    fd :| a[fd] < b[fd];
  }

  lemma LackingWorld(w: World, c: nat)
    requires Bounded(w) && Lacks(w, c)
    ensures |AllHeld(w.channels)| < |AllOf(w.dispatched)|
  {
    var n := |w.channels|;
    var held, given := seq(n, k requires 0 <= k < n => Held(w.channels[k])), Given(w.dispatched, n);
    forall k | 0 <= k < n
      ensures 4 * |held[k]| <= Weight(w.channels[k]) && |given[k]| == |Share(w.dispatched, n, k)|
    {
      HeldFits(w.channels[k]);
    }
    assert |held[c]| < |given[c]|;
    UnionSize(held, given);
    AllGiven(w.dispatched, n);
  }

  lemma Smaller(accepted: multiset<Word>, rest: multiset<Word>, held: multiset<Word>, given: multiset<Word>)
    requires accepted == rest + given && |held| < |given|
    ensures |rest + held| < |accepted|
  {
    assert |rest + held| == |rest| + |held| && |accepted| == |rest| + |given|;
  }

  /** A channel that lacks weight means a descriptor is missing from the whole system. */
  lemma LackIsMissing(w: World, c: nat) returns (fd: Word)
    requires Bounded(w) && Lacks(w, c)
    ensures Total(w)[fd] < w.accepted[fd]
  {
    LackingWorld(w, c);
    var rest := multiset(w.batch) + AllOf(w.shared) + AllOf(w.private);
    Smaller(w.accepted, rest, AllHeld(w.channels), AllOf(w.dispatched));
    fd := SomeMissing(rest + AllHeld(w.channels), w.accepted);
  }

  lemma LossLacks(w: World, c: nat)
    requires Bounded(w) && HasNext(w, Leave(c)) && Harm(w, Leave(c))
    ensures Bounded(Next(w, Leave(c))) && Lacks(Next(w, Leave(c)), c)
  {
    BoundedStep(w, Leave(c));
    WeightStep(w, Leave(c), c);
  }

  /** The loss is for good: after it, whatever happens, some descriptor has been accepted more often than it is anywhere. */
  lemma LossBreaksConservation(w: World, c: nat, steps: seq<Step>) returns (fd: Word)
    requires Inv(w) && HasNext(w, Leave(c)) && Harm(w, Leave(c)) && Run(Next(w, Leave(c)), steps)
    ensures var r := After(Next(w, Leave(c)), steps); Total(r)[fd] < r.accepted[fd]
  {
    InvBounded(w);
    LossLacks(w, c);
    LackStays(Next(w, Leave(c)), c, steps);
    fd := LackIsMissing(After(Next(w, Leave(c)), steps), c);
  }

  lemma {:induction false} LossyRunLacks(w: World, steps: seq<Step>) returns (c: nat)
    requires Bounded(w) && Run(w, steps) && !Lossless(w, steps)
    ensures Bounded(After(w, steps)) && Lacks(After(w, steps), c)
    decreases |steps|
  {
    if Loses(w, steps[0]) {
      c := steps[0].channel;
      LossLacks(w, c);
      LackStays(Next(w, steps[0]), c, steps[1..]);
    } else {
      BoundedStep(w, steps[0]);
      c := LossyRunLacks(Next(w, steps[0]), steps[1..]);
    }
  }

  /**
   * Conservation. After any run the descriptors accepted (below MAX_FD) are those in the batch, on the
   * shared list, on the dispatcher's list, and, for each worker, registered or in the bytes of its
   * channel, each as often as it was accepted, if and only if no worker ever returned with odd bytes.
   */
  lemma Conservation(workers: nat, steps: seq<Step>)
    requires Run(Init(workers), steps)
    ensures After(Init(workers), steps).accepted == Total(After(Init(workers), steps)) <==> Lossless(Init(workers), steps)
  {
    InitInv(workers);
    if Lossless(Init(workers), steps) {
      RunInv(Init(workers), steps);
      Conserved(After(Init(workers), steps));
    } else {
      InvBounded(Init(workers));
      var c := LossyRunLacks(Init(workers), steps);
      var fd := LackIsMissing(After(Init(workers), steps), c);
    }
  }

  lemma RunCons(w: World, step: Step, steps: seq<Step>)
    requires HasNext(w, step) && Run(Next(w, step), steps)
    ensures Run(w, [step] + steps) && After(w, [step] + steps) == After(Next(w, step), steps)
    ensures Lossless(w, [step] + steps) <==> !Loses(w, step) && Lossless(Next(w, step), steps)
  {
    assert ([step] + steps)[1..] == steps;
  }

  lemma {:induction false} RunConcat(w: World, a: seq<Step>, b: seq<Step>)
    requires Run(w, a) && Run(After(w, a), b)
    ensures Run(w, a + b) && After(w, a + b) == After(After(w, a), b)
    ensures Lossless(w, a + b) <==> Lossless(w, a) && Lossless(After(w, a), b)
    decreases |a|
  {
    hide Next, HasNext, Loses;
    if a == [] {
      assert a + b == b;
    } else {
      RunConcat(Next(w, a[0]), a[1..], b);
      assert a + b == [a[0]] + (a[1..] + b);
      RunCons(w, a[0], a[1..] + b);
    }
  }

  // ---------------------------------------------------------------------------------
  // Whatever has been accepted can still be delivered
  // ---------------------------------------------------------------------------------

  /** No step of the run is one the code does not guard against. */
  ghost predicate Harmless(w: World, steps: seq<Step>)
    requires Run(w, steps)
    decreases |steps|
  {
    steps == [] || (!Harm(w, steps[0]) && Harmless(Next(w, steps[0]), steps[1..]))
  }

  lemma HarmlessCons(w: World, step: Step, steps: seq<Step>)
    requires HasNext(w, step) && Run(Next(w, step), steps)
    requires !Harm(w, step) && Harmless(Next(w, step), steps)
    ensures Run(w, [step] + steps) && Harmless(w, [step] + steps)
    ensures After(w, [step] + steps) == After(Next(w, step), steps)
  {
    assert ([step] + steps)[1..] == steps;
  }

  ghost predicate Fits(w: World) {
    && |w.batch| < MAX_ACCEPT
    && (forall i :: 0 <= i < |w.shared| ==> |w.shared[i]| <= MAX_ACCEPT)
    && (forall i :: 0 <= i < |w.private| ==> |w.private[i]| <= MAX_ACCEPT)
  }

  lemma FitsStep(w: World, step: Step)
    requires Fits(w) && HasNext(w, step)
    ensures Fits(Next(w, step))
  {
  }

  lemma {:induction false} FitsRun(w: World, steps: seq<Step>)
    requires Fits(w) && Run(w, steps)
    ensures Fits(After(w, steps)) && |After(w, steps).channels| == |w.channels|
    decreases |steps|
  {
    if steps != [] {
      FitsStep(w, steps[0]);
      FitsRun(Next(w, steps[0]), steps[1..]);
    }
  }

  function InQueue(ch: Channel): nat {
    |ch.queue|
  }

  function InSocket(ch: Channel): nat {
    |ch.sock|
  }

  function Load(channels: seq<Channel>, f: Channel -> nat): nat {
    if channels == [] then 0 else Load(channels[..|channels| - 1], f) + f(channels[|channels| - 1])
  }

  lemma {:induction false} LoadUpdate(channels: seq<Channel>, c: nat, ch: Channel, f: Channel -> nat)
    requires c < |channels|
    ensures Load(channels[c := ch], f) + f(channels[c]) == Load(channels, f) + f(ch)
    decreases |channels|
  {
    var k := |channels| - 1;
    if c < k {
      LoadUpdate(channels[..k], c, ch, f);
      assert channels[c := ch][..k] == channels[..k][c := ch];
    } else {
      assert channels[c := ch][..k] == channels[..k];
    }
  }

  lemma RoomToReceive(ch: Channel, given: seq<Word>) returns (n: nat)
    requires ChannelInv(ch, given) && ch.queue == [] && ch.sock != []
    ensures 0 < n <= |ch.sock| && 4 <= |ch.odd| + n <= RECEIVE_BUFFER
  {
    assert |ch.odd| + |ch.sock| == |EncodeWords(given[|ch.registered|..])|;
    n := Min(|ch.sock|, RECEIVE_BUFFER - |ch.odd|);
  }

  lemma NothingOdd(ch: Channel, given: seq<Word>)
    requires ChannelInv(ch, given) && ch.queue == [] && ch.sock == []
    ensures ch.odd + ch.sock + ch.queue == []
  {
    assert |ch.odd| == |EncodeWords(given[|ch.registered|..])|;
  }

  lemma FlushStep(w: World, c: nat)
    requires c < |w.channels| && w.channels[c].queue != []
    ensures var step := Flush(c, |w.channels[c].queue|);
            && HasNext(w, step) && !Harm(w, step)
            && var r := Next(w, step);
               && r.accepted == w.accepted && r.batch == w.batch && r.shared == w.shared && r.private == w.private
               && Load(r.channels, InQueue) < Load(w.channels, InQueue)
  {
    LoadUpdate(w.channels, c, Send(w.channels[c], |w.channels[c].queue|), InQueue);
  }

  lemma ReceiveSome(w: World, c: nat) returns (n: nat)
    requires Inv(w) && c < |w.channels| && w.channels[c].queue == [] && w.channels[c].sock != []
    ensures var step := Receive(c, n);
            && HasNext(w, step) && !Harm(w, step)
            && var r := Next(w, step);
               && r.accepted == w.accepted && r.batch == w.batch && r.shared == w.shared && r.private == w.private
               && Load(r.channels, InQueue) == Load(w.channels, InQueue)
               && Load(r.channels, InSocket) < Load(w.channels, InSocket)
  {
    var ch, given := w.channels[c], Share(w.dispatched, |w.channels|, c);
    assert ChannelInv(ch, given);
    n := RoomToReceive(ch, given);
    LoadUpdate(w.channels, c, Got(ch, n), InQueue);
    LoadUpdate(w.channels, c, Got(ch, n), InSocket);
  }

  lemma DispatchFits(w: World)
    requires Fits(w) && w.channels != [] && w.private != [] && forall c :: 0 <= c < |w.channels| ==> w.channels[c].queue == []
    ensures HasNext(w, Dispatch(0)) && !Harm(w, Dispatch(0))
  {
    assert w.channels[Turn(w)].queue == [];
  }

  /** A step that brings everything nearer to its worker, when there is anything left to bring. */
  lemma NextToDo(w: World) returns (step: Step)
    requires Inv(w) && Fits(w) && w.channels != [] && !Drained(w)
    ensures HasNext(w, step) && !Harm(w, step)
    ensures var r := Next(w, step);
            && r.accepted == w.accepted && |r.channels| == |w.channels|
            && (|r.batch| < |w.batch| || (|r.batch| == |w.batch|
                && (2 * |r.shared| + |r.private| < 2 * |w.shared| + |w.private| || (r.shared == w.shared && r.private == w.private
                    && (Load(r.channels, InQueue) < Load(w.channels, InQueue) || (Load(r.channels, InQueue) == Load(w.channels, InQueue)
                        && Load(r.channels, InSocket) < Load(w.channels, InSocket)))))))
  {
    hide Inv, Load;
    if c: nat :| c < |w.channels| && w.channels[c].queue != [] {
      FlushStep(w, c);
      return Flush(c, |w.channels[c].queue|);
    }
    if c: nat :| c < |w.channels| && w.channels[c].sock != [] {
      var n := ReceiveSome(w, c);
      return Receive(c, n);
    }
    if w.batch != [] {
      return Again;
    }
    if w.private != [] {
      DispatchFits(w);
      return Dispatch(0);
    }
    if w.shared == [] {
      IdleIsDrained(w);
      assert false;
    }
    return Take;
  }

  lemma IdleIsDrained(w: World)
    requires Inv(w) && w.batch == [] && w.shared == [] && w.private == []
    requires forall c :: 0 <= c < |w.channels| ==> w.channels[c].queue == [] && w.channels[c].sock == []
    ensures Drained(w)
  {
    forall c | 0 <= c < |w.channels|
      ensures w.channels[c].odd + w.channels[c].sock + w.channels[c].queue == []
    {
      assert ChannelInv(w.channels[c], Share(w.dispatched, |w.channels|, c));
      NothingOdd(w.channels[c], Share(w.dispatched, |w.channels|, c));
    }
  }

  lemma {:induction false} CanDrain(w: World) returns (steps: seq<Step>)
    requires Inv(w) && Fits(w) && w.channels != []
    ensures Run(w, steps) && Harmless(w, steps)
    ensures Inv(After(w, steps)) && Drained(After(w, steps)) && After(w, steps).accepted == w.accepted
    decreases |w.batch|, 2 * |w.shared| + |w.private|, Load(w.channels, InQueue), Load(w.channels, InSocket)
  {
    hide Inv, Fits, Next, HasNext, Harm, Load, Drained;
    steps := [];
    if !Drained(w) {
      var step := NextToDo(w);
      StepInv(w, step);
      FitsStep(w, step);
      var rest := CanDrain(Next(w, step));
      HarmlessCons(w, step, rest);
      steps := [step] + rest;
    }
  }

  /**
   * Nothing gets stuck: from every state a run without a loss reaches there are steps, none of which the
   * code fails to guard against and none of which accepts anything, after which the workers have
   * registered exactly what was accepted.
   */
  lemma CanDeliverAll(workers: nat, steps: seq<Step>) returns (more: seq<Step>)
    requires workers > 0 && Run(Init(workers), steps) && Lossless(Init(workers), steps)
    ensures var w := After(Init(workers), steps);
            && Run(w, more) && Harmless(w, more)
            && After(w, more).accepted == w.accepted == AllRegistered(After(w, more).channels)
  {
    InitInv(workers);
    RunInv(Init(workers), steps);
    FitsRun(Init(workers), steps);
    var w := After(Init(workers), steps);
    more := CanDrain(w);
    Conserved(After(w, more));
    HeldWhenEmpty(After(w, more).channels);
  }

  // It happens: of two descriptors accepted, six bytes are sent and received, and the worker returns.

  const BOTH: seq<Word> := [5, 6]

  lemma TwoTaken()
    ensures var steps := [Accept(5), Accept(6), Again, Take];
            Run(Init(1), steps) && Lossless(Init(1), steps)
            && After(Init(1), steps) == World(multiset{5, 6}, [], [], [BOTH], [], [QUIET])
  {
    var w0 := Init(1);
    var w1 := World(multiset{5}, [5], [], [], [], [QUIET]);
    var w2 := World(multiset{5, 6}, BOTH, [], [], [], [QUIET]);
    var w3 := World(multiset{5, 6}, [], [BOTH], [], [], [QUIET]);
    assert w0.channels == [QUIET] && w0.accepted + multiset{5} == w1.accepted;
    assert w1.accepted + multiset{6} == w2.accepted;
    assert Next(w0, Accept(5)) == w1 && Next(w1, Accept(6)) == w2 && Next(w2, Again) == w3;
    RunCons(w3, Take, []);
    RunCons(w2, Again, [Take]);
    RunCons(w1, Accept(6), [Again, Take]);
    RunCons(w0, Accept(5), [Accept(6), Again, Take]);
  }

  lemma SixSent(w: World, bytes: seq<Byte>)
    requires w.channels == [QUIET] && w.private == [BOTH] && w.dispatched == [] && bytes == EncodeWords(BOTH)
    ensures HasNext(w, Dispatch(6)) && HasNext(Next(w, Dispatch(6)), Receive(0, 6))
    ensures Next(w, Dispatch(6)).channels[0] == Channel([], bytes[..6], bytes[6..], [])
    ensures |Next(Next(w, Dispatch(6)), Receive(0, 6)).channels| == 1
    ensures Next(Next(w, Dispatch(6)), Receive(0, 6)).channels[0] == Got(Channel([], bytes[..6], bytes[6..], []), 6)
  {
    assert [] + bytes == bytes && [] + bytes[..6] == bytes[..6];
  }

  lemma TwoOdd(ch: Channel)
    requires ch.odd == [] && |ch.sock| == 6
    ensures |Got(ch, 6).odd| == 2 && Got(ch, 6).sock == []
  {
    assert ch.odd + ch.sock[..6] == ch.sock;
  }

  /** A run with a loss. */
  lemma LossHappens()
    ensures var steps := [Accept(5), Accept(6), Again, Take] + [Dispatch(6), Receive(0, 6), Leave(0)];
            Run(Init(1), steps) && !Lossless(Init(1), steps)
  {
    hide Next;
    TwoTaken();
    var bytes := EncodeWords(BOTH);
    var w := World(multiset{5, 6}, [], [], [BOTH], [], [QUIET]);
    SixSent(w, bytes);
    TwoOdd(Channel([], bytes[..6], bytes[6..], []));
    var v := Next(Next(w, Dispatch(6)), Receive(0, 6));
    RunCons(v, Leave(0), []);
    RunCons(Next(w, Dispatch(6)), Receive(0, 6), [Leave(0)]);
    RunCons(w, Dispatch(6), [Receive(0, 6), Leave(0)]);
    RunConcat(Init(1), [Accept(5), Accept(6), Again, Take], [Dispatch(6), Receive(0, 6), Leave(0)]);
  }

  // ---------------------------------------------------------------------------------
  // The loops
  // ---------------------------------------------------------------------------------

  /** The steps of one readable event: a receive for each count, and the return. */
  function Event(c: nat, counts: seq<nat>): seq<Step> {
    if counts == [] then [Leave(c)] else [Receive(c, counts[0])] + Event(c, counts[1..])
  }

  /** No recv in the run reaches assert(false). */
  ghost predicate NeverAsserts(w: World, steps: seq<Step>)
    requires Run(w, steps)
    decreases |steps|
  {
    steps == [] || (!(steps[0].Receive? && Harm(w, steps[0])) && NeverAsserts(Next(w, steps[0]), steps[1..]))
  }

  lemma NeverAssertsCons(w: World, step: Step, steps: seq<Step>)
    requires HasNext(w, step) && Run(Next(w, step), steps)
    ensures Run(w, [step] + steps) && After(w, [step] + steps) == After(Next(w, step), steps)
    ensures NeverAsserts(w, [step] + steps) <==> !(step.Receive? && Harm(w, step)) && NeverAsserts(Next(w, step), steps)
  {
    assert ([step] + steps)[1..] == steps;
  }

  lemma DecodeRest(buffer: seq<Byte>, rest: seq<Byte>)
    ensures DecodeWords(buffer + rest) == DecodeWords(buffer) + DecodeWords(Leftover(buffer) + rest)
  {
    var k := |DecodeWords(buffer)|;
    var whole := buffer[..4 * k];
    assert buffer == whole + Leftover(buffer);
    assert buffer + rest == whole + (Leftover(buffer) + rest);
    DecodeConcat(whole, Leftover(buffer) + rest, k);
    DecodeWhole(buffer, 4 * k, k);
  }

  /** What a receive leaves for the rest of the event. */
  lemma GotThen(ch: Channel, n: nat)
    requires |ch.odd| < 4 && n <= |ch.sock|
    ensures var r := Got(ch, n);
            && |r.odd| == Odd(|ch.odd| + n) && |r.sock| == |ch.sock| - n && r.queue == ch.queue
            && r.registered + DecodeWords(r.odd + r.sock) == ch.registered + DecodeWords(ch.odd + ch.sock)
  {
    hide DecodeWords, Leftover, Odd;
    var buffer := ch.odd + ch.sock[..n];
    KeptCount(buffer, |ch.odd| + n, Leftover(buffer));
    DecodeRest(buffer, ch.sock[n..]);
    assert ch.odd + ch.sock == buffer + ch.sock[n..];
  }

  lemma EmptyEvent(w: World, c: nat, sizes: seq<nat>)
    requires c < |w.channels| && |w.channels[c].odd| < 4 && w.channels[c].sock == []
    ensures var ch := w.channels[c];
            && Counts(|ch.odd|, 0, sizes) == [] && NeverShort(|ch.odd|, 0, sizes)
            && Run(w, [Leave(c)]) && NeverAsserts(w, [Leave(c)])
            && After(w, [Leave(c)]) == w.(channels := w.channels[c := Channel([], [], ch.queue, ch.registered + DecodeWords(ch.odd + ch.sock))])
  {
    var ch := w.channels[c];
    assert ch.odd + ch.sock == ch.odd;
    assert DecodeWords(ch.odd) == [] && ch.registered + [] == ch.registered;
    NeverAssertsCons(w, Leave(c), []);
  }

  /**
   * A readable event of a worker is a run of the state machine: the counts recv returns are Receive
   * steps, the EAGAIN is Leave. It registers what GetConnections registers, empties the socket, and
   * reaches the assertion exactly when GetConnections does.
   */
  lemma {:induction false} EventIsSteps(w: World, c: nat, sizes: seq<nat>)
    requires c < |w.channels| && |w.channels[c].odd| < 4
    ensures var ch := w.channels[c];
            var steps := Event(c, Counts(|ch.odd|, |ch.sock|, sizes));
            && Run(w, steps)
            && After(w, steps) == w.(channels := w.channels[c := Channel([], [], ch.queue, ch.registered + DecodeWords(ch.odd + ch.sock))])
            && (NeverAsserts(w, steps) <==> NeverShort(|ch.odd|, |ch.sock|, sizes))
    decreases |w.channels[c].sock|
  {
    hide DecodeWords, Leftover, Odd, Counts, NeverShort, Brought, Run, After, NeverAsserts;
    var ch := w.channels[c];
    if ch.sock == [] {
      EmptyEvent(w, c, sizes);
    } else {
      var n := Brought(sizes, |ch.sock|, RECEIVE_BUFFER - |ch.odd|);
      var next := Next(w, Receive(c, n));
      GotThen(ch, n);
      EventIsSteps(next, c, Later(sizes));
      var rest := Event(c, Counts(|next.channels[c].odd|, |next.channels[c].sock|, Later(sizes)));
      ShortStep(|ch.odd|, |ch.sock|, sizes, n, |next.channels[c].odd|);
      NeverAssertsCons(w, Receive(c, n), rest);
    }
  }

  /** What accept returns: a descriptor, an error that ends the event (EAGAIN and the like), or another error. */
  datatype Result = Fd(fd: int) | WouldBlock | Fatal

  /** The batch and list after these results, and whether the process has exited; WouldBlock when they run out. */
  function AcceptAll(batch: seq<Word>, shared: seq<seq<Word>>, results: seq<Result>): (seq<seq<Word>>, bool)
    decreases |results|
  {
    if results == [] || results[0].WouldBlock? then (Pushed(batch, shared), false)
    else if results[0].Fatal? || !(0 < results[0].fd < 0x8000_0000) then (shared, true)
    else
      var (b, s) := Accepted(batch, shared, results[0].fd);
      AcceptAll(b, s, results[1..])
  }

  /** The descriptors on a list, those accepted first first. */
  function OldestFirst(shared: seq<seq<Word>>): seq<Word> {
    if shared == [] then [] else OldestFirst(shared[1..]) + shared[0]
  }

  /** The descriptors kept of these results, in order, up to the one that ends the event. */
  function Kept(results: seq<Result>): seq<Word>
    decreases |results|
  {
    if results == [] || !results[0].Fd? || !(0 < results[0].fd < 0x8000_0000) then []
    else (if results[0].fd < MAX_FD then [results[0].fd] else []) + Kept(results[1..])
  }

  /** Those closed again because they are too large. */
  function Refused(results: seq<Result>): seq<Word>
    decreases |results|
  {
    if results == [] || !results[0].Fd? || !(0 < results[0].fd < 0x8000_0000) then []
    else (if results[0].fd < MAX_FD then [] else [results[0].fd]) + Refused(results[1..])
  }

  lemma RefusedStep(results: seq<Result>, k: nat)
    requires k < |results| && results[k].Fd? && 0 < results[k].fd < 0x8000_0000
    ensures Refused(results[k..]) == (if results[k].fd < MAX_FD then [] else [results[k].fd]) + Refused(results[k + 1..])
  {
    assert results[k..][1..] == results[k + 1..];
  }

  lemma PushedInOrder(batch: seq<Word>, shared: seq<seq<Word>>)
    ensures OldestFirst(Pushed(batch, shared)) == OldestFirst(shared) + batch
  {
    if batch == [] {
      assert OldestFirst(shared) + [] == OldestFirst(shared);
    } else {
      assert ([batch] + shared)[1..] == shared;
    }
  }

  lemma AcceptedInOrder(batch: seq<Word>, shared: seq<seq<Word>>, fd: Word)
    ensures var (b, s) := Accepted(batch, shared, fd);
            OldestFirst(s) + b == OldestFirst(shared) + batch + if fd < MAX_FD then [fd] else []
  {
    if fd < MAX_FD && |batch| + 1 >= MAX_ACCEPT {
      PushedInOrder(batch + [fd], shared);
    }
  }

  /** One event of the accept loop puts on the list, behind what was there, exactly the descriptors kept, in the order they came. */
  lemma {:induction false} AcceptAllInOrder(batch: seq<Word>, shared: seq<seq<Word>>, results: seq<Result>)
    requires !AcceptAll(batch, shared, results).1
    ensures OldestFirst(AcceptAll(batch, shared, results).0) == OldestFirst(shared) + batch + Kept(results)
    decreases |results|
  {
    if results == [] || results[0].WouldBlock? {
      PushedInOrder(batch, shared);
    } else {
      var fd := results[0].fd;
      var (b, s) := Accepted(batch, shared, fd);
      AcceptedInOrder(batch, shared, fd);
      AcceptAllInOrder(b, s, results[1..]);
    }
  }

  /** Every batch one event puts on the list is full, except the newest, which is not empty. */
  lemma {:induction false} BatchSizes(batch: seq<Word>, shared: seq<seq<Word>>, results: seq<Result>)
    requires |batch| < 1024 && !AcceptAll(batch, shared, results).1
    ensures var list := AcceptAll(batch, shared, results).0;
            && |shared| <= |list| && list[|list| - |shared|..] == shared
            && forall i :: 0 <= i < |list| - |shared| ==> if i == 0 then 0 < |list[i]| <= 1024 else |list[i]| == 1024
    decreases |results|
  {
    if results == [] || results[0].WouldBlock? {
      assert Pushed(batch, shared)[|Pushed(batch, shared)| - |shared|..] == shared;
    } else {
      var (b, s) := Accepted(batch, shared, results[0].fd);
      BatchSizes(b, s, results[1..]);
      if |s| > |shared| {
        FullBatchUnder(AcceptAll(b, s, results[1..]).0, s, shared);
      }
    }
  }

  lemma FullBatchUnder(list: seq<seq<Word>>, s: seq<seq<Word>>, shared: seq<seq<Word>>)
    requires |s| <= |list| && list[|list| - |s|..] == s && |s| == |shared| + 1 && s[1..] == shared && |s[0]| == 1024
    requires forall i :: 0 <= i < |list| - |s| ==> if i == 0 then 0 < |list[i]| <= 1024 else |list[i]| == 1024
    ensures list[|list| - |shared|..] == shared
    ensures forall i :: 0 <= i < |list| - |shared| ==> if i == 0 then 0 < |list[i]| <= 1024 else |list[i]| == 1024
  {
    var n := |list| - |s|;
    assert list[n + 1..] == list[n..][1..];
    assert list[n] == list[n..][0];
  }

  predicate Good(result: Result) {
    result.Fd? && 0 < result.fd < 0x8000_0000
  }

  /** The process exits on the first result that is no descriptor, unless it says that accept would block. */
  lemma {:induction false} ExitsIff(batch: seq<Word>, shared: seq<seq<Word>>, results: seq<Result>)
    ensures AcceptAll(batch, shared, results).1 <==>
              exists n :: 0 <= n < |results| && !Good(results[n]) && !results[n].WouldBlock? && forall i :: 0 <= i < n ==> Good(results[i])
    decreases |results|
  {
    if results != [] {
      if Good(results[0]) {
        var (b, s) := Accepted(batch, shared, results[0].fd);
        ExitsIff(b, s, results[1..]);
        if n :| 0 <= n < |results| && !Good(results[n]) && !results[n].WouldBlock? && forall i :: 0 <= i < n ==> Good(results[i]) {
          assert results[1..][n - 1] == results[n];
        }
        if n :| 0 <= n < |results[1..]| && !Good(results[1..][n]) && !results[1..][n].WouldBlock? && forall i :: 0 <= i < n ==> Good(results[1..][i]) {
          assert results[n + 1] == results[1..][n];
          assert forall i :: 0 < i < n + 1 ==> results[i] == results[1..][i - 1];
        }
      } else if !results[0].WouldBlock? {
        assert !Good(results[0]);
      }
    }
  }

  /** The descriptors the first n results give. */
  function Descriptors(results: seq<Result>, n: nat): (fds: seq<Word>)
    requires n <= |results| && forall i :: 0 <= i < n ==> Good(results[i])
    ensures |fds| == n && forall i :: 0 <= i < n ==> Good(results[i]) && fds[i] == results[i].fd
  {
    seq(n, i requires 0 <= i < n && Good(results[i]) => results[i].fd as Word)
  }

  lemma EitherWay(kept: seq<Word>, refused: seq<Word>, all: seq<Word>, result: Result)
    requires Good(result) && multiset(kept) + multiset(refused) == multiset(all)
    ensures var fd: Word := result.fd;
            && multiset([fd] + kept) + multiset(refused) == multiset([fd] + all)
            && multiset(kept) + multiset([fd] + refused) == multiset([fd] + all)
            && [] + kept == kept && [] + refused == refused
  {
  }

  lemma OneMoreResult(results: seq<Result>, n: nat)
    requires 0 < n <= |results| && Good(results[0]) && forall i :: 0 <= i < n ==> Good(results[i])
    ensures var fd: Word := results[0].fd;
            && Kept(results) == (if fd < MAX_FD then [fd] else []) + Kept(results[1..])
            && Refused(results) == (if fd < MAX_FD then [] else [fd]) + Refused(results[1..])
            && Descriptors(results, n) == [fd] + Descriptors(results[1..], n - 1)
  {
  }

  lemma {:induction false} BySize(results: seq<Result>)
    ensures forall fd :: fd in Kept(results) ==> fd < MAX_FD
    ensures forall fd :: fd in Refused(results) ==> fd >= MAX_FD
    decreases |results|
  {
    if results != [] && Good(results[0]) {
      BySize(results[1..]);
    }
  }

  /** Every descriptor accept gave is either kept or closed again, by its size. */
  lemma {:induction false} KeptOrRefused(results: seq<Result>, n: nat)
    requires n <= |results| && (forall i :: 0 <= i < n ==> Good(results[i])) && (n < |results| ==> !Good(results[n]))
    ensures multiset(Kept(results)) + multiset(Refused(results)) == multiset(Descriptors(results, n))
    ensures forall fd :: fd in Kept(results) ==> fd < MAX_FD
    ensures forall fd :: fd in Refused(results) ==> fd >= MAX_FD
    decreases n
  {
    BySize(results);
    if n == 0 {
      assert Descriptors(results, 0) == [];
    } else {
      hide Kept, Refused, Descriptors;
      assert Good(results[0]);
      KeptOrRefused(results[1..], n - 1);
      OneMoreResult(results, n);
      EitherWay(Kept(results[1..]), Refused(results[1..]), Descriptors(results[1..], n - 1), results[0]);
    }
  }

  lemma AcceptAllStep(batch: seq<Word>, shared: seq<seq<Word>>, results: seq<Result>, k: nat)
    requires k < |results| && results[k].Fd? && 0 < results[k].fd < 0x8000_0000
    ensures AcceptAll(batch, shared, results[k..]) ==
            AcceptAll(Accepted(batch, shared, results[k].fd).0, Accepted(batch, shared, results[k].fd).1, results[k + 1..])
  {
    assert results[k..][1..] == results[k + 1..];
  }

  lemma AcceptStops(batch: seq<Word>, shared: seq<seq<Word>>, results: seq<Result>, k: nat)
    requires k <= |results| && (k == |results| || !results[k].Fd? || !(0 < results[k].fd < 0x8000_0000))
    ensures AcceptAll(batch, shared, results[k..]) ==
            if k == |results| || results[k].WouldBlock? then (Pushed(batch, shared), false) else (shared, true)
    ensures Refused(results[k..]) == []
  {
  }

  class Acceptor {
    var acceptedFDlist: seq<seq<Word>>

    constructor ()
      ensures acceptedFDlist == []
    {
      acceptedFDlist := [];
    }

    /** closed are the descriptors it closes. */
    method AcceptReadFun(results: seq<Result>) returns (exited: bool, closed: seq<Word>)
      modifies this
      ensures (acceptedFDlist, exited) == AcceptAll([], old(acceptedFDlist), results)
      ensures closed == Refused(results)
    {
      hide AcceptAll, Refused, OldestFirst, Kept;
      closed := [];
      assert results[0..] == results;
      var fdBuff := new Word[MAX_ACCEPT](_ => 0);
      var acceptIndex, calls := 0, 0;
      while calls < |results|
        invariant acceptIndex < MAX_ACCEPT == fdBuff.Length && calls <= |results| && fresh(fdBuff)
        invariant AcceptAll(fdBuff[..acceptIndex], acceptedFDlist, results[calls..]) == AcceptAll([], old(acceptedFDlist), results)
        invariant closed + Refused(results[calls..]) == Refused(results)
      {
        var result := results[calls];
        if result.WouldBlock? {
          break;
        }
        if result.Fatal? || result.fd <= 0 || result.fd >= 0x8000_0000 {
          AcceptStops(fdBuff[..acceptIndex], acceptedFDlist, results, calls);
          return true, closed;
        }
        RefusedStep(results, calls);
        AcceptAllStep(fdBuff[..acceptIndex], acceptedFDlist, results, calls);
        calls := calls + 1;
        if result.fd >= MAX_FD {
          closed := closed + [result.fd];
          continue;
        }
        ghost var batch := fdBuff[..acceptIndex];
        fdBuff[acceptIndex] := result.fd;
        acceptIndex := acceptIndex + 1;
        assert fdBuff[..acceptIndex] == batch + [result.fd];
        if acceptIndex < MAX_ACCEPT {
          continue;
        }
        acceptedFDlist := [fdBuff[..acceptIndex]] + acceptedFDlist;
        acceptIndex := 0;
      }
      AcceptStops(fdBuff[..acceptIndex], acceptedFDlist, results, calls);
      if acceptIndex > 0 {
        acceptedFDlist := [fdBuff[..acceptIndex]] + acceptedFDlist;
      }
      return false, closed;
    }
  }

  /** Accepting a run of descriptors is so many Accept steps, ended by Again. */
  lemma {:induction false} AcceptAllIsSteps(w: World, results: seq<Result>) returns (steps: seq<Step>)
    requires Inv(w) && !AcceptAll(w.batch, w.shared, results).1
    ensures Run(w, steps) && Lossless(w, steps)
    ensures After(w, steps).shared == AcceptAll(w.batch, w.shared, results).0 && After(w, steps).batch == []
    ensures After(w, steps).private == w.private && After(w, steps).channels == w.channels
    decreases |results|
  {
    if results == [] || results[0].WouldBlock? {
      steps := [Again];
      assert After(w, steps) == Next(w, Again);
    } else {
      var step := Accept(results[0].fd);
      AcceptInv(w, results[0].fd);
      var rest := AcceptAllIsSteps(Next(w, step), results[1..]);
      steps := [step] + rest;
      assert steps[1..] == rest;
    }
  }

  /**
   * One turn of dispatch_conn: the batch goes behind what waits for the worker whose turn it is, and
   * some of it is sent. overrun is a batch that does not fit: the code writes past the buffer then.
   */
  method DispatchOne(buffs: seq<SendFdBuff>, sum: nat, batch: seq<Word>, results: seq<int>) returns (overrun: bool, out: seq<Byte>)
    requires buffs != [] && buffs[sum % |buffs|].Valid()
    modifies buffs[sum % |buffs|], buffs[sum % |buffs|].buff
    ensures overrun <==> |old(buffs[sum % |buffs|].Waiting())| + 4 * |batch| > SEND_BUFFER
    ensures !overrun ==>
              var b := buffs[sum % |buffs|];
              && b.Valid() && b.buff == old(b.buff)
              && out + b.Waiting() == old(b.Waiting()) + EncodeWords(batch)
              && |out| == Min(|old(b.Waiting())| + 4 * |batch|, Handoff.Sum(results[..Successes(results)]))
  {
    var b := buffs[sum % |buffs|];
    if b.needSendLen + 4 * |batch| > SEND_BUFFER {
      return true, [];
    }
    b.Append(EncodeWords(batch));
    ghost var all := b.Waiting();
    var sended;
    sended, out := b.SendConnectionsToWorker(results);
    overrun := false;
    assert out + b.Waiting() == all;
  }
}
