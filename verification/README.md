# Verified models of the network practice programs

Seven components of the repository, each modelled as the code runs it and proved against what it
is for. Code that changes state is written with classes, arrays and loops and proved equal to a
specification on values; what a whole run promises is proved about that specification.

- `Heartbeat.dfy`, `HeartbeatLoops.dfy`: the two timed loops of heartBeat1, joined by two delayed
  byte streams. Time is in microseconds, because `tv_sec` is assigned again on every path and
  `tv_usec` is not.
- `ThreadPoolCore.dfy`, `ThreadPoolRuns.dfy`: the pool object with its ring buffer, and every
  interleaving of workers, callers and the destroyer over one mutex and one condition variable.
- `Bytes.dfy`, `Handoff.dfy`, `HandoffRuns.dfy`: accepted descriptors on their way through batches,
  a shared list, send buffers and local sockets to the workers.
- `Timers.dfy`, `EventLoop.dfy`: the two multimaps of timers, and the event loops of all workers over
  one table of connections.
- `CrcTheory.dfy`, `CrcBits.dfy`, `TableRows.dfy`, `Crc16Table.dfy`, `Crc32Table.dfy`, `Crc.dfy`,
  `CrcLaws.dfy`: the two checksums against bit-at-a-time division, and their laws.
- `Etcp.dfy`: exact reads and writes, records and lines over a stream socket.
- `ConnTable.dfy` (with `Multisets.dfy`): the connection table of the poll server, for any number of slots, of reserved slots
  and of service entries.

System calls are parameters: a script says how many bytes a call moves, whether it is interrupted or
fails, which descriptor accept returns, and how long select waits. A script of reads and writes is
finite and the calls after it move all they can, so interruptions are finite in number.

Results that go against the code, each with its exact condition: the heartbeat loops give up on a live
peer as soon as a round trip can take three intervals (`NoFalseDeathIff`); a second
`threadpool_destroy` leaves the mutex locked (`MutexLeaksIff`); a worker loses descriptor bytes when a
send was cut inside a word (`LosesIff`) and stops at an assertion on a short recv (`GetConnections`);
`CloseConnection` on an unused slot spoils the counter (`CloseRightIff`); `ReceiveLoop` closes every
connection that has nothing to read (`ReceiveKeepsInv`); a return of 0 from `readvrec` means the
end of the stream only if no record is empty (`ZeroMeansEndIff`); the receive loop fails an assertion
when a connection has descriptor 0 (`StopsIff`). Each comes with a run or an input that shows it.

## Model

| member | source | states |
|---|---|---|
| `Heartbeat.NoFalseDeathIff` | sockapi/demo/heartBeat1/hb_client.c:20-53 | No run of two live peers, with start-up skew and one-way delays of at most D, ends with a peer declaring the connection dead, if and only if 2 D is below three heartbeat intervals. The other direction is a run in which the client gives up. |
| `Heartbeat.StepInv` | sockapi/demo/heartBeat1/hb_server.c:24-70 | Every step of either loop or of the network keeps the invariant that ties both deadlines to what was last heard and to the heartbeats and replies under way. |
| `Heartbeat.RunInv` | sockapi/demo/heartBeat1/hb_server.c:24-70 | So the invariant holds after every run; it implies that neither peer is dead. |
| `Heartbeat.NeverStuck` | sockapi/demo/heartBeat1/hb_client.c:20-53 | The delay bound does not make a run legal by blocking it: from every state of the invariant some real step can be taken. |
| `Heartbeat.DetectionIsExact` | sockapi/demo/heartBeat1/hb_client.c:26-47 | After any receive, a loop that hears nothing more gives up exactly idle + 3 T2 seconds later plus the microseconds the receive left in tv_usec, under one second; never earlier, and no schedule is silent for longer. |
| `Heartbeat.DetectedInTime` | sockapi/demo/heartBeat1/hb_client.c:20-53 | When either peer stops, after any run of both with delays of at most D, the other declares the connection dead within D + idle + 3 T2 seconds and less than one more: until it has, that time is not over and a step of its own is possible. |
| `HeartbeatLoops.RepliesAreTheHeartbeats` | sockapi/demo/heartBeat1/hb_server.c:40-69 | However the byte stream is cut and whatever timeouts fall between, the server sends back exactly the heartbeats among its whole messages, in order and byte for byte. |
| `HeartbeatLoops.HbServer.Turn` | sockapi/demo/heartBeat1/hb_server.c:24-70 | One pass of the server loop over its real fields and message buffer is the turn on values. A fourth timeout in a row gives up, a receive starts the count again, a whole message goes back exactly if it starts with the bytes 0 0 0 3, and one of no known type ends the loop. |
| `HeartbeatLoops.HbServer.Serve` | sockapi/demo/heartBeat1/hb_server.c:24-70 | The whole loop over any legal script; its output is the old output followed by the echoes of the stream. A server that starts with no heartbeat missed declares the connection dead at exactly the fourth timeout without a receive between them. |
| `HeartbeatLoops.ServerTurnIsItsEvents` | sockapi/demo/heartBeat1/hb_server.c:24-51 | A pass of the server loop is the wait and the expiry or receive the timed model lets it make, with the idle time of the server, and it gives up when that model does: the detection times hold for this loop. |
| `HeartbeatLoops.TypeBytes` | sockapi/demo/heartBeat1/hb_server.c:53-69 | The type of a message is a heartbeat exactly when its first four bytes are 0 0 0 3, and known exactly when they are 0 0 0 and 1, 2 or 3. |
| `HeartbeatLoops.ClientTurnIsItsEvents` | sockapi/demo/heartBeat1/hb_client.c:20-53 | A pass of the client loop is the wait and the event the timed model lets it make. |
| `HeartbeatLoops.HbClient.Run` | sockapi/demo/heartBeat1/hb_client.c:20-53 | Over any script the client declares the connection dead at exactly the fourth timeout without a receive between them, and sends one heartbeat for every other timeout. |
| `Bytes.BigEndianIsDictionaryOrder` | sockapi/libsrc/etcp.c:87-92 | Network byte order without a formula: of any two groups of four bytes the one first in a dictionary is the smaller number, and equal numbers have equal bytes. |
| `ThreadPoolCore.PutAppends` | IOModels/epoll/epollTcpServer/src/threadpool.c:164-184 | Putting a task at tail appends it to the queue the ring stands for, wrap-around included. |
| `ThreadPoolCore.DropTakesFirst` | IOModels/epoll/epollTcpServer/src/threadpool.c:289-293 | Advancing head takes the oldest task off that queue. |
| `ThreadPoolCore.ThreadPool.Create` | IOModels/epoll/epollTcpServer/src/threadpool.c:96-148 | A pool is made exactly for sizes within the limits when memory, mutex and condition can be had and every thread starts; it is empty and open. Otherwise NULL. |
| `ThreadPoolCore.ThreadPool.Add` | IOModels/epoll/epollTcpServer/src/threadpool.c:150-198 | A task is appended if and only if it is not NULL, the mutex is locked, the queue has room and the pool is open; otherwise the answer names the first of these that fails, in that order of tests. A failed signal or unlock is reported as a lock failure although the task is queued. |
| `ThreadPoolCore.ThreadPool.Next` | IOModels/epoll/epollTcpServer/src/threadpool.c:276-302 | What a worker holding the mutex decides: it waits if and only if the pool is open and nothing is pending; exits, and counts itself out, if and only if the shutdown is immediate, or graceful with nothing pending; otherwise takes the oldest task. |
| `ThreadPoolCore.ThreadPool.BeginDestroy` | IOModels/epoll/epollTcpServer/src/threadpool.c:212-226 | The first destroy makes the shutdown graceful if and only if the flag says so, and no other changes the mode; the mutex stays locked on return exactly when the call reports an error after locking it: already shutting down, or a failed broadcast or unlock. |
| `ThreadPoolRuns.StepInv` | IOModels/epoll/epollTcpServer/src/threadpool.c:150-307 | Every step of every thread, spurious wakeups included, keeps the pool invariant. |
| `ThreadPoolRuns.AcceptsIff` | IOModels/epoll/epollTcpServer/src/threadpool.c:170-190 | A task offered to an open pool with room is accepted, goes behind the pending ones and wakes one sleeper if there is any; any other is refused and nothing changes. |
| `ThreadPoolRuns.EveryTaskInOnePlace` | IOModels/epoll/epollTcpServer/src/threadpool.c:272-299 | In every reachable state each accepted task is pending in its place, or running in exactly one worker, or finished, and tasks are taken in the order they were accepted. |
| `ThreadPoolRuns.NoLostWakeup` | IOModels/epoll/epollTcpServer/src/threadpool.c:187 | While a worker sleeps the pool is open and pending tasks are no more than the workers awake, under signal-one semantics. |
| `ThreadPoolRuns.ShutdownIsFinal` | IOModels/epoll/epollTcpServer/src/threadpool.c:174-178 | After shutdown is set nothing is accepted in any continuation. |
| `ThreadPoolRuns.DrainCountdown` | IOModels/epoll/epollTcpServer/src/threadpool.c:219-239 | After shutdown each step of a worker lowers one measure over pending tasks and worker states by exactly one, and no other step moves it. |
| `ThreadPoolRuns.DrainedWhenStuck` | IOModels/epoll/epollTcpServer/src/threadpool.c:282-302 | In every run, once the first destroy to get the mutex has given it back, workers can move until all have exited; then started is 0, and if that call had the graceful flag the ring is empty and every accepted task ran exactly once. |
| `ThreadPoolRuns.FirstFlagDecides` | IOModels/epoll/epollTcpServer/src/threadpool.c:211-226 | In every run the kind of shutdown is the one the first destroy to get the mutex asked for, and there is no shutdown without one. |
| `ThreadPoolRuns.ImmediateLeavesPending` | IOModels/epoll/epollTcpServer/src/threadpool.c:282-293 | If that call did not have the graceful flag, no task is taken in any continuation and the pending ones stay. |
| `ThreadPoolRuns.FreeGuardPasses` | IOModels/epoll/epollTcpServer/src/threadpool.c:244-248 | When the joins have returned, threadpool_free finds started at 0. |
| `ThreadPoolRuns.MutexLeaksIff` | IOModels/epoll/epollTcpServer/src/threadpool.c:212-217 | With pthread calls that succeed, the mutex is left locked if and only if threadpool_destroy gets it twice. |
| `ThreadPoolRuns.SecondDestroyLeaks` | IOModels/epoll/epollTcpServer/src/threadpool.c:208-217 | From every fresh pool, such a run of four steps. |
| `ThreadPoolRuns.LeakFreezesWorkers` | IOModels/epoll/epollTcpServer/src/threadpool.c:214-217 | After that no worker takes a task or exits in any continuation. |
| `Handoff.CutAnywhere` | IOModels/epoll/c1000kPracticeGuide/cppserver/src/worker.cc:43-83 | However a stream of 4-byte descriptors is cut, decoding the first part gives the first descriptors and its odd bytes begin what is still to come. |
| `Handoff.EncodeDecode` | IOModels/epoll/c1000kPracticeGuide/cppserver/src/worker.cc:75-83 | Any bytes are their whole words encoded, followed by fewer than four odd bytes. |
| `Handoff.LowestFirst` | IOModels/epoll/c1000kPracticeGuide/cppserver/src/worker.cc:49-52 | A descriptor is its four bytes with the lowest first. |
| `Handoff.ProcessConnection` | IOModels/epoll/c1000kPracticeGuide/cppserver/src/worker.cc:38-85 | Registers exactly the whole words received and moves the odd bytes, fewer than four, to the front. |
| `Handoff.GetConnections` | IOModels/epoll/c1000kPracticeGuide/cppserver/src/worker.cc:7-36 | For every chunking, one readable event registers every whole descriptor that arrived if and only if no recv is short of a word and the event ends with EAGAIN; otherwise assert(false) is reached, after a prefix. The odd bytes at EAGAIN are lost. |
| `Handoff.NeverShortIff` | IOModels/epoll/c1000kPracticeGuide/cppserver/src/worker.cc:14-33 | No recv is short if and only if each count that recv returns, added to those before it, completes another word: the quotients of the partial sums by four are strictly increasing. |
| `Handoff.WholeWordsNeverShort` | IOModels/epoll/c1000kPracticeGuide/cppserver/src/worker.cc:14-33 | None is when whole words arrive and no recv is offered fewer than four bytes. |
| `Handoff.ThreeBytesAreShort` | IOModels/epoll/c1000kPracticeGuide/cppserver/src/worker.cc:29-33 | One is when three bytes of the first descriptor come alone. |
| `Handoff.SendFdBuff.SendConnectionsToWorker` | IOModels/epoll/c1000kPracticeGuide/cppserver/src/listenfd.cc:134-173 | What is sent is a prefix of what waits, as long as the results of the sends before the first that is 0 or less add up to, and no longer than all of it; the rest stays in order at the front. |
| `HandoffRuns.Acceptor.AcceptReadFun` | IOModels/epoll/c1000kPracticeGuide/cppserver/src/listenfd.cc:17-116 | The accept loop turns the descriptors it is given into full batches at the front of the list and one last partial batch, and closes exactly those at or above MAX_FD. |
| `HandoffRuns.AcceptAllIsSteps` | IOModels/epoll/c1000kPracticeGuide/cppserver/src/listenfd.cc:27-114 | Such a loop is a run of the Accept and Again steps of the state machine. |
| `HandoffRuns.AcceptAllInOrder` | IOModels/epoll/c1000kPracticeGuide/cppserver/src/listenfd.cc:27-114 | One event of the accept loop puts on the list, behind what was there, exactly the descriptors below MAX_FD that it was given, in order, whatever the batches. |
| `HandoffRuns.BatchSizes` | IOModels/epoll/c1000kPracticeGuide/cppserver/src/listenfd.cc:42-105 | Every batch such an event puts on the list holds 1024 descriptors, except the newest, which holds 1 to 1024; the batches below stay as they were. |
| `HandoffRuns.KeptOrRefused` | IOModels/epoll/c1000kPracticeGuide/cppserver/src/listenfd.cc:32-43 | Each descriptor given before the event ends is either kept or closed again: those below MAX_FD are kept, the others closed. |
| `HandoffRuns.ExitsIff` | IOModels/epoll/c1000kPracticeGuide/cppserver/src/listenfd.cc:72-113 | The process exits if and only if the first result that is no positive descriptor is not one of the errors that end the event. |
| `HandoffRuns.DispatchOne` | IOModels/epoll/c1000kPracticeGuide/cppserver/src/listenfd.cc:194-200 | One batch goes behind what waits for the worker whose turn it is; bytes sent followed by bytes waiting are the old ones followed by the batch. It overruns the buffer exactly when it does not fit. |
| `HandoffRuns.DispatchIs` | IOModels/epoll/c1000kPracticeGuide/cppserver/src/listenfd.cc:192-206 | Batch number k goes to worker k modulo their number, behind what waits for it, and no other channel changes. |
| `HandoffRuns.ShareIsEveryNth` | IOModels/epoll/c1000kPracticeGuide/cppserver/src/listenfd.cc:192-206 | What a worker is given by round robin is its first batch and then every n-th one. |
| `HandoffRuns.Conservation` | IOModels/epoll/c1000kPracticeGuide/cppserver/src/listenfd.cc:27-209 | After any run the multiset of accepted descriptors is the disjoint sum of batch, shared list, private list, and registrations and bytes of every channel, if and only if no worker ever returned with odd bytes. |
| `HandoffRuns.RegisteredInOrder` | IOModels/epoll/c1000kPracticeGuide/cppserver/src/worker.cc:11-34 | In every run without such a return, a worker has registered a prefix of what round robin gave it, in order, and its channel bytes decode to the rest. |
| `HandoffRuns.AllGiven` | IOModels/epoll/c1000kPracticeGuide/cppserver/src/listenfd.cc:192-206 | The shares of the workers together are every dispatched batch once. |
| `HandoffRuns.NeverTwoWorkers` | IOModels/epoll/c1000kPracticeGuide/cppserver/src/listenfd.cc:176-207 | In every run without such a return, a descriptor accepted once is never with two workers. |
| `HandoffRuns.AllDelivered` | IOModels/epoll/c1000kPracticeGuide/cppserver/src/listenfd.cc:176-207 | When a run without such a return has drained, the workers have registered exactly what was accepted. |
| `HandoffRuns.CanDeliverAll` | IOModels/epoll/c1000kPracticeGuide/cppserver/src/listenfd.cc:134-209 | Nothing gets stuck: from every state a run without such a return reaches there are steps, none of them an overrun, a short recv or a loss and none accepting anything, after which the workers have registered exactly what was accepted. |
| `HandoffRuns.LosesIff` | IOModels/epoll/c1000kPracticeGuide/cppserver/src/worker.cc:24-28 | A worker returning on EAGAIN loses bytes if and only if the dispatcher's buffer for it ends inside a word, that is, its length is no multiple of four. |
| `HandoffRuns.LossBreaksConservation` | IOModels/epoll/c1000kPracticeGuide/cppserver/src/worker.cc:11-28 | Such a return is for good: in every continuation, harms included, some descriptor has been accepted more often than it is anywhere in the system. |
| `HandoffRuns.LossHappens` | IOModels/epoll/c1000kPracticeGuide/cppserver/src/worker.cc:11-28 | A run of seven steps with such a return: two descriptors accepted, six bytes of them sent and received. |
| `HandoffRuns.EventIsSteps` | IOModels/epoll/c1000kPracticeGuide/cppserver/src/worker.cc:7-36 | A readable event is a run of Receive steps, one for each count recv returns, ended by Leave; it registers what GetConnections registers and reaches the assertion exactly when it does. |
| `Timers.MirrorInsert` | IOModels/epoll/c1000kPracticeGuide/cppserver/src/timers.cc:15-20 | Adding to both indexes keeps them mirror images, duplicates included. |
| `Timers.MirrorErase` | IOModels/epoll/c1000kPracticeGuide/cppserver/src/timers.cc:37-50 | Erasing a pair from one and the matching pair from the other keeps them so. |
| `Timers.MirrorFinds` | IOModels/epoll/c1000kPracticeGuide/cppserver/src/timers.cc:41-51 | The matching pair is always found between the bounds of its key, so assert(0) is never reached. |
| `Timers.MirrorWithout` | IOModels/epoll/c1000kPracticeGuide/cppserver/src/timers.cc:62-86 | Dropping an item's range from one index mirrors dropping its entries from the other. |
| `Timers.KeepMembers` | IOModels/epoll/c1000kPracticeGuide/cppserver/src/timers.cc:71-82 | What the filter used to specify removal keeps: each pair as often as before, or not at all. |
| `Timers.Timer.AddTimer` | IOModels/epoll/c1000kPracticeGuide/cppserver/src/timers.cc:15-20 | Inserts the pair into both indexes, behind all entries that are not later and before all that are. |
| `Timers.Timer.GetTimer` | IOModels/epoll/c1000kPracticeGuide/cppserver/src/timers.cc:22-54 | Takes the first entry out of both indexes if it is due, and otherwise changes nothing. |
| `Timers.Timer.RemoveTimer` | IOModels/epoll/c1000kPracticeGuide/cppserver/src/timers.cc:62-86 | The nested loops delete all of the item's entries from both indexes and nothing else, although the indexes disagree while they run. |
| `Timers.Timer.GetMinTimer` | IOModels/epoll/c1000kPracticeGuide/cppserver/src/timers.cc:88-103 | The wait is 1000 without timers, 0 when one is due, and otherwise exactly the time to the earliest. |
| `EventLoop.Worker.ProcessOneEvent` | IOModels/epoll/c1000kPracticeGuide/cppserver/src/process_event.cc:5-43 | From the fields of the event: the connection is closed and loses its timers, and no other does, if and only if it was about to be closed, the peer ended its stream or hung up, or a write moved nothing; otherwise m_sended is the old one plus the bytes written, modulo 500, and the timers stay. Nothing else changes. |
| `EventLoop.EventOutcome` | IOModels/epoll/c1000kPracticeGuide/cppserver/src/process_event.cc:10-42 | The same of the step on values. |
| `EventLoop.Worker.Register` | IOModels/epoll/c1000kPracticeGuide/cppserver/src/worker.cc:53-67 | A handed-over connection has its callbacks set and one more timer, due in exactly 10 s; nothing else changes. |
| `EventLoop.Worker.RunTimers` | IOModels/epoll/c1000kPracticeGuide/cppserver/src/process_event.cc:62-74 | The drain stops, fires exactly the due entries in non-decreasing order of time, none early; afterwards the entries are those that were not due and one for each that fired, due 10 s after the time of the drain. |
| `EventLoop.Worker.ProcessEvent` | IOModels/epoll/c1000kPracticeGuide/cppserver/src/process_event.cc:45-75 | A pass handles each event in turn and then drains; no due entry is left. |
| `EventLoop.PassIsSteps` | IOModels/epoll/c1000kPracticeGuide/cppserver/src/process_event.cc:45-75 | Such a pass is a run of Handles steps and one Drains of the state machine, with the same table and timers. |
| `EventLoop.NothingDue` | IOModels/epoll/c1000kPracticeGuide/cppserver/src/worker.cc:203 | Entries re-armed during a drain are never due in it. |
| `EventLoop.RegisterInv` | IOModels/epoll/c1000kPracticeGuide/cppserver/src/worker.cc:53-67 | Handing a closed connection to a worker keeps one timer per connection. |
| `EventLoop.HandleInv` | IOModels/epoll/c1000kPracticeGuide/cppserver/src/process_event.cc:10-42 | Handling an event keeps it, with the connection open or closed. |
| `EventLoop.OneTimerPerConnection` | IOModels/epoll/c1000kPracticeGuide/cppserver/src/worker.cc:55-66 | At every head of every worker's loop, in every run, an open connection has exactly one timer, in its own worker, and a closed one none anywhere. |
| `EventLoop.FiredCallbackIsSet` | IOModels/epoll/c1000kPracticeGuide/cppserver/src/process_event.cc:66-72 | So every entry that can fire belongs to a connection whose callbacks are set. |
| `CrcTheory.BurstDetected` | crc/crc16.c:67-73 | For any generator polynomial, an error confined to as many consecutive bits as the register changes the remainder of every message. |
| `CrcTheory.ClearedBy` | crc/crc16.c:67-73 | At most a register's worth of bits clears it exactly when they are what it holds: the injectivity behind detection. |
| `CrcTheory.LoadThenShift` | crc/crc32.c:42-45 | Entering bits one at a time is the same as putting a byte in at once and shifting it through. |
| `CrcBits.TableOfRemainders` | crc/crc32.c:5-39 | A table with the recurrence of byte remainders holds for each of 256 bytes what eight bit steps leave. |
| `CrcBits.ByteStep` | crc/crc32.c:42-45 | The table step on a word is eight steps of the division. |
| `Crc16Table.EntriesAreRemainders` | crc/crc16.c:1-50 | All 256 pairs of literal entries are eight bit steps of division by 0xA001. |
| `Crc32Table.EntriesAreRemainders` | crc/crc32.c:5-39 | All 256 literal entries are eight bit steps of division by 0xEDB88320. |
| `Crc.RegisterTurn` | crc/crc16.c:69-71 | The two split byte registers do what one 16-bit register does. |
| `Crc.Crc16` | crc/crc16.c:61-74 | The loop computes bit-at-a-time reflected division by 0xA001 from a register of ones (MODBUS over Serial Line V1.02, section 6.2.2); of an empty frame that is 0xFFFF. |
| `Crc.Crc32` | crc/crc32.c:1-48 | The loop computes bit-at-a-time reflected division by 0xEDB88320, inverted at both ends, from any starting value (RFC 1952, section 8); a negative length is an empty input. |
| `CrcLaws.Crc16Unique` | crc/crc16.c:61-74 | The division determines the checksum. |
| `CrcLaws.Crc32Unique` | crc/crc32.c:41-47 | Likewise. |
| `CrcLaws.Crc32OfNothing` | crc/crc32.c:41-47 | Of no data the checksum is the starting value, and no other. |
| `CrcLaws.Crc16DetectsBursts` | crc/crc16.c:67-73 | Flipping a nonzero error confined to 16 consecutive bits, anywhere in a frame of any length, changes the CRC16. |
| `CrcLaws.Crc32DetectsBursts` | crc/crc32.c:41-47 | The same for 32 consecutive bits and the CRC32. |
| `CrcLaws.Crc16DetectsOddErrors` | crc/crc16.c:67-73 | Flipping any odd number of bits changes the CRC16. |
| `CrcLaws.Crc16Parity` | crc/crc16.c:61-74 | The parity of the CRC16 is the parity of the frame. |
| `CrcLaws.Crc16Codeword` | crc/crc16.c:61-74 | A frame followed by two bytes has CRC16 0 if and only if they are its CRC16, low byte first. |
| `CrcLaws.Crc16CodewordBurst` | crc/crc16.c:61-74 | A codeword hit by such a burst, in its data or its checksum, has a CRC16 other than 0. |
| `CrcLaws.Crc32Chains` | crc/crc32.c:41-47 | Checksumming a then b from its result is checksumming a followed by b. |
| `CrcLaws.Crc32Residue` | crc/crc32.c:41-47 | Data followed by a word, low byte first, has CRC32 0x2144DF1C if and only if the word is the CRC32 of the data, from every starting value. |
| `Etcp.ReadN` | sockapi/libsrc/etcp.c:40-60 | All len bytes, or all there are before the peer closes, in place and in order, for every chunking and every finite run of interruptions; -1 exactly when a call failed. |
| `Etcp.WriteN` | sockapi/libsrc/etcp.c:62-81 | All len bytes go out in order, or -1 after a strict prefix exactly when a call failed or moved nothing. |
| `Etcp.ReadVRec` | sockapi/libsrc/etcp.c:83-116 | Without a failing call, the answer and the rest of the stream are those of one record: returned, refused with EMSGSIZE and discarded, or the end. With room for nothing the call never returns if and only if a record with a length above 0 is announced. |
| `Etcp.OneRecord` | sockapi/libsrc/etcp.c:83-116 | A call takes exactly one record off the stream, whether it fits or not. |
| `Etcp.RecordsInOrder` | sockapi/libsrc/etcp.c:83-116 | Any number of calls over any records and any truncated rest: each record answered by its own length, then the end for ever. |
| `Etcp.EveryStream` | sockapi/libsrc/etcp.c:83-116 | Every byte stream is some records and a truncated rest. |
| `Etcp.EncodingInjective` | sockapi/libsrc/etcp.c:87-91 | Different sequences of records have different streams. |
| `Etcp.HeaderRoundTrip` | sockapi/libsrc/etcp.c:87-92 | The four bytes in front of a record are its length in network byte order. |
| `Etcp.Discard` | sockapi/libsrc/etcp.c:94-110 | The discard loop takes exactly the record off the stream in pieces of the caller's length, never underflows, and ends. |
| `Etcp.ZeroMeansEndIff` | sockapi/libsrc/etcp.c:89-115 | For every sequence of records, every truncated rest and any number of calls, a return of 0 means exactly that the records are over, if and only if no record is empty. |
| `Etcp.ZeroIsAmbiguous` | sockapi/libsrc/etcp.c:89-115 | Two streams, an empty record with another behind it and nothing at all, whose first call returns 0 for both. |
| `Etcp.ReadLine` | sockapi/libsrc/etcp.c:192-228 | A single call returns what a byte-at-a-time reader would, NUL-terminated within len, for every chunking; what was received behind the line is lost. |
| `Etcp.ReaderDecides` | sockapi/libsrc/etcp.c:200-227 | That reader finds the first newline within len - 1 bytes, or reports a full buffer without one, or a stream that ends before either. |
| `ConnTable.RunInv` | IOModels/poll/serverModel.c:166-334 | After every run of new connections, closes of slots in use, receive loops, idle ticks and request handling, connectionsActive is the number of slots in use and at most N - R, reserved slots are free, and sockets and watched entries hold the same descriptors once each. |
| `ConnTable.OneToOne` | IOModels/poll/serverModel.c:206-215 | Each watched descriptor belongs to exactly one slot in use and to no other entry. |
| `ConnTable.RoomForOneMore` | IOModels/poll/serverModel.c:264-318 | Once the capacity check has passed there is a free slot behind the reserved ones and a free entry, by pigeonhole. |
| `ConnTable.CreateKeepsInv` | IOModels/poll/serverModel.c:225-334 | NewConnection keeps the table whole and never loses an accepted connection, descriptor 0 included. |
| `ConnTable.NewSlot` | IOModels/poll/serverModel.c:264-293 | Below capacity the new connection takes the first free slot behind the reserved ones, new and with idle time 0, and no other slot moves; a failing accept changes nothing. |
| `ConnTable.IdleTimeCounts` | IOModels/poll/serverModel.c:475-486 | In every run the idle time of a slot in use is the number of ticks since its connection was stored, was last answered, or was last found busy by a tick. |
| `ConnTable.EvictsIdlest` | IOModels/poll/serverModel.c:232-262 | At capacity, as soon as some connection that is idle or new and runs no callback has positive idle time, NewConnection closes the first of those idle longest, stores the new connection in its slot and answers with its descriptor; no other slot moves. |
| `ConnTable.EvictedWasIdlest` | IOModels/poll/serverModel.c:232-262 | In every run from the start, the connection whose slot NewConnection gives away has been idle for at least one tick and for at least as many as any other that could have been closed. |
| `ConnTable.RefusesIff` | IOModels/poll/serverModel.c:250-261 | At capacity NewConnection leaves the table as it is and answers -1 if and only if no such connection has positive idle time. |
| `ConnTable.ReceiveKeepsInv` | IOModels/poll/serverModel.c:177-195 | A ReceiveLoop keeps exactly the slots whose recv brings something: the test on the poll result always passes. |
| `ConnTable.CloseRightIff` | IOModels/poll/serverModel.c:199-222 | CloseConnection keeps the table whole if and only if the slot is in use or no connection is open. |
| `ConnTable.OneConnectionSpoilt` | IOModels/poll/serverModel.c:199-222 | A table reached by one accept whose next slot, free, spoils it when closed, and whose connection a receive loop with nothing to read closes. |
| `ConnTable.StopsIff` | IOModels/poll/serverModel.c:148-180 | The assertion of findIndex fails in a receive loop over a whole table if and only if some connection has descriptor 0. |
| `ConnTable.DescriptorZeroStops` | IOModels/poll/serverModel.c:148-180 | A table reached by one accept on which it does. |
| `ConnTable.Server.constructor` | IOModels/poll/serverModel.c:641-689 | Initialize makes an empty, whole table. |
| `ConnTable.Server.FindIndex` | IOModels/poll/serverModel.c:148-164 | The first entry behind the service ones that watches the socket, or -1. |
| `ConnTable.Server.NewConnection` | IOModels/poll/serverModel.c:225-334 | Over the two arrays and the counter, the loops do what Created says of the table; `NewSlot`, `EvictsIdlest` and `RefusesIff` say what that is, by case. |
| `ConnTable.Server.CloseConnection` | IOModels/poll/serverModel.c:199-222 | The slot is cleared, its first watch entry freed and the counter lowered, or nothing at all if no connection is open. |
| `ConnTable.Server.ReceiveLoop` | IOModels/poll/serverModel.c:166-197 | Over the same fields, the loop does what `ReceiveKeepsInv` is about, over any table; it stops exactly when findIndex fails an assertion or finds nothing to index with. |
| `ConnTable.Server.CountIdle` | IOModels/poll/serverModel.c:475-486 | Slots in use that are idle or new count one tick more, other slots in use start again at 0, the rest is untouched. |

## Left out

- System calls themselves (sockets, epoll, select, poll, threads, clocks, files): only their results.
- Heartbeat.NoFalseDeathIff: select is taken to write the remaining time back into its timeout, as Linux does, and handling an event to take no time; application messages travel from client to server only.
- Client message contents in heartBeat1: a timeout during a partial receive overwrites `msg.type`, so reassembly is claimed for the server only.
- heartBeat2: its client reads the wrong socket.
- ThreadPoolRuns.MutexLeaksIff: in the runs the pthread calls succeed; that a failing broadcast or unlock leaves the mutex locked too is in the contract of `ThreadPool.BeginDestroy`. A task that never returns is not modelled.
- ThreadPoolRuns.DrainedWhenStuck: says that workers can move until all have exited and counts their steps; that a thread able to move is scheduled is left to the system.
- The order in which the shared list is pushed (newest batch first) is modelled; which thread wins the mutex is left open.
- HandoffRuns.Conservation: runs go on past a buffer overrun and a failed assertion as if the buffer were longer and the assertion not there, and end where there is no worker to divide by; sendfdBuff is indexed by channel, where the code indexes it by a descriptor that must stay below 128.
- Handoff.GetConnections: bytes that arrive during an event are part of its script; epoll_ctl failures, which end the process, are not modelled.
- Timers.Timer.GetTimer: the code reads begin() before it tests for empty and reads an erased element; the model tests first and saves the pair, as intended.
- EventLoop.Worker.ProcessOneEvent: the content read from a client and the bytes written are not modelled, only counts; a descriptor reused before its old event is handled is not either.
- EventLoop.Worker.ProcessEvent: epoll reports a descriptor at most once in a pass.
- Etcp.ReadVRec: lengths above INT_MAX are excluded, because the returned int cannot hold them; `RecordsInOrder` and `ZeroMeansEndIff` speak of the code for lengths above 0, as the call does not return for every record otherwise.
- Etcp.ReadLine: a single call; a second call starts behind the bytes lost by the first. len 0 is excluded, because `--len` wraps around.
- ConnTable.Server.NewConnection: peer addresses, callbacks' addresses and buffers are left out.
- TransmitPending, TransmitPendingLoop and the rest of ServerRun in poll/serverModel.c: the NULL test on an array member is always true and several states are not declared; request handling is the step Handled. The unparenthesised MAX_WATCHEDFD makes malloc ask for too little; the watch array is taken at its intended size.
- Crc.Crc16: len is at most 65535, as its type says, and the frame holds at least len bytes.
- IOModels/select/serverModel.c, c1000kPracticeGuide/client, the lists, queues and trees, read_line.c, op_epoll.c, the other demos, daemons, UART, error printing: easier copies of what is here, unfinished, or plumbing.
