# hvnetpp, modelled and verified in Dafny

hvnetpp is an epoll reactor: an event loop fed by a lock-free ring, TCP connections with buffered
output, a timer queue on a one-shot kernel timer, and a bundled logger. This project models its
hard parts and proves what they guarantee over every schedule, every run and every outcome of the
system calls. `dafny verify dfyconfig.toml` checks everything.

How the parts are modelled:

- **Ring and functor hand-off** (`RingArith`, `Ring`, `RingProofs`, `RingPause`, `RingReserve`,
  `HandOff`, `HandOffProofs`, `HandOffPlaces`, `HandOffTheorems`, `HandOffLoop`, `HandOffSteps`). An interleaved transition system: one step
  is one atomic load, compare-and-swap, store, critical section or eventfd access of one thread.
  Head and tail are 32-bit words that wrap; the slot index is the bit mask of the source. Fields
  after the comment "history" record what happened; they number the functors, and no step is
  enabled, disabled or steered by them.
- **Timer queue** (`TimerMath`, `TimerSet`, `TimerQueueSpec`, `TimerQueueProofs`,
  `TimerQueueTheorems`, `TimerQueueDrift`, `TimerQueueRepeat`, `TimerQueueArm`, and the class in
  `TimerQueue.dfy`). Timers live on a heap of
  addresses that may be reused. Callbacks run between the steps of one `handleRead`.
- **Connection** (`Connection`, `ConnectionProofs`, `ConnectionRuns`, and the class in
  `TcpConnection.dfy`). `read`
  and `write` outcomes are parameters. The class owns a `Buffer` and a `Channel` and is proved to
  act as the pure operations, about which the run theorems are.
- **Buffer, Poller, Channel** (`Buffer.dfy`, `Poller.dfy`). Classes over an array and over the
  poller's map and the kernel's interest set.
- **Server** (`Server`, `ConnectionName`). Many connections, event batches, deferred teardown,
  object lifetime, and the printed connection names.
- **Logger** (`Utf8`, `CategoryFilter`). The UTF-8 canonicaliser, the glob matcher, the category
  parser and the cached filter.

Histories are not taken on trust from the functions that write them: the run theorems define what was
offered, taken, received, cancelled, written or asked by recursion over the operations or steps of the
run, and prove the recorded histories equal to that.

Each class method states its whole effect as a function of the old state; that the invariant
survives is the lemma about that function (`TimerQueueProofs.StepInv`, `ConnectionProofs.StepKeeps`).

## Assumptions on the environment

- Ring orders 6 to 31; the event loop uses 16.
- `Ring.Punctual`: when a compare-and-swap succeeds, the tail is less than 2^26 node positions past
  the head value that attempt loaded. `RingProofs.ShortPauseIsPunctual` derives it from a bound on
  the reservations made meanwhile, and `RingPause.PauseBoundTight` shows that 2^26 itself is too much.
- `Server.Polite`: no hang-up event without EPOLLIN reaches a connection that was closed earlier in
  the same batch. `ConnectionProofs.PassClosesOnce` proves this condition necessary and sufficient
  for one event pass, and `Server.FaultFreeIff` for every run of the server.
- `accept` returns a descriptor that is not open, allocation returns an address that is not in use,
  and the steady clock is non-negative and does not go back.

## Where the code falls short of what one might expect

- Functors queued on the loop thread before `loop()` are not signalled, so the first poll can sleep
  on them: `HandOffTheorems.FirstPollCanStall`, with the exact condition in `FirstPollExact`.
- A producer paused for one lap of the ring corrupts it: `RingPause.PauseBoundTight`; the exact
  condition for one swap is `RingProofs.CasSafeIff`.
- A bare hang-up after a close in the same batch enters `handleClose` twice:
  `ConnectionProofs.HangUpAfterClose`.
- The logger's sanitizer passes surrogates on, which section 3 of RFC 3629 forbids:
  `Utf8.SurrogatePasses`, with the exact condition for valid output in `Utf8.CanonicalValidIff` and
  `SanitizeValidIff`.
- A category whose level is misspelt is not dropped: its glob is glued in front of the next one:
  `CategoryFilter.MisspeltLevelGlues`, with the exact condition in `EachFieldCountsIff`.
- Server names of 52 or more characters make connection names collide:
  `ConnectionName.NamesDistinctIff`.

## Model

| member | source | states |
|---|---|---|
| RingArith.MaskIsMod | src/CircularBuffer.cpp:31-50 | masking an offset with size minus one is the remainder by the size, for every power of two |
| RingArith.IndexOfWord | src/CircularBuffer.cpp:45-50 | a wrapped 32-bit offset points at the slot of the unbounded position it stands for |
| RingArith.MinusExact | include/hvnetpp/MpscQueue.h:46-49 | the unsigned distance of tail and head is exact for positions less than a lap apart |
| RingArith.MinusWraps | include/hvnetpp/MpscQueue.h:46-49 | for any two positions it is the distance modulo a lap |
| RingProofs.RoomAtCas | include/hvnetpp/MpscQueue.h:42-58 | a swap that passed the overflow test, on possibly stale words, finds a free slot and no reused tail value |
| RingProofs.CasSafeIff | include/hvnetpp/MpscQueue.h:47-51 | after any pause, a successful swap keeps the ring intact if and only if the overflow test passes on the current words |
| RingProofs.StepInv | include/hvnetpp/MpscQueue.h:34-95 | every atomic step keeps: live range at most one ring, each live slot reserved by one thread or committed, every slot outside the range zero |
| RingProofs.ScheduleInv | include/hvnetpp/MpscQueue.h:34-95 | the same over every punctual schedule of any number of producers and the consumer |
| RingProofs.StepRefinesQueue | include/hvnetpp/MpscQueue.h:42-95 | each step is an enqueue of the caller's functor, a dequeue of the oldest one, or invisible to the abstract queue |
| RingProofs.FifoLog | include/hvnetpp/MpscQueue.h:34-95 | over every schedule, what was read out is a prefix of the functors in order of successful swaps, and no more than a ring's worth is inside |
| RingProofs.TakenWasCommitted | include/hvnetpp/MpscQueue.h:61-86 | a node is handed out only committed, with the functor logged at its position, and no producer still owns it |
| RingProofs.ReservationsDisjoint | include/hvnetpp/MpscQueue.h:51-57 | two outstanding reservations never point at the same node |
| RingProofs.ConsumerNodeUntouched | include/hvnetpp/MpscQueue.h:69-95 | no reservation points at the node the consumer has found, runs or clears |
| RingProofs.PeekNullExact | include/hvnetpp/MpscQueue.h:69-86 | peek reports empty exactly on an empty ring, and stops early exactly at a node whose producer has not committed |
| RingProofs.ShortPauseIsPunctual | include/hvnetpp/MpscQueue.h:43-51 | fewer than 2^26 minus one ring of reservations between head load and swap is a short enough pause |
| RingPause.PauseBoundTight | include/hvnetpp/MpscQueue.h:43-57 | for every order, a pause of exactly one lap lets a swap succeed on a full ring and hand out the node of an unread functor |
| RingReserve.ReserveNullIff | include/hvnetpp/MpscQueue.h:34-57 | reserve returns null exactly on an unmapped ring, or when the loaded tail is a ring or more past the loaded head, modulo a lap; a lost swap keeps the functor and starts over |
| RingReserve.ReserveNullExact | include/hvnetpp/MpscQueue.h:34-57 | the same at every point of every punctual schedule; without the modulus if less than a lap passed between the two loads |
| HandOffProofs.StepInv | src/EventLoop.cpp:84-243 | every step keeps the control state and the wakeup invariant of the hand-off |
| HandOffProofs.NullSignals | src/EventLoop.cpp:165-179 | when the drain stops with functors left, some producer is still before its wakeup |
| HandOffTheorems.NoLostWakeup | src/EventLoop.cpp:89-102 | at every poll after the first, a queued functor implies a readable eventfd or another thread about to write it |
| HandOffTheorems.NoLostQuit | src/EventLoop.cpp:108-113 | at every poll a requested quit implies a readable eventfd or a quitting thread about to write it |
| HandOffTheorems.FirstPollExact | src/EventLoop.cpp:219-243 | at the first poll the wakeup guarantee holds if and only if nothing is queued or another thread took part |
| HandOffTheorems.FirstPollCanStall | src/EventLoop.cpp:84-91 | from every initial state the first poll can be reached with a functor queued, the eventfd at zero and all threads idle |
| HandOffTheorems.EachFunctorOnce | src/EventLoop.cpp:161-191 | every accepted functor is in exactly one of: started from the ring, started from the batch, in the ring, in the batch, in the fallback vector, in its one caller's hands |
| HandOffTheorems.AtMostOnceInOrder | src/EventLoop.cpp:161-191 | no functor starts twice; ring functors start in order of their swaps, fallback functors in order of insertion |
| HandOffTheorems.NothingLeftBehind | src/EventLoop.cpp:84-106 | when the loop sleeps in a later poll with eventfd zero and all threads idle, every functor ever accepted has started |
| HandOffLoop.FallbackIffRefused | src/EventLoop.cpp:219-238 | over every schedule a functor takes the fallback vector if and only if the ring refused its caller for one of those two reasons |
| HandOffLoop.StopsExactlyOnQuit | src/EventLoop.cpp:84-113 | over every schedule the quit flag is set exactly if quit was called, and the loop has stopped exactly if it tested the flag after that |
| HandOffLoop.LaterPollReached | src/EventLoop.cpp:84-106 | from every initial state a later poll is reached with a queued functor run, the eventfd at zero and all threads idle |
| HandOffSteps.EventFdCounts | src/EventLoop.cpp:108-243 | over every schedule the eventfd holds the number of wakeups since it was last read, saturating, and a poll that reported it is followed by the read before the handlers end |
| HandOffSteps.NeverStuck | src/EventLoop.cpp:84-243 | over every schedule every thread inside queueInLoop and the loop thread can take their next step, and user code may queue wherever it runs |
| TimerMath.DriftFree | src/Timer.cpp:7-22 | the next expiration of an expired repeating timer is the one instant e + kI in (now, now + I], despite truncation to microseconds |
| TimerMath.TruncatesTowardZero | src/Timer.cpp:7-22 | the conversion to microseconds rounds toward zero for both signs |
| TimerMath.DelayBounds | src/TimerQueue.cpp:21-28 | the relative time is a valid non-zero timespec that ends by max(when, now + 100 us) and less than a microsecond early |
| TimerSet.Insert | src/TimerQueue.cpp:181 | inserting keeps the set strictly ordered and adds exactly the entry |
| TimerSet.Erase | src/TimerQueue.cpp:102 | erasing keeps the order and removes exactly the entry |
| TimerSet.LowerBound | src/TimerQueue.cpp:137-140 | the position that separates entries less than the key from the others |
| TimerQueueProofs.BatchExact | src/TimerQueue.cpp:135-148 | a batch is exactly the entries due by now, in order, and what stays is later than now |
| TimerQueueProofs.ResetAllInv | src/TimerQueue.cpp:150-160 | restarting or deleting a whole batch keeps both indexes in agreement and adds only entries later than now |
| TimerQueueProofs.EndInv | src/TimerQueue.cpp:150-169 | leaving handleRead restores the invariant, including the skipped re-arm when the earliest expiration is the epoch |
| TimerQueueProofs.StepInv | src/TimerQueue.cpp:87-190 | every add, cancel, fire, callback start and batch end keeps indexes, ownership, sequences and deadline |
| TimerQueueTheorems.StaysArmed | src/TimerQueue.cpp:87-133 | between reads a non-empty queue has an unread expiry or a non-zero one-shot due by max(earliest, arming time + 100 us), and an armed one-shot is less than a microsecond earlier than the earliest entry |
| TimerQueueTheorems.IndexesAgree | src/TimerQueue.cpp:171-190 | the two indexes hold the same timers, each keyed by its current expiration, in equal number |
| TimerQueueTheorems.EachTimerOnce | src/TimerQueue.cpp:95-160 | every timer ever created is in exactly one of the sets, the running batch, or the deleted ones, and is deleted at most once |
| TimerQueueTheorems.StartsOnTime | src/TimerQueue.cpp:118-133 | no callback starts before its expiration, and no batch runs a timer twice or out of order |
| TimerQueueTheorems.CancelFinal | src/TimerQueue.cpp:95-116 | a cancelled live timer never returns to the sets, and its callback starts at most once more, only if the running batch still had it to run |
| TimerQueueTheorems.StaleCancelHarmless | src/TimerQueue.cpp:98-115 | cancelling an id whose timer is gone changes no timer and marks none, even when the address is in use again |
| TimerQueueDrift.NeverDrifts | src/Timer.cpp:7-22 | over every schedule a live repeating timer expires on the grid of its first expiration and its interval |
| TimerQueueRepeat.RestartExact | src/TimerQueue.cpp:150-160 | at every end of a batch, a repeating timer not cancelled since the batch began is in both indexes again under the one instant e + kI in (now, now + I]; every other timer of the batch is deleted |
| TimerQueueRepeat.RepeatsUntilCancelled | src/TimerQueue.cpp:95-160 | over every schedule a timer is deleted only as a one-shot or after a cancel named it, so an uncancelled repeating timer is in the sets or in the running batch |
| TimerQueueRepeat.GridFromSteps | src/Timer.cpp:7-22 | every live timer has the interval its adding step gave and expires whole intervals after the time that step gave |
| TimerQueueRepeat.BatchRunsAll | src/TimerQueue.cpp:124-130 | when a batch ends, the callbacks started last are those of all its entries, in order |
| TimerQueueArm.ArmMovesExactly | src/TimerQueue.cpp:87-169 | the kernel timer is set only for the entry that is then the earliest, and cleared only by expiring or by the cancel that empties the queue |
| TimerQueueArm.UnreadMeansFired | src/TimerQueue.cpp:30-60 | while the one-shot is armed nothing is unread, and what is unread expired since the last read |
| TimerQueueClass.Restart | src/Timer.cpp:7-22 | the stepwise update computes that expiration; a one-shot timer gets the epoch |
| TimerQueueClass.TimerQueue.InsertTimerAt | src/TimerQueue.cpp:171-190 | inserts into both indexes, reports whether the earliest entry changed, and meets every assertion of the source |
| TimerQueueClass.TimerQueue.AddTimerInLoop | src/TimerQueue.cpp:77-93 | creates, inserts, and re-arms exactly when the earliest entry changed |
| TimerQueueClass.TimerQueue.CancelInLoop | src/TimerQueue.cpp:95-116 | erases an active timer and re-arms or disarms, or marks the id while callbacks run |
| TimerQueueClass.TimerQueue.GetExpired | src/TimerQueue.cpp:135-148 | both indexes give up exactly the due entries |
| TimerQueueClass.TimerQueue.HandleReadBegin | src/TimerQueue.cpp:118-127 | reads the kernel timer and takes the batch |
| TimerQueueClass.TimerQueue.StartCallback | src/TimerQueue.cpp:127-129 | the callback loop reaches a timer that is still on the heap |
| TimerQueueClass.TimerQueue.HandleReadEnd | src/TimerQueue.cpp:130-169 | restarts or deletes every entry of the batch and re-arms |
| Buffers.Buffer.constructor | include/hvnetpp/Buffer.h:16-20 | an empty buffer with the cheap-prepend area free |
| Buffers.Buffer.Retrieve | include/hvnetpp/Buffer.h:28-35 | drops a prefix of the contents and frees its room in front, or resets an emptied buffer |
| Buffers.Buffer.RetrieveAll | include/hvnetpp/Buffer.h:37-40 | empties the buffer and frees the cheap-prepend area |
| Buffers.Buffer.RetrieveAsString | include/hvnetpp/Buffer.h:46-51 | splits the contents into what is returned and what stays |
| Buffers.Buffer.MakeSpace | include/hvnetpp/Buffer.h:96-108 | growth or compaction keeps the contents and makes room; its assertions always hold |
| Buffers.GrowsIff | include/hvnetpp/Buffer.h:96-108 | the vector grows exactly when contents and new bytes would not fit behind the cheap-prepend area |
| Buffers.Buffer.Append | include/hvnetpp/Buffer.h:57-61 | concatenates |
| Buffers.Buffer.Prepend | include/hvnetpp/Buffer.h:82-87 | puts bytes in front |
| Buffers.Buffer.ReadFd | src/Buffer.cpp:8-30 | appends exactly the bytes read, at most 65536 of them from the spill buffer and fewer than 131072 in all |
| Buffers.ContentsPlain | include/hvnetpp/Buffer.h:28-108 | over every script that meets the assertions, growing, compacting, spilling and resetting are invisible in the contents |
| Buffers.Drive | include/hvnetpp/Buffer.h:28-108 | after any script of append, ensureWritableBytes, readFd, retrieve, retrieveAll and prepend that meets the assertions of the source, the buffer holds what a plain byte sequence would |
| Buffers.ModestIsLegal | include/hvnetpp/Buffer.h:82-108 | a caller who counts the prepend room, reset to 8 by emptying and grown by retrieving, meets every assertion on a buffer of any capacity |
| Buffers.FramingLegalIff | include/hvnetpp/Buffer.h:37-87 | any number of messages can be framed in one buffer if and only if no header exceeds 8 bytes |
| Polling.Poller.UpdateChannel | src/Poller.cpp:53-71 | the channel's mask becomes the kernel's by a legal epoll_ctl call, and map and index follow |
| Polling.Poller.RemoveChannel | src/Poller.cpp:73-87 | unmaps the channel; its own deletion from the kernel set is unreachable |
| Polling.Channel.Update | src/Channel.cpp:30-36 | pushes the mask unless the channel is new and has none, and touches no other descriptor |
| Polling.Channel.EnableReading | include/hvnetpp/Channel.h:29 | adds read interest in channel, poller and kernel together |
| Polling.Channel.EnableWriting | include/hvnetpp/Channel.h:31 | adds write interest in channel, poller and kernel together |
| Polling.Channel.DisableWriting | include/hvnetpp/Channel.h:32 | removes write interest in channel, poller and kernel together |
| Polling.Channel.DisableAll | include/hvnetpp/Channel.h:33 | clears the mask in channel, poller and kernel together |
| Polling.Channel.Remove | src/Channel.cpp:66-72 | the descriptor leaves the poller's map and is not in the kernel set |
| Polling.IndexMeaning | src/Poller.cpp:53-87 | index 1, 2 and -1 mean exactly: in the kernel set with the channel's non-empty mask, mapped but out of it with none, unmapped |
| Polling.Drive | include/hvnetpp/Channel.h:29-33 | any script of calls on any channels of a poller, removing only with an empty mask, leaves every channel, the poller and the kernel in agreement on the mask scripted for it, and touches no other descriptor |
| ConnectionProofs.StepKeeps | src/TcpConnection.cpp:39-253 | every call, event and outcome keeps stream, half-close and lifecycle, and the phase never goes back |
| ConnectionProofs.StreamPreserved | src/TcpConnection.cpp:188-229 | while live, bytes taken by the socket followed by the output buffer are the data of all sends made while connected, in order, and write interest is on exactly when the buffer is non-empty; afterwards they are a prefix |
| ConnectionProofs.FlushBeforeHalfClose | src/TcpConnection.cpp:231-253 | the half-close is issued at most once, after shutdown, with all data sent while connected written; nothing is accepted or sent later |
| ConnectionProofs.ShutdownReachesSocket | src/TcpConnection.cpp:81-103 | while disconnecting, the half-close has been issued exactly when everything sent while connected has been written |
| ConnectionProofs.LifecycleHolds | src/TcpConnection.cpp:50-135 | handleClose is entered at most once, the descriptor is closed at most once and only after the channel left the poller |
| ConnectionProofs.ForwardOnly | include/hvnetpp/TcpConnection.h:59 | between any two points of a run the phase only moves forward |
| ConnectionProofs.NoticesAreCrossings | src/TcpConnection.cpp:217-228 | over a run, as many high-water notifications are queued as the buffer length crosses the mark upward |
| ConnectionProofs.WriteCompleteExact | src/TcpConnection.cpp:198-206 | at every step of a run, write-complete is queued only when all accepted bytes are written, and whenever a live connection's buffer runs empty |
| ConnectionProofs.PassClosesOnce | src/Channel.cpp:49-64 | for every mask, outcome and callback, a pass meets the assertion of handleClose if and only if it brings no bare hang-up to a closed connection; then it closes at most once, otherwise once more |
| ConnectionProofs.PassKeeps | src/Channel.cpp:49-64 | such a pass keeps the connection invariant |
| ConnectionProofs.HangUpAfterClose | src/TcpConnection.cpp:105-118 | a failed send followed by a bare hang-up enters handleClose twice |
| ConnectionRuns.BufferIsBacklog | src/TcpConnection.cpp:81-229 | over every run the output buffer is the data of all sends made while connected, without as many bytes from the front as the write calls reported |
| ConnectionRuns.InputIsUnread | src/TcpConnection.cpp:63-79 | over every run the input buffer is all bytes read before the close, without those retrieved |
| ConnectionRuns.PhaseMoves | src/TcpConnection.cpp:39-253 | a live connection closes on end of stream, a fatal error or a hang-up and on nothing else, so a transient error leaves it open; shutdown takes effect exactly when connected |
| ConnectionRuns.DisconnectedIff | src/TcpConnection.cpp:39-253 | over every run it is disconnected if and only if it was destroyed or such an operation reached it while live |
| ConnectionRuns.HalfCloseIff | src/TcpConnection.cpp:231-253 | over every run a live connection is half-closed if and only if shutdown was called while connected and the write calls have reported all data sent |
| ConnectionRuns.PassIsRun | src/Channel.cpp:49-64 | an event pass is the run of the operations its mask asks for, in the order hang-up, error, input, output, with the calls of each callback between |
| ConnectionRuns.InterestReachesHandlers | src/Channel.cpp:8-10 | a reported event of the read interest or a half-close by the peer runs the read handler, and exactly the write interest runs the write handler |
| TcpConnections.TcpConnection.constructor | src/TcpConnection.cpp:15-32 | a connecting connection with an unregistered channel and empty buffers |
| TcpConnections.TcpConnection.ConnectEstablished | src/TcpConnection.cpp:39-48 | becomes connected with read interest registered |
| TcpConnections.TcpConnection.HandleRead | src/TcpConnection.cpp:63-79 | buffers input, closes on end of stream, closes on a fatal error |
| TcpConnections.TcpConnection.HandleWrite | src/TcpConnection.cpp:81-103 | drains the buffer, then drops write interest, notifies, and half-closes if shutting down |
| TcpConnections.TcpConnection.HandleClose | src/TcpConnection.cpp:105-118 | becomes disconnected with no interest left |
| TcpConnections.TcpConnection.HandleError | src/TcpConnection.cpp:127-135 | closes a live connection on a fatal error only |
| TcpConnections.TcpConnection.SendInLoop | src/TcpConnection.cpp:188-229 | writes directly when nothing is queued and queues the rest, for every outcome of the write |
| TcpConnections.TcpConnection.Send | src/TcpConnection.cpp:141-158 | ignores empty data and any state but connected |
| TcpConnections.TcpConnection.SendBuffer | src/TcpConnection.cpp:164-182 | when connected, sends and then empties the buffer, also when it is the input buffer of a message callback; leaves it alone otherwise |
| TcpConnections.TcpConnection.RequestShutdown | src/TcpConnection.cpp:231-246 | starts disconnecting from connected only |
| TcpConnections.TcpConnection.ShutdownInLoop | src/TcpConnection.cpp:248-253 | half-closes an open socket that has nothing left to write |
| TcpConnections.TcpConnection.CloseSocket | src/TcpConnection.cpp:261-266 | closes the descriptor once |
| TcpConnections.TcpConnection.ConnectDestroyed | src/TcpConnection.cpp:50-61 | disconnects if needed, leaves the poller, then closes the descriptor |
| ConnectionName.NamesDistinctIff | src/TcpServer.cpp:215-220 | all connections a server can number have distinct names if and only if its own name has at most 51 characters |
| ConnectionName.NameForm | src/TcpServer.cpp:215-220 | up to that length a name is the server name, a dash, the server name again, a hash sign and the number in decimal |
| Server.StepInv | src/TcpServer.cpp:215-253 | accepting, dispatching, user calls and teardown tasks keep the server invariant |
| Server.LifecycleSafe | src/TcpServer.cpp:239-253 | no assertion of server, handleClose or destructor fails, table membership is liveness, teardown is queued once and may run in any order, the descriptor is closed once with the channel gone, and nothing reported is freed before its turn |
| Server.OpenFdsDistinct | src/TcpServer.cpp:215-237 | no two open connections ever share a descriptor |
| Server.AcceptedFdUnmapped | src/TcpServer.cpp:215-237 | at every accept the poller has no channel under the new descriptor, and afterwards each mapped descriptor belongs to one connection |
| Server.FaultFreeIff | src/Channel.cpp:49-64 | over every run, polite or not, no assertion fails and no freed object is used if and only if no bare hang-up reaches a closed connection |
| Server.PeersAreRuns | src/TcpServer.cpp:215-253 | over every schedule each connection of the server is the outcome of a run of its own from a fresh connection |
| Utf8.Utf8Canonical | src/thirdparty/rtclog/easylogging++.cc:2480-2555 | the loop returns or throws what the recursive reading of the input says |
| Utf8.GroupByOnes | src/thirdparty/rtclog/easylogging++.cc:2488-2526 | for every input a group has as many bytes as its first byte has leading ones, two to four, or one for none, and the code point of its remaining bits; anything else is refused |
| Utf8.EncodeDecodes | src/thirdparty/rtclog/easylogging++.cc:2540-2550 | decoding an emitted group in the shortest form gives the code point back |
| Utf8.ShortIsEncoded | src/thirdparty/rtclog/easylogging++.cc:2529-2547 | a group in the shortest form is what the source emits for its code point, and is read alike |
| Utf8.CanonicalSucceeds | src/thirdparty/rtclog/easylogging++.cc:2488-2538 | it does not throw if and only if the input is readable and every transformed code point is at most U+10FFFF |
| Utf8.CanonicalDecodes | src/thirdparty/rtclog/easylogging++.cc:2480-2555 | the output is the shortest form of exactly the transformed code points |
| Utf8.CanonicalValidIff | src/thirdparty/rtclog/easylogging++.cc:2480-2555 | the output is valid UTF-8 by the byte table of section 4 of RFC 3629 if and only if no transformed code point is a surrogate |
| Utf8.SanitizeIdempotent | src/thirdparty/rtclog/easylogging++.cc:2557-2570 | no control code points but 9, 10 and 13 remain, and a second pass neither throws nor changes anything |
| Utf8.SanitizeReplaces | src/thirdparty/rtclog/easylogging++.cc:2557-2570 | each control code point but 9, 10 and 13 becomes a question mark and no other changes |
| Utf8.SanitizeKeepsClean | src/thirdparty/rtclog/easylogging++.cc:2557-2570 | a shortest form without control code points passes unchanged |
| Utf8.SanitizeValidIff | src/thirdparty/rtclog/easylogging++.cc:2557-2570 | sanitized text is valid UTF-8 if and only if no surrogate was read |
| Utf8.SanitizeKeepsValid | src/thirdparty/rtclog/easylogging++.cc:2557-2570 | valid text is never refused and stays valid |
| Utf8.SurrogatePasses | src/thirdparty/rtclog/easylogging++.cc:2525-2547 | the three bytes ED A0 80 pass unchanged although they are not valid |
| CategoryFilter.WildCardMatch | src/thirdparty/rtclog/easylogging++.cc:959-981 | terminates and returns the declarative meaning of the glob |
| CategoryFilter.ParseFields | src/thirdparty/rtclog/easylogging++.cc:2162-2194 | for every list of fields glob:word, a field whose word is a level is a category and any other is glued to the next |
| CategoryFilter.EachFieldCountsIff | src/thirdparty/rtclog/easylogging++.cc:2162-2194 | a list makes one category of each field if and only if every word is a level |
| CategoryFilter.MisspeltLevelGlues | src/thirdparty/rtclog/easylogging++.cc:2169-2177 | a field with the word NOPE puts its glob in front of the next one |
| CategoryFilter.NameIsLevel | src/thirdparty/rtclog/easylogging++.cc:225-243 | both spellings of each level name are read as that level |
| CategoryFilter.ParseFormat | src/thirdparty/rtclog/easylogging++.cc:2162-2194 | parsing the form glob:LEVEL,glob:level, in either spelling, gives the listed categories back, in order |
| CategoryFilter.RuleBySeverity | src/thirdparty/rtclog/easylogging++.cc:2122-2224 | a message passes if and only if some category matches and its level is at least as severe as that of the last one that does, in the order fatal, error, warning, info, debug, verbose, trace |
| CategoryFilter.CStrExact | src/thirdparty/rtclog/easylogging++.cc:2214 | the text matched is everything before the first NUL |
| CategoryFilter.VRegistry.SetCategories | src/thirdparty/rtclog/easylogging++.cc:2134-2195 | replaces or extends the list by the parsed categories and keeps cache and lowest priority sound |
| CategoryFilter.VRegistry.ClearCategories | src/thirdparty/rtclog/easylogging++.h:2467-2472 | empties list and cache |
| CategoryFilter.VRegistry.Allowed | src/thirdparty/rtclog/easylogging++.cc:2202-2224 | the early exit, the cache and the search give the answer of the last matching category |
| CategoryFilter.Answers | src/thirdparty/rtclog/easylogging++.cc:2134-2224 | over every history of configuring, clearing and asking, the answers are those of the uncached rule |

## Left out

- Weak memory orderings: atomic steps are sequentially consistent; a memset of a node is one step.
- mmap mirroring, temporary files, `SocketsOps`, `InetAddress`, `Resolver`, `UdpSocket`, Acceptor
  set-up and the EMFILE idle descriptor: thin layers over system calls that would add only easy members.
- Destroying the server, the loop or the timer queue from inside a callback, and adding timers from
  another thread: lifetime questions the code leaves to its callers.
- First-in first-out order across ring and fallback vector: the code does not provide it.
- Progress beyond `HandOffSteps.NeverStuck`: that an enabled step is eventually taken is not stated.
- 64-bit overflow of time points, of sequence numbers and of byte counts: integers are unbounded there.
- Embedded NUL characters in server names, and `m_categoriesString`, which no decision reads.
- Bit masks in `Utf8` are written as ranges and remainders.
- The rest of easylogging++ and rtclog, the demos and the build files.
- TimerQueueClass.TimerQueue.HandleReadBegin: `handleRead` is split at its callbacks into three methods,
  because the code between them belongs to the user.
- TcpConnections.TcpConnection.HandleClose: user callbacks are further operations of the run, not calls
  inside the method; each handler ends with them.
