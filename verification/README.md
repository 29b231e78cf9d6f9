# Verified model of vcl-rs

vcl-rs wraps VPP's communications library (libvppcom) for Tokio. This project
models the parts of the crate that hold state machines and loops, and proves
what they promise over every run:

- **The reactor's wake-up protocol** (`src/reactor.rs`). `ReactorModel` is a state
  machine over VPP, the tick task, every `wait_event` future and every session
  wrapper; `ReactorInvariants` to `ReactorStarvation` prove what each step and each
  run keeps, `ReactorService` and
  `ReactorGroup` whom a tick or an event serves. `Reactor` is the object itself (batched drain, tick, one poll of
  `wait_event`), shown to perform runs of that machine.
- **Streams and DNS over TCP** (`src/stream.rs`, `src/dgram.rs`). `Streams` holds the
  awaiting loops and `poll_read`/`poll_write` on top of `Reactor`; `Framing` the
  two-byte length prefix of section 4.2.2 of RFC 1035; `TcpDns` the blocking and the
  awaiting query, both held against one function of the peer's bytes.
- **The long-lived UDP socket** (`Udp`, with `Endpoints` for addresses at the FFI
  boundary) and the **connect budget** (`ConnectBudget`).
- **Worker registration and `prewarm`** (`src/app.rs`): `WorkerPool` and `Prewarm`,
  state machines over threads, lock, worker pool and barrier.

`dafny verify dfyconfig.toml` checks everything.

## Assumptions about the surroundings

VPP and Tokio appear as nondeterministic steps or as methods whose bodies pick any
outcome the following contract allows.

- `notify_one` hands its notification to the waiter parked longest or stores one
  permit. A future that was handed one and is dropped passes it on.
- VPP posts a receive event when data arrives for a session of the epoll set whose
  `has_event` flag is clear; the flag is cleared when a read empties the FIFO.
  Whether the readiness bit of the eventfd follows an event is left open
  (`Arrive`, `WriteEvent`), it may be set without one (`Spurious`), and an event may
  fall between drain and `clear_ready`.
- The zero-length timer that follows a drain has fired once the clock has moved on;
  within the same millisecond it may or may not have.
- `epoll_wait`, `read`, `write` and `recvfrom` return at most what was asked for.
- Awaiting `wait_readable` or `wait_writable` from the byte loops is a hint or an error
  at any time, and Timeout not before the timeout has passed (`SessionHandle.Await`);
  `PollRead` and `PollWrite` use the reactor itself.
- The clock never runs backwards and blocking takes some time.
- Writes that accept nothing come finitely often (`zeros`). Retryable codes may come
  for ever: the awaiting loops take the number of waits their caller sits through
  before it drops the future, the blocking query is ended by its deadline.
- A task whose timer fired runs at most `lag` later (`ConnectBudget`).
- `vppcom_worker_unregister` frees the slot of a failed registration; the code ignores
  its return code.

## Where the code and its documentation differ

- The module header of the reactor speaks of a 50 ms tick, the code ticks every
  10 ms. The model counts ticks and depends on neither.
- `wait_event` ignores the event mask, so readers and writers of a session share
  one queue; an Ok is a hint only. The model follows the code.
- The documentation says a tick frees every stalled waiter. That is so for a waiter
  that shares its Notify with nobody, however often its eventfd branch restarts it:
  `Leave` turns the notification it drops into a permit (`SoleServed`,
  `TickEndsStall`, `EventServed`, and the last clause of `PollWait`). A waiter that
  shares the Notify, as a reader and a writer of one session do, is sure of it only
  while it stays parked (`WokenWithinTicks`); its restarts hand the notification to
  the other waiter and put it last again, for any number of ticks
  (`RestartsDefeatTicks`). What holds of sharing waiters is that they are served as a
  group: a notification may be redirected, never lost (`GroupServed`,
  `TickServesGroup`).
- `connect_async` registers its session before connecting so as not to miss the
  event that follows. Registration alone does not do that: an event drained before
  the wait has entered the map is dropped (`DrainedBeforeWait` gives the exact
  condition). What protects the caller is that the task awaits nothing in between,
  and failing that the next tick.
- `frame_tcp_dns_query` accepts the empty query, which `decode_tcp_dns_len` rejects
  (`RoundTripGap` gives the exact condition).
- The drop of a stream is meant to keep the map from leaking entries, but
  `connect_async` builds the stream only after its wait, so a failed wait leaves its
  entry behind (`ConnectLeaks`). `OrphanIff` says exactly when an entry without an
  owner exists, `KeyIff` exactly when an entry exists, and `EntryStays` that it stays.
- `read` with an empty buffer reports Closed, which is documented as end of file.
- `connect_async` bounds its wait, not its setup, by the remaining budget; so the last
  attempt may end after the caller's timeout, by its own setup and the runtime's lag.
- A stray datagram skips the deadline check of `VclUdpSyncSocket::query`; the loop
  ends because arrivals are finite. After the deadline there is at most one call of
  recvfrom more than there is to receive (`LateWorkBounded`).

## Model

| member | source | states |
|---|---|---|
| `Errors.FromRc` | src/error.rs:22-40 | exactly EAGAIN, EINPROGRESS and ENOTCONN are retryable, exactly ECONNRESET and EPIPE mean closed, everything else keeps its code; Timeout never comes from a code |
| `Errors.VclToIo` | src/stream.rs:277-283 | only WouldBlock maps to WouldBlock, only Closed to UnexpectedEof, everything else to Other |
| `Notifies.NotifyOneWf` | src/reactor.rs:316-321 | a notification keeps permit and queue exclusive, the queue free of duplicates, the accounts balanced, and loses nobody |
| `Notifies.LeaveWf` | src/reactor.rs:276-287 | dropping a branch removes exactly that waiter and keeps the accounts balanced: a notification it held moves on |
| `Notifies.NotifyOneRank` | src/reactor.rs:183-185 | each notification brings every queued waiter exactly one place forward, in arrival order |
| `Notifies.LeaveRank` | src/reactor.rs:276-287 | a waiter leaving never moves another one back |
| `ReactorInvariants.SignalCore` | src/reactor.rs:316-321 | notifying a session, known or not, keeps queues, map and waits consistent |
| `ReactorInvariants.BeginCore` | src/reactor.rs:255-265 | looking up or inserting the Notify keeps the map injective and the new wait on the live entry |
| `ReactorInvariants.UnmapCore` | src/reactor.rs:229-240 | a removed Notify is stale for good: no later entry reuses it |
| `ReactorInvariants.WaitStepCore` | src/reactor.rs:267-291 | every branch of the wait loop keeps each Notify's queue equal to the futures parked on it |
| `ReactorInvariants.StepFlag` | src/reactor.rs:16-27 | `has_event` is set exactly while the FIFO holds bytes, under every step |
| `ReactorInvariants.StepOwner` | src/reactor.rs:208-240 | every epoll member and map key has an owner or is a recorded leftover, and none belongs to a session that is closing |
| `ReactorInvariants.StepInv` | src/reactor.rs:154-326 | every step of every party keeps the whole invariant |
| `ReactorInvariants.ReachableInv` | src/reactor.rs:63-326 | in every reachable state a wait holds the map's current Notify if and only if its session was not deregistered since it began |
| `ReactorSignals.SignalAllAt` | src/reactor.rs:301-326 | a pass over any events is, at each Notify, that many plain notify_one calls; unknown sessions change nothing |
| `ReactorSignals.NotifyAllAt` | src/reactor.rs:183-185 | notify-all reaches each mapped Notify exactly once and no other |
| `ReactorSignals.NotifyAllOrderIrrelevant` | src/reactor.rs:181-185 | the HashMap's iteration order is invisible in the result |
| `ReactorFairness.StaysCurrent` | src/reactor.rs:256-263 | a wait keeps the live Notify under every step of others but a deregistration of its session |
| `ReactorFairness.PlaceRun` | src/reactor.rs:154-201 | in every run without a step of the waiter itself, each tick moves it at least one place forward even if those ahead re-park behind it |
| `ReactorFairness.WokenWithinTicks` | src/reactor.rs:154-201 | from every reachable state a waiter with p others ahead that stays parked is handed a notification within p + 1 ticks, whatever all others do short of a deregistration |
| `ReactorStarvation.Starves` | src/reactor.rs:276-284 | any number of rounds of tick, re-park and eventfd restart, with any time between them, ends in a state where the waiter is still last |
| `ReactorStarvation.RestartsDefeatTicks` | src/reactor.rs:276-284 | for every k and every time between ticks that fits the deadline there is a run with k ticks in which a waiter sharing its Notify, restarted by its eventfd branch, waits throughout: no step completes, ends or restarts its call |
| `ReactorGroup.GroupServed` | src/reactor.rs:276-326 | over every run that calls notify_one on a Notify, whatever its waiters do, one of them returns Ok or at the end a notification is stored or on its way |
| `ReactorGroup.TravellingCompletes` | src/reactor.rs:276-290 | while one is, a waiter it was handed to can complete, or nobody on that Notify can park and each can complete when polled |
| `ReactorGroup.TicksCall` | src/reactor.rs:179-185 | a session that stays in the map gets at least one notify_one per tick |
| `ReactorGroup.TickServesGroup` | src/reactor.rs:154-201 | from every reachable state and in every run with a tick the waiters of a session are served as a group |
| `ReactorGroup.DroppedWait` | src/reactor.rs:255-292 | a running wait can be dropped at any point, leaves its queue, and takes no notification with it |
| `ReactorService.SoleStep` | src/reactor.rs:255-292 | a wait stays the only one on the live Notify under every step but those that end it, take the session down or begin another wait on it |
| `ReactorService.OwedRun` | src/reactor.rs:276-290 | over every such run a notification stored for or handed to a sole waiter stays with it until its wait returns, also through its own restarts |
| `ReactorService.TickOwes` | src/reactor.rs:183-185 | one notify-all reaches a sole waiter wherever it stands in its loop |
| `ReactorService.SoleServed` | src/reactor.rs:154-201 | from every reachable state and in every run with at least one tick, the waiter's own eventfd rounds included, a sole waiter that does not give up has returned Ok or holds a notification, cannot park and can complete |
| `ReactorService.EventServed` | src/reactor.rs:276-326 | the same after any drain that carries an event of its session, be it by the tick, another wait or the waiter itself |
| `ReactorService.TickEndsStall` | src/reactor.rs:29-40 | from every reachable stall, in every run with a tick that takes no bytes away, the waiter has returned or holds a notification, the bytes can be read, and emptying the FIFO makes the next arrival raise an event again |
| `ReactorService.OwedPollReady` | src/reactor.rs:267-291 | a poll of a sole waiter that holds a notification is never Pending |
| `ReactorService.KeptBegins` | src/reactor.rs:255-285 | a wait begun on a stored permit holds a notification from the start |
| `ReactorStall.StallReachable` | src/reactor.rs:16-27 | for every session, timeout and sizes a run without any step of the tick task leads into the stall: the waiter drains the event itself, reads a part, parks again and more data comes in with the eventfd dormant |
| `ReactorStall.StallStep` | src/reactor.rs:268-275 | any step but notify-all, and those that touch the session itself, keeps the stall or is the waiter's timeout at its deadline |
| `ReactorStall.StallRun` | src/reactor.rs:268-291 | without notify-all a stalled wait never returns Ok in any run; it leaves by its deadline only |
| `ReactorStall.StalledNeedsOneTick` | src/reactor.rs:29-36 | a stalled parked waiter is first in its queue and its FIFO holds bytes, so one tick suffices |
| `ReactorStall.TicksMakeProgress` | src/reactor.rs:29-40 | for a waiter that may share its Notify and stays parked for its number of ticks, the wait can return Ok, the retry finds at least the bytes that were there, and emptying the FIFO makes the next arrival raise an event again |
| `ReactorStall.FifoConserved` | src/reactor.rs:18-34 | over every run of an open session, bytes arrived equal bytes read plus bytes held, and the flag is clear exactly once everything was read |
| `ReactorStall.FifoSinceClose` | src/reactor.rs:16-27 | after a close whatever was left over is gone: the FIFO holds what arrived since less what was read since, and the flag follows |
| `ReactorEdges.DrainStoresPermit` | src/reactor.rs:316-321 | an event drained while nobody is parked is stored as a permit |
| `ReactorEdges.KeptRun` | src/reactor.rs:255-292 | over every run the permit stays until the session's only waiter takes it |
| `ReactorEdges.KeptCompletes` | src/reactor.rs:281-290 | while it is stored that waiter cannot park and its next wait can complete with no further event |
| `ReactorEdges.NoLostEdge` | src/reactor.rs:255-326 | an event drained between a failed read and the next wait, by the tick or by any other wait's eventfd branch, is not lost in any run |
| `ReactorEdges.DrainedBeforeWait` | src/reactor.rs:316-321 | in every run up to the first wait on a session, an event drained earlier lets that wait complete at once if and only if the map had an entry when it was drained; otherwise the wait can only park |
| `ReactorLedger.RunLedger` | src/reactor.rs:265-326 | over every run the counters equal the Ok waits and the notify_one calls that occurred |
| `ReactorLedger.NotificationsConserved` | src/reactor.rs:265-291 | calls made equal waits completed plus merged, stored and travelling notifications; so Ok waits never exceed calls |
| `ReactorLedger.EventsConserved` | src/reactor.rs:301-326 | over every run the events posted for a session are those drained and those still queued |
| `ReactorLedger.TimeoutNeverEarly` | src/reactor.rs:265-286 | a wait that returns Timeout lasted at least its own timeout, in every run |
| `ReactorOwners.MapBounded` | src/stream.rs:145-154 | in every run the map has at most one key per live wrapper, running connect and failed connect; without failures every key has a living owner; closing sessions have none |
| `ReactorOwners.EntryStays` | src/reactor.rs:229-231 | only a deregistration of that handle removes an entry, so a leftover stays |
| `ReactorOwners.KeyIff` | src/reactor.rs:229-263 | over every run a handle is a key of the map if and only if it was one before, or a wait on it began, with no deregistration since |
| `ReactorOwners.OrphanIff` | src/stream.rs:145-162 | over every run the map holds an entry without an owner if and only if a connect failed after its wait had begun and the handle was since neither deregistered nor given out again |
| `ReactorOwners.ConnectLeaks` | src/stream.rs:145-154 | from every state in which the handle is free, a connect whose wait times out is a run that ends the wait and leaves such an entry |
| `ReactorOwners.WatchedIff` | src/reactor.rs:208-240 | over every run a session is in the epoll set if and only if it was registered and neither deregistered nor closed since, and its handle is taken exactly from its making to its close |
| `ReactorPolls.BeginFuel` | src/reactor.rs:255-265 | starting a wait puts it on the live Notify and adds nothing that could make it spin |
| `ReactorPolls.GrantFuel` | src/reactor.rs:281-290 | completing a wait uses up one unit of permits, events and MQ bit |
| `ReactorPolls.MqFuel` | src/reactor.rs:277-284 | the eventfd branch strictly lowers that measure: an event becomes at most one permit and the MQ bit goes |
| `ReactorPolls.FirstPoll` | src/reactor.rs:255-292 | starting and polling in one go is a run of the waiter's own steps and keeps the promises of a poll |
| `Reactor.DrainMore` | src/reactor.rs:304-325 | draining in batches is one longer drain |
| `Reactor.DrainableAll` | src/reactor.rs:304-325 | if VPP hands out all it has, batches of 64 until a short one empty the queue whatever its length |
| `Reactor.VclReactor.EpollWait` | src/reactor.rs:305-312 | at most a buffer of events, in order, the rest stays queued |
| `Reactor.VclReactor.DrainBatch` | src/reactor.rs:305-321 | one batch is a drain of as many events as epoll_wait returned |
| `Reactor.VclReactor.DrainEvents` | src/reactor.rs:301-326 | the batched loop terminates and equals one pass over exactly the events that full batches of 64 and one short batch cover, whatever epoll_wait grants |
| `Reactor.VclReactor.NotifyEveryone` | src/reactor.rs:180-185 | walks the map in some order and performs notify-all |
| `Reactor.VclReactor.RunTick` | src/reactor.rs:179-193 | a tick is a whole drain followed by a notify-all and keeps the invariant |
| `Reactor.VclReactor.Unregister` | src/reactor.rs:229-240 | performs the deregistration step |
| `Reactor.VclReactor.StartWait` | src/reactor.rs:256-265 | performs the first step of a wait |
| `Reactor.VclReactor.PollNotified` | src/reactor.rs:281-285 | ready exactly if a permit is stored or the waiter was handed a notification; otherwise parked in the queue with this context's waker |
| `Reactor.VclReactor.MqBranch` | src/reactor.rs:277-281 | drop, whole drain, clear as a run of the machine that lowers the measure and makes the zero-length timer |
| `Reactor.VclReactor.GiveUp` | src/reactor.rs:278-286 | Timeout at or after the deadline, or the driver's error, with the queue left properly |
| `Reactor.VclReactor.PollGrace` | src/reactor.rs:281-284 | the zero-length wait completes, stays parked within the millisecond its timer was made in, or expires back into the select |
| `Reactor.VclReactor.FallAsleep` | src/reactor.rs:276-287 | with no branch ready the wait parks with this context as waker |
| `Reactor.VclReactor.PollSelect` | src/reactor.rs:276-287 | Pending only if the eventfd is not ready, nothing was notified, the deadline lies ahead and the driver is up; otherwise a ready branch is taken, and another round with a lower measure follows the eventfd branch |
| `Reactor.VclReactor.PollRound` | src/reactor.rs:267-291 | one round of the loop either gives the poll's promises or goes round again with a lower measure or out of its zero-length wait |
| `Reactor.VclReactor.PollWait` | src/reactor.rs:255-292 | one poll terminates, is a run of the waiter's own steps, and is Pending only when parked on the live Notify with this context as waker and with no branch ready (or in its zero-length wait); if it cleared the eventfd it had drained every event; an I/O error is the driver's; a sole waiter holding a notification is never Pending |
| `Reactor.VclReactor.PollFirst` | src/stream.rs:327-335 | the first poll starts one wait of five minutes on the session and keeps the promises of a poll |
| `Reactor.VclReactor.PollStored` | src/stream.rs:294-306 | the same for a wait that may or may not have been started; it is started exactly if it was not, and one that finds a stored permit of its own is never Pending |
| `Sessions.SessionHandle.Read` | src/session.rs:85-93 | the codes and bytes a read may yield: the next bytes in place, 0 only at the end, or an error that changes nothing |
| `Sessions.SessionHandle.Write` | src/session.rs:95-102 | a prefix of the slice is appended to the TX FIFO, or an error changes nothing; every code is logged |
| `Sessions.SessionHandle.Await` | src/reactor.rs:245-253 | awaiting a wait yields a hint, an I/O error, or a Timeout no earlier than its timeout; errors are recorded |
| `Streams.EndsOnce` | src/stream.rs:189-206 | no proper prefix of the codes one read loop consumed would have ended another |
| `Streams.ReadOutcome` | src/stream.rs:191-204 | bytes for a positive code, Closed exactly for 0 and the two codes of a session that is gone, the code itself for any other that is not retryable |
| `Streams.PollOutcome` | src/stream.rs:308-341 | Ok with the count for a code of 0 or more, Ok with nothing exactly for a session that is gone, kind Other for any other code that is not retryable |
| `Streams.WriteOutcome` | src/stream.rs:367-383 | Ok with the count exactly for a code of 0 or more, UnexpectedEof exactly for a session that is gone, kind Other for any other code that is not retryable |
| `Streams.ReadMatchesPoll` | src/stream.rs:286-343 | on the same codes read and poll_read use up the same ones, deliver the same bytes, say Closed and EOF together, and never surface a retryable code |
| `Streams.OthersHold` | src/stream.rs:29-37 | polling one direction leaves the stored wait of the other direction alone |
| `Streams.VclStream.constructor` | src/stream.rs:156-161 | a fresh stream holds no stored wait |
| `Streams.VclStream.Read` | src/stream.rs:189-206 | one read per round, one wait for each retryable code and no other, then the deciding code's outcome with the stream's next bytes, or the error of a wait that followed a retryable code; Timeout only after a full wait; dropped in a wait it has taken nothing, and only after as many retryable codes as its caller had patience for |
| `Streams.VclStream.ReadExact` | src/stream.rs:210-217 | fills the buffer with exactly the next bytes of the stream however they are cut; an error is what the last code of this call says; Closed without a fault only if the stream is too short, Timeout only after a full wait; dropped half-way, the bytes taken are the front of the buffer |
| `Streams.VclStream.WriteAll` | src/stream.rs:221-237 | the TX FIFO grows by a prefix of the buffer, by all of it exactly on success; one wait for each retryable code and no other; an error is what the last code of this call says; Timeout only after a full wait; dropped half-way a proper prefix was sent |
| `Streams.VclStream.PollDirection` | src/stream.rs:294-306 | polling the wait of one direction keeps its promises and leaves the stored wait of the other in place |
| `Streams.VclStream.Resume` | src/stream.rs:294-306 | a stored wait is cleared exactly when it is ready, and a success lowers the measure |
| `Streams.VclStream.Ask` | src/stream.rs:308-309 | one read of the session moves exactly the bytes its code reports and logs the code |
| `Streams.VclStream.TryRead` | src/stream.rs:308-341 | one attempt: retry exactly on a retryable code, otherwise the reported bytes and no others are moved |
| `Streams.VclStream.ReadOrStore` | src/stream.rs:308-341 | one read attempt; a wait is stored exactly if the code was retryable |
| `Streams.VclStream.ReadRound` | src/stream.rs:292-342 | one round of the loop: with no wait stored a read is made; waits started and stored are one per retryable code; the measure is lowered when it goes round again |
| `Streams.VclStream.PollRead` | src/stream.rs:286-343 | terminates; a call that found no wait stored reads before it waits, and over the call exactly one wait of five minutes is started for each retryable code; Pending holds a wait polled with this context, parked on the live Notify and right to sleep; Ready holds none and is the outcome of the code that ended the loop or of a failed wait; EOF only at the end or on a closed session |
| `Streams.VclStream.TryWrite` | src/stream.rs:367-383 | one attempt: retry exactly on a retryable code, otherwise the code's outcome and exactly the reported prefix sent |
| `Streams.VclStream.WriteOrStore` | src/stream.rs:367-383 | one write attempt; a wait is stored exactly if the code was retryable |
| `Streams.VclStream.WriteRound` | src/stream.rs:353-383 | one round of the write loop, as for reading: with no wait stored a write is tried, and waits are one per retryable code |
| `Streams.VclStream.PollWrite` | src/stream.rs:347-384 | the same protocol for writing: a write is tried before any wait, one wait per retryable code, the result is the outcome of the code that ended the loop or of the failed wait, and exactly the reported prefix reaches the TX FIFO |
| `Framing.ToBeBytes` | src/dgram.rs:287-294 | two bytes that decode to the number |
| `Framing.MostSignificantFirst` | src/dgram.rs:307 | the prefix is big-endian |
| `Framing.FrameTcpDnsQuery` | src/dgram.rs:286-297 | refuses exactly queries above 65535 bytes; otherwise length prefix and unchanged body |
| `Framing.DecodeTcpDnsLen` | src/dgram.rs:306-312 | rejects exactly the zero prefix and inverts the encoding |
| `Framing.Reply` | src/dgram.rs:380-385 | the reference result of reading one reply: a body of 1 to 65535 bytes within the stream |
| `Framing.ReplyIffFramed` | src/dgram.rs:286-312 | a stream yields q if and only if it starts with the frame of q |
| `Framing.PrefixFree` | src/dgram.rs:286-297 | no frame is a proper prefix of another |
| `Framing.UnframeFrames` | src/dgram.rs:286-312 | any sequence of framed queries is decoded back to itself |
| `Framing.FramesUnframe` | src/dgram.rs:286-312 | decoding any stream loses no byte and stops only where no frame follows |
| `Framing.RoundTripGap` | src/dgram.rs:299-312 | framing then decoding returns the query if and only if it is not empty |
| `Clocks.Clock.Now` | src/dgram.rs:512 | the clock never runs backwards |
| `Clocks.Clock.Block` | src/dgram.rs:467-477 | draining or sleeping takes some time |
| `TcpDns.SendAll` | src/dgram.rs:519-558 | terminates; the FIFO always holds a prefix of the frame, all of it exactly on success; a retryable code from the deadline on ends the loop with Timeout, and Timeout comes in no other way; any other error is the last code's |
| `TcpDns.Fill` | src/dgram.rs:565-614 | terminates; fills with exactly the next bytes; every read follows a check made before the deadline; Timeout only at or after it and with the buffer not full; any other error is the last code's |
| `TcpDns.FillReply` | src/dgram.rs:563-614 | length prefix and body under one deadline: the reference result of the peer's bytes, or Timeout with the reply not there in full |
| `TcpDns.ExchangeSync` | src/dgram.rs:512-623 | barring a fault or the deadline the result is the reference result of the peer's bytes, with exactly 2 + len of them consumed; one deadline, set before the first write, bounds every write retry and every read; nothing is read before all is sent; Timeout never covers a reply that was read in full |
| `TcpDns.ReadReply` | src/dgram.rs:380-385 | the two awaiting reads give the same reference result |
| `TcpDns.ExchangeAsync` | src/dgram.rs:377-386 | barring a fault or a caller that drops it the same reference result, so chunking and scheduling are invisible and both readers agree; nothing is read before all is sent, and the caller sits through no more waits than it has patience for |
| `TcpDns.FarEndDecodes` | src/dgram.rs:519-558 | the far end decodes the query if and only if the whole frame was sent; any shorter prefix reads as Closed |
| `Endpoints.SwapTwice` | src/session.rs:275-283 | network byte order and back is the identity |
| `Endpoints.EndpointIntoBuf` | src/session.rs:259-291 | whatever the buffer held, reading the endpoint back gives the address; the tail of an IPv4 buffer is untouched |
| `Udp.VclUdpSyncSocket.SendTo` | src/session.rs:132-148 | the query goes out to the peer, or an error sends nothing |
| `Udp.VclUdpSyncSocket.RecvFrom` | src/session.rs:109-129 | one datagram into the front of the buffer, with its sender's address |
| `Udp.VclUdpSyncSocket.Query` | src/dgram.rs:870-903 | returns the earliest datagram from the peer's address, everything received before it differs, and the bytes are that datagram's alone, up to 4096; one deadline, set between sendto and the first recvfrom: a call from then on that finds nothing ends the query with Timeout, and Timeout comes in no other way |
| `Udp.LateWorkBounded` | src/dgram.rs:880-901 | after the deadline recvfrom is called at most once more than there were datagrams or errors to receive |
| `ConnectBudget.OneMore` | src/dgram.rs:354-369 | an attempt begun before the deadline proves no earlier one timed out |
| `ConnectBudget.ConnectAsync` | src/stream.rs:128-162 | one attempt as its caller sees it: setup of any length, then a wait bounded by the budget and the runtime's lag; Timeout only when the budget is used up |
| `ConnectBudget.OnlyTheLastIsLate` | src/dgram.rs:354-369 | of the attempts `ConnectFrom` logs, all but the last end within the caller's timeout and that one overruns it by at most its own setup and the runtime's lag |
| `ConnectBudget.ConnectFrom` | src/dgram.rs:340-372 | every attempt made is logged and begins within the caller's timeout with the time left as its budget, a timed-out attempt is the last and makes the result Timeout, success is that of the last attempt, any other error is the eighth attempt's |
| `WorkerPool.LowestFree` | src/app.rs:111-119 | pool_get yields the lowest free index |
| `WorkerPool.StepInv` | src/app.rs:98-143 | every action of every thread keeps lock, slots and history consistent |
| `WorkerPool.PoolMatchesFlags` | src/app.rs:98-143 | under every interleaving and failure pattern, whenever the lock is free there is exactly one slot per flagged thread plus the init thread's |
| `WorkerPool.FlaggedStaysOut` | src/app.rs:99-102 | a flagged thread never makes the FFI call again, in any run |
| `WorkerPool.FailedRetriesLeaveNoTrace` | src/app.rs:110-133 | any number of interleaved failed attempts leaves the same slots with the same owners |
| `WorkerPool.FailuresFromQuiet` | src/app.rs:91-97 | from one quiet moment to another, failed attempts alone change neither slots nor flags |
| `WorkerPool.FlaggedRunIsQuiet` | src/app.rs:31-33 | in every run of flagged threads only, the pool and the FFI call counts stay as they are |
| `WorkerPool.CallIsRun` | src/app.rs:98-143 | the body of the function, uninterrupted, is a run of the protocol |
| `WorkerPool.CallOutcome` | src/app.rs:110-141 | a call registers the thread or leaves the pool as it was |
| `WorkerPool.Registry.WorkerRegister` | src/app.rs:104-105 | the outcomes the FFI call may have |
| `WorkerPool.Registry.RegisterWorkerThread` | src/app.rs:98-143 | flagged and owning a slot, or untouched and free to retry; exactly one FFI call unless the thread is flagged, when nothing is touched |
| `Prewarm.StepInv` | src/app.rs:160-179 | every step keeps tasks on different threads and the barrier closed until all have arrived |
| `Prewarm.DistinctThreads` | src/app.rs:145-151 | once anyone is past the barrier, the n tasks are on n distinct threads, each having completed a registration attempt since its task began |
| `Prewarm.TooFewThreads` | src/app.rs:154-156 | with fewer than n threads no reachable state has a task past the barrier |
| `Prewarm.PanicForfeits` | src/app.rs:160-179 | a task that panics before the barrier keeps all others from passing it, and the call never succeeds |
| `Prewarm.PrewarmedPoolIsStable` | src/app.rs:29-34 | after a success, if each of the n threads is registered or never failed, nothing those threads do touches the worker pool again, whatever failed elsewhere |
| `Prewarm.SucceedsIffEnoughThreads` | src/app.rs:152-179 | prewarm(n) can succeed if and only if the pool may grow to n threads |

## Left out

- The libvppcom calls and `src/ffi.rs`: only their assumed return-value contracts are modelled.
- `VclStream::connect`: its work is one blocking FFI call.
- `verify_bind_or_err`, `bind_random_ephemeral` and the random choice of ports: FFI polling and randomness.
- `VclListener::accept`, `VclDgramSocket::recv_from`, `send_to` and `wait_readable`: the same retry loop once more; as owners of map entries they appear in the lifecycle steps of `ReactorModel`.
- `query_tcp_dns_sync` before its deadline is set and `query_tcp_dns_async` without a source address: session creation, bind and a single connect.
- `query_udp_sync`: the loop of `Query` without the address test.
- `VclApp::init`, its drop, `local_addr`, `peer_addr`, `set_nodelay`, `set_nonblocking`, `poll_shutdown`: thin wrappers.
- Logging, stall warnings and error texts.
- `prewarm` as a task that pushes and joins handles: its tasks are the sequence in `Prewarm.State`; a join that fails is the `Panicked` task.
- The stream's bytes and the FIFO byte counts of the reactor machine are separate abstractions: `Sessions` carries the bytes, `ReactorModel.Rx` the counts that drive `has_event`.
- `Streams.VclStream.WriteAll`: a session that accepts nothing for ever makes the source loop without an await; the model of `write` excludes it.
- `ReactorStall.TicksMakeProgress`: concerns a waiter that stays parked; for one that shares its Notify no more is true (`RestartsDefeatTicks`), for a sole one see `TickEndsStall`.
- `ReactorFairness.WokenWithinTicks`: the same, with `SoleServed` for a sole waiter.
- `Reactor.VclReactor.PollWait`: interference by other threads inside one poll is covered by the state machine, not by this method.
- `WorkerPool.Registry.RegisterWorkerThread`: describes a call while no other thread is inside; interleavings are covered by the state machine.
