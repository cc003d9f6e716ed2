# Verified model of f1985gfw

A Dafny model of the networking core of the game-server framework, old generation (`0old/server/net_mgr`) and new
(`source`, `server`), with proofs. `dafny verify dfyconfig.toml` checks everything.

## What is modelled

**The session scheduler of `net_mgr`** (`Scheduler*.dfy`, `SessionQueues.dfy`, `NetMgr.dfy`, `IntrusiveQueue.dfy`,
`Alternation.dfy`).
Socket threads push messages into the mailbox of a connection; the first push onto an idle mailbox puts the session on
a shared run queue; a worker takes the session and drains it, and clears `processing` and recycles a stopped slot in
the locked step that finds the mailbox empty. `Scheduler` is a transition system over any number of slots, socket
threads and workers, with program counters, both locks (the run-queue lock nested in the mailbox lock) and a history
of what was pushed, dequeued, handled and passed to the callback. Every step is local to one thread and one slot
(`Guard`, `NextThread`, `NextSlot`). The safety proofs count tokens over threads (`SchedulerTokens`): ownership of a
session is one token, and so is the life of a connection on its way from pending accept to open socket to Disconnect
message. `IntrusiveQueue` is the linked list; `SessionQueues` is the run queue with the one node of each session, and
the mailbox of each session, and every step of every run keeps these lists in step with the scheduler's sequences.
`NetMgr` is the imperative code on connections and lists; a call of it that other threads do not interrupt, wherever
they stand, is proved to be a run of that system (`SchedulerCalls`), so the theorems about runs apply.

Assumptions of the scheduler: a step is atomic from taking a lock to the next point of interference; the open-test and
close of `_close` are one step (the pushes that follow are not); status writes are atomic; a socket opens in the step
in which its accept completes; an allocation finds a free slot (a thread waits otherwise); a poll of an empty run
queue is one step that changes nothing. A read completes once for each time one was posted, at any later time, also
after its slot was closed or recycled; two reads of one slot may be handled at once, which its strand excludes
(only `SchedulerOrder` asks for it, as `SerialRun`, and proves that it is not needed while a slot has one reader).
`_parse_msg` pushes any messages of at most 65531 bytes and at most one "too big" Error, after which it closes.

What is asked of the outside differs by theorem. Ownership, delivery, duties, draining, the lists and the freeing step
hold in every run. Recycling, the single pending Disconnect and the accepts hold in every run in which the wire does not carry
id 2, early closes or not; `RecyclingHoldsExactly` proves that this is exactly what recycling needs. Only the order in
which the callback sees Connect and Disconnect needs more: neither id 1 nor 2 on the wire and no socket closed before
its Connect message is pushed; `LifecycleHoldsExactly` and `AlternationHoldsExactly` prove these two conditions exact.

**The framed codec of `net_worker`** (`FrameCodec.dfy`, `WorkerSlot.dfy`, `DataPacket.dfy`, `Wire.dfy`). A pure
decoder, the in-place receive loop over a byte array that refines it, the send path over the growable buffer. Handlers
are arbitrary and may remember all calls made so far. The `memcpy` that shifts the buffer has move semantics, the host
is little-endian, and statements about a connection start from an empty buffer, as on the first use of a slot.

**The connection slots of `net_worker` with `wan_server` and `player_mgr`** (`SlotMachine.dfy`, `NetWorker.dfy`,
`WanServer.dfy`, `Players.dfy`). Slots, outstanding asynchronous operations, the session table and the players as one
event-driven machine, and the classes whose methods and completion handlers take its steps. A completion carries the
uids of the Enter messages its parse dispatches. A free slot exists when one is requested.

**Three smaller cores**: the growable buffer with its amortised cost (`DataPacket.dfy`), the console tokenizer
(`ConsoleReader.dfy`), the bump allocator (`FieldsAlloc.dfy`).

## What turned out not to hold

- The wire may carry the reserved ids 1 and 2, which `_parse_msg` passes on (`0old/server/net_mgr/net_mgr.cpp:195-210`);
  then the callback can see a second Connect or Disconnect. `SchedulerForged` gives the run and the
  exact condition.
- With id 2 on the wire a slot can be freed under the open socket of its client, since the worker takes the message for
  the end of the connection (`0old/server/net_mgr/net_mgr.cpp:332-335`). `SchedulerForged` has the run and the exact
  condition for safe recycling.
- A message body of 65532 to 65535 bytes does not fit the send buffer of `write_msg`, which does not check
  (`0old/server/net_mgr/net_mgr.cpp:104-119`). `NetMgr.WireFrames`; `SchedulerEcho.EveryWriteFits` proves that the callback
  of `main.cpp` never sends one.
- `_close` asks only whether the socket is open. A read that was outstanding when its slot was closed can complete after
  the slot was recycled and accepted again, and close the new socket before the Connect message is pushed
  (`0old/server/net_mgr/net_mgr.cpp:157-161`, `0old/server/net_mgr/net_mgr.cpp:175-189`); then the callback can see the
  Disconnect first. `SchedulerStale` gives the run from start-up, `SchedulerEarly` the exact condition.
- A failed accept of the old server leaves its slot started for good and ends its accept chain. `SchedulerAccepts`.
- A player can be offline while a session carries its uid, or online while none does
  (`server/wan_server.cpp:46-56`, `server/wan_server.cpp:76-84`). `WanServer` has both inputs; `SlotMachine` has, over runs, the
  exact condition.
- `handle_enter` on an outward connection looks up a session that does not exist. `SlotMachine.LookupsFindInRuns`,
  `SlotMachine.OutwardEnterFindsNothing`.
- A failed accept leaves its slot waiting for good. `SlotMachine.FailedAcceptStrands`, `SlotMachine.StrandedForGood`.
- A serialised message over 65535 bytes is sent cut to its size modulo 65536. `WorkerSlot.WorkerSlot.SendMessage`.
- With a receive buffer of at most 65538 bytes a live connection can run out of room.
  `WorkerSlot.SmallerBufferCanFillUp`.
- `enqueue` never clears `next`, so it extends the queue only by a node that is unlinked and not queued.
  `IntrusiveQueue.Queue.Enqueue`.

## Model

| member | source | states |
|---|---|---|
| SchedulerSafety.StepKeepsSafe | 0old/server/net_mgr/net_mgr.cpp:130-149 | every step of every thread keeps lock agreement, session ownership and delivery together |
| SchedulerSafety.StepKeepsOwnership | 0old/server/net_mgr/net_mgr.cpp:304-349 | queue places, drainers and would-be queuers of a session stay one in all if it is processed, else none, and no message is stranded |
| SchedulerSafety.StepKeepsDelivery | 0old/server/net_mgr/net_mgr.cpp:312-349 | pushed stays dequeued then mailbox, and dequeued stays handled then the drainer's hand |
| SchedulerSafety.SingleOwner | 0old/server/net_mgr/net_mgr.cpp:141-148 | in every reachable state a session is queued once or drained by one worker or about to be queued by one thread exactly if `processing`, and none of these otherwise |
| SchedulerSafety.NotQueuedYet | 0old/server/net_mgr/net_mgr.cpp:141-148 | the session a thread is about to queue is not in the run queue, so its node is unlinked there |
| SchedulerSafety.NoLostWakeup | 0old/server/net_mgr/net_mgr.cpp:306-325 | with the session not queued, not drained and its mailbox unlocked, no message waits and `processing` is clear |
| SchedulerSafety.ExactlyOnceInOrder | 0old/server/net_mgr/net_mgr.cpp:312-349 | while a worker drains, pushed is handled, then its hand, then the mailbox; the callback saw exactly the Reads among them, in order |
| SchedulerSafety.ExactlyOnceUndrained | 0old/server/net_mgr/net_mgr.cpp:312-349 | with nobody draining, pushed is handled then mailbox, and the callback saw exactly the handled Reads |
| SchedulerSafety.MutualExclusion | 0old/server/net_mgr/net_queue.cpp:31-67 | no two threads are inside one mailbox, or inside the run queue, at once |
| SchedulerDuties.EveryMessageIsSentOnce | 0old/server/net_mgr/net_mgr.cpp:66-87 | over every run each thread links, once each and in order, exactly the messages its completions, callbacks, writes and closes call for, up to those it has yet to link |
| SchedulerDuties.EveryDutyIsDone | 0old/server/net_mgr/net_mgr.cpp:152-212 | over every run a read is posted for every accepted client and after every read, and a close made after every failed accept, read or write and every message too big, up to those still to be done; reads outstanding are those posted and not completed |
| SchedulerRecycling.StepKeepsLives | 0old/server/net_mgr/net_mgr.cpp:66-87 | every step without a forged Disconnect, early closes included, keeps a connection one token: accepting, live or leaving, and only on a started slot; allocations match returns; a stopped slot has one drainer |
| SchedulerRecycling.OneDisconnectPending | 0old/server/net_mgr/net_mgr.cpp:175-189 | in every run without a forged Disconnect at most one Disconnect is pending anywhere, and one only while the slot is started with its socket closed; an open socket belongs to a started slot |
| SchedulerRecycling.StoppedSlotIsDrained | 0old/server/net_mgr/net_mgr.cpp:329-335 | in every such run a stopped slot has exactly one drainer; allocations exceed returns by one exactly if the slot is in use |
| SchedulerRecycling.OnlyDrainedSlotsAreFreed | 0old/server/net_mgr/net_mgr.cpp:314-321 | in every run whatsoever a slot becomes free only in the locked dequeue that finds the mailbox empty, clears `processing` and finds it stopped; by then every push is handled and every Read passed to the callback |
| SchedulerForged.ForgedDisconnectFreesOpenSlot | 0old/server/net_mgr/net_mgr.cpp:332-335 | a client that sends one message with id 2 and stays leads to a slot freed under its open socket |
| SchedulerForged.RecyclingHoldsExactly | 0old/server/net_mgr/net_mgr.cpp:304-349 | for every set of wire ids: every slot is safely recycled in all reachable states, early closes included, if and only if 2 is not in the set |
| SchedulerLifecycle.StepKeepsOrderly | 0old/server/net_mgr/net_mgr.cpp:66-87 | every step that is no early close and forges no id keeps at most one Connect to come, only while the socket is open, and the Connects and Disconnects pushed alternating |
| SchedulerLifecycle.CallbackSeesAlternation | 0old/server/net_mgr/net_mgr.cpp:327-343 | per slot, over recycling and in every run without early closes and forged ids, the callback sees Connect, Disconnect, Connect, ... |
| SchedulerLifecycle.FreedAfterDisconnect | 0old/server/net_mgr/net_mgr.cpp:314-335 | when a slot is freed in a run in order, the callback has seen the Disconnect of its last client |
| SchedulerGreeting.ConnectComesFirst | 0old/server/net_mgr/net_mgr.cpp:84-86 | from a state in which nothing of a slot is outstanding, over every timely run: no client's message is pushed, or passed to the callback, before the Connect, and no read is outstanding until then |
| SchedulerGreeting.NothingOutstandingIsUngreeted | 0old/server/net_mgr/net_mgr.cpp:399-412 | a slot recycled with no read, message or act outstanding is such a state |
| SchedulerGreeting.FirstClientIsIntroduced | 0old/server/net_mgr/net_mgr.cpp:66-87 | from start-up on, the first client of every slot is introduced before anything of it is heard |
| SchedulerOrder.ClientsAreHeardInOrder | 0old/server/net_mgr/net_mgr.cpp:152-212 | over every run from start-up in which the reads of a slot are handled one after the other, as its strand has it: what its clients sent is pushed once each in the order of the reads, up to what the last handler has yet to push, and the callback hears a beginning of it |
| SchedulerOrder.OneReaderIsSerial | 0old/server/net_mgr/net_mgr.cpp:166-168 | while one read of a slot is outstanding or to be posted, none completes before the last handler has pushed all it read, since the next is posted behind that |
| SchedulerOrder.ReadersMove | 0old/server/net_mgr/net_mgr.cpp:152-169 | an accepted client adds a reader, a failed read takes one away, and nothing else changes their number |
| SchedulerOrder.FreshClientsAreReadInOrder | 0old/server/net_mgr/net_mgr.cpp:152-169 | if no client is accepted while a read of the last one is outstanding, the reads of a slot are handled one after the other in every run, without a strand |
| SchedulerOrder.FirstClientIsHeardInOrder | 0old/server/net_mgr/net_mgr.cpp:66-212 | so the first client of every slot is heard in order in every run whatsoever |
| SchedulerOrder.RestLeavesOnlyAllocations | 0old/server/net_mgr/net_mgr.cpp:370-387 | when only polling is left, no thread has a push, close or read to do; an allocation waits only while no slot is free |
| SchedulerOrder.RestMeansHeard | 0old/server/net_mgr/net_mgr.cpp:304-349 | and then the callback has heard exactly what the clients' reads delivered, in order |
| SchedulerDisorder.DisorderReachesCallback | 0old/server/net_mgr/net_mgr.cpp:304-349 | whatever was pushed out of order on a slot, the server alone goes on to call the callback out of order |
| SchedulerEarly.EarlyCloseBreaksOrder | 0old/server/net_mgr/net_mgr.cpp:175-189 | from every state so far in order, a close of an open socket whose Connect is pending can be carried on by the server alone until the callback sees no alternation |
| SchedulerEarly.AlternationHoldsExactly | 0old/server/net_mgr/net_mgr.cpp:157-189 | for whatever set of runs the outside allows (closed under beginnings and under what the server does alone): the callback sees an alternation in all of them if and only if none closes a socket before its Connect is pushed |
| SchedulerStale.StaleReadClosesEarly | 0old/server/net_mgr/net_mgr.cpp:157-161 | a run from start-up in which the read posted on a closed socket completes after the slot is recycled and accepted again, and is about to close early |
| SchedulerStale.StaleReadReachesCallback | 0old/server/net_mgr/net_mgr.cpp:157-161 | from there a state is reached in which the callback has seen no alternation |
| SchedulerAccepts.FailedAcceptAbandons | 0old/server/net_mgr/net_mgr.cpp:380-385 | in every run without a forged Disconnect a failed accept leaves its slot started with no client and none to come |
| SchedulerAccepts.AbandonedForGood | 0old/server/net_mgr/net_mgr.cpp:399-412 | such a slot stays so over every such run: never freed, handed out or used |
| SchedulerAccepts.ChainsOverRuns | 0old/server/net_mgr/net_mgr.cpp:370-387 | over every such run from start-up, accepts pending or about to be posted go down by one with each failed accept and never otherwise |
| SchedulerForged.ForgedIdReachesCallback | 0old/server/net_mgr/net_mgr.cpp:191-212 | a client that sends one message with id 1 or 2 and hangs up leads to a reachable state in which the callback has seen no alternation |
| SchedulerForged.LifecycleHoldsExactly | 0old/server/net_mgr/net_mgr.cpp:191-212 | for every set of wire ids: the alternation holds in all states reachable without an early close if and only if 1 and 2 are not in the set |
| SchedulerDrain.WorkLowersEffort | 0old/server/net_mgr/net_mgr.cpp:104-128 | every working step lowers the weighted effort when the callback behaves as in `main.cpp` |
| SchedulerDrain.HeldLockCanMoveOn | 0old/server/net_mgr/net_queue.cpp:31-46 | the nested locks never deadlock: while a lock is held some step of its holder is enabled |
| SchedulerDrain.WaitingMessageMeansWork | 0old/server/net_mgr/net_mgr.cpp:306-349 | while a message waits, some step other than polling is enabled |
| SchedulerDrain.DrainingIsBounded | 0old/server/main.cpp:9-37 | however threads are scheduled, a run without outside events does at most `EffortLeft` working steps |
| SchedulerDrain.RestMeansDrained | 0old/server/net_mgr/net_mgr.cpp:312-349 | when only polling is left, all mailboxes are empty and every push was handled |
| SchedulerDrain.DrainExists | 0old/server/net_mgr/net_mgr.cpp:304-353 | from every reachable state a run of the server alone reaches that rest |
| SchedulerEcho.EveryWriteFits | 0old/server/main.cpp:9-37 | in every run with the echoing callback every message about to be written fits the send buffer |
| SchedulerCalls.PushMoves | 0old/server/net_mgr/net_mgr.cpp:130-149 | the locked steps of one push are a run from any state in which the run queue and the mailbox are unlocked, to the message last in the mailbox and an idle session queued |
| SchedulerCalls.HangUpMoves | 0old/server/net_mgr/net_mgr.cpp:175-189 | a close with its pushes is a run; only the first close of a socket pushes |
| SchedulerCalls.TurnMoves | 0old/server/net_mgr/net_mgr.cpp:312-348 | dequeuing and handling one message, callback and replies or write, failure and close, is a run |
| NetMgr.HandledPushes | 0old/server/net_mgr/net_mgr.cpp:326-348 | handling a Read pushes the replies of the callback; a Write pushes nothing, or the Error and, if the socket was open, the messages of its close; the message is then handled |
| NetMgr.WireFrames | 0old/server/net_mgr/net_mgr.cpp:104-119 | what is handed to the socket is one frame that carries the message, which fits the send buffer if and only if the body has at most 65531 bytes |
| NetMgr.WiresAreFrames | 0old/server/net_mgr/net_mgr.cpp:344-347 | one such frame for each Write message, in order |
| NetMgr.NetMgr.constructor | 0old/server/net_mgr/net_mgr.cpp:229-248 | every slot fresh, no session queued, all lists empty |
| NetMgr.NetMgr.AddPconnection | 0old/server/net_mgr/net_mgr.cpp:399-412 | the first free slot is started as the scheduler's allocation does; none exactly if there is no free slot |
| NetMgr.NetMgr.PushMsg | 0old/server/net_mgr/net_mgr.cpp:130-149 | the message is last in the mailbox list, an idle session's node is queued once, the lists stay in step, and the call is a run of the scheduler |
| NetMgr.NetMgr.PushGoodbye | 0old/server/net_mgr/net_mgr.cpp:183-188 | the optional Error and then the Disconnect are last in the mailbox, and an idle session is queued |
| NetMgr.NetMgr.CloseConnection | 0old/server/net_mgr/net_mgr.cpp:175-189 | by any thread, on an idle session or not: an open socket is closed, with an Error if closing failed and then one Disconnect last in the mailbox, a closed one is left alone; the call is a run |
| NetMgr.NetMgr.WriteMsg | 0old/server/net_mgr/net_mgr.cpp:104-128 | the connection's record grows by one frame that carries the message; a failed write pushes an Error and closes; no other session is touched |
| NetMgr.NetMgr.CallBack | 0old/server/net_mgr/net_mgr.cpp:340-342 | the callback is called with the message and its replies are last in the mailbox |
| NetMgr.NetMgr.Handle | 0old/server/net_mgr/net_mgr.cpp:326-348 | a Write puts exactly its frame on its socket and a Read nothing; the slot afterwards is that of the run in `TurnMoves` |
| NetMgr.NetMgr.Turn | 0old/server/net_mgr/net_mgr.cpp:312-348 | one turn on the lists: the front message is dequeued and handled, and its frame written if it is a Write, or an empty session is left and recycled if stopped |
| NetMgr.NetMgr.TurnRuns | 0old/server/net_mgr/net_mgr.cpp:312-348 | one turn is a run that lowers the effort, or leaves the session quiet |
| NetMgr.NetMgr.DrainLoop | 0old/server/net_mgr/net_mgr.cpp:312-349 | the do-while loop terminates after turns that each found a message and one that found none |
| NetMgr.NetMgr.Drain | 0old/server/net_mgr/net_mgr.cpp:312-349 | the loop is a run; it leaves the session empty, idle and not stopped, others untouched, and what the socket was handed is the frames of the Writes handled, in order |
| NetMgr.NetMgr.TakeFront | 0old/server/net_mgr/net_mgr.cpp:304-311 | the front session comes off the run queue, is processed and queued nowhere else, and the two steps are a run; None exactly if nothing is queued |
| NetMgr.NetMgr.WorkHandler | 0old/server/net_mgr/net_mgr.cpp:304-353 | one worker round is a run that keeps the lists in step; it takes the front session, handles all of its messages in order, the replies included, writes one frame for each Write among them, in order, and moves nothing else |
| SessionQueues.SessionQueues.constructor | 0old/server/net_mgr/net_queue.cpp:104-118 | every session has one unlinked node, and all lists are empty |
| SessionQueues.SessionQueues.QueueSession | 0old/server/net_mgr/net_queue.cpp:118-131 | queuing a session that is not queued appends its node and keeps every node outside the queue unlinked |
| SessionQueues.SessionQueues.TakeSession | 0old/server/net_mgr/net_queue.cpp:133-148 | the front session's node comes off unlinked |
| SessionQueues.SessionQueues.PushMessage | 0old/server/net_mgr/net_queue.cpp:31-46 | a created node is appended to one mailbox and no other list changes |
| SessionQueues.SessionQueues.PopMessage | 0old/server/net_mgr/net_queue.cpp:48-67 | the front node of one mailbox comes off; null exactly on empty |
| SessionQueues.SessionQueues.Step | 0old/server/net_mgr/net_queue.cpp:31-67 | every enabled step of any thread keeps all lists in step with the scheduler's sequences |
| SessionQueues.RunFromStart | 0old/server/net_mgr/net_queue.cpp:31-148 | over every run from start-up, however threads interleave, both kinds of lists are acyclic with their tails last, stand for mailboxes and run queue, and a session's node outside the queue is unlinked |
| IntrusiveQueue.ChainIsUnique | 0old/server/net_mgr/net_queue.cpp:31-67 | head, tail and `next` fields represent at most one sequence |
| IntrusiveQueue.Node.constructor | 0old/server/net_mgr/net_queue.cpp:16-24 | a created node is unlinked |
| IntrusiveQueue.Queue.constructor | 0old/server/net_mgr/net_queue.cpp:84-88 | a new queue is empty |
| IntrusiveQueue.Queue.Enqueue | 0old/server/net_mgr/net_queue.cpp:31-46 | appends the node, and the heap is a list again if and only if the node was unlinked and not queued |
| IntrusiveQueue.Queue.Dequeue | 0old/server/net_mgr/net_queue.cpp:133-148 | null exactly on empty, else the front node, unlinked, and the queue is the rest |
| IntrusiveQueue.Queue.Count | 0old/server/net_mgr/net_queue.cpp:70-82 | the walk returns the length |
| DataPacket.WriteKeepsAmortised | source/data_packet.hpp:83-100 | one write keeps capacity within 64 or twice the size, and copied bytes within capacity minus 64 |
| DataPacket.GrowthIsLinear | source/data_packet.hpp:35-70 | for every sequence of writes reallocation copies at most twice the bytes written |
| DataPacket.Packet.constructor | source/data_packet.hpp:8-16 | an empty buffer of 64 bytes |
| DataPacket.Packet.Resize | source/data_packet.hpp:83-100 | keeps the contents and takes the larger of double the memory and what is needed; changes nothing when memory runs out |
| DataPacket.Packet.WriteData | source/data_packet.hpp:52-70 | appends the data, or reserves exactly the last n bytes, keeping what was written; nothing happens without memory |
| DataPacket.Packet.PutU16 | source/data_packet.hpp:35-50 | appends the two little-endian bytes, or nothing without memory |
| DataPacket.Packet.Fill | source/common.hpp:16-24 | filling a reserved region replaces exactly that suffix |
| DataPacket.Serialise | source/common.hpp:16-24 | reserving and serialising leaves exactly the message in the buffer |
| DataPacket.WriteAll | source/data_packet.hpp:35-100 | after any sequence of `operator<<`, writes and filled reservations, with memory granted or refused, the contents are the concatenation of what succeeded, across reallocations, at the cost of just these |
| DataPacket.GrantedIsKept | source/data_packet.hpp:35-70 | with memory granted every operation succeeds |
| FrameCodec.EncodeFirst | source/net_worker.hpp:114-117 | an encoded frame is complete, decodes to itself and ends where the rest begins |
| FrameCodec.HeaderLayout | source/net_worker.hpp:114-117 | a frame is id, size and body, id and size with their low byte first |
| FrameCodec.FirstReadsHeader | source/net_worker.hpp:181-188 | and is read that way |
| FrameCodec.OnlyRegisteredIdsAreDispatched | source/net_worker.hpp:332-341 | over a connection every handler call is for a registered id, and every call but the last, or every call while the connection lives, was answered true |
| FrameCodec.FirstEncode | source/net_worker.hpp:181-188 | re-encoding a decoded frame gives back its bytes |
| FrameCodec.ParseConcat | source/net_worker.hpp:171-208 | decoding in two parts equals decoding at once, with and without rejection |
| FrameCodec.ParseEncodeAll | source/net_worker.hpp:107-127 | encoded frames followed by anything are dispatched in order and consumed exactly |
| FrameCodec.ParseAccountsForEveryByte | source/net_worker.hpp:179-207 | any stream is the encoding of the accepted frames, then a rest with no complete frame or starting with the rejected one |
| FrameCodec.RestIsBounded | source/net_worker.hpp:188-194 | without a rejection at most 65538 bytes are left |
| FrameCodec.RestBoundIsTight | source/net_worker.hpp:188-194 | 65538 bytes are left for some stream |
| FrameCodec.ChunkingIndependence | source/net_worker.hpp:130-208 | for every split: alive if and only if nothing is rejected and no parse is short; then calls and buffer are those of the whole stream; calls always are a prefix of them |
| FrameCodec.SplitsAgree | source/net_worker.hpp:130-208 | two splits without short parses give the same calls, liveness and buffer |
| FrameCodec.RoundTripThroughChunks | source/net_worker.hpp:107-208 | frames sent and read through any such split arrive once, in order, and leave the buffer empty |
| FrameCodec.BufferIsBounded | source/net_worker.hpp:130-169 | a live connection buffers at most 65538 bytes between reads |
| WorkerSlot.WorkerSlot.constructor | source/net_worker.hpp:27-67 | first use starts connected with an empty buffer |
| WorkerSlot.WorkerSlot.ParseMsg | source/net_worker.hpp:332-341 | an unregistered id is rejected and reaches no handler; a registered one is one call, whose answer decides |
| WorkerSlot.WorkerSlot.Shift | source/net_worker.hpp:203-206 | the unconsumed bytes move to the front |
| WorkerSlot.WorkerSlot.ParsePackage | source/net_worker.hpp:181-206 | one loop turn consumes exactly the first complete package, or rejects it in place, or finds none |
| WorkerSlot.WorkerSlot.ParseData | source/net_worker.hpp:171-208 | the in-place loop equals the pure decoding; entered with fewer than 4 bytes it closes once and dispatches nothing, whatever the stale bytes |
| WorkerSlot.WorkerSlot.ReadStart | source/net_worker.hpp:130-138 | a read is posted exactly on a connected slot; with what is buffered it fills the buffer, and it has room whenever no complete package is buffered and the buffer has at least 65539 bytes |
| WorkerSlot.WorkerSlot.ReadCompleted | source/net_worker.hpp:142-167 | a failed or empty read closes and changes nothing else; any other is one `Receive` step, with exactly one close if it ends the connection, and the next read has room in a buffer of 65539 bytes |
| WorkerSlot.WorkerSlot.Send | source/net_worker.hpp:107-127 | the bytes on the wire are the encoded frame, and none unless connected |
| WorkerSlot.WorkerSlot.SendMessage | source/common.hpp:16-24 | the frame carries the message if and only if it has at most 65535 bytes |
| WorkerSlot.Serve | source/net_worker.hpp:130-208 | a whole connection over any reads that fit ends as `ReceiveAll` says |
| WorkerSlot.SendAll | source/net_worker.hpp:107-127 | messages sent one after the other put the concatenation of their frames on the wire |
| WorkerSlot.Exchange | source/net_worker.hpp:107-208 | what one slot sends another dispatches once and in order, however the bytes are cut into reads that fit and are never short, and nothing is left over |
| WorkerSlot.ReadsAlwaysHaveRoom | source/net_worker.hpp:137-138 | 65539 bytes of buffer leave every read of a live connection room |
| WorkerSlot.SmallerBufferCanFillUp | source/net_worker.hpp:250-252 | any smaller buffer can be filled by one unfinished frame |
| SlotMachine.EventKeepsInv | source/net_worker.hpp:315-430 | every event keeps slots, accepts and sessions consistent |
| SlotMachine.OneOutstandingOperation | source/net_worker.hpp:369-430 | in every run a slot has at most one operation, a read exactly if connected and none if free; one accept overall; outward slots are never free |
| SlotMachine.AlwaysAccepting | source/net_worker.hpp:369-388 | once listening the server always has exactly one accept posted |
| SlotMachine.OutwardStaysDialled | source/net_worker.hpp:307-330 | after `shoot` every outward slot has exactly one operation outstanding, over every run, if and only if no reconnect timer of it was cancelled |
| SlotMachine.OperationsOverRuns | source/net_worker.hpp:307-417 | over every run the accepts, connects, timers and reads outstanding at each slot are those its events call for less those completed |
| SlotMachine.SessionTableAgrees | server/wan_server.cpp:25-37 | in every run sessions are exactly the connected slots that are not outward, and on_connect and on_disconnect alternate per id |
| SlotMachine.LookupsFindInRuns | server/wan_server.cpp:46-84 | a lookup fails if and only if an Enter arrives on an outward connection |
| SlotMachine.OutwardEnterFindsNothing | server/wan_server.cpp:46-56 | a run in which the other side of an outward connection sends an Enter and its lookup finds no session |
| SlotMachine.ShootingExactly | source/net_worker.hpp:307-313 | `shoot` keeps one operation per slot if and only if no outward slot has one |
| SlotMachine.FailedAcceptStrands | source/net_worker.hpp:382-386 | a failed accept leaves its slot waiting with nothing outstanding |
| SlotMachine.StrandedForGood | source/net_worker.hpp:419-430 | such a slot stays so over every run |
| SlotMachine.EventStrandsExactly | source/net_worker.hpp:369-430 | a failed accept strands exactly its slot, and nothing else strands or frees one |
| SlotMachine.StrandedAreFailedAccepts | source/net_worker.hpp:382-386 | over every run from start-up the stranded slots are exactly those of the failed accepts |
| SlotMachine.PresenceOverRuns | server/wan_server.cpp:46-84 | over disciplined runs a player is online exactly when some live session carries its uid |
| SlotMachine.PresenceFromStart | server/wan_server.cpp:46-84 | so it is in every disciplined run of a new server |
| SlotMachine.PresenceExactlyOverRuns | server/wan_server.cpp:46-84 | in every run of a new server presence agrees before and after every handler call if and only if every handler call is considerate |
| NetWorker.NetWorker.constructor | source/net_worker.hpp:250-259 | slots 1 to n, all free |
| NetWorker.NetWorker.PopPointer | source/net_worker.hpp:419-430 | some free slot, now waiting; 0 and no change exactly if none is free |
| NetWorker.NetWorker.PushBullet | source/net_worker.hpp:266-274 | a slot that was free waits and is outward, with nothing posted; the invariant is kept |
| NetWorker.NetWorker.StartAccept | source/net_worker.hpp:369-373 | posts one accept on a slot that was free and now waits |
| NetWorker.NetWorker.Open | source/net_worker.hpp:276-305 | listens, with one accept posted; the invariant is kept |
| NetWorker.NetWorker.ConnectOutward | source/net_worker.hpp:309-312 | the loop posts one connect for each outward slot |
| NetWorker.NetWorker.Shoot | source/net_worker.hpp:307-313 | exactly one connect more for each outward slot; the invariant is kept |
| NetWorker.NetWorker.Close | source/net_worker.hpp:315-330 | an outward slot waits with a timer and nothing else happens; any other is freed, its session dropped and on_disconnect called once |
| NetWorker.NetWorker.AcceptCompleted | source/net_worker.hpp:373-387 | the accept is replaced by the next one, and by a read if it succeeded; it is the machine's accept event, failed or not |
| NetWorker.NetWorker.HandleEnters | server/wan_server.cpp:46-56 | the Enter messages of a parse take effect in order: every player is online and the session carries the last uid |
| NetWorker.NetWorker.ReadCompleted | source/net_worker.hpp:157-167 | the next read is posted, or the slot is closed: an outward one with a timer, any other with its session dropped; every player that entered is known, and online if the slot stays open; its lookups find a session |
| NetWorker.NetWorker.ConnectCompleted | source/net_worker.hpp:395-406 | the connect is replaced by a read on a connected slot or, if it failed, by a timer on a waiting one; no session and no call comes of it |
| NetWorker.NetWorker.TimerCompleted | source/net_worker.hpp:409-417 | the timer is replaced by a connect or, if it was cancelled, by nothing; the slot goes on waiting |
| WanServer.EnterKeepsPresenceExactly | server/wan_server.cpp:46-56 | an Enter keeps presence in agreement if and only if its uid is not 0 and the session's old uid is none, the same, or carried elsewhere |
| WanServer.LeaveKeepsPresenceExactly | server/wan_server.cpp:76-84 | a disconnect keeps presence in agreement if and only if no other session carries the uid |
| WanServer.JoinKeepsPresence | server/wan_server.cpp:70-74 | a new session changes nobody's presence |
| WanServer.PresenceExactly | server/wan_server.cpp:46-84 | over any sequence of handler calls presence agrees throughout if and only if each call is considerate |
| WanServer.SharedUidGoesOffline | server/wan_server.cpp:76-84 | a concrete run in which a player is offline though a session carries its uid |
| WanServer.ReenteringLeavesAPlayerBehind | server/wan_server.cpp:46-56 | a concrete run in which a player is online though no session carries its uid |
| WanServer.WanServer.AddSession | server/wan_server.cpp:70-74 | adds uid 0, keeps an entry that is there, and keeps every carried uid a known player |
| WanServer.WanServer.HandleEnter | server/wan_server.cpp:46-56 | sets the uid, brings the player online, and keeps every carried uid a known player |
| WanServer.WanServer.DelSession | server/wan_server.cpp:76-84 | drops the session and sends a non-zero uid's player offline |
| Players.UidSurvives | server/wan_server.h:11-17 | the signed-unsigned conversions of a uid lose nothing, and only 0 counts as not entered |
| Players.LastVisitDecides | server/player_mgr.cpp:35-57 | over all visits a player is known exactly if it ever entered, and its last visit decides its state |
| Players.PlayerMgr.Enter | server/player_mgr.cpp:35-48 | the player is online afterwards, new or not, and no other changes |
| Players.PlayerMgr.Leave | server/player_mgr.cpp:50-57 | a known player is offline, an unknown one stays unknown |
| ConsoleReader.SpansAreAllRuns | source/console_reader.hpp:64-103 | the spans found are all the maximal space-free runs, in order |
| ConsoleReader.TokensAreSpans | source/console_reader.hpp:93-93 | the tokens are the texts of those spans |
| ConsoleReader.TokensOfPrint | source/console_reader.hpp:64-103 | non-empty space-free words printed with spaces between and around parse back to themselves |
| ConsoleReader.Command.Add | source/console_reader.hpp:94-101 | the first word becomes the name, later ones parameters |
| ConsoleReader.GetBeginPos | source/console_reader.hpp:67-78 | the first non-space position from the start, or the length |
| ConsoleReader.Find | source/console_reader.hpp:88-92 | the first space from the start, or the length |
| ConsoleReader.Parse | source/console_reader.hpp:64-103 | name followed by parameters grows by exactly the tokens of the text, and the loop terminates |
| ConsoleReader.ParsePrinted | source/console_reader.hpp:64-103 | a printed line comes back as its name and parameters |
| FieldsAlloc.RunKeepsOk | 0old/server/net_mgr/fields_alloc.hpp:65-83 | every interleaving of allocations and frees keeps the pool consistent |
| FieldsAlloc.LiveBlocksNeverOverlap | 0old/server/net_mgr/fields_alloc.hpp:65-83 | in every run the count is the number of live blocks, which lie in the pool and never overlap, also after a reset |
| FieldsAlloc.BlocksAreStacked | 0old/server/net_mgr/fields_alloc.hpp:65-83 | in every run the blocks handed out since the last reset lie one after the other from 0, and the bump position is the sum of their sizes |
| FieldsAlloc.StaticPool.constructor | 0old/server/net_mgr/fields_alloc.hpp:33-47 | a pool starts empty with one reference |
| FieldsAlloc.StaticPool.Share | 0old/server/net_mgr/fields_alloc.hpp:49-54 | the references are the sharing allocators |
| FieldsAlloc.StaticPool.Destroy | 0old/server/net_mgr/fields_alloc.hpp:56-63 | the memory is given back exactly with the last allocator |
| FieldsAlloc.StaticPool.Allocate | 0old/server/net_mgr/fields_alloc.hpp:65-75 | refused, with nothing changed, exactly if the block would reach the end; else the block starts at the bump position, which moves by its size, and is disjoint from every live block |
| FieldsAlloc.StaticPool.Deallocate | 0old/server/net_mgr/fields_alloc.hpp:77-83 | removes the block; the last one resets the bump position |

## Left out

- Boost.Asio and Beast sockets, websockets, SSL and the HTTP server (`0old/server/net_mgr/net_http.hpp`): completions are events with bytes or an error.
- `_parse_msg` of the old server does not move the buffer on after a frame; it is an arbitrary producer of pushes here, with at most one close at the end.
- How much of a frame `write_some` puts on the socket: only success or failure of the write is modelled.
- The strand of a connection, which keeps two of its read handlers apart: leaving it out only adds behaviour; the order theorem states what it takes of it.
- Idle sleeping, real time, weak-memory effects, exceptions thrown by socket writes or a websocket handshake.
- What a second user of a `net_worker` slot finds in the receive buffer: `m_recv_size` is not reset on reuse, and the connection theorems start from a first use.
- The lifetime of the websocket object after the socket is moved into it.
- Protobuf encoding: a serialised message is a sequence of bytes, and a parse yields the uids of its Enter messages; a message that does not parse is a rejection.
- A caller outside the framework calling `net_worker::close` on a connection whose read is outstanding.
- NetMgr.NetMgr.WorkHandler: states a call without interference; interleavings are the business of the scheduler's runs.
- NetWorker.NetWorker.AcceptCompleted: requires a free slot, because with none `pop_pointer` returns 0 and the source goes on with a slot that does not exist.
- NetWorker.NetWorker.StartAccept: requires a free slot, for the same reason.
- NetWorker.NetWorker.Open: requires a free slot, for the same reason.
- NetWorker.NetWorker.PushBullet: requires a free slot, for the same reason.
- NetWorker.NetWorker.Shoot: requires that no outward slot has an operation, which `SlotMachine.ShootingExactly` proves to be exactly when one operation per slot is kept.
- NetWorker.NetWorker.ReadCompleted: requires that no Enter arrives on an outward connection, where the source uses a session that does not exist.
- WorkerSlot.WorkerSlot.constructor: requires a buffer that holds a header; with less the source reads past its memory.
- ConsoleReader.Parse: requires that a command without a name has no parameters, as the commands `process` makes.
- The queue of console commands, Lua embedding, the scene manager, `net_proto.hpp` and the clients: empty, unused or glue.
