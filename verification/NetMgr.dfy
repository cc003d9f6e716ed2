/** `net_mgr` as it runs: the methods of `connection` and the worker loop change the connections and the linked lists
    in place.  A call that is not interleaved with other threads, wherever these stand, is proved to be a run of the
    scheduler that keeps the lists and its sequences in step. */
module NetMgr {
  import opened Wire
  import opened Scheduler
  import opened SchedulerTokens
  import opened SchedulerSafety
  import opened SchedulerDrain
  import opened SchedulerCalls
  import opened IntrusiveQueue
  import FrameCodec
  import SessionQueues

  /** What the world answers to a write and to the close that a failed write makes. */
  datatype Answers = Answers(error: Option<seq<Byte>>, closing: Option<seq<Byte>>)

  /** The fields of a connection and its session that this code reads and writes. */
  datatype Connection = Connection(status: Status, open: bool, processing: bool)

  function ConnectionOf(slot: Slot): Connection { Connection(slot.status, slot.open, slot.processing) }

  /** What the allocation step of the scheduler makes of a free slot. */
  function Allocated(s: nat, slot: Slot): Slot
    requires slot.status.UseLess?
  {
    NextSlot(AllocateSlot(0), Thread(Socket, Ready, [Allocate], None, Empty), s, slot)
  }

  lemma SafeOn(a: State, es: seq<Event>, b: State)
    requires Safe(a) && Moves(a, es, b)
    ensures Safe(b)
  {
    RunKeepsSafe(a, es);
  }

  /** The bytes are one frame that carries the message, whose size is a `uint16_t`. */
  ghost predicate Frames(wire: seq<Byte>, m: Msg) {
    && FrameCodec.Complete(wire) && FrameCodec.PackageSize(wire) == |wire|
    && (|m.body| <= 0xffff ==> FrameCodec.First(wire) == FrameCodec.Frame(m.id, m.body))
  }

  const SEND_BUFFER_SIZE: nat := 0xffff

  /** What `write_msg` copies into its send buffer: id, size and body. */
  function WireOf(m: Msg): seq<Byte> {
    var size: U16 := |m.body| % 0x1_0000;
    PutU16(m.id) + PutU16(size) + m.body[..size]
  }

  lemma WireFrames(m: Msg)
    ensures Frames(WireOf(m), m)
    ensures |m.body| <= 0xffff ==> (|WireOf(m)| <= SEND_BUFFER_SIZE <==> |m.body| <= MAX_BODY)
  {
    var size: U16 := |m.body| % 0x1_0000;
    FrameCodec.EncodeFirst(FrameCodec.Frame(m.id, m.body[..size]), []);
    assert WireOf(m) + [] == WireOf(m);
  }

  /** The frames of the Write messages among these, in order. */
  function Wires(msgs: seq<Msg>): seq<seq<Byte>> {
    if msgs == [] then []
    else
      var m := msgs[|msgs| - 1];
      Wires(msgs[..|msgs| - 1]) + if m.kind.Write? then [WireOf(m)] else []
  }

  function Writes(msgs: seq<Msg>): seq<Msg> {
    if msgs == [] then []
    else
      var m := msgs[|msgs| - 1];
      Writes(msgs[..|msgs| - 1]) + if m.kind.Write? then [m] else []
  }

  lemma WiresAppend(msgs: seq<Msg>, m: Msg)
    ensures Wires(msgs + [m]) == if m.kind.Write? then Wires(msgs) + [WireOf(m)] else Wires(msgs)
  {
    assert (msgs + [m])[..|msgs|] == msgs;
  }

  /** One frame for each Write message, which carries it. */
  lemma {:induction false} WiresAreFrames(msgs: seq<Msg>)
    ensures |Wires(msgs)| == |Writes(msgs)|
    ensures forall i :: 0 <= i < |Writes(msgs)| ==> Frames(Wires(msgs)[i], Writes(msgs)[i])
  {
    if msgs != [] {
      WiresAreFrames(msgs[..|msgs| - 1]);
      WireFrames(msgs[|msgs| - 1]);
    }
  }

  lemma {:induction false} MailboxEffortConcat(a: seq<Msg>, b: seq<Msg>)
    ensures MailboxEffort(a + b) == MailboxEffort(a) + MailboxEffort(b)
  {
    if a == [] {
      assert a + b == b;
    } else {
      MailboxEffortConcat(a[1..], b);
      assert (a + b)[1..] == a[1..] + b;
    }
  }

  lemma OutcomeEffort(open: bool, error: Option<seq<Byte>>, closing: Option<seq<Byte>>)
    ensures MailboxEffort(WriteOutcome(open, error, closing)) <= 18
  {
    if error.Some? {
      var rest := if open then Goodbyes(closing) else [];
      MailboxEffortConcat([ErrorMsg(error.value)], rest);
      assert [ErrorMsg(error.value)][1..] == [] && [DisconnectMsg()][1..] == [];
      assert closing.Some? ==> Goodbyes(closing)[1..] == [DisconnectMsg()];
    }
  }

  /** The session is empty and idle, and recycled if its connection was closed. */
  predicate Quiet(slot: Slot) { slot.mailbox == [] && !slot.processing && slot.status != Stop }

  lemma UpdateTwice<T>(xs: seq<T>, i: nat, x: T, y: T)
    requires i < |xs|
    ensures xs[i := x][i := y] == xs[i := y]
  {
  }

  lemma AnsweredPushes(slot: Slot, m: Msg, replies: seq<Msg>)
    requires |replies| <= 1
    ensures Answered(slot, m, replies).mailbox == slot.mailbox + replies
    ensures Answered(slot, m, replies).history.called == slot.history.called + [m]
  {
  }

  lemma WrittenPushes(slot: Slot, error: Option<seq<Byte>>, closing: Option<seq<Byte>>)
    ensures Written(slot, error, closing).mailbox == slot.mailbox + WriteOutcome(slot.open, error, closing)
  {
  }

  /** What handling a message leaves in the mailbox and in the history. */
  lemma HandledPushes(slot: Slot, m: Msg, w: World)
    requires Allowed(w, m)
    ensures Handled(slot, m, w).mailbox
            == slot.mailbox + if m.kind.Read? then w.replies else WriteOutcome(slot.open, w.error, w.closing)
    ensures Handled(slot, m, w).history.handled == slot.history.handled + [m]
  {
    if m.kind.Write? { WrittenPushes(Noticed(slot, m), w.error, w.closing); }
  }

  ghost predicate RecordedIn(written: seq<seq<seq<Byte>>>, slots: seq<Slot>) {
    |written| == |slots| && forall s :: 0 <= s < |slots| ==> written[s] == Wires(slots[s].history.handled)
  }

  lemma RecordsOneMore(written: seq<seq<seq<Byte>>>, slots: seq<Slot>, s: nat, slot: Slot, m: Msg)
    requires RecordedIn(written, slots) && s < |slots| && slot.history.handled == slots[s].history.handled + [m]
    ensures RecordedIn(if m.kind.Write? then written[s := written[s] + [WireOf(m)]] else written, slots[s := slot])
  {
    WiresAppend(slots[s].history.handled, m);
  }

  lemma HandledKeeps(slot: Slot, m: Msg, w: World)
    requires slot.processing
    ensures Handled(slot, m, w).processing && Handled(slot, m, w).lock == slot.lock
  {
  }

  class NetMgr {
    var connections: seq<Connection>
    const lists: SessionQueues.SessionQueues
    /** `m_message_cb`, as the replies it sends back. */
    const callback: Msg -> seq<Msg>
    ghost var slots: seq<Slot>
    ghost var runQueue: seq<nat>
    /** The frames handed to the socket of each connection so far. */
    ghost var written: seq<seq<seq<Byte>>>
    /** The threads, of which number `me` runs this code. */
    ghost const threads: seq<Thread>
    ghost const me: nat

    ghost predicate Valid()
      reads this, lists, lists.repr
    {
      && this !in lists.repr && lists.Represents(slots, runQueue) && me < |threads|
      && |connections| == |slots| == |written|
      && (forall s :: 0 <= s < |slots| ==> connections[s] == ConnectionOf(slots[s]))
      && forall s :: 0 <= s < |slots| && !slots[s].processing ==> s !in runQueue
    }

    /** What was handed to the sockets is the frames of the Write messages handled, in order. */
    ghost predicate Recorded()
      reads this
    {
      RecordedIn(written, slots)
    }

    ghost predicate CallbackBehaves() {
      forall m :: (forall r :: r in callback(m) ==> r.kind.Write?)
                  && |callback(m)| <= if m.id >= EMIR_MAX then 1 else 0
    }

    ghost function Here(th: Thread): State
      requires me < |threads|
      reads this
    {
      At(slots, runQueue, threads, me, th)
    }

    /** Everything but slot `s` is as in `before`, and so is the lock of `s`. */
    ghost predicate OnlyTouches(before: seq<Slot>, s: nat)
      requires s < |before|
      reads this
    {
      |slots| == |before| && slots == before[s := slots[s]] && slots[s].lock == before[s].lock
    }

    constructor (n: nat, callback: Msg -> seq<Msg>, ghost threads: seq<Thread>, ghost me: nat)
      requires me < |threads|
      ensures Valid() && Recorded() && fresh(lists.repr) && fresh(lists)
      ensures |slots| == n && (forall s :: 0 <= s < n ==> slots[s] == FRESH_SLOT) && runQueue == []
      ensures this.callback == callback && this.threads == threads && this.me == me
    {
      lists := new SessionQueues.SessionQueues(n);
      connections := seq(n, _ => Connection(UseLess, false, false));
      this.callback := callback;
      slots, runQueue := seq(n, _ => FRESH_SLOT), [];
      written := seq(n, _ => []);
      this.threads, this.me := threads, me;
    }

    /** Changes the fields of one connection. */
    method Update(s: nat, connection: Connection, ghost slot: Slot)
      requires Valid() && s < |slots| && connection == ConnectionOf(slot) && slot.mailbox == slots[s].mailbox
      requires !slot.processing ==> s !in runQueue
      modifies this`connections, this`slots
      ensures Valid() && slots == old(slots)[s := slot]
    {
      lists.SameMailboxes(slots, slots[s := slot], runQueue);
      connections := connections[s := connection];
      slots := slots[s := slot];
    }

    /** `_add_pconnection`: the first free slot starts, if there is one. */
    method AddPconnection() returns (found: Option<nat>)
      requires Valid()
      modifies this`connections, this`slots
      ensures Valid()
      ensures found.Some? <==> FirstFree(old(slots)) < |old(slots)|
      ensures found.Some? ==>
        var s := FirstFree(old(slots)); found.value == s && slots == old(slots)[s := Allocated(s, old(slots)[s])]
      ensures old(Recorded()) ==> Recorded()
      ensures found.None? ==> slots == old(slots)
    {
      var i := 0;
      while i < |connections| && connections[i].status != UseLess
        invariant i <= |connections| && Valid() && slots == old(slots)
        invariant forall j :: 0 <= j < i ==> connections[j].status != UseLess
      {
        i := i + 1;
      }
      if i < |connections| {
        Update(i, connections[i].(status := Start), Allocated(i, slots[i]));
        return Some(i);
      }
      found := None;
    }

    /** The `after` of `push_msg` on an idle session. */
    method QueueIdle(s: nat)
      requires Valid() && s < |slots| && !slots[s].processing
      modifies this`connections, this`slots, this`runQueue, lists.repr
      ensures Valid() && lists.repr == old(lists.repr)
      ensures slots == old(slots)[s := old(slots)[s].(processing := true)] && runQueue == old(runQueue) + [s]
    {
      ghost var q := runQueue;
      Update(s, connections[s].(processing := true), slots[s].(processing := true));
      lists.QueueSession(s, slots, q);
      runQueue := q + [s];
    }

    /** The first half of `push_msg`. */
    method LinkMsg(s: nat, m: Msg)
      requires Valid() && s < |slots|
      modifies this`slots, lists, lists.repr
      ensures Valid() && fresh(lists.repr - old(lists.repr))
      ensures slots == old(slots)[s := Pushed(old(slots)[s], m).(processing := old(slots)[s].processing)]
    {
      ghost var linked := slots[s := Pushed(slots[s], m).(processing := slots[s].processing)];
      lists.PushMessage(s, m, slots, runQueue, linked);
      slots := linked;
    }

    /** `push_msg` on the lists: link the message and, under its lock, queue an idle session. */
    method Enqueue(s: nat, m: Msg)
      requires Valid() && s < |slots|
      modifies this`connections, this`slots, this`runQueue, lists, lists.repr
      ensures Valid() && fresh(lists.repr - old(lists.repr))
      ensures slots == old(slots)[s := Pushed(old(slots)[s], m)]
      ensures runQueue == QueueAfter(old(runQueue), old(slots)[s], s)
    {
      ghost var before := slots;
      LinkMsg(s, m);
      if !connections[s].processing {
        QueueIdle(s);
        UpdateTwice(before, s, Pushed(before[s], m).(processing := false), Pushed(before[s], m));
      }
    }

    /** `push_msg`, called where the thread's next act is this push. */
    method PushMsg(s: nat, m: Msg, ghost th: Thread) returns (ghost es: seq<Event>)
      requires Valid() && s < |slots| && slots[s].lock.Free?
      requires th.pc.Ready? && th.todo != [] && th.todo[0] == Push(s, m)
      modifies this`connections, this`slots, this`runQueue, lists, lists.repr
      ensures Valid() && fresh(lists.repr - old(lists.repr))
      ensures slots == old(slots)[s := Pushed(old(slots)[s], m)]
      ensures runQueue == QueueAfter(old(runQueue), old(slots)[s], s)
      ensures old(Recorded()) ==> Recorded()
      ensures Moves(old(Here(th)), es, Here(th.(todo := th.todo[1..])))
    {
      es := PushMoves(slots, runQueue, threads, me, th, s, m);
      Enqueue(s, m);
    }

    /** The pushes of a close: an Error if closing the socket failed, then the Disconnect. */
    method PushGoodbye(s: nat, error: Option<seq<Byte>>)
      requires Valid() && s < |slots|
      modifies this`connections, this`slots, this`runQueue, lists, lists.repr
      ensures Valid() && fresh(lists.repr - old(lists.repr))
      ensures slots == old(slots)[s := SaidGoodbye(old(slots)[s], error)]
      ensures slots[s].mailbox == old(slots)[s].mailbox + Goodbyes(error)
      ensures runQueue == QueueAfter(old(runQueue), old(slots)[s], s)
    {
      if error.Some? {
        Enqueue(s, ErrorMsg(error.value));
      }
      Enqueue(s, DisconnectMsg());
    }

    /** `_close` on the lists; `error` is what closing the socket answers. */
    method HangUp(s: nat, error: Option<seq<Byte>>)
      requires Valid() && s < |slots|
      modifies this`connections, this`slots, this`runQueue, lists, lists.repr
      ensures Valid() && fresh(lists.repr - old(lists.repr))
      ensures slots == old(slots)[s := HungUp(old(slots)[s], error)]
      ensures runQueue == QueueHungUp(old(runQueue), old(slots)[s], s)
      ensures !slots[s].open
      ensures slots[s].mailbox == old(slots)[s].mailbox + if old(slots)[s].open then Goodbyes(error) else []
    {
      if !connections[s].open {
        return;
      }
      Update(s, connections[s].(open := false), slots[s].(open := false));
      PushGoodbye(s, error);
    }

    /** `_close`, by a worker or a socket thread: only the first close of a socket pushes a Disconnect, and it puts an
        idle session on the run queue. */
    method CloseConnection(s: nat, error: Option<seq<Byte>>, ghost th: Thread) returns (ghost es: seq<Event>)
      requires Valid() && s < |slots| && slots[s].lock.Free?
      requires th.pc.Ready? && th.todo != [] && th.todo[0] == Close(s)
      modifies this`connections, this`slots, this`runQueue, lists, lists.repr
      ensures Valid() && fresh(lists.repr - old(lists.repr))
      ensures slots == old(slots)[s := HungUp(old(slots)[s], error)]
      ensures runQueue == QueueHungUp(old(runQueue), old(slots)[s], s)
      ensures !slots[s].open
      ensures slots[s].mailbox == old(slots)[s].mailbox + if old(slots)[s].open then Goodbyes(error) else []
      ensures old(Recorded()) ==> Recorded()
      ensures Moves(old(Here(th)), es, Here(th.(todo := th.todo[1..])))
    {
      es := HangUpMoves(slots, runQueue, threads, me, th, s, error);
      HangUp(s, error);
    }

    /** `write_msg` hands the socket one frame with the message, which fits the send buffer up to 65531 bytes of body
        and is not checked; a failed write pushes an Error and closes. */
    method WriteMsg(s: nat, m: Msg, error: Option<seq<Byte>>, closing: Option<seq<Byte>>)
        returns (wire: seq<Byte>, fits: bool)
      requires Valid() && s < |slots| && slots[s].processing && m.kind.Write?
      modifies this, lists, lists.repr
      ensures Valid() && fresh(lists.repr - old(lists.repr)) && runQueue == old(runQueue)
      ensures slots == old(slots)[s := Written(old(slots)[s], error, closing)]
      ensures slots[s].mailbox == old(slots)[s].mailbox + WriteOutcome(old(slots)[s].open, error, closing)
      ensures wire == WireOf(m) && Frames(wire, m) && written == old(written)[s := old(written)[s] + [wire]]
      ensures |m.body| <= 0xffff ==> (fits <==> |m.body| <= MAX_BODY)
    {
      wire := WireOf(m);
      WireFrames(m);
      fits := |wire| <= SEND_BUFFER_SIZE;
      written := written[s := written[s] + [wire]];
      WrittenPushes(slots[s], error, closing);
      FailWrite(s, error, closing);
    }

    /** What follows a write: nothing if it succeeds. */
    method FailWrite(s: nat, error: Option<seq<Byte>>, closing: Option<seq<Byte>>)
      requires Valid() && s < |slots| && slots[s].processing
      modifies this`connections, this`slots, this`runQueue, lists, lists.repr
      ensures Valid() && fresh(lists.repr - old(lists.repr)) && runQueue == old(runQueue)
      ensures slots == old(slots)[s := Written(old(slots)[s], error, closing)]
    {
      if error.Some? {
        ghost var before, pushed := slots, Pushed(slots[s], ErrorMsg(error.value));
        Enqueue(s, ErrorMsg(error.value));
        assert slots[s] == pushed && runQueue == old(runQueue);
        HangUp(s, closing);
        UpdateTwice(before, s, pushed, HungUp(pushed, closing));
      }
    }

    /** The callback on a Read message, and the pushes of what it replies. */
    method CallBack(s: nat, m: Msg)
      requires Valid() && s < |slots| && slots[s].processing && m.kind.Read? && CallbackBehaves()
      modifies this`connections, this`slots, this`runQueue, lists, lists.repr
      ensures Valid() && fresh(lists.repr - old(lists.repr)) && runQueue == old(runQueue)
      ensures slots == old(slots)[s := Answered(old(slots)[s], m, callback(m))]
      ensures slots[s].mailbox == old(slots)[s].mailbox + callback(m)
      ensures slots[s].history.called == old(slots)[s].history.called + [m]
    {
      ghost var before := slots;
      var replies := callback(m);
      Update(s, connections[s], Called(slots[s], m));
      if replies != [] {
        Enqueue(s, replies[0]);
        UpdateTwice(before, s, Called(before[s], m), slots[s]);
      }
      AnsweredPushes(before[s], m, replies);
    }

    ghost function Answer(m: Msg, error: Option<seq<Byte>>, closing: Option<seq<Byte>>): World {
      World(callback(m), error, closing)
    }

    /** A Disconnect stops the slot. */
    method Notice(s: nat, m: Msg)
      requires Valid() && s < |slots| && slots[s].processing
      modifies this`connections, this`slots
      ensures Valid() && slots == old(slots)[s := Noticed(old(slots)[s], m)]
    {
      if m.kind.Read? && m.id == EMIR_DISCONNECT {
        Update(s, connections[s].(status := Stop), Noticed(slots[s], m));
      }
    }

    /** `release` of a handled message. */
    method Release(s: nat, m: Msg)
      requires Valid() && s < |slots| && slots[s].processing
      modifies this`connections, this`slots
      ensures Valid() && slots == old(slots)[s := Finished(old(slots)[s], m)]
    {
      Update(s, connections[s], Finished(slots[s], m));
    }

    /** The callback on a Read, the socket for a Write. */
    method Dispatch(s: nat, m: Msg, error: Option<seq<Byte>>, closing: Option<seq<Byte>>)
      requires Valid() && s < |slots| && slots[s].processing && CallbackBehaves()
      modifies this, lists, lists.repr
      ensures Valid() && fresh(lists.repr - old(lists.repr)) && runQueue == old(runQueue)
      ensures slots == old(slots)[s := if m.kind.Read? then Answered(old(slots)[s], m, callback(m))
                                       else Written(old(slots)[s], error, closing)]
      ensures written == if m.kind.Write? then old(written)[s := old(written)[s] + [WireOf(m)]] else old(written)
    {
      if m.kind.Read? {
        CallBack(s, m);
      } else {
        var wire, fits := WriteMsg(s, m, error, closing);
      }
    }

    /** The worker's turn on a message up to its release. */
    method Process(s: nat, m: Msg, error: Option<seq<Byte>>, closing: Option<seq<Byte>>)
      requires Valid() && s < |slots| && slots[s].processing && CallbackBehaves()
      modifies this, lists, lists.repr
      ensures Valid() && fresh(lists.repr - old(lists.repr)) && runQueue == old(runQueue)
      ensures slots == old(slots)[s := Processed(old(slots)[s], m, error, closing)]
      ensures written == if m.kind.Write? then old(written)[s := old(written)[s] + [WireOf(m)]] else old(written)
    {
      ghost var before := slots;
      Notice(s, m);
      Dispatch(s, m, error, closing);
      UpdateTwice(before, s, Noticed(before[s], m), slots[s]);
    }

    ghost function Processed(slot: Slot, m: Msg, error: Option<seq<Byte>>, closing: Option<seq<Byte>>): Slot {
      if m.kind.Read? then Answered(Noticed(slot, m), m, callback(m)) else Written(Noticed(slot, m), error, closing)
    }

    /** What the worker does with a message it has dequeued. */
    method Handle(s: nat, m: Msg, error: Option<seq<Byte>>, closing: Option<seq<Byte>>)
      requires Valid() && s < |slots| && slots[s].processing && CallbackBehaves()
      modifies this, lists, lists.repr
      ensures Valid() && fresh(lists.repr - old(lists.repr)) && runQueue == old(runQueue)
      ensures slots == old(slots)[s := Handled(old(slots)[s], m, Answer(m, error, closing))]
      ensures written == if m.kind.Write? then old(written)[s := old(written)[s] + [WireOf(m)]] else old(written)
    {
      ghost var before := slots;
      ghost var processed := Processed(slots[s], m, error, closing);
      Process(s, m, error, closing);
      Release(s, m);
      UpdateTwice(before, s, processed, Finished(processed, m));
    }

    /** The dequeue with its `after`, which runs when the mailbox is empty. */
    method Dequeue(s: nat) returns (node: Node?<Msg>)
      requires Valid() && s < |slots| && s !in runQueue
      modifies this`connections, this`slots, this`runQueue, lists, lists.repr
      ensures Valid() && lists.repr == old(lists.repr) && runQueue == old(runQueue)
      ensures node == null <==> old(slots)[s].mailbox == []
      ensures node == null ==> slots == old(slots)[s := Left(old(slots)[s])]
      ensures node != null ==>
        slots == old(slots)[s := Popped(old(slots)[s])] && node.value == old(slots)[s].mailbox[0]
    {
      ghost var slots' := slots[s := if slots[s].mailbox == [] then Left(slots[s]) else Popped(slots[s])];
      node := lists.PopMessage(s, slots, runQueue, slots');
      if node == null {
        connections := connections[s := connections[s].(processing := false)];
        if connections[s].status == Stop {
          connections := connections[s := connections[s].(status := UseLess)];
        }
      }
      slots := slots';
    }

    /** The slot after one turn of the loop. */
    ghost function AfterTurn(slot: Slot, a: Answers): Slot {
      if slot.mailbox == [] then Left(slot)
      else Handled(Popped(slot), slot.mailbox[0], Answer(slot.mailbox[0], a.error, a.closing))
    }

    /** One turn as a run: it lowers the effort, or leaves the session quiet. */
    lemma TurnRuns(slots: seq<Slot>, s: nat, a: Answers) returns (es: seq<Event>)
      requires s < |slots| && me < |threads| && slots[s].lock.Free? && slots[s].processing && CallbackBehaves()
      ensures var here := At(slots, runQueue, threads, me, Drainer(s, [], Empty));
        var slot' := AfterTurn(slots[s], a);
        var there := At(slots[s := slot'], runQueue, threads, me,
                        if slots[s].mailbox != [] then Drainer(s, [], Empty) else IDLE);
        && Moves(here, es, there) && slot'.lock.Free?
        && (slots[s].mailbox == [] ==> Quiet(slot'))
        && (slots[s].mailbox != [] ==> slot'.processing && EffortLeft(there) < EffortLeft(here))
    {
      if slots[s].mailbox == [] {
        PopMoves(slots, runQueue, threads, me, s);
        es := [Pop(me)] + [PopRelease(me)];
      } else {
        var m := slots[s].mailbox[0];
        es := TurnMoves(slots, runQueue, threads, me, s, Answer(m, a.error, a.closing));
        HandledKeeps(Popped(slots[s]), m, Answer(m, a.error, a.closing));
        MovesLowerEffort(At(slots, runQueue, threads, me, Drainer(s, [], Empty)), es,
                         At(slots[s := AfterTurn(slots[s], a)], runQueue, threads, me, Drainer(s, [], Empty)));
      }
    }

    /** What one turn hands to the sockets. */
    ghost function AfterTurnWritten(s: nat): seq<seq<seq<Byte>>>
      requires s < |slots| == |written|
      reads this
    {
      if slots[s].mailbox != [] && slots[s].mailbox[0].kind.Write? then
        written[s := written[s] + [WireOf(slots[s].mailbox[0])]]
      else written
    }

    lemma TurnHandlesOne(slot: Slot, a: Answers)
      requires CallbackBehaves()
      ensures AfterTurn(slot, a).history.handled
              == slot.history.handled + if slot.mailbox == [] then [] else [slot.mailbox[0]]
    {
      if slot.mailbox != [] {
        HandledPushes(Popped(slot), slot.mailbox[0], Answer(slot.mailbox[0], a.error, a.closing));
      }
    }

    /** One turn handles the front message, if there is one, and records its frame if it is a Write. */
    lemma TurnRecords(s: nat, a: Answers)
      requires s < |slots| && CallbackBehaves() && Recorded()
      ensures RecordedIn(AfterTurnWritten(s), slots[s := AfterTurn(slots[s], a)])
    {
      TurnHandlesOne(slots[s], a);
      if slots[s].mailbox != [] {
        RecordsOneMore(written, slots, s, AfterTurn(slots[s], a), slots[s].mailbox[0]);
      }
    }

    /** The body of the worker's do-while loop: dequeue, then handle the message, or leave an empty session. */
    method Turn(s: nat, a: Answers) returns (more: bool)
      requires Valid() && CallbackBehaves() && s < |slots| && slots[s].processing && s !in runQueue
      modifies this, lists, lists.repr
      ensures Valid() && fresh(lists.repr - old(lists.repr)) && runQueue == old(runQueue)
      ensures more == (old(slots)[s].mailbox != [])
      ensures slots == old(slots)[s := AfterTurn(old(slots)[s], a)]
      ensures written == old(AfterTurnWritten(s))
    {
      ghost var before := slots;
      var node := Dequeue(s);
      if node == null {
        return false;
      }
      Handle(s, node.value, a.error, a.closing);
      UpdateTwice(before, s, Popped(before[s]), slots[s]);
      more := true;
    }

    /** Many turns. */
    ghost function AfterTurns(slot: Slot, answers: seq<Answers>): Slot {
      if answers == [] then slot else AfterTurn(AfterTurns(slot, answers[..|answers| - 1]), answers[|answers| - 1])
    }

    /** Each of these turns finds a message. */
    ghost predicate AllBusy(slot: Slot, answers: seq<Answers>) {
      forall i :: 0 <= i < |answers| ==> FindsMessage(slot, answers, i)
    }

    ghost predicate FindsMessage(slot: Slot, answers: seq<Answers>, i: nat)
      requires i <= |answers|
    {
      AfterTurns(slot, answers[..i]).mailbox != []
    }

    lemma OneTurnMore(slot: Slot, answers: seq<Answers>, a: Answers)
      requires AllBusy(slot, answers) && AfterTurns(slot, answers).mailbox != []
      ensures AllBusy(slot, answers + [a])
      ensures AfterTurns(slot, answers + [a]) == AfterTurn(AfterTurns(slot, answers), a)
    {
      assert (answers + [a])[..|answers|] == answers;
      forall i | 0 <= i <= |answers| ensures FindsMessage(slot, answers + [a], i) {
        assert (answers + [a])[..i] == answers[..i];
        assert i < |answers| ==> FindsMessage(slot, answers, i);
        assert answers[..|answers|] == answers;
      }
    }

    lemma {:induction false} TurnsRun(slots: seq<Slot>, s: nat, answers: seq<Answers>) returns (es: seq<Event>)
      requires s < |slots| && me < |threads| && slots[s].lock.Free? && slots[s].processing && CallbackBehaves()
      requires AllBusy(slots[s], answers)
      ensures var slot' := AfterTurns(slots[s], answers);
        && Moves(At(slots, runQueue, threads, me, Drainer(s, [], Empty)), es,
                 At(slots[s := slot'], runQueue, threads, me, Drainer(s, [], Empty)))
        && slot'.lock.Free? && slot'.processing
      decreases |answers|
    {
      var here := At(slots, runQueue, threads, me, Drainer(s, [], Empty));
      if answers == [] {
        Nowhere(here);
        assert slots[s := slots[s]] == slots;
        es := [];
      } else {
        var front, a := answers[..|answers| - 1], answers[|answers| - 1];
        FrontIsBusy(slots[s], answers);
        var slot1 := AfterTurns(slots[s], front);
        var slots1 := slots[s := slot1];
        var fs := TurnsRun(slots, s, front);
        var gs := TurnRuns(slots1, s, a);
        UpdateTwice(slots, s, slot1, AfterTurn(slot1, a));
        MovesOn(here, fs, At(slots1, runQueue, threads, me, Drainer(s, [], Empty)), gs,
                At(slots[s := AfterTurn(slot1, a)], runQueue, threads, me, Drainer(s, [], Empty)));
        es := fs + gs;
      }
    }

    lemma FrontIsBusy(slot: Slot, answers: seq<Answers>)
      requires AllBusy(slot, answers) && answers != []
      ensures var front := answers[..|answers| - 1]; AllBusy(slot, front) && AfterTurns(slot, front).mailbox != []
    {
      var front := answers[..|answers| - 1];
      assert FindsMessage(slot, answers, |answers| - 1);
      forall i | 0 <= i < |front| ensures FindsMessage(slot, front, i) {
        assert FindsMessage(slot, answers, i) && front[..i] == answers[..i];
      }
    }

    lemma {:induction false} TurnsHandle(slot: Slot, answers: seq<Answers>)
      requires CallbackBehaves()
      ensures slot.history.handled <= AfterTurns(slot, answers).history.handled
      decreases |answers|
    {
      if answers != [] {
        var front, a := answers[..|answers| - 1], answers[|answers| - 1];
        TurnsHandle(slot, front);
        TurnHandlesOne(AfterTurns(slot, front), a);
      }
    }

    /** Turns that find a message, and then one that finds none. */
    lemma DrainRuns(slots: seq<Slot>, s: nat, answers: seq<Answers>) returns (es: seq<Event>)
      requires s < |slots| && me < |threads| && slots[s].lock.Free? && slots[s].processing && CallbackBehaves()
      requires AllBusy(slots[s], answers) && AfterTurns(slots[s], answers).mailbox == []
      ensures var slot' := Left(AfterTurns(slots[s], answers));
        && Moves(At(slots, runQueue, threads, me, Drainer(s, [], Empty)), es,
                 At(slots[s := slot'], runQueue, threads, me, IDLE))
        && Quiet(slot') && slot'.lock.Free?
    {
      var slot1 := AfterTurns(slots[s], answers);
      var slots1 := slots[s := slot1];
      var fs := TurnsRun(slots, s, answers);
      PopMoves(slots1, runQueue, threads, me, s);
      UpdateTwice(slots, s, slot1, Left(slot1));
      MovesOn(At(slots, runQueue, threads, me, Drainer(s, [], Empty)), fs,
              At(slots1, runQueue, threads, me, Drainer(s, [], Empty)), [Pop(me)] + [PopRelease(me)],
              At(slots[s := Left(slot1)], runQueue, threads, me, IDLE));
      es := fs + ([Pop(me)] + [PopRelease(me)]);
    }

    /** A turn leaves less to handle. */
    lemma TurnHandles(slot: Slot, a: Answers)
      requires slot.mailbox != [] && slot.processing && CallbackBehaves()
      ensures MailboxEffort(AfterTurn(slot, a).mailbox) < MailboxEffort(slot.mailbox)
      ensures AfterTurn(slot, a).processing
    {
      var m := slot.mailbox[0];
      var w := Answer(m, a.error, a.closing);
      HandledPushes(Popped(slot), m, w);
      HandledKeeps(Popped(slot), m, w);
      var pushed := if m.kind.Read? then w.replies else WriteOutcome(slot.open, a.error, a.closing);
      MailboxEffortConcat(slot.mailbox[1..], pushed);
      OutcomeEffort(slot.open, a.error, a.closing);
      if w.replies != [] { assert w.replies == [w.replies[0]] && w.replies[0].kind.Write?; }
    }

    /** These turns have been made on session `s`, and each found a message. */
    ghost predicate MidDrain(before: seq<Slot>, s: nat, answers: seq<Answers>)
      requires s < |before|
      reads this
    {
      slots == before[s := AfterTurns(before[s], answers)] && AllBusy(before[s], answers) && slots[s].processing
    }

    /** These turns have been made, and then one that found no message. */
    ghost predicate EndOfDrain(before: seq<Slot>, s: nat, answers: seq<Answers>)
      requires s < |before|
      reads this
    {
      && AllBusy(before[s], answers) && AfterTurns(before[s], answers).mailbox == []
      && slots == before[s := Left(AfterTurns(before[s], answers))]
    }

    /** One turn among others, with whatever the world answers. */
    method NextTurn(s: nat, ghost before: seq<Slot>, ghost answers: seq<Answers>)
        returns (more: bool, ghost answers': seq<Answers>)
      requires Valid() && CallbackBehaves() && s < |before| && s !in runQueue && MidDrain(before, s, answers)
      modifies this, lists, lists.repr
      ensures Valid() && fresh(lists.repr - old(lists.repr)) && runQueue == old(runQueue)
      ensures if more then MidDrain(before, s, answers') else EndOfDrain(before, s, answers')
      ensures more ==> MailboxEffort(slots[s].mailbox) < MailboxEffort(old(slots)[s].mailbox)
      ensures old(Recorded()) ==> Recorded()
    {
      var error: Option<seq<Byte>> := *;
      var closing: Option<seq<Byte>> := *;
      var a := Answers(error, closing);
      ghost var slot := slots[s];
      if Recorded() { TurnRecords(s, a); }
      more := Turn(s, a);
      UpdateTwice(before, s, slot, AfterTurn(slot, a));
      answers' := answers;
      if more {
        TurnHandles(slot, a);
        OneTurnMore(before[s], answers, a);
        answers' := answers + [a];
      }
    }

    /** The do-while loop of a worker that has taken session `s`; it terminates.  It makes turns that find a message,
        and then one that finds none. */
    method DrainLoop(s: nat) returns (ghost answers: seq<Answers>)
      requires Valid() && CallbackBehaves() && s < |slots| && slots[s].processing && s !in runQueue
      modifies this, lists, lists.repr
      ensures Valid() && runQueue == old(runQueue) && EndOfDrain(old(slots), s, answers)
      ensures old(Recorded()) ==> Recorded()
    {
      ghost var before := slots;
      answers := [];
      var more := true;
      assert slots[s := slots[s]] == slots;
      while more
        invariant Valid() && fresh(lists.repr - old(lists.repr)) && runQueue == old(runQueue)
        invariant if more then MidDrain(before, s, answers) else EndOfDrain(before, s, answers)
        invariant old(Recorded()) ==> Recorded()
        decreases more, MailboxEffort(slots[s].mailbox)
      {
        more, answers := NextTurn(s, before, answers);
      }
    }

    /** The loop as a run: it leaves the session empty, idle and not stopped, and nothing else has moved. */
    method Drain(s: nat) returns (ghost es: seq<Event>)
      requires Valid() && CallbackBehaves()
      requires s < |slots| && slots[s].lock.Free? && slots[s].processing && s !in runQueue
      modifies this, lists, lists.repr
      ensures Valid() && runQueue == old(runQueue) && OnlyTouches(old(slots), s)
      ensures old(slots)[s].history.handled <= slots[s].history.handled && (old(Recorded()) ==> Recorded())
      ensures Moves(old(Here(Drainer(s, [], Empty))), es, Here(IDLE))
      ensures Quiet(slots[s])
    {
      ghost var before := slots;
      ghost var answers := DrainLoop(s);
      es := DrainRuns(before, s, answers);
      TurnsHandle(before[s], answers);
    }

    /** The dequeue on the lists. */
    method DequeueSession() returns (taken: Option<nat>)
      requires Valid()
      modifies this`runQueue, lists.repr
      ensures Valid() && lists.repr == old(lists.repr)
      ensures taken == if old(runQueue) == [] then None else Some(old(runQueue)[0])
      ensures runQueue == if old(runQueue) == [] then [] else old(runQueue)[1..]
    {
      var session := lists.TakeSession(slots, runQueue);
      if session == null {
        return None;
      }
      runQueue := runQueue[1..];
      taken := Some(session.value);
    }

    /** The dequeue of `_work_handler`: the front session of the run queue, which this worker then drains alone. */
    method TakeFront() returns (taken: Option<nat>, ghost es: seq<Event>)
      requires Valid() && Safe(Here(IDLE)) && AllLocksFree(Here(IDLE))
      modifies this`runQueue, lists.repr
      ensures Valid() && lists.repr == old(lists.repr)
      ensures taken.None? <==> old(runQueue) == []
      ensures taken.None? ==> runQueue == [] && es == []
      ensures taken.Some? ==>
        var s := taken.value;
        && s == old(runQueue)[0] && runQueue == old(runQueue)[1..]
        && s < |slots| && slots[s].processing && slots[s].lock.Free? && s !in runQueue
        && Moves(old(Here(IDLE)), es, Here(Drainer(s, [], Empty)))
    {
      es := [];
      if runQueue != [] {
        FrontIsProcessing(Here(IDLE));
        TakeMoves(slots, runQueue, threads, me);
        es := [Take(me)] + [TakeRelease(me)];
      }
      taken := DequeueSession();
    }

    /** One round of `_work_handler`: take a session if one is queued and drain it.  It terminates, and leaves the
        session empty, idle and, if its connection was closed, recycled; nothing else has moved. */
    method WorkHandler() returns (ghost es: seq<Event>)
      requires Valid() && Safe(Here(IDLE)) && AllLocksFree(Here(IDLE)) && CallbackBehaves()
      modifies this, lists, lists.repr
      ensures Valid() && Moves(old(Here(IDLE)), es, Here(IDLE)) && Safe(Here(IDLE))
      ensures old(Recorded()) ==> Recorded()
      ensures old(runQueue) == [] ==> slots == old(slots) && runQueue == []
      ensures old(runQueue) != [] ==>
        var s := old(runQueue)[0];
        && s < |slots| && runQueue == old(runQueue)[1..] && OnlyTouches(old(slots), s)
        && Quiet(slots[s]) && old(slots)[s].history.handled <= slots[s].history.handled
        && slots[s].history.pushed == slots[s].history.handled
        && slots[s].history.called == Reads(slots[s].history.handled)
    {
      ghost var start := Here(IDLE);
      Nowhere(start);
      var taken;
      taken, es := TakeFront();
      if taken.Some? {
        var s := taken.value;
        ghost var st := Here(Drainer(s, [], Empty));
        ghost var fs := Drain(s);
        assert Moves(start, es + fs, Here(IDLE)) by { MovesOn(start, es, st, fs, Here(IDLE)); }
        es := es + fs;
        assert Safe(Here(IDLE)) by { SafeOn(start, es, Here(IDLE)); }
        IdleIsSettled(Here(IDLE), s);
      }
    }
  }

  lemma FrontIsProcessing(st: State)
    requires Safe(st) && st.runQueue != []
    ensures st.runQueue[0] < |st.slots| && st.slots[st.runQueue[0]].processing
    ensures st.runQueue[0] !in st.runQueue[1..]
  {
    var s := st.runQueue[0];
    assert Owned(st, s);
    assert st.runQueue == [s] + st.runQueue[1..];
    assert Queued(st, s) >= 1;
    HeadCount(st.runQueue, s);
    assert multiset(st.runQueue[1..])[s] == 0;
  }

  lemma IdleIsSettled(st: State, s: nat)
    requires Safe(st) && s < |st.slots| && st.slots[s].mailbox == [] && !st.slots[s].processing
    ensures st.slots[s].history.pushed == st.slots[s].history.handled
    ensures st.slots[s].history.called == Reads(st.slots[s].history.handled)
  {
    assert Owned(st, s) && Delivered(st, s);
    assert st.slots[s].history.taken + [] == st.slots[s].history.taken;
  }
}
