/** The session scheduler of `net_mgr`: mailboxes, the shared run queue and the two kinds of threads,
    as a labelled transition system.

    A step is one atomic action of one thread: what happens between taking a lock and the next point at
    which another thread can interfere, a lock release, a close, an allocation or a callback.  The
    run-queue lock is taken while the mailbox lock is held, as in the source. */
module Scheduler {
  import opened Wire

  // ---------------------------------------------------------------- messages

  const EMIR_CONNECT: U16 := 1
  const EMIR_DISCONNECT: U16 := 2
  const EMIR_ERROR: U16 := 3
  const EMIR_MAX: U16 := 4

  datatype Kind = Read | Write
  datatype Msg = Msg(kind: Kind, id: U16, body: seq<Byte>)

  function ConnectMsg(endpoint: seq<Byte>): Msg { Msg(Read, EMIR_CONNECT, endpoint) }
  function DisconnectMsg(): Msg { Msg(Read, EMIR_DISCONNECT, []) }
  function ErrorMsg(text: seq<Byte>): Msg { Msg(Read, EMIR_ERROR, text) }

  predicate IsConnect(m: Msg) { m.kind.Read? && m.id == EMIR_CONNECT }
  predicate IsDisconnect(m: Msg) { m.kind.Read? && m.id == EMIR_DISCONNECT }

  // ------------------------------------------------------------------- state

  datatype Status = UseLess | Start | Stop
  datatype Holder = Free | HeldBy(thread: nat)

  /** What has happened to one slot so far; no step reads it. */
  datatype History = History(
    pushed: seq<Msg>,    // every message ever linked into the mailbox
    taken: seq<Msg>,     // every message ever dequeued from it
    handled: seq<Msg>,   // every message a worker has finished with and released
    called: seq<Msg>,    // every message the callback was called with
    allocations: nat,
    recycles: nat)

  /** A connection together with its session.  `accepting` says that an accept on its socket is pending, `reading`
      how many reads posted on it have yet to complete: a read that was outstanding when the socket was closed
      completes with an error, at any later time. */
  datatype Slot = Slot(
    status: Status, accepting: bool, open: bool, reading: nat,
    processing: bool, mailbox: seq<Msg>, lock: Holder,
    history: History)

  /** What a thread still has to do before it is idle (socket thread) or done with a message (worker).  Greet is
      the push of the Connect message by a completed accept, Post the posting of the next read. */
  datatype Act = Push(slot: nat, msg: Msg) | Greet(slot: nat, msg: Msg) | Close(slot: nat) | Post(slot: nat) | Allocate

  datatype Pc =
    | Ready
    | Linked(slot: nat)     // mailbox lock held; message linked, `after` not yet run
    | WantRun(slot: nat)    // mailbox lock held; `processing` set, session not yet queued
    | RunHeld(slot: nat)    // both locks held; session queued
    | Unlock(slot: nat)     // mailbox lock held; about to release it
    | TakeHeld              // run-queue lock held; session dequeued
    | PopHeld(slot: nat)    // mailbox lock held; dequeue done

  datatype Hand =
    | Empty
    | Fresh(msg: Msg)     // dequeued
    | Marked(msg: Msg)    // status updated, callback or write still to come
    | Busy(msg: Msg)      // callback or write called; what it pushes is in `todo`

  datatype Role = Socket | Worker

  datatype Thread = Thread(role: Role, pc: Pc, todo: seq<Act>, draining: Option<nat>, hand: Hand)

  datatype State = State(slots: seq<Slot>, runQueue: seq<nat>, runLock: Holder, threads: seq<Thread>)

  // ------------------------------------------------------------------ events

  datatype Event =
    // completions delivered to an idle socket thread
    | AcceptOk(t: nat, s: nat, errors: seq<seq<Byte>>, endpoint: seq<Byte>)
    | AcceptFail(t: nat, s: nat)
    | ReadOk(t: nat, s: nat, msgs: seq<Msg>, tooBig: Option<seq<Byte>>)
    | ReadFail(t: nat, s: nat, text: seq<Byte>)
    // push_msg
    | Link(t: nat)
    | After(t: nat)
    | RunAppend(t: nat)
    | RunRelease(t: nat)
    | Release(t: nat)
    // _close, _read_post and _accept_post
    | CloseSocket(t: nat, error: Option<seq<Byte>>)
    | PostRead(t: nat)
    | AllocateSlot(t: nat)
    // _work_handler
    | Poll(t: nat)
    | Take(t: nat)
    | TakeRelease(t: nat)
    | Pop(t: nat)
    | PopRelease(t: nat)
    | Mark(t: nat)
    | Call(t: nat, replies: seq<Msg>)
    | WriteSocket(t: nat, error: Option<seq<Byte>>)
    | Finish(t: nat)

  predicate External(e: Event) { e.AcceptOk? || e.AcceptFail? || e.ReadOk? || e.ReadFail? }

  function Pushes(s: nat, msgs: seq<Msg>): (acts: seq<Act>)
    ensures |acts| == |msgs| && forall i :: 0 <= i < |acts| ==> acts[i] == Push(s, msgs[i])
  {
    seq(|msgs|, i requires 0 <= i < |msgs| => Push(s, msgs[i]))
  }

  function Errors(texts: seq<seq<Byte>>): (msgs: seq<Msg>)
    ensures |msgs| == |texts| && forall i :: 0 <= i < |msgs| ==> msgs[i] == ErrorMsg(texts[i])
  {
    seq(|texts|, i requires 0 <= i < |texts| => ErrorMsg(texts[i]))
  }

  /** The first slot with status UseLess, as `std::find_if` finds it; |slots| if there is none. */
  function FirstFree(slots: seq<Slot>): (i: nat)
    ensures i <= |slots|
    ensures i < |slots| ==> slots[i].status == UseLess
    ensures forall j :: 0 <= j < i ==> slots[j].status != UseLess
  {
    if slots == [] then 0
    else if slots[0].status == UseLess then 0
    else 1 + FirstFree(slots[1..])
  }

  /** The largest body for which a frame fits the receive buffer, whose size is that of the send buffer. */
  const MAX_BODY: nat := 65531

  /** A message that `_parse_msg` can find: it refuses larger ones. */
  predicate FromWire(m: Msg) { m.kind.Read? && |m.body| <= MAX_BODY }

  /** The push of an Error, if there is one. */
  function Failure(s: nat, error: Option<seq<Byte>>): seq<Act> {
    if error.Some? then [Push(s, ErrorMsg(error.value))] else []
  }

  /** What a read completion makes a thread do.  `_parse_msg` pushes the messages it finds; one that is too big for
      the buffer makes it push an Error and close, and ends it.  Either way the next read is posted. */
  function ParseActs(s: nat, msgs: seq<Msg>, tooBig: Option<seq<Byte>>): seq<Act> {
    Pushes(s, msgs) + if tooBig.Some? then [Push(s, ErrorMsg(tooBig.value)), Close(s), Post(s)] else [Post(s)]
  }

  predicate Idle(th: Thread) { th.pc.Ready? && th.todo == [] && th.draining.None? }

  /** The slot an event is about, or a number that is no slot if the thread is in no position to take it. */
  function Target(st: State, e: Event): nat
    requires e.t < |st.threads|
  {
    var th := st.threads[e.t];
    if e.AcceptOk? || e.AcceptFail? || e.ReadOk? || e.ReadFail? then e.s
    else if e.AllocateSlot? then FirstFree(st.slots)
    else if e.Link? || e.CloseSocket? || e.PostRead? then
      if th.todo != [] && !th.todo[0].Allocate? then th.todo[0].slot else |st.slots|
    else if e.After? || e.RunAppend? || e.RunRelease? || e.Release? || e.PopRelease? then
      if th.pc.Ready? || th.pc.TakeHeld? then |st.slots| else th.pc.slot
    else if e.Take? then
      if st.runQueue != [] then st.runQueue[0] else |st.slots|
    else
      if th.draining.Some? then th.draining.value else |st.slots|
  }

  /** What the thread and the slot must look like for the thread to take the step. */
  predicate Guard(e: Event, th: Thread, s: nat, slot: Slot) {
    match e
    case AcceptOk(_, _, errors, _) => th.role.Socket? && Idle(th) && slot.accepting && |errors| <= 2
    case AcceptFail(_, _) => th.role.Socket? && Idle(th) && slot.accepting
    case ReadOk(_, _, msgs, _) =>
      th.role.Socket? && Idle(th) && slot.reading > 0 && forall m :: m in msgs ==> FromWire(m)
    case ReadFail(_, _, _) => th.role.Socket? && Idle(th) && slot.reading > 0
    case Link(_) =>
      && th.pc.Ready? && th.todo != [] && (th.todo[0].Push? || th.todo[0].Greet?)
      && th.todo[0].slot == s && slot.lock.Free?
    case After(_) => th.pc == Linked(s)
    case RunAppend(_) => th.pc == WantRun(s)
    case RunRelease(_) => th.pc == RunHeld(s)
    case Release(_) => th.pc == Unlock(s)
    case CloseSocket(_, _) => th.pc.Ready? && th.todo != [] && th.todo[0] == Close(s)
    case PostRead(_) => th.pc.Ready? && th.todo != [] && th.todo[0] == Post(s)
    case AllocateSlot(_) => th.pc.Ready? && th.todo != [] && th.todo[0].Allocate? && slot.status.UseLess?
    case Poll(_) => th.role.Worker? && Idle(th)
    case Take(_) => th.role.Worker? && Idle(th)
    case TakeRelease(_) => th.pc.TakeHeld? && th.draining == Some(s)
    case Pop(_) => th.pc.Ready? && th.todo == [] && th.draining == Some(s) && th.hand.Empty? && slot.lock.Free?
    case PopRelease(_) => th.pc == PopHeld(s)
    case Mark(_) => th.pc.Ready? && th.todo == [] && th.draining == Some(s) && th.hand.Fresh?
    case Call(_, replies) =>
      && th.pc.Ready? && th.todo == [] && th.draining == Some(s) && th.hand.Marked? && th.hand.msg.kind.Read?
      && forall m :: m in replies ==> m.kind.Write?
    case WriteSocket(_, _) =>
      th.pc.Ready? && th.todo == [] && th.draining == Some(s) && th.hand.Marked? && th.hand.msg.kind.Write?
    case Finish(_) => th.pc.Ready? && th.todo == [] && th.draining == Some(s) && th.hand.Busy?
  }

  predicate Enabled(st: State, e: Event) {
    && e.t < |st.threads|
    && (e.RunAppend? || e.Take? || e.Poll? ==> st.runLock.Free?)
    && if e.Poll? then st.runQueue == [] && st.threads[e.t].role.Worker? && Idle(st.threads[e.t])
       else
         && (e.Take? ==> st.runQueue != [])
         && Target(st, e) < |st.slots|
         && Guard(e, st.threads[e.t], Target(st, e), st.slots[Target(st, e)])
  }

  /** What the step does to the thread. */
  function NextThread(e: Event, th: Thread, s: nat, slot: Slot): Thread
    requires Guard(e, th, s, slot)
  {
    match e
    case AcceptOk(_, _, errors, endpoint) =>
      th.(todo := Pushes(s, Errors(errors)) + [Greet(s, ConnectMsg(endpoint)), Post(s), Allocate])
    case AcceptFail(_, _) => th.(todo := [Close(s)])
    case ReadOk(_, _, msgs, tooBig) => th.(todo := ParseActs(s, msgs, tooBig))
    case ReadFail(_, _, text) => th.(todo := [Push(s, ErrorMsg(text)), Close(s)])
    case Link(_) => th.(pc := Linked(s), todo := th.todo[1..])
    case After(_) => th.(pc := if slot.processing then Unlock(s) else WantRun(s))
    case RunAppend(_) => th.(pc := RunHeld(s))
    case RunRelease(_) => th.(pc := Unlock(s))
    case Release(_) => th.(pc := Ready)
    case CloseSocket(_, error) =>
      if !slot.open then th.(todo := th.todo[1..])
      else th.(todo := Failure(s, error) + ([Push(s, DisconnectMsg())] + th.todo[1..]))
    case PostRead(_) => th.(todo := th.todo[1..])
    case AllocateSlot(_) => th.(todo := th.todo[1..])
    case Poll(_) => th
    case Take(_) => th.(pc := TakeHeld, draining := Some(s))
    case TakeRelease(_) => th.(pc := Ready)
    case Pop(_) =>
      if slot.mailbox != [] then th.(pc := PopHeld(s), hand := Fresh(slot.mailbox[0]))
      else th.(pc := PopHeld(s), draining := None)
    case PopRelease(_) => th.(pc := Ready)
    case Mark(_) => th.(hand := Marked(th.hand.msg))
    case Call(_, replies) => th.(hand := Busy(th.hand.msg), todo := Pushes(s, replies))
    case WriteSocket(_, error) =>
      th.(hand := Busy(th.hand.msg),
          todo := if error.Some? then [Push(s, ErrorMsg(error.value)), Close(s)] else [])
    case Finish(_) => th.(hand := Empty)
  }

  /** What the step does to the slot.  A completed accept opens the socket before its handler starts. */
  function NextSlot(e: Event, th: Thread, s: nat, slot: Slot): Slot
    requires Guard(e, th, s, slot)
  {
    var h := slot.history;
    match e
    case AcceptOk(_, _, _, _) => slot.(accepting := false, open := true)
    case AcceptFail(_, _) => slot.(accepting := false)
    case ReadOk(_, _, _, _) => slot.(reading := slot.reading - 1)
    case ReadFail(_, _, _) => slot.(reading := slot.reading - 1)
    case Link(t) =>
      var m := th.todo[0].msg;
      slot.(lock := HeldBy(t), mailbox := slot.mailbox + [m], history := h.(pushed := h.pushed + [m]))
    case After(_) => slot.(processing := true)
    case Release(_) => slot.(lock := Free)
    case CloseSocket(_, _) => slot.(open := false)
    case PostRead(_) => slot.(reading := slot.reading + 1)
    case AllocateSlot(_) =>
      slot.(status := Start, accepting := true, history := h.(allocations := h.allocations + 1))
    case Pop(t) =>
      if slot.mailbox != [] then
        slot.(lock := HeldBy(t), mailbox := slot.mailbox[1..],
              history := h.(taken := h.taken + [slot.mailbox[0]]))
      else if slot.status == Stop then
        slot.(lock := HeldBy(t), processing := false, status := UseLess,
              history := h.(recycles := h.recycles + 1))
      else
        slot.(lock := HeldBy(t), processing := false)
    case PopRelease(_) => slot.(lock := Free)
    case Mark(_) => if IsDisconnect(th.hand.msg) then slot.(status := Stop) else slot
    case Call(_, _) => slot.(history := h.(called := h.called + [th.hand.msg]))
    case Finish(_) => slot.(history := h.(handled := h.handled + [th.hand.msg]))
    case _ => slot
  }

  function Apply(st: State, e: Event): State
    requires Enabled(st, e)
  {
    if e.Poll? then st
    else
      var s := Target(st, e);
      var th := st.threads[e.t];
      State(
        st.slots[s := NextSlot(e, th, s, st.slots[s])],
        if e.RunAppend? then st.runQueue + [s] else if e.Take? then st.runQueue[1..] else st.runQueue,
        if e.RunAppend? || e.Take? then HeldBy(e.t) else if e.RunRelease? || e.TakeRelease? then Free else st.runLock,
        st.threads[e.t := NextThread(e, th, s, st.slots[s])])
  }

  // -------------------------------------------------------------------- runs

  const FRESH_SLOT := Slot(UseLess, false, false, 0, false, [], Free, History([], [], [], [], 0, 0))

  /** `startup` creates the slots, then posts accepts; here the posts are what the socket threads begin with. */
  ghost predicate Init(st: State) {
    && (forall s :: 0 <= s < |st.slots| ==> st.slots[s] == FRESH_SLOT)
    && st.runQueue == [] && st.runLock == Free
    && forall t :: 0 <= t < |st.threads| ==>
         && var th := st.threads[t];
         && th.pc == Ready && th.draining == None && th.hand == Empty
         && (forall a :: a in th.todo ==> a == Allocate)
         && (th.role.Worker? ==> th.todo == [])
  }

  /** No id taken from the wire is one of the two ids the scheduler itself uses for connect and disconnect.
      `_parse_msg` does not check this. */
  predicate WireOk(e: Event) {
    e.ReadOk? ==> forall m :: m in e.msgs ==> !IsConnect(m) && !IsDisconnect(m)
  }

  predicate Greets(th: Thread, s: nat) {
    exists a :: a in th.todo && a.Greet? && a.slot == s
  }

  /** A thread has accepted a client on the slot and has yet to push the Connect message. */
  predicate GreetPending(st: State, s: nat) {
    exists t :: 0 <= t < |st.threads| && Greets(st.threads[t], s)
  }

  /** The step does not close an accepted socket whose Connect message has yet to be pushed.  `_close` asks only
      whether the socket is open. */
  predicate Timely(st: State, e: Event)
    requires Enabled(st, e)
  {
    e.CloseSocket? && st.slots[Target(st, e)].open ==> !GreetPending(st, Target(st, e))
  }

  predicate ValidRun(st: State, es: seq<Event>)
    decreases |es|
  {
    es == [] || (Enabled(st, es[0]) && ValidRun(Apply(st, es[0]), es[1..]))
  }

  function Final(st: State, es: seq<Event>): State
    requires ValidRun(st, es)
    decreases |es|
  {
    if es == [] then st else Final(Apply(st, es[0]), es[1..])
  }

  predicate TimelyRun(st: State, es: seq<Event>)
    requires ValidRun(st, es)
    decreases |es|
  {
    es == [] || (Timely(st, es[0]) && TimelyRun(Apply(st, es[0]), es[1..]))
  }

  lemma ConsAppend<T>(es: seq<T>, fs: seq<T>)
    requires es != []
    ensures es + fs == [es[0]] + (es[1..] + fs)
  {
  }

  lemma ValidCons(st: State, e: Event, es: seq<Event>)
    requires Enabled(st, e) && ValidRun(Apply(st, e), es)
    ensures ValidRun(st, [e] + es) && Final(st, [e] + es) == Final(Apply(st, e), es)
  {
    assert ([e] + es)[0] == e && ([e] + es)[1..] == es;
  }

  lemma {:induction false} ValidConcat(st: State, es: seq<Event>, fs: seq<Event>)
    requires ValidRun(st, es) && ValidRun(Final(st, es), fs)
    ensures ValidRun(st, es + fs) && Final(st, es + fs) == Final(Final(st, es), fs)
    decreases |es|
  {
    if es == [] {
      assert es + fs == fs;
    } else {
      ConsAppend(es, fs);
      ValidConcat(Apply(st, es[0]), es[1..], fs);
      ValidCons(st, es[0], es[1..] + fs);
    }
  }
}
