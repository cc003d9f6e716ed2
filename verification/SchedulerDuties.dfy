/** What a thread is asked to do it does, in order: the messages a completion, a callback or a close calls for are
    linked once each, and every read and close that is called for is posted or made. */
module SchedulerDuties {
  import opened Wire
  import opened Scheduler
  import opened SchedulerTokens
  import opened SchedulerSafety
  import opened SchedulerRecycling

  // ------------------------------------------------------------------------ messages

  /** A message for a slot. */
  datatype Parcel = Parcel(slot: nat, msg: Msg)

  function Parcels(s: nat, msgs: seq<Msg>): seq<Parcel> {
    seq(|msgs|, i requires 0 <= i < |msgs| => Parcel(s, msgs[i]))
  }

  function Errand(error: Option<seq<Byte>>): seq<Msg> {
    if error.Some? then [ErrorMsg(error.value)] else []
  }

  /** The messages that a step on slot `s` calls for: the errors of an accept and then its Connect; what a read
      delivers and then its own error; the replies of the callback; the error of a write; the error of a close and then
      its Disconnect, if the socket was open. */
  function CalledFor(e: Event, open: bool): seq<Msg> {
    match e
    case AcceptOk(_, _, errors, endpoint) => Errors(errors) + [ConnectMsg(endpoint)]
    case ReadOk(_, _, msgs, tooBig) => msgs + Errand(tooBig)
    case ReadFail(_, _, text) => [ErrorMsg(text)]
    case Call(_, replies) => replies
    case WriteSocket(_, error) => Errand(error)
    case CloseSocket(_, error) => if open then Errand(error) + [DisconnectMsg()] else []
    case _ => []
  }

  /** What one step calls for of thread `t`. */
  function AskedNow(st: State, e: Event, t: nat): seq<Parcel>
    requires Enabled(st, e)
  {
    if e.t == t && !e.Poll? then Parcels(Target(st, e), CalledFor(e, st.slots[Target(st, e)].open)) else []
  }

  /** What the steps of thread `t` call for over a run, in order. */
  function Asked(st: State, es: seq<Event>, t: nat): seq<Parcel>
    requires ValidRun(st, es)
    decreases |es|
  {
    if es == [] then [] else AskedNow(st, es[0], t) + Asked(Apply(st, es[0]), es[1..], t)
  }

  /** What a step appends to the mailbox of a slot, read off the slot's history. */
  function Appended(st: State, e: Event): seq<Parcel>
    requires Enabled(st, e)
  {
    if e.Poll? then []
    else
      var s := Target(st, e);
      var before, after := st.slots[s].history.pushed, Apply(st, e).slots[s].history.pushed;
      if |before| <= |after| then Parcels(s, after[|before|..]) else []
  }

  function DeliveredNow(st: State, e: Event, t: nat): seq<Parcel>
    requires Enabled(st, e)
  {
    if e.t == t then Appended(st, e) else []
  }

  /** What thread `t` links over a run, in order. */
  function Delivered(st: State, es: seq<Event>, t: nat): seq<Parcel>
    requires ValidRun(st, es)
    decreases |es|
  {
    if es == [] then [] else DeliveredNow(st, es[0], t) + Delivered(Apply(st, es[0]), es[1..], t)
  }

  /** The messages among a thread's acts. */
  function Outgoing(acts: seq<Act>): seq<Parcel> {
    if acts == [] then []
    else (if Sends(acts[0]) then [Parcel(acts[0].slot, acts[0].msg)] else []) + Outgoing(acts[1..])
  }

  lemma {:induction false} OutgoingConcat(a: seq<Act>, b: seq<Act>)
    ensures Outgoing(a + b) == Outgoing(a) + Outgoing(b)
  {
    if a == [] {
      assert a + b == b;
    } else {
      OutgoingConcat(a[1..], b);
      assert (a + b)[1..] == a[1..] + b;
    }
  }

  lemma {:induction false} OutgoingPushes(s: nat, msgs: seq<Msg>)
    ensures Outgoing(Pushes(s, msgs)) == Parcels(s, msgs)
  {
    if msgs != [] {
      OutgoingPushes(s, msgs[1..]);
      assert Pushes(s, msgs)[1..] == Pushes(s, msgs[1..]);
      assert Parcels(s, msgs) == [Parcel(s, msgs[0])] + Parcels(s, msgs[1..]);
    }
  }

  lemma {:induction false} NothingOutgoing(acts: seq<Act>)
    requires forall a :: a in acts ==> !Sends(a)
    ensures Outgoing(acts) == []
  {
    if acts != [] {
      assert acts[0] in acts;
      NothingOutgoing(acts[1..]);
    }
  }

  lemma ParcelsConcat(s: nat, a: seq<Msg>, b: seq<Msg>)
    ensures Parcels(s, a + b) == Parcels(s, a) + Parcels(s, b)
  {
  }

  /** Behind a close there is nothing to send. */
  predicate ClosesLast(th: Thread) {
    forall i, j :: 0 <= i < j < |th.todo| && th.todo[i].Close? ==> !Sends(th.todo[j])
  }

  lemma OutgoingThen(s: nat, msgs: seq<Msg>, rest: seq<Act>)
    requires forall a :: a in rest ==> !Sends(a)
    ensures Outgoing(Pushes(s, msgs) + rest) == Parcels(s, msgs)
  {
    OutgoingConcat(Pushes(s, msgs), rest);
    OutgoingPushes(s, msgs);
    NothingOutgoing(rest);
  }

  /** New work: what the step calls for is what the thread then has to send. */
  lemma NewWorkIsCalledFor(e: Event, th: Thread, s: nat, slot: Slot)
    requires Guard(e, th, s, slot) && (External(e) || e.Call? || e.WriteSocket?)
    ensures Outgoing(NextThread(e, th, s, slot).todo) == Parcels(s, CalledFor(e, slot.open)) && th.todo == []
  {
    match e {
      case AcceptOk(_, _, errors, endpoint) =>
        var tail := [Greet(s, ConnectMsg(endpoint)), Post(s), Allocate];
        OutgoingConcat(Pushes(s, Errors(errors)), tail);
        OutgoingPushes(s, Errors(errors));
        NothingOutgoing([Post(s), Allocate]);
        assert tail[1..] == [Post(s), Allocate];
        ParcelsConcat(s, Errors(errors), [ConnectMsg(endpoint)]);
      case AcceptFail(_, _) => NothingOutgoing([Close(s)]);
      case ReadOk(_, _, msgs, tooBig) => ParsedIsCalledFor(s, msgs, tooBig);
      case ReadFail(_, _, text) =>
        assert NextThread(e, th, s, slot).todo == Pushes(s, [ErrorMsg(text)]) + [Close(s)];
        OutgoingThen(s, [ErrorMsg(text)], [Close(s)]);
      case Call(_, replies) => OutgoingPushes(s, replies);
      case WriteSocket(_, error) =>
        if error.Some? {
          assert NextThread(e, th, s, slot).todo == Pushes(s, Errand(error)) + [Close(s)];
          OutgoingThen(s, Errand(error), [Close(s)]);
        }
    }
  }

  lemma ParsedIsCalledFor(s: nat, msgs: seq<Msg>, tooBig: Option<seq<Byte>>)
    ensures Outgoing(ParseActs(s, msgs, tooBig)) == Parcels(s, msgs + Errand(tooBig))
  {
    var rest := if tooBig.Some? then [Close(s), Post(s)] else [Post(s)];
    assert Pushes(s, msgs + Errand(tooBig)) == Pushes(s, msgs) + Pushes(s, Errand(tooBig));
    assert ParseActs(s, msgs, tooBig) == Pushes(s, msgs + Errand(tooBig)) + rest;
    OutgoingThen(s, msgs + Errand(tooBig), rest);
  }

  lemma GoodbyeIsCalledFor(s: nat, error: Option<seq<Byte>>, rest: seq<Act>)
    requires forall a :: a in rest ==> !Sends(a)
    ensures Outgoing(Failure(s, error) + ([Push(s, DisconnectMsg())] + rest))
            == Parcels(s, Errand(error) + [DisconnectMsg()])
  {
    var goodbye := Errand(error) + [DisconnectMsg()];
    assert Pushes(s, goodbye) == Failure(s, error) + [Push(s, DisconnectMsg())];
    assert Failure(s, error) + ([Push(s, DisconnectMsg())] + rest) == Pushes(s, goodbye) + rest;
    OutgoingThen(s, goodbye, rest);
  }

  lemma BehindACloseIsNothing(th: Thread)
    requires ClosesLast(th) && th.todo != [] && th.todo[0].Close?
    ensures forall a :: a in th.todo[1..] ==> !Sends(a)
    ensures Outgoing(th.todo[1..]) == [] == Outgoing(th.todo)
  {
    NothingOutgoing(th.todo[1..]);
  }

  /** A close sends its messages before anything else, and nothing else is behind it. */
  lemma CloseIsCalledFor(e: Event, th: Thread, s: nat, slot: Slot)
    requires Guard(e, th, s, slot) && e.CloseSocket? && ClosesLast(th)
    ensures Outgoing(NextThread(e, th, s, slot).todo) == Parcels(s, CalledFor(e, slot.open)) && Outgoing(th.todo) == []
  {
    BehindACloseIsNothing(th);
    if slot.open { GoodbyeIsCalledFor(s, e.error, th.todo[1..]); }
  }

  /** What a thread has linked and what it has yet to send grow by what a step calls for. */
  lemma OutgoingMoves(e: Event, th: Thread, s: nat, slot: Slot)
    requires Guard(e, th, s, slot) && ClosesLast(th)
    ensures (if e.Link? then [Parcel(s, th.todo[0].msg)] else []) + Outgoing(NextThread(e, th, s, slot).todo)
            == Outgoing(th.todo) + Parcels(s, CalledFor(e, slot.open))
  {
    if External(e) || e.Call? || e.WriteSocket? {
      NewWorkIsCalledFor(e, th, s, slot);
    } else if e.CloseSocket? {
      CloseIsCalledFor(e, th, s, slot);
    } else {
      assert CalledFor(e, slot.open) == [] && Parcels(s, []) == [];
    }
  }

  lemma SlotAppends(e: Event, th: Thread, s: nat, slot: Slot)
    requires Guard(e, th, s, slot)
    ensures NextSlot(e, th, s, slot).history.pushed == slot.history.pushed + if e.Link? then [th.todo[0].msg] else []
  {
  }

  lemma LinkAppends(st: State, e: Event)
    requires Enabled(st, e) && !e.Poll?
    ensures Appended(st, e) == if e.Link? then [Parcel(Target(st, e), st.threads[e.t].todo[0].msg)] else []
  {
    var s := Target(st, e);
    SlotAppends(e, st.threads[e.t], s, st.slots[s]);
    assert Apply(st, e).slots[s] == NextSlot(e, st.threads[e.t], s, st.slots[s]);
  }

  lemma ClosesStayLast(e: Event, th: Thread, s: nat, slot: Slot)
    requires Guard(e, th, s, slot) && ClosesLast(th)
    ensures ClosesLast(NextThread(e, th, s, slot))
  {
  }

  ghost predicate AllCloseLast(st: State) { forall t :: 0 <= t < |st.threads| ==> ClosesLast(st.threads[t]) }

  lemma StepKeepsClosesLast(st: State, e: Event)
    requires AllCloseLast(st) && Enabled(st, e)
    ensures AllCloseLast(Apply(st, e)) && |Apply(st, e).threads| == |st.threads|
  {
    if !e.Poll? {
      assert ClosesLast(st.threads[e.t]);
      ClosesStayLast(e, st.threads[e.t], Target(st, e), st.slots[Target(st, e)]);
    }
  }

  lemma StepDelivers(st: State, e: Event, t: nat)
    requires AllCloseLast(st) && Enabled(st, e) && t < |st.threads|
    ensures |Apply(st, e).threads| == |st.threads|
    ensures DeliveredNow(st, e, t) + Outgoing(Apply(st, e).threads[t].todo)
            == Outgoing(st.threads[t].todo) + AskedNow(st, e, t)
  {
    if !e.Poll? && e.t == t {
      LinkAppends(st, e);
      OutgoingMoves(e, st.threads[t], Target(st, e), st.slots[Target(st, e)]);
    }
  }

  lemma Regroup<T>(now: seq<T>, later: seq<T>, left: seq<T>, middle: seq<T>, out: seq<T>, asked: seq<T>, more: seq<T>)
    requires now + middle == out + asked && later + left == middle + more
    ensures (now + later) + left == out + (asked + more)
  {
    assert (now + later) + left == now + (later + left) == (now + middle) + more == out + (asked + more);
  }

  /** Over every run a thread links exactly what its steps called for, once each and in that order, up to what it has
      yet to send. */
  lemma {:induction false} DeliversWhatIsAsked(st: State, es: seq<Event>, t: nat)
    requires AllCloseLast(st) && ValidRun(st, es) && t < |st.threads|
    ensures t < |Final(st, es).threads|
    ensures Delivered(st, es, t) + Outgoing(Final(st, es).threads[t].todo)
            == Outgoing(st.threads[t].todo) + Asked(st, es, t)
    decreases |es|
  {
    if es != [] {
      var next, rest := Apply(st, es[0]), es[1..];
      StepKeepsClosesLast(st, es[0]);
      StepDelivers(st, es[0], t);
      DeliversWhatIsAsked(next, rest, t);
      Regroup(DeliveredNow(st, es[0], t), Delivered(next, rest, t), Outgoing(Final(next, rest).threads[t].todo),
              Outgoing(next.threads[t].todo), Outgoing(st.threads[t].todo), AskedNow(st, es[0], t),
              Asked(next, rest, t));
    }
  }

  lemma InitClosesLast(init: State)
    requires Init(init)
    ensures AllCloseLast(init)
    ensures forall t :: 0 <= t < |init.threads| ==> Outgoing(init.threads[t].todo) == []
  {
    forall t | 0 <= t < |init.threads|
      ensures ClosesLast(init.threads[t]) && Outgoing(init.threads[t].todo) == []
    {
      var todo := init.threads[t].todo;
      assert forall i :: 0 <= i < |todo| ==> todo[i] in todo;
      NothingOutgoing(todo);
    }
  }

  /** From the start of the server on. */
  lemma EveryMessageIsSentOnce(init: State, es: seq<Event>, t: nat)
    requires Init(init) && ValidRun(init, es) && t < |init.threads|
    ensures t < |Final(init, es).threads|
    ensures Asked(init, es, t) == Delivered(init, es, t) + Outgoing(Final(init, es).threads[t].todo)
  {
    InitClosesLast(init);
    DeliversWhatIsAsked(init, es, t);
  }

  // ------------------------------------------------------------------- reads and closes

  function Count(acts: seq<Act>, a: Act): nat {
    if acts == [] then 0 else B(acts[0] == a) + Count(acts[1..], a)
  }

  lemma {:induction false} CountConcat(x: seq<Act>, y: seq<Act>, a: Act)
    ensures Count(x + y, a) == Count(x, a) + Count(y, a)
  {
    if x == [] {
      assert x + y == y;
    } else {
      CountConcat(x[1..], y, a);
      assert (x + y)[1..] == x[1..] + y;
    }
  }

  lemma {:induction false} CountPushes(s: nat, msgs: seq<Msg>, a: Act)
    requires !a.Push?
    ensures Count(Pushes(s, msgs), a) == 0
  {
    if msgs != [] {
      CountPushes(s, msgs[1..], a);
      assert Pushes(s, msgs)[1..] == Pushes(s, msgs[1..]);
    }
  }

  /** All the reads or closes of one slot that the threads have yet to post or make. */
  function Counts(threads: seq<Thread>, a: Act): nat {
    if threads == [] then 0 else Count(threads[0].todo, a) + Counts(threads[1..], a)
  }

  lemma {:induction false} CountsUpdate(threads: seq<Thread>, t: nat, th: Thread, a: Act)
    requires t < |threads|
    ensures Counts(threads[t := th], a) + Count(threads[t].todo, a) == Counts(threads, a) + Count(th.todo, a)
  {
    if t == 0 {
      assert threads[0 := th][1..] == threads[1..];
    } else {
      CountsUpdate(threads[1..], t - 1, th, a);
      assert threads[t := th][1..] == threads[1..][t - 1 := th];
    }
  }

  /** What a step on slot `s` calls for: a read of an accepted client and of one that was read from, a close after a
      failed accept, read or write and after a message that is too big. */
  function Duty(e: Event, s: nat, a: Act): nat {
    match e
    case AcceptOk(_, _, _, _) => B(a == Post(s))
    case AcceptFail(_, _) => B(a == Close(s))
    case ReadOk(_, _, _, tooBig) => B(a == Post(s)) + B(a == Close(s) && tooBig.Some?)
    case ReadFail(_, _, _) => B(a == Close(s))
    case WriteSocket(_, error) => B(a == Close(s) && error.Some?)
    case _ => 0
  }

  lemma CountOne(x: Act, a: Act)
    ensures Count([x], a) == B(x == a)
  {
    assert [x][1..] == [];
  }

  lemma CountThree(x: Act, y: Act, z: Act, a: Act)
    ensures Count([x], a) == B(x == a) && Count([x, y], a) == B(x == a) + B(y == a)
    ensures Count([x, y, z], a) == B(x == a) + B(y == a) + B(z == a)
  {
    CountOne(x, a);
    CountOne(y, a);
    CountOne(z, a);
    CountConcat([x], [y], a);
    assert [x, y] == [x] + [y];
    CountConcat([x, y], [z], a);
    assert [x, y, z] == [x, y] + [z];
  }

  lemma NewWorkHasDuties(e: Event, th: Thread, s: nat, slot: Slot, a: Act)
    requires Guard(e, th, s, slot) && (External(e) || e.Call? || e.WriteSocket?) && (a.Post? || a.Close?)
    ensures Count(NextThread(e, th, s, slot).todo, a) == Duty(e, s, a) && th.todo == []
  {
    match e {
      case AcceptOk(_, _, errors, endpoint) =>
        CountConcat(Pushes(s, Errors(errors)), [Greet(s, ConnectMsg(endpoint)), Post(s), Allocate], a);
        CountPushes(s, Errors(errors), a);
        CountThree(Greet(s, ConnectMsg(endpoint)), Post(s), Allocate, a);
      case AcceptFail(_, _) => CountThree(Close(s), Close(s), Close(s), a);
      case ReadOk(_, _, msgs, tooBig) =>
        CountPushes(s, msgs, a);
        if tooBig.Some? {
          CountConcat(Pushes(s, msgs), [Push(s, ErrorMsg(tooBig.value)), Close(s), Post(s)], a);
          CountThree(Push(s, ErrorMsg(tooBig.value)), Close(s), Post(s), a);
        } else {
          CountConcat(Pushes(s, msgs), [Post(s)], a);
          CountThree(Post(s), Post(s), Post(s), a);
        }
      case ReadFail(_, _, text) => CountThree(Push(s, ErrorMsg(text)), Close(s), Close(s), a);
      case Call(_, replies) => CountPushes(s, replies, a);
      case WriteSocket(_, error) =>
        if error.Some? { CountThree(Push(s, ErrorMsg(error.value)), Close(s), Close(s), a); }
    }
  }

  lemma CloseCounts(s: nat, error: Option<seq<Byte>>, rest: seq<Act>, a: Act)
    requires a.Post? || a.Close?
    ensures Count(Failure(s, error) + ([Push(s, DisconnectMsg())] + rest), a) == Count(rest, a)
  {
    CountConcat([Push(s, DisconnectMsg())], rest, a);
    CountConcat(Failure(s, error), [Push(s, DisconnectMsg())] + rest, a);
    CountThree(Push(s, DisconnectMsg()), Close(s), Close(s), a);
    if error.Some? { CountThree(Push(s, ErrorMsg(error.value)), Close(s), Close(s), a); }
  }

  /** A read is posted, or a close made, when it is next to do. */
  predicate Does(e: Event, s: nat, a: Act) { (e.PostRead? && a == Post(s)) || (e.CloseSocket? && a == Close(s)) }

  lemma DutiesMove(e: Event, th: Thread, s: nat, slot: Slot, a: Act)
    requires Guard(e, th, s, slot) && (a.Post? || a.Close?)
    ensures Count(NextThread(e, th, s, slot).todo, a) + B(Does(e, s, a)) == Count(th.todo, a) + Duty(e, s, a)
  {
    if External(e) || e.Call? || e.WriteSocket? {
      NewWorkHasDuties(e, th, s, slot, a);
    } else if e.CloseSocket? && slot.open {
      CloseCounts(s, e.error, th.todo[1..], a);
    }
  }

  /** How often the steps of a run call for the act, and how often it is done. */
  function DutiesOver(st: State, es: seq<Event>, a: Act): nat
    requires ValidRun(st, es)
    decreases |es|
  {
    if es == [] then 0
    else (if es[0].Poll? then 0 else Duty(es[0], Target(st, es[0]), a)) + DutiesOver(Apply(st, es[0]), es[1..], a)
  }

  function DoneOver(st: State, es: seq<Event>, a: Act): nat
    requires ValidRun(st, es)
    decreases |es|
  {
    if es == [] then 0
    else B(!es[0].Poll? && Does(es[0], Target(st, es[0]), a)) + DoneOver(Apply(st, es[0]), es[1..], a)
  }

  lemma StepDoesDuties(st: State, e: Event, a: Act)
    requires Enabled(st, e) && !e.Poll? && (a.Post? || a.Close?)
    ensures Counts(Apply(st, e).threads, a) + B(Does(e, Target(st, e), a))
            == Counts(st.threads, a) + Duty(e, Target(st, e), a)
  {
    var s := Target(st, e);
    CountsUpdate(st.threads, e.t, NextThread(e, st.threads[e.t], s, st.slots[s]), a);
    DutiesMove(e, st.threads[e.t], s, st.slots[s], a);
  }

  /** Over every run the reads and closes that were called for are those made and those still to be made. */
  lemma {:induction false} DutiesAreDone(st: State, es: seq<Event>, a: Act)
    requires ValidRun(st, es) && (a.Post? || a.Close?)
    ensures Counts(Final(st, es).threads, a) + DoneOver(st, es, a) == Counts(st.threads, a) + DutiesOver(st, es, a)
    decreases |es|
  {
    if es != [] {
      if !es[0].Poll? { StepDoesDuties(st, es[0], a); }
      DutiesAreDone(Apply(st, es[0]), es[1..], a);
    }
  }

  /** How many reads of the slot complete over a run. */
  function Completed(es: seq<Event>, s: nat): nat {
    if es == [] then 0 else B((es[0].ReadOk? || es[0].ReadFail?) && es[0].s == s) + Completed(es[1..], s)
  }

  lemma SlotReads(e: Event, th: Thread, s: nat, slot: Slot)
    requires Guard(e, th, s, slot)
    ensures NextSlot(e, th, s, slot).reading + B(e.ReadOk? || e.ReadFail?) == slot.reading + B(e.PostRead?)
  {
  }

  lemma StepReads(st: State, e: Event, s: nat)
    requires Enabled(st, e) && s < |st.slots|
    ensures |Apply(st, e).slots| == |st.slots|
    ensures Apply(st, e).slots[s].reading + B((e.ReadOk? || e.ReadFail?) && e.s == s)
            == st.slots[s].reading + B(!e.Poll? && Does(e, Target(st, e), Post(s)))
  {
    if !e.Poll? && Target(st, e) == s { SlotReads(e, st.threads[e.t], s, st.slots[s]); }
  }

  /** Over every run a read is outstanding exactly for each that was posted and has not completed. */
  lemma {:induction false} ReadsOverRuns(st: State, es: seq<Event>, s: nat)
    requires ValidRun(st, es) && s < |st.slots|
    ensures s < |Final(st, es).slots|
    ensures Final(st, es).slots[s].reading + Completed(es, s) == st.slots[s].reading + DoneOver(st, es, Post(s))
    decreases |es|
  {
    if es != [] {
      StepReads(st, es[0], s);
      ReadsOverRuns(Apply(st, es[0]), es[1..], s);
    }
  }

  predicate Lacks(th: Thread, a: Act) { forall i :: 0 <= i < |th.todo| ==> th.todo[i] != a }

  lemma InitLacks(init: State, a: Act)
    requires Init(init) && a != Allocate
    ensures forall t :: 0 <= t < |init.threads| ==> Lacks(init.threads[t], a)
  {
    forall t, i | 0 <= t < |init.threads| && 0 <= i < |init.threads[t].todo| ensures init.threads[t].todo[i] != a {
      assert init.threads[t].todo[i] in init.threads[t].todo;
    }
  }

  lemma {:induction false} NoDuties(threads: seq<Thread>, a: Act)
    requires forall t :: 0 <= t < |threads| ==> Lacks(threads[t], a)
    ensures Counts(threads, a) == 0
  {
    if threads != [] {
      CountNone(threads[0].todo, a);
      forall t | 0 <= t < |threads[1..]| ensures Lacks(threads[1..][t], a) {
        assert threads[1..][t] == threads[t + 1];
      }
      NoDuties(threads[1..], a);
    }
  }

  lemma {:induction false} CountNone(acts: seq<Act>, a: Act)
    requires forall i :: 0 <= i < |acts| ==> acts[i] != a
    ensures Count(acts, a) == 0
  {
    if acts != [] {
      CountNone(acts[1..], a);
    }
  }

  /** From the start of the server on: every accepted client is read from, and so is every client after each of its
      messages; every failed accept, read or write and every message too big is followed by a close. */
  lemma EveryDutyIsDone(init: State, es: seq<Event>, s: nat)
    requires Init(init) && ValidRun(init, es) && s < |init.slots|
    ensures s < |Final(init, es).slots|
    ensures DutiesOver(init, es, Post(s))
            == Completed(es, s) + Final(init, es).slots[s].reading + Counts(Final(init, es).threads, Post(s))
    ensures DutiesOver(init, es, Close(s))
            == DoneOver(init, es, Close(s)) + Counts(Final(init, es).threads, Close(s))
  {
    InitLacks(init, Post(s));
    InitLacks(init, Close(s));
    NoDuties(init.threads, Post(s));
    NoDuties(init.threads, Close(s));
    DutiesAreDone(init, es, Post(s));
    DutiesAreDone(init, es, Close(s));
    ReadsOverRuns(init, es, s);
  }
}
