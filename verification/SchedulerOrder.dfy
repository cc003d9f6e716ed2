/** What a client sends is heard in the order in which its reads delivered it: the handlers of one connection do not
    overtake each other, because the next read is posted only behind the pushes of the last. */
module SchedulerOrder {
  import opened Wire
  import opened Scheduler
  import opened SchedulerTokens
  import opened SchedulerSafety
  import opened SchedulerRecycling
  import opened SchedulerDrain
  import opened SchedulerGreeting
  import opened SchedulerDuties

  // ---------------------------------------------------------------- a client's messages

  /** A message that only a client can have sent: no thread of the server makes one with such an id. */
  predicate IsOwn(m: Msg) { m.kind.Read? && m.id != EMIR_CONNECT && m.id != EMIR_DISCONNECT && m.id != EMIR_ERROR }

  function Own(msgs: seq<Msg>): seq<Msg> {
    if msgs == [] then [] else (if IsOwn(msgs[0]) then [msgs[0]] else []) + Own(msgs[1..])
  }

  /** Those among these parcels that are for slot `s`. */
  function OwnFor(parcels: seq<Parcel>, s: nat): seq<Msg> {
    if parcels == [] then []
    else
      (if parcels[0].slot == s && IsOwn(parcels[0].msg) then [parcels[0].msg] else []) + OwnFor(parcels[1..], s)
  }

  lemma {:induction false} OwnConcat(a: seq<Msg>, b: seq<Msg>)
    ensures Own(a + b) == Own(a) + Own(b)
  {
    if a == [] {
      assert a + b == b;
    } else {
      OwnConcat(a[1..], b);
      assert (a + b)[0] == a[0] && (a + b)[1..] == a[1..] + b;
      SchedulerGreeting.Regroup(if IsOwn(a[0]) then [a[0]] else [], Own(a[1..]), Own(b));
    }
  }

  lemma {:induction false} OwnForConcat(a: seq<Parcel>, b: seq<Parcel>, s: nat)
    ensures OwnFor(a + b, s) == OwnFor(a, s) + OwnFor(b, s)
  {
    if a == [] {
      assert a + b == b;
    } else {
      OwnForConcat(a[1..], b, s);
      assert (a + b)[0] == a[0] && (a + b)[1..] == a[1..] + b;
      SchedulerGreeting.Regroup(if a[0].slot == s && IsOwn(a[0].msg) then [a[0].msg] else [], OwnFor(a[1..], s),
                                OwnFor(b, s));
    }
  }

  lemma {:induction false} OwnForParcels(s: nat, msgs: seq<Msg>, u: nat)
    ensures OwnFor(Parcels(s, msgs), u) == if s == u then Own(msgs) else []
  {
    if msgs != [] {
      OwnForParcels(s, msgs[1..], u);
      assert Parcels(s, msgs)[1..] == Parcels(s, msgs[1..]);
    }
  }

  lemma {:induction false} NoneOwn(msgs: seq<Msg>)
    requires forall i :: 0 <= i < |msgs| ==> !IsOwn(msgs[i])
    ensures Own(msgs) == []
  {
    if msgs != [] {
      NoneOwn(msgs[1..]);
    }
  }

  lemma {:induction false} OwnIsRead(msgs: seq<Msg>)
    ensures Own(Reads(msgs)) == Own(msgs)
  {
    if msgs != [] {
      var front, m := msgs[..|msgs| - 1], msgs[|msgs| - 1];
      assert msgs == front + [m];
      OwnIsRead(front);
      ReadsAppend(front, m);
      OwnConcat(front, [m]);
      OwnConcat(Reads(front), [m]);
      if !m.kind.Read? { NoneOwn([m]); }
    }
  }

  // ------------------------------------------------------------- what is still to be pushed

  /** The messages of slot `s`'s clients that a thread has yet to push. */
  function Owed(th: Thread, s: nat): seq<Msg> { OwnFor(Outgoing(th.todo), s) }

  function OwedByAll(threads: seq<Thread>, s: nat): seq<Msg> {
    if threads == [] then [] else Owed(threads[0], s) + OwedByAll(threads[1..], s)
  }

  lemma {:induction false} NobodyOwes(threads: seq<Thread>, s: nat)
    requires forall t :: 0 <= t < |threads| ==> Owed(threads[t], s) == []
    ensures OwedByAll(threads, s) == []
  {
    if threads != [] {
      forall t | 0 <= t < |threads[1..]| ensures Owed(threads[1..][t], s) == [] {
        assert threads[1..][t] == threads[t + 1];
      }
      NobodyOwes(threads[1..], s);
    }
  }

  /** If one thread alone owes anything, that is all there is. */
  lemma {:induction false} OneOwes(threads: seq<Thread>, t: nat, s: nat)
    requires t < |threads| && forall u :: 0 <= u < |threads| && u != t ==> Owed(threads[u], s) == []
    ensures OwedByAll(threads, s) == Owed(threads[t], s)
  {
    forall u | 0 <= u < |threads[1..]| && u + 1 != t ensures Owed(threads[1..][u], s) == [] {
      assert threads[1..][u] == threads[u + 1];
    }
    if t == 0 {
      NobodyOwes(threads[1..], s);
    } else {
      OneOwes(threads[1..], t - 1, s);
      assert threads[1..][t - 1] == threads[t];
    }
  }

  lemma {:induction false} SameOwed(threads: seq<Thread>, t: nat, th: Thread, s: nat)
    requires t < |threads| && Owed(th, s) == Owed(threads[t], s)
    ensures OwedByAll(threads[t := th], s) == OwedByAll(threads, s)
  {
    if t == 0 {
      assert threads[0 := th][1..] == threads[1..];
    } else {
      SameOwed(threads[1..], t - 1, th, s);
      assert threads[t := th][1..] == threads[1..][t - 1 := th];
    }
  }

  // ------------------------------------------------------------------------- the reads

  /** What a step reads from the client of slot `s`. */
  function ReadNow(e: Event, s: nat): seq<Msg> { if e.ReadOk? && e.s == s then e.msgs else [] }

  /** What the reads of slot `s` deliver over a run, in the order in which they complete. */
  function ReadOver(es: seq<Event>, s: nat): seq<Msg> {
    if es == [] then [] else ReadNow(es[0], s) + ReadOver(es[1..], s)
  }

  /** A read completes only when the handler of the last one has pushed what it read. */
  predicate Serial(st: State, e: Event, s: nat) {
    e.ReadOk? && e.s == s ==> forall t :: 0 <= t < |st.threads| ==> Owed(st.threads[t], s) == []
  }

  predicate SerialRun(st: State, es: seq<Event>, s: nat)
    requires ValidRun(st, es)
    decreases |es|
  {
    es == [] || (Serial(st, es[0], s) && SerialRun(Apply(st, es[0]), es[1..], s))
  }

  /** At most one thread has something of this client's to push. */
  ghost predicate OneOwesAtMost(threads: seq<Thread>, s: nat) {
    forall t, u :: 0 <= t < |threads| && 0 <= u < |threads| && t != u ==>
      Owed(threads[t], s) == [] || Owed(threads[u], s) == []
  }

  lemma NotOwn(e: Event, th: Thread, s: nat, slot: Slot)
    requires Guard(e, th, s, slot) && !e.ReadOk?
    ensures Own(CalledFor(e, slot.open)) == []
  {
    var msgs := CalledFor(e, slot.open);
    if e.Call? {
      assert forall i :: 0 <= i < |msgs| ==> msgs[i] in e.replies;
    }
    NoneOwn(msgs);
  }

  /** Of all that a step calls for only what it reads is a client's. */
  lemma CalledForIsRead(e: Event, th: Thread, s: nat, slot: Slot, u: nat)
    requires Guard(e, th, s, slot) && (e.ReadOk? ==> s == e.s)
    ensures OwnFor(Parcels(s, CalledFor(e, slot.open)), u) == if u == s then Own(ReadNow(e, u)) else []
    ensures u != s ==> ReadNow(e, u) == []
  {
    OwnForParcels(s, CalledFor(e, slot.open), u);
    if e.ReadOk? {
      OwnConcat(e.msgs, Errand(e.tooBig));
      NoneOwn(Errand(e.tooBig));
    } else {
      NotOwn(e, th, s, slot);
    }
  }

  /** The acting thread pushes what it owed first and owes what it reads last. */
  lemma OwedMoves(e: Event, th: Thread, s: nat, slot: Slot, u: nat)
    requires Guard(e, th, s, slot) && ClosesLast(th) && (e.ReadOk? ==> s == e.s)
    ensures (if e.Link? && s == u then Own([th.todo[0].msg]) else []) + Owed(NextThread(e, th, s, slot), u)
            == Owed(th, u) + Own(ReadNow(e, u))
  {
    OutgoingMoves(e, th, s, slot);
    CalledForIsRead(e, th, s, slot, u);
    var sent := if e.Link? then [th.todo[0].msg] else [];
    assert Parcels(s, sent) == if e.Link? then [Parcel(s, th.todo[0].msg)] else [];
    OwnForParcels(s, sent, u);
    OwnForConcat(Parcels(s, sent), Outgoing(NextThread(e, th, s, slot).todo), u);
    OwnForConcat(Outgoing(th.todo), Parcels(s, CalledFor(e, slot.open)), u);
  }

  /** What slot `s` has been pushed of its clients' messages, and then what is still owed. */
  function Heard(st: State, s: nat): seq<Msg>
    requires s < |st.slots|
  {
    Own(st.slots[s].history.pushed) + OwedByAll(st.threads, s)
  }

  lemma Regrouped<T>(pushed: seq<T>, now: seq<T>, owed': seq<T>, owed: seq<T>, read: seq<T>)
    requires now + owed' == owed + read
    ensures (pushed + now) + owed' == (pushed + owed) + read
  {
    assert (pushed + now) + owed' == pushed + (now + owed') && (pushed + owed) + read == pushed + (owed + read);
  }

  /** All the threads together owe what the acting thread owed more than the others. */
  lemma AllOwedMoves(threads: seq<Thread>, t: nat, th: Thread, s: nat, now: seq<Msg>, read: seq<Msg>)
    requires t < |threads| && OneOwesAtMost(threads, s) && now + Owed(th, s) == Owed(threads[t], s) + read
    requires read != [] ==> forall u :: 0 <= u < |threads| ==> Owed(threads[u], s) == []
    ensures now + OwedByAll(threads[t := th], s) == OwedByAll(threads, s) + read
    ensures OneOwesAtMost(threads[t := th], s)
  {
    if Owed(threads[t], s) == [] && read == [] {
      assert now == [] && Owed(th, s) == [];
      SameOwed(threads, t, th, s);
    } else {
      OneOwes(threads, t, s);
      OneOwes(threads[t := th], t, s);
    }
  }

  lemma OwnPushedNow(st: State, e: Event, s: nat)
    requires Enabled(st, e) && !e.Poll? && s < |st.slots|
    ensures Own(PushedNow(st, e, s)) == if e.Link? && Target(st, e) == s then Own([st.threads[e.t].todo[0].msg]) else []
  {
  }

  lemma StepIsHeard(st: State, e: Event, s: nat)
    requires AllCloseLast(st) && OneOwesAtMost(st.threads, s) && s < |st.slots| && Enabled(st, e) && Serial(st, e, s)
    ensures |Apply(st, e).slots| == |st.slots| && AllCloseLast(Apply(st, e)) && OneOwesAtMost(Apply(st, e).threads, s)
    ensures Heard(Apply(st, e), s) == Heard(st, s) + Own(ReadNow(e, s))
  {
    StepKeepsClosesLast(st, e);
    if e.Poll? {
      assert Heard(st, s) + [] == Heard(st, s);
    } else {
      var th, u := st.threads[e.t], Target(st, e);
      var now, read := Own(PushedNow(st, e, s)), Own(ReadNow(e, s));
      assert ClosesLast(th);
      OwedMoves(e, th, u, st.slots[u], s);
      OwnPushedNow(st, e, s);
      AllOwedMoves(st.threads, e.t, NextThread(e, th, u, st.slots[u]), s, now, read);
      StepPushes(st, e, s);
      OwnConcat(st.slots[s].history.pushed, PushedNow(st, e, s));
      Regrouped(Own(st.slots[s].history.pushed), now, OwedByAll(Apply(st, e).threads, s),
                OwedByAll(st.threads, s), read);
    }
  }

  lemma {:induction false} RunIsHeard(st: State, es: seq<Event>, s: nat)
    requires AllCloseLast(st) && OneOwesAtMost(st.threads, s) && s < |st.slots|
    requires ValidRun(st, es) && SerialRun(st, es, s)
    ensures |Final(st, es).slots| == |st.slots|
    ensures Heard(Final(st, es), s) == Heard(st, s) + Own(ReadOver(es, s))
    decreases |es|
  {
    if es == [] {
      assert Heard(st, s) + [] == Heard(st, s);
    } else {
      StepIsHeard(st, es[0], s);
      RunIsHeard(Apply(st, es[0]), es[1..], s);
      OwnConcat(ReadNow(es[0], s), ReadOver(es[1..], s));
      SchedulerGreeting.Regroup(Heard(st, s), Own(ReadNow(es[0], s)), Own(ReadOver(es[1..], s)));
    }
  }

  lemma InitOwesNothing(init: State, s: nat)
    requires Init(init) && s < |init.slots|
    ensures AllCloseLast(init) && OneOwesAtMost(init.threads, s) && Heard(init, s) == []
  {
    InitClosesLast(init);
    NobodyOwes(init.threads, s);
  }

  /** From the start of the server on, over every run in which the reads of a slot are handled one after the other, as
      the strand of its connection has it: what the slot's clients sent is pushed in the order of the reads, once each
      and up to what the handler of the last read has yet to push, and the callback hears a beginning of it. */
  lemma ClientsAreHeardInOrder(init: State, es: seq<Event>, s: nat)
    requires Init(init) && ValidRun(init, es) && SerialRun(init, es, s) && s < |init.slots|
    ensures s < |Final(init, es).slots|
    ensures Own(Final(init, es).slots[s].history.pushed) + OwedByAll(Final(init, es).threads, s)
            == Own(ReadOver(es, s))
    ensures Own(Final(init, es).slots[s].history.called) <= Own(ReadOver(es, s))
  {
    InitOwesNothing(init, s);
    InitIsSafe(init);
    HeardFromNothing(init, es, s);
  }

  lemma HeardFromNothing(st: State, es: seq<Event>, s: nat)
    requires Safe(st) && AllCloseLast(st) && OneOwesAtMost(st.threads, s) && s < |st.slots| && Heard(st, s) == []
    requires ValidRun(st, es) && SerialRun(st, es, s)
    ensures s < |Final(st, es).slots| && Heard(Final(st, es), s) == Own(ReadOver(es, s))
    ensures Own(Final(st, es).slots[s].history.called) <= Own(ReadOver(es, s))
  {
    RunIsHeard(st, es, s);
    RunKeepsSafe(st, es);
    CallsAreHeard(Final(st, es), s);
  }

  lemma CallsAreHeard(st: State, s: nat)
    requires Safe(st) && s < |st.slots|
    ensures Own(st.slots[s].history.called) <= Own(st.slots[s].history.pushed)
  {
    var h := st.slots[s].history;
    var rest := CalledIsPrefix(st, s);
    OwnConcat(h.called, rest);
    OwnIsRead(h.pushed);
  }

  // ------------------------------------------------------------ no two handlers of one slot

  /** The reads of a slot that are outstanding or about to be posted. */
  function Readers(st: State, s: nat): nat
    requires s < |st.slots|
  {
    st.slots[s].reading + Counts(st.threads, Post(s))
  }

  /** The next read is posted behind everything that was read. */
  predicate PostsLast(acts: seq<Act>, s: nat) {
    acts == [] || ((Owes(acts[0], s) ==> Post(s) in acts[1..]) && PostsLast(acts[1..], s))
  }

  predicate Owes(a: Act, s: nat) { Sends(a) && a.slot == s && IsOwn(a.msg) }

  lemma {:induction false} OwingNothing(acts: seq<Act>, s: nat)
    requires forall i :: 0 <= i < |acts| ==> !Owes(acts[i], s)
    ensures PostsLast(acts, s)
  {
    if acts != [] {
      OwingNothing(acts[1..], s);
    }
  }

  lemma {:induction false} PostsBehind(acts: seq<Act>, rest: seq<Act>, s: nat)
    requires PostsLast(rest, s)
    requires Post(s) in rest || forall i :: 0 <= i < |acts| ==> !Owes(acts[i], s)
    ensures PostsLast(acts + rest, s)
  {
    if acts == [] {
      assert acts + rest == rest;
    } else {
      assert (acts + rest)[1..] == acts[1..] + rest;
      PostsBehind(acts[1..], rest, s);
    }
  }

  lemma ParsingPostsLast(s: nat, msgs: seq<Msg>, tooBig: Option<seq<Byte>>, u: nat)
    ensures PostsLast(ParseActs(s, msgs, tooBig), u)
  {
    var rest := if tooBig.Some? then [Push(s, ErrorMsg(tooBig.value)), Close(s), Post(s)] else [Post(s)];
    OwingNothing(rest, u);
    PostsBehind(Pushes(s, msgs), rest, u);
  }

  lemma NewWorkPostsLast(e: Event, th: Thread, s: nat, slot: Slot, u: nat)
    requires Guard(e, th, s, slot) && (External(e) || e.Call? || e.WriteSocket?)
    ensures PostsLast(NextThread(e, th, s, slot).todo, u)
  {
    if e.ReadOk? {
      ParsingPostsLast(s, e.msgs, e.tooBig, u);
    } else {
      if e.Call? { assert forall i :: 0 <= i < |e.replies| ==> e.replies[i] in e.replies; }
      OwingNothing(NextThread(e, th, s, slot).todo, u);
    }
  }

  lemma ClosingPostsLast(s: nat, error: Option<seq<Byte>>, rest: seq<Act>, u: nat)
    requires PostsLast(rest, u)
    ensures PostsLast(Failure(s, error) + ([Push(s, DisconnectMsg())] + rest), u)
  {
    PostsBehind([Push(s, DisconnectMsg())], rest, u);
    PostsBehind(Failure(s, error), [Push(s, DisconnectMsg())] + rest, u);
  }

  lemma ThreadPostsLast(e: Event, th: Thread, s: nat, slot: Slot, u: nat)
    requires Guard(e, th, s, slot) && PostsLast(th.todo, u)
    ensures PostsLast(NextThread(e, th, s, slot).todo, u)
  {
    if External(e) || e.Call? || e.WriteSocket? {
      NewWorkPostsLast(e, th, s, slot, u);
    } else if e.CloseSocket? && slot.open {
      ClosingPostsLast(s, e.error, th.todo[1..], u);
    }
  }

  lemma {:induction false} OwingMeansPosting(acts: seq<Act>, s: nat)
    requires PostsLast(acts, s) && OwnFor(Outgoing(acts), s) != []
    ensures Count(acts, Post(s)) > 0
  {
    if Owes(acts[0], s) {
      CountIn(acts[1..], Post(s));
    } else {
      var head := if Sends(acts[0]) then [Parcel(acts[0].slot, acts[0].msg)] else [];
      assert Outgoing(acts) == head + Outgoing(acts[1..]) && OwnFor(head, s) == [];
      OwnForConcat(head, Outgoing(acts[1..]), s);
      OwingMeansPosting(acts[1..], s);
    }
  }

  lemma {:induction false} CountIn(acts: seq<Act>, a: Act)
    requires a in acts
    ensures Count(acts, a) > 0
  {
    if acts[0] != a {
      CountIn(acts[1..], a);
    }
  }

  lemma {:induction false} CountsAtLeast(threads: seq<Thread>, t: nat, a: Act)
    requires t < |threads|
    ensures Count(threads[t].todo, a) <= Counts(threads, a)
  {
    if t > 0 {
      CountsAtLeast(threads[1..], t - 1, a);
      assert threads[1..][t - 1] == threads[t];
    }
  }

  ghost predicate OneReader(st: State, s: nat)
    requires s < |st.slots|
  {
    Readers(st, s) <= 1 && forall t :: 0 <= t < |st.threads| ==> PostsLast(st.threads[t].todo, s)
  }

  /** While a slot has one reader no second handler can start, strand or no strand. */
  lemma OneReaderIsSerial(st: State, e: Event, s: nat)
    requires s < |st.slots| && OneReader(st, s) && Enabled(st, e)
    ensures Serial(st, e, s)
  {
    if e.ReadOk? && e.s == s {
      forall t | 0 <= t < |st.threads| ensures Owed(st.threads[t], s) == [] {
        CountsAtLeast(st.threads, t, Post(s));
        if Owed(st.threads[t], s) != [] { OwingMeansPosting(st.threads[t].todo, s); }
      }
    }
  }

  /** A step adds a reader exactly if it accepts a client, and a failed read takes one away. */
  lemma ReadersMove(st: State, e: Event, s: nat)
    requires s < |st.slots| && Enabled(st, e)
    ensures |Apply(st, e).slots| == |st.slots|
    ensures Readers(Apply(st, e), s) + B(e.ReadFail? && e.s == s) == Readers(st, s) + B(e.AcceptOk? && e.s == s)
  {
    StepReads(st, e, s);
    if !e.Poll? { StepDoesDuties(st, e, Post(s)); }
  }

  /** No client is accepted on a slot while a read of the last one is outstanding. */
  predicate Fresh(st: State, e: Event, s: nat)
    requires s < |st.slots|
  {
    e.AcceptOk? && e.s == s ==> Readers(st, s) == 0
  }

  predicate FreshRun(st: State, es: seq<Event>, s: nat)
    requires ValidRun(st, es) && s < |st.slots|
    decreases |es|
  {
    es == [] || (Fresh(st, es[0], s) && s < |Apply(st, es[0]).slots| && FreshRun(Apply(st, es[0]), es[1..], s))
  }

  lemma StepKeepsOneReader(st: State, e: Event, s: nat)
    requires s < |st.slots| && OneReader(st, s) && Enabled(st, e) && Fresh(st, e, s)
    ensures |Apply(st, e).slots| == |st.slots| && OneReader(Apply(st, e), s)
  {
    ReadersMove(st, e, s);
    if !e.Poll? {
      ThreadPostsLast(e, st.threads[e.t], Target(st, e), st.slots[Target(st, e)], s);
    }
  }

  lemma {:induction false} FreshRunIsSerial(st: State, es: seq<Event>, s: nat)
    requires s < |st.slots| && OneReader(st, s) && ValidRun(st, es) && FreshRun(st, es, s)
    ensures SerialRun(st, es, s)
    decreases |es|
  {
    if es != [] {
      OneReaderIsSerial(st, es[0], s);
      StepKeepsOneReader(st, es[0], s);
      FreshRunIsSerial(Apply(st, es[0]), es[1..], s);
    }
  }

  lemma InitHasNoReader(init: State, s: nat)
    requires Init(init) && s < |init.slots|
    ensures Readers(init, s) == 0 && OneReader(init, s)
  {
    InitLacks(init, Post(s));
    NoDuties(init.threads, Post(s));
    forall t | 0 <= t < |init.threads| ensures PostsLast(init.threads[t].todo, s) {
      var todo := init.threads[t].todo;
      assert forall i :: 0 <= i < |todo| ==> todo[i] in todo;
      OwingNothing(todo, s);
    }
  }

  /** From the start of the server on the reads of a slot are handled one after the other in every run in which no
      client is accepted while a read of the last one is outstanding; no strand is needed for that. */
  lemma FreshClientsAreReadInOrder(init: State, es: seq<Event>, s: nat)
    requires Init(init) && ValidRun(init, es) && s < |init.slots| && FreshRun(init, es, s)
    ensures SerialRun(init, es, s)
  {
    InitHasNoReader(init, s);
    FreshRunIsSerial(init, es, s);
  }

  /** How many clients are accepted on the slot. */
  function Accepted(es: seq<Event>, s: nat): nat {
    if es == [] then 0 else B(es[0].AcceptOk? && es[0].s == s) + Accepted(es[1..], s)
  }

  lemma {:induction false} FirstClientIsFresh(st: State, es: seq<Event>, s: nat)
    requires s < |st.slots| && ValidRun(st, es) && Accepted(es, s) + Readers(st, s) <= 1
    ensures FreshRun(st, es, s)
    decreases |es|
  {
    if es != [] {
      ReadersMove(st, es[0], s);
      FirstClientIsFresh(Apply(st, es[0]), es[1..], s);
    }
  }

  /** So the first client of every slot is heard in order whatever happens. */
  lemma FirstClientIsHeardInOrder(init: State, es: seq<Event>, s: nat)
    requires Init(init) && ValidRun(init, es) && s < |init.slots| && Accepted(es, s) <= 1
    ensures s < |Final(init, es).slots|
    ensures Own(Final(init, es).slots[s].history.pushed) + OwedByAll(Final(init, es).threads, s)
            == Own(ReadOver(es, s))
    ensures Own(Final(init, es).slots[s].history.called) <= Own(ReadOver(es, s))
  {
    InitHasNoReader(init, s);
    FirstClientIsFresh(init, es, s);
    FreshRunIsSerial(init, es, s);
    ClientsAreHeardInOrder(init, es, s);
  }

  // ----------------------------------------------------------------------------- at rest

  /** An allocation, which waits for a free slot, keeps nothing else waiting. */
  predicate AllocatesLast(th: Thread) {
    forall i, j :: 0 <= i < j < |th.todo| && th.todo[i].Allocate? ==> th.todo[j].Allocate?
  }

  ghost predicate AllAllocateLast(st: State) {
    forall t :: 0 <= t < |st.threads| ==> AllocatesLast(st.threads[t])
  }

  lemma AllocationsStayLast(e: Event, th: Thread, s: nat, slot: Slot)
    requires Guard(e, th, s, slot) && AllocatesLast(th)
    ensures AllocatesLast(NextThread(e, th, s, slot))
  {
  }

  lemma StepAllocatesLast(st: State, e: Event)
    requires AllAllocateLast(st) && Enabled(st, e)
    ensures AllAllocateLast(Apply(st, e))
  {
    if !e.Poll? {
      AllocationsStayLast(e, st.threads[e.t], Target(st, e), st.slots[Target(st, e)]);
    }
  }

  lemma {:induction false} RunAllocatesLast(st: State, es: seq<Event>)
    requires AllAllocateLast(st) && ValidRun(st, es)
    ensures AllAllocateLast(Final(st, es))
    decreases |es|
  {
    if es != [] {
      StepAllocatesLast(st, es[0]);
      RunAllocatesLast(Apply(st, es[0]), es[1..]);
    }
  }

  lemma InitAllocatesLast(init: State)
    requires Init(init)
    ensures AllAllocateLast(init)
  {
    forall t, i | 0 <= t < |init.threads| && 0 <= i < |init.threads[t].todo|
      ensures init.threads[t].todo[i].Allocate?
    {
      assert init.threads[t].todo[i] in init.threads[t].todo;
    }
  }

  lemma NothingHeldAtRest(st: State, t: nat)
    requires Safe(st) && AtRest(st) && t < |st.threads|
    ensures AllLocksFree(st) && st.threads[t].pc.Ready? && st.threads[t].draining.None?
  {
    if !AllLocksFree(st) {
      var e := HeldLockCanMoveOn(st);
      assert false;
    }
    NobodyIsLocked(st, t);
    if st.threads[t].draining.Some? {
      var e := DrainerCanMoveOn(st, t);
      assert false;
    }
  }

  /** When nothing but polling is left to do, no thread has anything left to do but allocations, and these only while no
      slot is free. */
  lemma RestLeavesOnlyAllocations(st: State, t: nat)
    requires Safe(st) && AllAllocateLast(st) && AtRest(st) && t < |st.threads|
    ensures forall i :: 0 <= i < |st.threads[t].todo| ==> st.threads[t].todo[i].Allocate?
    ensures st.threads[t].todo != [] ==> forall s :: 0 <= s < |st.slots| ==> !st.slots[s].status.UseLess?
  {
    NothingHeldAtRest(st, t);
    var th := st.threads[t];
    assert ThreadShape(th, |st.slots|) && AllocatesLast(th);
    if th.todo != [] {
      var a := th.todo[0];
      assert a in th.todo;
      var e := match a
               case Push(_, _) => Link(t)
               case Greet(_, _) => Link(t)
               case Close(_) => CloseSocket(t, None)
               case Post(_) => PostRead(t)
               case Allocate => AllocateSlot(t);
      assert !Works(st, e);
    }
  }

  /** At rest the callback has heard exactly what the clients' reads delivered, in order. */
  lemma RestMeansHeard(init: State, es: seq<Event>, s: nat, worker: nat)
    requires Init(init) && ValidRun(init, es) && SerialRun(init, es, s) && s < |init.slots|
    requires AtRest(Final(init, es))
    requires worker < |Final(init, es).threads| && Final(init, es).threads[worker].role.Worker?
    ensures s < |Final(init, es).slots| && Own(Final(init, es).slots[s].history.called) == Own(ReadOver(es, s))
  {
    var st := Final(init, es);
    ClientsAreHeardInOrder(init, es, s);
    InitIsSafe(init);
    RunKeepsSafe(init, es);
    InitAllocatesLast(init);
    RunAllocatesLast(init, es);
    forall t | 0 <= t < |st.threads| ensures Owed(st.threads[t], s) == [] {
      RestLeavesOnlyAllocations(st, t);
      NothingOutgoing(st.threads[t].todo);
    }
    NobodyOwes(st.threads, s);
    SettledAtRest(st, s, worker);
  }

  lemma SettledAtRest(st: State, s: nat, worker: nat)
    requires Safe(st) && AtRest(st) && s < |st.slots|
    requires worker < |st.threads| && st.threads[worker].role.Worker?
    ensures Own(st.slots[s].history.called) == Own(st.slots[s].history.pushed)
  {
    RestMeansDrained(st, worker);
    assert SchedulerSafety.Delivered(st, s);
    forall t | 0 <= t < |st.threads| ensures Weight(Draining(s), st.threads[t]) == 0 { NothingHeldAtRest(st, t); }
    SumZero(st.threads, Draining(s));
    var h := st.slots[s].history;
    assert h.taken + [] == h.taken;
    OwnIsRead(h.pushed);
  }
}
