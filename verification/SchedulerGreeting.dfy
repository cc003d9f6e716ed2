/** The Connect message comes first: no read of a client is posted before its Connect is pushed, so the callback hears
    of no message of a client before it hears of the client. */
module SchedulerGreeting {
  import opened Wire
  import opened Scheduler
  import opened SchedulerTokens
  import opened SchedulerSafety

  // ------------------------------------------------------------------- what is said

  /** A message from a client, or the end of one; errors are the server's own and may come at any time. */
  predicate FromClient(m: Msg) { m.kind.Read? && m.id != EMIR_ERROR && !IsConnect(m) }

  /** No message from a client stands before the first Connect. */
  ghost predicate ConnectFirst(msgs: seq<Msg>) {
    forall i :: 0 <= i < |msgs| && FromClient(msgs[i]) ==> Introduced(msgs, i)
  }

  ghost predicate Introduced(msgs: seq<Msg>, i: nat) {
    exists j :: 0 <= j < i && j < |msgs| && IsConnect(msgs[j])
  }

  lemma ConnectFirstPrefix(a: seq<Msg>, b: seq<Msg>)
    requires ConnectFirst(a + b)
    ensures ConnectFirst(a)
  {
    forall i | 0 <= i < |a| && FromClient(a[i]) ensures Introduced(a, i) {
      assert (a + b)[i] == a[i] && Introduced(a + b, i);
      var j :| 0 <= j < i && IsConnect((a + b)[j]);
      assert IsConnect(a[j]);
    }
  }

  lemma ConnectFirstAppend(msgs: seq<Msg>, m: Msg)
    requires ConnectFirst(msgs) && (FromClient(m) ==> exists j :: 0 <= j < |msgs| && IsConnect(msgs[j]))
    ensures ConnectFirst(msgs + [m])
  {
    var more := msgs + [m];
    forall i | 0 <= i < |more| && FromClient(more[i]) ensures Introduced(more, i) {
      if i < |msgs| {
        assert Introduced(msgs, i);
        var j :| 0 <= j < i && IsConnect(msgs[j]);
        assert IsConnect(more[j]);
      } else {
        var j :| 0 <= j < |msgs| && IsConnect(msgs[j]);
        assert IsConnect(more[j]);
      }
    }
  }

  // --------------------------------------------------------------- before the greeting

  /** A server message that is no part of a client's conversation. */
  predicate Prelude(m: Msg) { m.kind.Write? || m.id == EMIR_ERROR }

  predicate AboutSlot(a: Act, s: nat) { !a.Allocate? && a.slot == s }

  /** Nothing among these acts posts a read of the slot or sends a client's message before a Connect. */
  ghost predicate Reserved(acts: seq<Act>, s: nat) {
    forall i :: 0 <= i < |acts| && AboutSlot(acts[i], s) ==> Proper(acts, i)
  }

  ghost predicate Proper(acts: seq<Act>, i: nat)
    requires i < |acts|
  {
    match acts[i]
    case Push(_, m) => Prelude(m)
    case Greet(_, m) => IsConnect(m)
    case Post(s) => GreetsBefore(acts, s, i)
    case Close(_) => true
    case Allocate => true
  }

  ghost predicate GreetsBefore(acts: seq<Act>, s: nat, i: nat)
    requires i <= |acts|
  {
    exists j :: 0 <= j < i && IsGreet(acts[j], s)
  }

  predicate IsGreet(a: Act, s: nat) { a.Greet? && a.slot == s }

  predicate HandReserved(th: Thread, s: nat) {
    th.draining == Some(s) && !th.hand.Empty? ==> Prelude(th.hand.msg)
  }

  /** No client has been greeted on the slot yet, no read is outstanding, and nothing that is under way can make the
      callback hear of a client before its Connect; the socket is open only while a greeting is pending. */
  ghost predicate Ungreeted(st: State, s: nat)
    requires s < |st.slots|
  {
    && st.slots[s].reading == 0 && (st.slots[s].open ==> GreetPending(st, s))
    && (forall m :: m in st.slots[s].mailbox ==> Prelude(m))
    && forall t :: 0 <= t < |st.threads| ==> Reserved(st.threads[t].todo, s) && HandReserved(st.threads[t], s)
  }

  // ------------------------------------------------------------------------ each step

  lemma TailIsReserved(acts: seq<Act>, s: nat)
    requires Reserved(acts, s) && acts != [] && !IsGreet(acts[0], s)
    ensures Reserved(acts[1..], s)
  {
    var rest := acts[1..];
    forall i | 0 <= i < |rest| && AboutSlot(rest[i], s) ensures Proper(rest, i) {
      assert rest[i] == acts[i + 1] && Proper(acts, i + 1);
      if rest[i].Post? {
        var j :| 0 <= j < i + 1 && IsGreet(acts[j], s);
        assert IsGreet(rest[j - 1], s);
      }
    }
  }

  lemma PrefixIsReserved(prefix: seq<Act>, acts: seq<Act>, s: nat)
    requires Reserved(prefix, s) && Reserved(acts, s)
    ensures Reserved(prefix + acts, s)
  {
    var all := prefix + acts;
    forall i | 0 <= i < |all| && AboutSlot(all[i], s) ensures Proper(all, i) {
      if i < |prefix| {
        assert Proper(prefix, i);
        if all[i].Post? {
          var j :| 0 <= j < i && IsGreet(prefix[j], s);
          assert IsGreet(all[j], s);
        }
      } else {
        var k := i - |prefix|;
        assert Proper(acts, k);
        if all[i].Post? {
          var j :| 0 <= j < k && IsGreet(acts[j], s);
          assert IsGreet(all[|prefix| + j], s);
        }
      }
    }
  }

  lemma PushesAreReserved(s: nat, msgs: seq<Msg>, u: nat)
    requires u == s ==> forall m :: m in msgs ==> Prelude(m)
    ensures Reserved(Pushes(s, msgs), u)
  {
  }

  lemma GreetingIsReserved(s: nat, failures: seq<Msg>, endpoint: seq<Byte>, u: nat)
    requires forall m :: m in failures ==> Prelude(m)
    ensures Reserved(Pushes(s, failures) + [Greet(s, ConnectMsg(endpoint)), Post(s), Allocate], u)
  {
    var tail := [Greet(s, ConnectMsg(endpoint)), Post(s), Allocate];
    PushesAreReserved(s, failures, u);
    assert IsGreet(tail[0], s);
    PrefixIsReserved(Pushes(s, failures), tail, u);
  }

  /** Work on a slot other than `u` says nothing about `u`. */
  lemma ElsewhereIsReserved(acts: seq<Act>, u: nat)
    requires forall a :: a in acts ==> !AboutSlot(a, u)
    ensures Reserved(acts, u)
  {
  }

  lemma NewWorkIsReserved(e: Event, th: Thread, s: nat, slot: Slot, u: nat)
    requires Guard(e, th, s, slot) && (External(e) || e.Call? || e.WriteSocket?)
    requires u == s ==> slot.reading == 0
    ensures Reserved(NextThread(e, th, s, slot).todo, u)
  {
    var todo := NextThread(e, th, s, slot).todo;
    match e {
      case AcceptOk(_, _, errors, endpoint) => GreetingIsReserved(s, Errors(errors), endpoint, u);
      case ReadOk(_, _, _, _) => ElsewhereIsReserved(todo, u);
      case Call(_, replies) => PushesAreReserved(s, replies, u);
      case _ =>
    }
  }

  lemma CloseIsReserved(e: Event, th: Thread, s: nat, slot: Slot, u: nat)
    requires Guard(e, th, s, slot) && e.CloseSocket? && Reserved(th.todo, u) && (u == s ==> !slot.open)
    ensures Reserved(NextThread(e, th, s, slot).todo, u)
  {
    TailIsReserved(th.todo, u);
    if slot.open {
      var goodbye := Failure(s, e.error) + [Push(s, DisconnectMsg())];
      ElsewhereIsReserved(goodbye, u);
      PrefixIsReserved(goodbye, th.todo[1..], u);
      assert Failure(s, e.error) + ([Push(s, DisconnectMsg())] + th.todo[1..]) == goodbye + th.todo[1..];
    }
  }

  /** The step greets the client of the slot. */
  predicate GreetsNow(e: Event, th: Thread, u: nat) { e.Link? && th.todo != [] && IsGreet(th.todo[0], u) }

  lemma ThreadStaysReserved(e: Event, th: Thread, s: nat, slot: Slot, u: nat)
    requires Guard(e, th, s, slot) && Reserved(th.todo, u) && !GreetsNow(e, th, u)
    requires u == s ==> slot.reading == 0 && !(e.CloseSocket? && slot.open)
    ensures Reserved(NextThread(e, th, s, slot).todo, u)
  {
    if External(e) || e.Call? || e.WriteSocket? {
      NewWorkIsReserved(e, th, s, slot, u);
    } else if e.CloseSocket? {
      CloseIsReserved(e, th, s, slot, u);
    } else if e.Link? || e.PostRead? || e.AllocateSlot? {
      TailIsReserved(th.todo, u);
    }
  }

  lemma HandStaysReserved(e: Event, th: Thread, s: nat, slot: Slot, u: nat)
    requires Guard(e, th, s, slot) && HandReserved(th, u) && (!th.hand.Empty? ==> th.draining.Some?)
    requires u == s ==> forall m :: m in slot.mailbox ==> Prelude(m)
    ensures HandReserved(NextThread(e, th, s, slot), u)
  {
  }

  /** What the step makes of the slot it is about. */
  lemma SlotStaysUngreeted(e: Event, th: Thread, s: nat, slot: Slot)
    requires Guard(e, th, s, slot) && slot.reading == 0 && (forall m :: m in slot.mailbox ==> Prelude(m))
    requires Reserved(th.todo, s) && !GreetsNow(e, th, s)
    ensures var slot' := NextSlot(e, th, s, slot);
      && slot'.reading == 0 && (forall m :: m in slot'.mailbox ==> Prelude(m))
      && (slot'.open ==> slot.open || e.AcceptOk?)
      && (slot'.history.pushed == slot.history.pushed
          || exists m :: Prelude(m) && slot'.history.pushed == slot.history.pushed + [m])
  {
    if e.Link? || e.PostRead? {
      assert AboutSlot(th.todo[0], s) && Proper(th.todo, 0);
    }
  }

  lemma HeadOrTail(acts: seq<Act>, a: Act)
    requires a in acts && a != acts[0]
    ensures a in acts[1..]
  {
    var i :| 0 <= i < |acts| && acts[i] == a;
    assert acts[1..][i - 1] == a;
  }

  lemma GreetStaysPending(e: Event, th: Thread, s: nat, slot: Slot, u: nat)
    requires Guard(e, th, s, slot) && Greets(th, u) && !GreetsNow(e, th, u)
    ensures Greets(NextThread(e, th, s, slot), u)
  {
    var a :| a in th.todo && a.Greet? && a.slot == u;
    if e.Link? || e.CloseSocket? || e.PostRead? || e.AllocateSlot? {
      HeadOrTail(th.todo, a);
      assert a in NextThread(e, th, s, slot).todo;
    }
  }

  lemma OpenStaysGreeting(st: State, e: Event, s: nat)
    requires Enabled(st, e) && !e.Poll? && s < |st.slots| && !GreetsNow(e, st.threads[e.t], s)
    requires GreetPending(st, s) || (e.AcceptOk? && Target(st, e) == s)
    ensures GreetPending(Apply(st, e), s)
  {
    var st' := Apply(st, e);
    var th' := NextThread(e, st.threads[e.t], Target(st, e), st.slots[Target(st, e)]);
    assert st'.threads[e.t] == th';
    if GreetPending(st, s) {
      var t :| 0 <= t < |st.threads| && Greets(st.threads[t], s);
      if t == e.t { GreetStaysPending(e, st.threads[t], Target(st, e), st.slots[Target(st, e)], s); }
      assert Greets(st'.threads[t], s);
    } else {
      assert Greet(s, ConnectMsg(e.endpoint)) in th'.todo;
      assert Greets(st'.threads[e.t], s);
    }
  }

  /** A timely step that does not greet the client of the slot leaves the slot ungreeted. */
  lemma StepKeepsUngreeted(st: State, e: Event, s: nat)
    requires Shapes(st) && s < |st.slots| && Ungreeted(st, s) && Enabled(st, e) && !e.Poll? && Timely(st, e)
    requires !GreetsNow(e, st.threads[e.t], s)
    ensures |Apply(st, e).slots| == |st.slots| && Ungreeted(Apply(st, e), s)
  {
    var th, u, st' := st.threads[e.t], Target(st, e), Apply(st, e);
    assert ThreadShape(th, |st.slots|) && Reserved(th.todo, s) && HandReserved(th, s);
    ThreadStaysReserved(e, th, u, st.slots[u], s);
    HandStaysReserved(e, th, u, st.slots[u], s);
    if u == s { SlotStaysUngreeted(e, th, s, st.slots[s]); }
    if st'.slots[s].open { OpenStaysGreeting(st, e, s); }
  }

  predicate Greeted(msgs: seq<Msg>) { exists j :: 0 <= j < |msgs| && IsConnect(msgs[j]) }

  lemma GreetedStays(msgs: seq<Msg>, m: Msg)
    requires Greeted(msgs) || IsConnect(m)
    ensures Greeted(msgs + [m])
  {
    if Greeted(msgs) {
      var j :| 0 <= j < |msgs| && IsConnect(msgs[j]);
      assert IsConnect((msgs + [m])[j]);
    } else {
      assert IsConnect((msgs + [m])[|msgs|]);
    }
  }

  lemma SlotAppendsOne(e: Event, th: Thread, s: nat, slot: Slot)
    requires Guard(e, th, s, slot)
    ensures NextSlot(e, th, s, slot).history.pushed == slot.history.pushed + if e.Link? then [th.todo[0].msg] else []
  {
  }

  /** What a step pushes onto the slot, if anything. */
  function PushedNow(st: State, e: Event, s: nat): seq<Msg>
    requires Enabled(st, e)
  {
    if e.Link? && Target(st, e) == s then [st.threads[e.t].todo[0].msg] else []
  }

  lemma StepPushes(st: State, e: Event, s: nat)
    requires Enabled(st, e) && s < |st.slots|
    ensures |Apply(st, e).slots| == |st.slots|
    ensures Apply(st, e).slots[s].history.pushed == st.slots[s].history.pushed + PushedNow(st, e, s)
  {
    if !e.Poll? && Target(st, e) == s { SlotAppendsOne(e, st.threads[e.t], s, st.slots[s]); }
  }

  /** The first message of a client's conversation that is pushed is its Connect. */
  lemma StepConnectsFirst(st: State, e: Event, s: nat, since: seq<Msg>)
    requires Shapes(st) && s < |st.slots| && Enabled(st, e) && Timely(st, e)
    requires ConnectFirst(since) && (Greeted(since) || Ungreeted(st, s))
    ensures |Apply(st, e).slots| == |st.slots|
    ensures var more := since + PushedNow(st, e, s);
      ConnectFirst(more) && (Greeted(more) || Ungreeted(Apply(st, e), s))
  {
    var now := PushedNow(st, e, s);
    if now == [] {
      assert since + now == since;
    } else {
      var th := st.threads[e.t];
      if !Greeted(since) {
        assert AboutSlot(th.todo[0], s) && Reserved(th.todo, s) && Proper(th.todo, 0);
      }
      ConnectFirstAppend(since, now[0]);
      if Greeted(since) || IsConnect(now[0]) { GreetedStays(since, now[0]); }
      assert now == [now[0]];
    }
    if !Greeted(since + now) && !e.Poll? {
      StepKeepsUngreeted(st, e, s);
    }
  }

  // ------------------------------------------------------------------------ every run

  lemma Regroup<T>(a: seq<T>, b: seq<T>, c: seq<T>)
    ensures (a + b) + c == a + (b + c)
  {
  }

  lemma {:induction false} RunConnectsFirst(st: State, es: seq<Event>, s: nat, since: seq<Msg>)
      returns (more: seq<Msg>)
    requires Safe(st) && s < |st.slots| && ValidRun(st, es) && TimelyRun(st, es)
    requires ConnectFirst(since) && (Greeted(since) || Ungreeted(st, s))
    ensures Safe(Final(st, es)) && |Final(st, es).slots| == |st.slots|
    ensures Final(st, es).slots[s].history.pushed == st.slots[s].history.pushed + more
    ensures ConnectFirst(since + more) && (Greeted(since + more) || Ungreeted(Final(st, es), s))
    decreases |es|
  {
    if es == [] {
      more := [];
      assert since + [] == since;
    } else {
      var now := PushedNow(st, es[0], s);
      StepKeepsSafe(st, es[0]);
      StepPushes(st, es[0], s);
      StepConnectsFirst(st, es[0], s, since);
      var later := RunConnectsFirst(Apply(st, es[0]), es[1..], s, since + now);
      more := now + later;
      Regroup(since, now, later);
      Regroup(st.slots[s].history.pushed, now, later);
    }
  }

  lemma OneReadMore(a: seq<Msg>, front: seq<Msg>, m: Msg)
    requires Reads(a + front) == Reads(a) + Reads(front)
    ensures Reads((a + front) + [m]) == Reads(a) + Reads(front + [m])
  {
    ReadsAppend(a + front, m);
    ReadsAppend(front, m);
    Regroup(Reads(a), Reads(front), [m]);
  }

  lemma {:induction false} ReadsConcat(a: seq<Msg>, b: seq<Msg>)
    ensures Reads(a + b) == Reads(a) + Reads(b)
    decreases |b|
  {
    if b == [] {
      assert a + b == a;
    } else {
      var front, m := b[..|b| - 1], b[|b| - 1];
      ReadsConcat(a, front);
      OneReadMore(a, front, m);
      assert a + b == (a + front) + [m] && b == front + [m];
    }
  }

  lemma {:induction false} ReadsConnectFirst(msgs: seq<Msg>)
    requires ConnectFirst(msgs)
    ensures ConnectFirst(Reads(msgs)) && (Greeted(msgs) ==> Greeted(Reads(msgs)))
  {
    if msgs != [] {
      var front, m := msgs[..|msgs| - 1], msgs[|msgs| - 1];
      assert msgs == front + [m];
      ConnectFirstPrefix(front, [m]);
      ReadsConnectFirst(front);
      ReadsAppend(front, m);
      LastIsIntroduced(front, m);
      if m.kind.Read? {
        ConnectFirstAppend(Reads(front), m);
        if Greeted(front) || IsConnect(m) { GreetedStays(Reads(front), m); }
      }
    }
  }

  lemma LastIsIntroduced(front: seq<Msg>, m: Msg)
    requires ConnectFirst(front + [m])
    ensures FromClient(m) ==> Greeted(front)
    ensures Greeted(front + [m]) ==> Greeted(front) || IsConnect(m)
  {
    var all := front + [m];
    if FromClient(m) {
      assert all[|front|] == m && Introduced(all, |front|);
      var j :| 0 <= j < |front| && IsConnect(all[j]);
      assert IsConnect(front[j]);
    }
    if Greeted(all) && !IsConnect(m) {
      var j :| 0 <= j < |all| && IsConnect(all[j]);
      assert IsConnect(front[j]);
    }
  }

  /** The callback is called with a prefix of the Reads pushed. */
  lemma CalledIsPrefix(st: State, s: nat) returns (rest: seq<Msg>)
    requires Safe(st) && s < |st.slots|
    ensures Reads(st.slots[s].history.pushed) == st.slots[s].history.called + rest
  {
    var h := st.slots[s].history;
    var uncalled := [];
    assert Delivered(st, s);
    if Sum(st.threads, Draining(s)) > 0 {
      var t := SumWitness(st.threads, Draining(s));
      assert HandAgrees(st.threads[t], h);
      uncalled := Uncalled(st.threads[t].hand);
    }
    assert Reads(h.taken) == h.called + uncalled;
    ReadsConcat(h.taken, st.slots[s].mailbox);
    Regroup(h.called, uncalled, Reads(st.slots[s].mailbox));
    rest := uncalled + Reads(st.slots[s].mailbox);
  }

  lemma SlotCalls(e: Event, th: Thread, s: nat, slot: Slot)
    requires Guard(e, th, s, slot)
    ensures slot.history.called <= NextSlot(e, th, s, slot).history.called
  {
  }

  lemma {:induction false} CalledGrows(st: State, es: seq<Event>, s: nat)
    requires ValidRun(st, es) && s < |st.slots|
    ensures |Final(st, es).slots| == |st.slots|
    ensures st.slots[s].history.called <= Final(st, es).slots[s].history.called
    decreases |es|
  {
    if es != [] {
      if !es[0].Poll? {
        SlotCalls(es[0], st.threads[es[0].t], Target(st, es[0]), st.slots[Target(st, es[0])]);
      }
      CalledGrows(Apply(st, es[0]), es[1..], s);
    }
  }

  /** From a state in which nothing of the slot is outstanding, over every timely run: neither what is pushed nor what
      the callback is called with has a client's message before the Connect, and until that Connect no read is
      outstanding. */
  lemma ConnectComesFirst(st: State, es: seq<Event>, s: nat)
    requires Safe(st) && s < |st.slots| && ValidRun(st, es) && TimelyRun(st, es)
    requires Ungreeted(st, s) && st.slots[s].history.called == Reads(st.slots[s].history.pushed)
    ensures |Final(st, es).slots| == |st.slots|
    ensures var h, h' := st.slots[s].history, Final(st, es).slots[s].history;
      && h.pushed <= h'.pushed && ConnectFirst(h'.pushed[|h.pushed|..])
      && h.called <= h'.called && ConnectFirst(h'.called[|h.called|..])
      && (Greeted(h'.pushed[|h.pushed|..]) || Final(st, es).slots[s].reading == 0)
  {
    var since := RunConnectsFirst(st, es, s, []);
    assert [] + since == since;
    CalledGrows(st, es, s);
    var rest := CalledIsPrefix(Final(st, es), s);
    CallsFollowPushes(st.slots[s].history, Final(st, es).slots[s].history, since, rest);
  }

  lemma CallsFollowPushes(h: History, h': History, since: seq<Msg>, rest: seq<Msg>)
    requires h.called == Reads(h.pushed) && h.called <= h'.called && h'.pushed == h.pushed + since
    requires Reads(h'.pushed) == h'.called + rest && ConnectFirst(since)
    ensures h'.pushed[|h.pushed|..] == since && ConnectFirst(h'.called[|h.called|..])
  {
    var calls := h'.called[|h.called|..];
    assert h'.called == h.called + calls;
    ReadsConcat(h.pushed, since);
    ReadsConnectFirst(since);
    SamePrefix(h.called, calls, rest, Reads(since));
    ConnectFirstPrefix(calls, rest);
  }

  lemma SamePrefix(a: seq<Msg>, calls: seq<Msg>, rest: seq<Msg>, all: seq<Msg>)
    requires (a + calls) + rest == a + all
    ensures calls + rest == all
  {
    assert (a + calls) + rest == a + (calls + rest);
    assert (a + (calls + rest))[|a|..] == calls + rest && (a + all)[|a|..] == all;
  }

  /** A slot of which nothing is outstanding: no read, no message, nothing that a thread has to do for it. */
  ghost predicate NothingOutstanding(st: State, s: nat)
    requires s < |st.slots|
  {
    && st.slots[s].reading == 0 && !st.slots[s].open && st.slots[s].mailbox == []
    && forall t :: 0 <= t < |st.threads| ==>
         st.threads[t].draining != Some(s) && forall a :: a in st.threads[t].todo ==> !AboutSlot(a, s)
  }

  /** So the theorem holds for every life of a slot that starts with nothing outstanding. */
  lemma NothingOutstandingIsUngreeted(st: State, s: nat)
    requires Safe(st) && s < |st.slots| && NothingOutstanding(st, s)
    ensures Ungreeted(st, s) && st.slots[s].history.called == Reads(st.slots[s].history.pushed)
  {
    forall t | 0 <= t < |st.threads| ensures Reserved(st.threads[t].todo, s) && HandReserved(st.threads[t], s) {
      ElsewhereIsReserved(st.threads[t].todo, s);
    }
    SumZero(st.threads, Draining(s));
    assert Delivered(st, s);
    var h := st.slots[s].history;
    assert h.taken + [] == h.taken;
  }

  /** The first client of every slot is introduced before anything of it is heard. */
  lemma FirstClientIsIntroduced(init: State, es: seq<Event>, s: nat)
    requires Init(init) && ValidRun(init, es) && TimelyRun(init, es) && s < |init.slots|
    ensures s < |Final(init, es).slots|
    ensures var slot := Final(init, es).slots[s];
      && ConnectFirst(slot.history.pushed) && ConnectFirst(slot.history.called)
      && (Greeted(slot.history.pushed) || slot.reading == 0)
  {
    InitIsSafe(init);
    InitIsUngreeted(init, s);
    ConnectComesFirst(init, es, s);
    var h := Final(init, es).slots[s].history;
    assert h.pushed[0..] == h.pushed && h.called[0..] == h.called;
  }

  lemma InitIsUngreeted(init: State, s: nat)
    requires Init(init) && s < |init.slots|
    ensures Ungreeted(init, s) && init.slots[s].history.called == Reads(init.slots[s].history.pushed)
  {
    forall t | 0 <= t < |init.threads| ensures Reserved(init.threads[t].todo, s) && HandReserved(init.threads[t], s) {
      var todo := init.threads[t].todo;
      assert forall i :: 0 <= i < |todo| ==> todo[i] in todo;
    }
  }
}
