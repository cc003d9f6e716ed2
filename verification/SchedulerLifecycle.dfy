/** The life of a connection slot as the callback sees it. */
module SchedulerLifecycle {
  import opened Wire
  import opened Scheduler
  import opened SchedulerTokens
  import opened SchedulerSafety
  import opened SchedulerRecycling
  import Alternation

  /** The connects (true) and disconnects (false) among some messages. */
  function Edges(msgs: seq<Msg>): seq<bool> {
    if msgs == [] then []
    else
      var m := msgs[|msgs| - 1];
      Edges(msgs[..|msgs| - 1]) + if IsConnect(m) then [true] else if IsDisconnect(m) then [false] else []
  }

  /** 0 if the messages alternate Connect, Disconnect, ... and end disconnected, 1 if they alternate and end
      connected, -1 if they do not alternate. */
  function Phase(msgs: seq<Msg>): int {
    Alternation.Phase(Edges(msgs))
  }

  lemma PhaseAppend(msgs: seq<Msg>, m: Msg)
    ensures Phase(msgs + [m]) ==
      if IsConnect(m) then if Phase(msgs) == 0 then 1 else -1
      else if IsDisconnect(m) then if Phase(msgs) == 1 then 0 else -1
      else Phase(msgs)
  {
    assert (msgs + [m])[..|msgs|] == msgs;
    if IsConnect(m) || IsDisconnect(m) {
      Alternation.PhaseAppend(Edges(msgs), IsConnect(m));
    } else {
      assert Edges(msgs) + [] == Edges(msgs);
    }
  }

  /** At most one Connect is to come, and only while the socket is open; what was pushed alternates and says so. */
  ghost predicate InOrder(st: State, s: nat)
    requires s < |st.slots|
  {
    && Sum(st.threads, Opening(s)) <= B(st.slots[s].open)
    && Phase(st.slots[s].history.pushed) == Live(st, s) - Sum(st.threads, Opening(s))
  }

  /** Only a completed accept pushes a Connect message. */
  predicate Honest(th: Thread) {
    forall a :: a in th.todo && Sends(a) ==> (a.Greet? <==> IsConnect(a.msg))
  }

  ghost predicate Orderly(st: State) {
    && Lives(st)
    && (forall s :: 0 <= s < |st.slots| ==> InOrder(st, s))
    && forall t :: 0 <= t < |st.threads| ==> Honest(st.threads[t])
  }

  // -------------------------------------------------------------- each step

  lemma ThreadStaysHonest(e: Event, th: Thread, s: nat, slot: Slot)
    requires Guard(e, th, s, slot) && WireOk(e) && Honest(th)
    ensures Honest(NextThread(e, th, s, slot))
  {
  }

  lemma {:induction false} GreetCounts(acts: seq<Act>, s: nat)
    requires Pending(acts, s, EMIR_CONNECT) > 0
    requires forall a :: a in acts && Sends(a) ==> (a.Greet? <==> IsConnect(a.msg))
    ensures exists a :: a in acts && a.Greet? && a.slot == s
  {
    if !(Sends(acts[0]) && acts[0].slot == s && IsConnect(acts[0].msg)) {
      GreetCounts(acts[1..], s);
    } else {
      assert acts[0] in acts;
    }
  }

  lemma OpeningMeansGreet(st: State, s: nat)
    requires Orderly(st) && Sum(st.threads, Opening(s)) > 0
    ensures GreetPending(st, s)
  {
    var t := SumWitness(st.threads, Opening(s));
    assert Honest(st.threads[t]);
    GreetCounts(st.threads[t].todo, s);
    assert Greets(st.threads[t], s);
  }

  /** No Connect message is pending for a slot that a timely step closes. */
  lemma TimelyCloseFindsNoGreet(st: State, e: Event)
    requires Orderly(st) && Enabled(st, e) && Timely(st, e) && e.CloseSocket? && st.slots[Target(st, e)].open
    ensures Sum(st.threads, Opening(Target(st, e))) == 0
  {
    if Sum(st.threads, Opening(Target(st, e))) > 0 {
      OpeningMeansGreet(st, Target(st, e));
      assert false;
    }
  }

  lemma NoConnects(acts: seq<Act>, s: nat)
    requires forall a :: a in acts && Sends(a) ==> !IsConnect(a.msg)
    ensures Pending(acts, s, EMIR_CONNECT) == 0
  {
    PendingNone(acts, s, EMIR_CONNECT);
  }

  lemma PendingGreeting(s: nat, failures: seq<Msg>, endpoint: seq<Byte>)
    requires forall m :: m in failures ==> !IsConnect(m)
    ensures Pending(Pushes(s, failures) + [Greet(s, ConnectMsg(endpoint)), Post(s), Allocate], s, EMIR_CONNECT) == 1
  {
    var tail := [Greet(s, ConnectMsg(endpoint)), Post(s), Allocate];
    PendingConcat(Pushes(s, failures), tail, s, EMIR_CONNECT);
    NoConnects(Pushes(s, failures), s);
    NoConnects([Post(s), Allocate], s);
    assert tail == [Greet(s, ConnectMsg(endpoint))] + [Post(s), Allocate];
    PendingCons(Greet(s, ConnectMsg(endpoint)), [Post(s), Allocate], s, EMIR_CONNECT);
  }

  lemma NewWorkConnects(e: Event, th: Thread, s: nat, slot: Slot)
    requires Guard(e, th, s, slot) && WireOk(e) && (External(e) || e.Call? || e.WriteSocket?)
    ensures Pending(NextThread(e, th, s, slot).todo, s, EMIR_CONNECT) == B(e.AcceptOk?) && th.todo == []
  {
    var todo := NextThread(e, th, s, slot).todo;
    match e {
      case AcceptOk(_, _, errors, endpoint) => PendingGreeting(s, Errors(errors), endpoint);
      case ReadOk(_, _, msgs, tooBig) => NoConnects(ParseActs(s, msgs, tooBig), s);
      case _ => NoConnects(todo, s);
    }
  }

  /** The pending Connects of the thread, event by event. */
  lemma ConnectsMove(e: Event, th: Thread, s: nat, slot: Slot)
    requires Guard(e, th, s, slot) && WireOk(e)
    ensures Weight(Opening(s), NextThread(e, th, s, slot)) + B(e.Link? && IsConnect(th.todo[0].msg))
            == Weight(Opening(s), th) + B(e.AcceptOk?)
  {
    if External(e) || e.Call? || e.WriteSocket? {
      NewWorkConnects(e, th, s, slot);
    } else if e.CloseSocket? {
      PendingClose(s, e.error, th.todo[1..], EMIR_CONNECT);
    }
  }

  lemma OpeningMoves(st: State, e: Event)
    requires Enabled(st, e) && !e.Poll? && WireOk(e)
    ensures var s := Target(st, e); var th := st.threads[e.t];
      Sum(Apply(st, e).threads, Opening(s)) + B(e.Link? && IsConnect(th.todo[0].msg))
      == Sum(st.threads, Opening(s)) + B(e.AcceptOk?)
  {
    var s := Target(st, e);
    SumMoves(st, e, Opening(s));
    ConnectsMove(e, st.threads[e.t], s, st.slots[s]);
  }

  lemma TargetKeepsOpening(st: State, e: Event)
    requires Orderly(st) && Enabled(st, e) && !e.Poll? && WireOk(e) && Timely(st, e)
    ensures Sum(Apply(st, e).threads, Opening(Target(st, e))) <= B(Apply(st, e).slots[Target(st, e)].open)
  {
    var s := Target(st, e);
    assert InOrder(st, s);
    NothingTwice(st, e);
    FlagsMove(e, st.threads[e.t], s, st.slots[s]);
    OpeningMoves(st, e);
    if e.CloseSocket? && st.slots[s].open { TimelyCloseFindsNoGreet(st, e); }
  }

  lemma TargetKeepsPhase(st: State, e: Event)
    requires Orderly(st) && Enabled(st, e) && !e.Poll? && WireOk(e)
    ensures var s := Target(st, e); var st' := Apply(st, e);
      Phase(st'.slots[s].history.pushed) == Live(st', s) - Sum(st'.threads, Opening(s))
  {
    var s := Target(st, e);
    assert InOrder(st, s) && OneLife(st, s);
    OpeningMoves(st, e);
    LiveMoves(st, e);
    SumAtLeast(st.threads, e.t, Opening(s));
    SumAtLeast(st.threads, e.t, Closing(s));
    PhaseMoves(e, st.threads[e.t], s, st.slots[s]);
  }

  lemma PhaseMoves(e: Event, th: Thread, s: nat, slot: Slot)
    requires Guard(e, th, s, slot)
    ensures var phase := Phase(slot.history.pushed);
      Phase(NextSlot(e, th, s, slot).history.pushed) ==
        if e.Link? && IsConnect(th.todo[0].msg) then if phase == 0 then 1 else -1
        else if e.Link? && IsDisconnect(th.todo[0].msg) then if phase == 1 then 0 else -1
        else phase
  {
    if e.Link? { PhaseAppend(slot.history.pushed, th.todo[0].msg); }
  }

  lemma OthersStayInOrder(st: State, e: Event, u: nat)
    requires Orderly(st) && Enabled(st, e) && !e.Poll? && u < |st.slots| && u != Target(st, e)
    ensures InOrder(Apply(st, e), u)
  {
    assert InOrder(st, u);
    SumStays(st, e, Opening(u));
    SumStays(st, e, Closing(u));
  }

  lemma StepKeepsOrderly(st: State, e: Event)
    requires Safe(st) && Orderly(st) && Enabled(st, e) && WireOk(e) && Timely(st, e)
    ensures Orderly(Apply(st, e))
  {
    StepKeepsLives(st, e);
    if !e.Poll? {
      forall u | 0 <= u < |st.slots|
        ensures InOrder(Apply(st, e), u)
      {
        if u == Target(st, e) {
          TargetKeepsOpening(st, e);
          TargetKeepsPhase(st, e);
        } else {
          OthersStayInOrder(st, e, u);
        }
      }
      ThreadStaysHonest(e, st.threads[e.t], Target(st, e), st.slots[Target(st, e)]);
    }
  }

  // ---------------------------------------------------------------- every run

  /** Reachable by a run in which the wire never forges a Connect or Disconnect id, and no socket is closed before
      its Connect message is pushed. */
  ghost predicate HonestlyReachable(st: State) {
    exists init, es {:trigger ValidRun(init, es)} ::
      Init(init) && ValidRun(init, es) && TimelyRun(init, es) && (forall e :: e in es ==> WireOk(e))
      && Final(init, es) == st
  }

  lemma {:induction false} RunKeepsOrderly(st: State, es: seq<Event>)
    requires Safe(st) && Orderly(st) && ValidRun(st, es) && TimelyRun(st, es) && forall e :: e in es ==> WireOk(e)
    ensures Safe(Final(st, es)) && Orderly(Final(st, es))
    decreases |es|
  {
    if es != [] {
      assert es[0] in es;
      StepKeepsSafe(st, es[0]);
      StepKeepsOrderly(st, es[0]);
      RunKeepsOrderly(Apply(st, es[0]), es[1..]);
    }
  }

  lemma InitIsOrderly(st: State)
    requires Init(st)
    ensures Orderly(st)
  {
    InitLives(st);
    forall s | 0 <= s < |st.slots|
      ensures InOrder(st, s)
    {
      forall t | 0 <= t < |st.threads|
        ensures Weight(Opening(s), st.threads[t]) == 0 == Weight(Closing(s), st.threads[t])
      {
        NoConnects(st.threads[t].todo, s);
        NoDisconnects(st.threads[t].todo, s);
      }
      SumZero(st.threads, Opening(s));
      SumZero(st.threads, Closing(s));
    }
  }

  lemma HonestlyReachableIsOrderly(st: State)
    requires HonestlyReachable(st)
    ensures Safe(st) && Orderly(st)
  {
    var init, es :| Init(init) && ValidRun(init, es) && TimelyRun(init, es) && (forall e :: e in es ==> WireOk(e))
                    && Final(init, es) == st;
    InitIsSafe(init);
    InitIsOrderly(init);
    RunKeepsOrderly(init, es);
  }

  // ------------------------------------------------------- what the callback sees

  lemma {:induction false} PrefixAlternates(msgs: seq<Msg>, rest: seq<Msg>)
    requires Phase(msgs + rest) >= 0
    ensures Phase(msgs) >= 0
    decreases |rest|
  {
    if rest == [] {
      assert msgs + rest == msgs;
    } else {
      var front := rest[..|rest| - 1];
      assert msgs + rest == (msgs + front) + [rest[|rest| - 1]];
      PhaseAppend(msgs + front, rest[|rest| - 1]);
      PrefixAlternates(msgs, front);
    }
  }

  lemma {:induction false} ReadsKeepPhase(msgs: seq<Msg>)
    ensures Phase(Reads(msgs)) == Phase(msgs)
  {
    if msgs != [] {
      var m := msgs[|msgs| - 1];
      var front := msgs[..|msgs| - 1];
      ReadsKeepPhase(front);
      PhaseAppend(Reads(front), m);
      assert msgs == front + [m];
      PhaseAppend(front, m);
    }
  }

  /** Per slot, however the threads are scheduled, the callback sees Connect, Disconnect, Connect, Disconnect, ... */
  lemma CallbackSeesAlternation(st: State, s: nat)
    requires HonestlyReachable(st) && s < |st.slots|
    ensures Alternation.Alternates(Edges(st.slots[s].history.called))
  {
    HonestlyReachableIsOrderly(st);
    assert InOrder(st, s) && OneLife(st, s) && Delivered(st, s);
    var h := st.slots[s].history;
    PrefixAlternates(h.taken, st.slots[s].mailbox);
    ReadsKeepPhase(h.taken);
    if Sum(st.threads, Draining(s)) > 0 {
      var t := SumWitness(st.threads, Draining(s));
      assert HandAgrees(st.threads[t], h);
      PrefixAlternates(h.called, Uncalled(st.threads[t].hand));
    }
    Alternation.PhaseMeansAlternates(Edges(h.called));
  }

  /** When a slot is freed the callback has seen the Disconnect of its last client. */
  lemma FreedAfterDisconnect(st: State, e: Event, s: nat)
    requires HonestlyReachable(st) && Enabled(st, e) && s < |st.slots|
    requires st.slots[s].status != UseLess && Apply(st, e).slots[s].status == UseLess
    ensures Alternation.Alternates(Edges(st.slots[s].history.called)) && |Edges(st.slots[s].history.called)| % 2 == 0
  {
    HonestlyReachableIsOrderly(st);
    HonestIsReachable(st);
    OnlyDrainedSlotsAreFreed(st, e, s);
    assert InOrder(st, s) && OneLife(st, s);
    var h := st.slots[s].history;
    ReadsKeepPhase(h.pushed);
    Alternation.PhaseMeansAlternates(Edges(h.called));
  }

  lemma HonestIsReachable(st: State)
    requires HonestlyReachable(st)
    ensures Reachable(st)
  {
  }
}
