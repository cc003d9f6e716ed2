/** Which wire ids the lifecycle tolerates.  `_parse_msg` passes any id on, so a message from the wire whose id is
    that of a Connect or Disconnect is taken for one; the callback sees the lifecycle alternate in every run exactly
    if the wire never carries these two ids. */
module SchedulerForged {
  import opened Wire
  import opened Scheduler
  import opened SchedulerSafety
  import opened SchedulerRecycling
  import opened SchedulerLifecycle
  import opened SchedulerDrain
  import opened SchedulerDisorder
  import opened SchedulerCalls
  import opened SchedulerScenario
  import Alternation

  function Forged(id: U16): Msg { Msg(Read, id, []) }

  ghost predicate ReachableFrom(st: State, allowed: set<U16>) {
    exists init, es {:trigger ValidRun(init, es)} ::
      Init(init) && ValidRun(init, es) && TimelyRun(init, es) && (forall e :: e in es ==> WireFrom(e, allowed))
      && Final(init, es) == st
  }

  function Parsing(id: U16): Thread { Sock([Push(0, Forged(id)), Post(0)]) }

  lemma ParsingThread(id: U16, slot: Slot)
    requires slot.reading > 0
    ensures var e := ReadOk(1, 0, [Forged(id)], None);
      && Guard(e, Sock([]), 0, slot) && NextThread(e, Sock([]), 0, slot) == Parsing(id)
      && NextSlot(e, Sock([]), 0, slot) == slot.(reading := slot.reading - 1)
  {
    assert ParseActs(0, [Forged(id)], None) == [Push(0, Forged(id)), Post(0)];
  }

  /** The client sends a message with the id of a Connect or Disconnect ... */
  lemma Parsed(id: U16) returns (slot: Slot)
    ensures Reaches({id}, Stage(slot, [0], Crew(Parsing(id), IDLE)))
    ensures slot == FRESH_SLOT.(status := Start, open := true, processing := true, mailbox := [C],
                                history := History([C], [], [], [], 1, 0))
  {
    var client := Connecting({id});
    slot := client.(reading := 0);
    ParsingThread(id, client);
    Stepping({id}, client, [0], Crew(Sock([]), IDLE), ReadOk(1, 0, [Forged(id)], None), slot, Parsing(id),
             Crew(Parsing(id), IDLE));
  }

  /** ... which thread 1 pushes ... */
  lemma Sending(id: U16) returns (slot: Slot)
    ensures Reaches({id}, Stage(slot, [0], Crew(Sock([Post(0)]), IDLE)))
    ensures slot == FRESH_SLOT.(status := Start, open := true, processing := true, mailbox := [C, Forged(id)],
                                history := History([C, Forged(id)], [], [], [], 1, 0))
  {
    slot := Parsed(id);
    assert Parsing(id).todo[1..] == [Post(0)];
    Pushing({id}, slot, [0], Crew(Parsing(id), IDLE), 1, Forged(id), Crew(Sock([Post(0)]), IDLE));
    slot := Pushed(slot, Forged(id));
    assert [C] + [Forged(id)] == [C, Forged(id)];
  }

  const FAILED := Sock([Push(0, E), Close(0)])

  /** ... and posts the next read ... */
  lemma Reposting(id: U16) returns (slot: Slot)
    ensures Reaches({id}, Stage(slot, [0], Crew(Sock([]), IDLE)))
    ensures slot.open && slot.processing && slot.lock.Free? && slot.reading == 1
    ensures slot.history.pushed == [C, Forged(id)]
  {
    var sent := Sending(id);
    slot := sent.(reading := 1);
    assert [Post(0)][1..] == [];
    Stepping({id}, sent, [0], Crew(Sock([Post(0)]), IDLE), PostRead(1), slot, Sock([]), Crew(Sock([]), IDLE));
  }

  /** ... which fails, since the client hangs up ... */
  lemma HangingUp(id: U16) returns (slot: Slot)
    ensures Reaches({id}, Stage(slot, [0], Crew(FAILED, IDLE)))
    ensures slot.open && slot.processing && slot.lock.Free? && slot.history.pushed == [C, Forged(id)]
  {
    var read := Reposting(id);
    slot := read.(reading := 0);
    Stepping({id}, read, [0], Crew(Sock([]), IDLE), ReadFail(1, 0, []), slot, FAILED, Crew(FAILED, IDLE));
  }

  /** ... thread 1 pushes an Error ... */
  lemma Failing(id: U16) returns (slot: Slot)
    ensures Reaches({id}, Stage(slot, [0], Crew(Sock([Close(0)]), IDLE)))
    ensures slot.open && slot.processing && slot.lock.Free? && slot.history.pushed == [C, Forged(id), E]
  {
    var open := HangingUp(id);
    assert FAILED.todo[1..] == [Close(0)];
    Pushing({id}, open, [0], Crew(FAILED, IDLE), 1, E, Crew(Sock([Close(0)]), IDLE));
    slot := Pushed(open, E);
    assert [C, Forged(id)] + [E] == [C, Forged(id), E];
  }

  const LEAVING := Sock([Push(0, D)])

  lemma ClosingThread(slot: Slot)
    requires slot.open
    ensures NextThread(CloseSocket(1, None), Sock([Close(0)]), 0, slot) == LEAVING
  {
    assert [Close(0)][1..] == [] && [] + ([Push(0, D)] + []) == [Push(0, D)];
  }

  /** ... closes the socket ... */
  lemma ClosingFailed(id: U16) returns (slot: Slot)
    ensures Reaches({id}, Stage(slot, [0], Crew(LEAVING, IDLE)))
    ensures slot.processing && slot.lock.Free? && slot.history.pushed == [C, Forged(id), E]
  {
    var open := Failing(id);
    ClosingThread(open);
    NobodyGreets(open, [0], Sock([Close(0)]));
    slot := open.(open := false);
    Stepping({id}, open, [0], Crew(Sock([Close(0)]), IDLE), CloseSocket(1, None), slot, LEAVING, Crew(LEAVING, IDLE));
  }

  /** ... and pushes the Disconnect. */
  lemma Disconnecting(id: U16) returns (slot: Slot)
    ensures Reaches({id}, Stage(slot, [0], Crew(Sock([]), IDLE)))
    ensures slot.history.pushed == [C, Forged(id), E, D]
  {
    slot := ClosingFailed(id);
    assert LEAVING.todo[1..] == [];
    Pushing({id}, slot, [0], Crew(LEAVING, IDLE), 1, D, Crew(Sock([]), IDLE));
    slot := Pushed(slot, D);
    assert [C, Forged(id), E] + [D] == [C, Forged(id), E, D];
  }

  lemma PhaseOfForged(id: U16)
    requires id == EMIR_CONNECT || id == EMIR_DISCONNECT
    ensures Phase([C, Forged(id), E, D]) < 0
  {
    assert [C] == [] + [C] && [C, Forged(id)] == [C] + [Forged(id)] && [C, Forged(id), E] == [C, Forged(id)] + [E];
    assert [C, Forged(id), E, D] == [C, Forged(id), E] + [D];
    PhaseAppend([], C);
    PhaseAppend([C], Forged(id));
    PhaseAppend([C, Forged(id)], E);
    PhaseAppend([C, Forged(id), E], D);
  }

  // The server alone never closes early once no Connect message is pending.

  predicate GreetFree(th: Thread) { forall a :: a in th.todo ==> !a.Greet? }

  lemma ThreadStaysGreetFree(e: Event, th: Thread, s: nat, slot: Slot)
    requires Guard(e, th, s, slot) && !External(e) && GreetFree(th)
    ensures GreetFree(NextThread(e, th, s, slot))
  {
  }

  lemma {:induction false} QuietIsTimely(st: State, es: seq<Event>)
    requires QuietRun(st, es) && ValidRun(st, es) && forall t :: 0 <= t < |st.threads| ==> GreetFree(st.threads[t])
    ensures TimelyRun(st, es)
    decreases |es|
  {
    if es != [] {
      if !es[0].Poll? {
        ThreadStaysGreetFree(es[0], st.threads[es[0].t], Target(st, es[0]), st.slots[Target(st, es[0])]);
      }
      QuietIsTimely(Apply(st, es[0]), es[1..]);
    }
  }

  /** Then the callback comes to see something other than Connect, Disconnect, Connect, ... */
  lemma ForgedIdReachesCallback(id: U16) returns (st: State)
    requires id == EMIR_CONNECT || id == EMIR_DISCONNECT
    ensures ReachableFrom(st, {id}) && !CallbackAlternates(st)
  {
    var slot := Disconnecting(id);
    var mid := Stage(slot, [0], Crew(Sock([]), IDLE));
    PhaseOfForged(id);
    ReachedSafely({id}, mid);
    var fs := DisorderReachesCallback(mid, 0, 2);
    st := Final(mid, fs);
    QuietIsTimely(mid, fs);
    ReachedOn({id}, mid, fs);
  }

  lemma ReachedSafely(ids: set<U16>, st: State)
    requires Reaches(ids, st)
    ensures Safe(st)
  {
    var es :| Leads(ids, es, st);
    StartUpIsInit();
    InitIsSafe(START_UP);
    RunKeepsSafe(START_UP, es);
  }

  lemma ReachedOn(ids: set<U16>, st: State, fs: seq<Event>)
    requires Reaches(ids, st) && QuietRun(st, fs) && ValidRun(st, fs) && TimelyRun(st, fs)
    ensures ReachableFrom(Final(st, fs), ids)
  {
    var es :| Leads(ids, es, st);
    Through(ids, es, st, fs, Final(st, fs));
    StartUpIsInit();
    ReachedFromStart(ids, es + fs, Final(st, fs));
  }

  lemma ReachedFromStart(ids: set<U16>, es: seq<Event>, st: State)
    requires Init(START_UP) && Leads(ids, es, st)
    ensures ReachableFrom(st, ids)
  {
  }

  lemma ReachableFromMore(st: State, some: set<U16>, more: set<U16>)
    requires ReachableFrom(st, some) && some <= more
    ensures ReachableFrom(st, more)
  {
    var init, es :| Init(init) && ValidRun(init, es) && TimelyRun(init, es)
                    && (forall e :: e in es ==> WireFrom(e, some)) && Final(init, es) == st;
    assert forall e :: e in es ==> WireFrom(e, more);
  }

  lemma HonestIdsReachHonestly(st: State, allowed: set<U16>)
    requires ReachableFrom(st, allowed) && EMIR_CONNECT !in allowed && EMIR_DISCONNECT !in allowed
    ensures HonestlyReachable(st)
  {
    var init, es :| Init(init) && ValidRun(init, es) && TimelyRun(init, es)
                    && (forall e :: e in es ==> WireFrom(e, allowed)) && Final(init, es) == st;
    assert forall e :: e in es ==> WireOk(e);
  }

  /** The exact condition: with these ids on the wire and no early close, the callback sees an alternating lifecycle on
      every slot in every reachable state if and only if neither reserved id is among them. */
  lemma LifecycleHoldsExactly(allowed: set<U16>)
    ensures (forall st :: ReachableFrom(st, allowed) ==> CallbackAlternates(st))
            <==> EMIR_CONNECT !in allowed && EMIR_DISCONNECT !in allowed
  {
    if EMIR_CONNECT !in allowed && EMIR_DISCONNECT !in allowed {
      forall st | ReachableFrom(st, allowed) ensures CallbackAlternates(st) {
        HonestIdsReachHonestly(st, allowed);
        forall s | 0 <= s < |st.slots| ensures Alternation.Alternates(Edges(st.slots[s].history.called)) {
          CallbackSeesAlternation(st, s);
        }
      }
    } else {
      var id := if EMIR_CONNECT in allowed then EMIR_CONNECT else EMIR_DISCONNECT;
      var st := ForgedIdReachesCallback(id);
      ReachableFromMore(st, {id}, allowed);
      assert !CallbackAlternates(st);
    }
  }

  // ------------------------------------------------------------------- recycling

  /** Reachable with these ids on the wire, closed early or not. */
  ghost predicate ReachableOver(st: State, allowed: set<U16>) {
    exists init, es {:trigger ValidRun(init, es)} ::
      Init(init) && ValidRun(init, es) && (forall e :: e in es ==> WireFrom(e, allowed)) && Final(init, es) == st
  }

  /** The worker handles one message of the session. */
  lemma HandlingNext(ids: set<U16>, slot: Slot, b: Thread) returns (slot': Slot)
    requires Reaches(ids, Stage(slot, [], Crew(b, Drainer(0, [], Empty))))
    requires slot.lock.Free? && slot.processing && slot.mailbox != [] && slot.mailbox[0].kind.Read?
    ensures Reaches(ids, Stage(slot', [], Crew(b, Drainer(0, [], Empty))))
    ensures slot'.mailbox == slot.mailbox[1..] && slot'.lock.Free? && slot'.processing && slot'.open == slot.open
    ensures slot'.status == if IsDisconnect(slot.mailbox[0]) then Stop else slot.status
  {
    Handling(ids, slot, b);
    slot' := Handled(Popped(slot), slot.mailbox[0], SILENCE);
  }

  /** A client that sends a message with the id of a Disconnect and stays: the worker takes it for the end of the
      connection and frees the slot under the open socket. */
  lemma ForgedDisconnectFreesOpenSlot() returns (st: State)
    ensures ReachableFrom(st, {EMIR_DISCONNECT}) && |st.slots| == 1
    ensures st.slots[0].status == UseLess && st.slots[0].open
  {
    var ids, b := {EMIR_DISCONNECT}, Sock([Post(0)]);
    var slot := Sending(EMIR_DISCONNECT);
    Taking(ids, slot, b);
    slot := HandlingNext(ids, slot, b);
    slot := HandlingNext(ids, slot, b);
    GoingIdle(ids, slot, b);
    st := Stage(Left(slot), [], Crew(b, IDLE));
    ReachesIsReachable(ids, st);
  }

  lemma ReachesIsReachable(ids: set<U16>, st: State)
    requires Reaches(ids, st)
    ensures ReachableFrom(st, ids)
  {
    var es :| Leads(ids, es, st);
    StartUpIsInit();
    ReachedFromStart(ids, es, st);
  }

  lemma ReachableOverMore(st: State, some: set<U16>, more: set<U16>)
    requires ReachableFrom(st, some) && some <= more
    ensures ReachableOver(st, more)
  {
    var init, es :| Init(init) && ValidRun(init, es) && TimelyRun(init, es)
                    && (forall e :: e in es ==> WireFrom(e, some)) && Final(init, es) == st;
    assert forall e :: e in es ==> WireFrom(e, more);
  }

  lemma NoDisconnectIsGenuine(st: State, allowed: set<U16>)
    requires ReachableOver(st, allowed) && EMIR_DISCONNECT !in allowed
    ensures GenuinelyReachable(st)
  {
    var init, es :| Init(init) && ValidRun(init, es) && (forall e :: e in es ==> WireFrom(e, allowed))
                    && Final(init, es) == st;
    assert forall e :: e in es ==> Genuine(e);
  }

  /** The exact condition for recycling: with these ids on the wire, and early closes or none, every slot is safely
      recycled in every reachable state if and only if the id of a Disconnect is not among them. */
  lemma RecyclingHoldsExactly(allowed: set<U16>)
    ensures (forall st :: ReachableOver(st, allowed) ==> SafelyRecycled(st)) <==> EMIR_DISCONNECT !in allowed
  {
    if EMIR_DISCONNECT !in allowed {
      forall st | ReachableOver(st, allowed) ensures SafelyRecycled(st) {
        NoDisconnectIsGenuine(st, allowed);
        forall s | 0 <= s < |st.slots| ensures OneGoodbye(st, s) && ReturnedOnce(st, s) {
          OneDisconnectPending(st, s);
          StoppedSlotIsDrained(st, s);
        }
      }
    } else {
      var st := ForgedDisconnectFreesOpenSlot();
      ReachableOverMore(st, {EMIR_DISCONNECT}, allowed);
      assert !OneGoodbye(st, 0);
    }
  }
}
