/** An early close that happens: a run in which a stale read closes the socket of the next client. */
module SchedulerStale {
  import opened Wire
  import opened Scheduler
  import opened SchedulerSafety
  import opened SchedulerLifecycle
  import opened SchedulerDisorder
  import opened SchedulerCalls
  import opened SchedulerScenario
  import opened SchedulerEarly

  const IDS: set<U16> := {}

  const TOO_BIG := Sock([Push(0, E), Close(0), Post(0)])

  lemma TooBigThread(slot: Slot)
    ensures var e := ReadOk(1, 0, [], Some([]));
      && (slot.reading > 0 ==> Guard(e, Sock([]), 0, slot) && NextThread(e, Sock([]), 0, slot) == TOO_BIG
                               && NextSlot(e, Sock([]), 0, slot) == slot.(reading := slot.reading - 1))
  {
    assert ParseActs(0, [], Some([])) == [Push(0, E), Close(0), Post(0)];
  }

  /** The first client announces a message that is too big ... */
  lemma ReadingTooBig() returns (slot: Slot)
    ensures Reaches(IDS, Stage(slot, [0], Crew(TOO_BIG, IDLE)))
    ensures slot == FRESH_SLOT.(status := Start, open := true, processing := true, mailbox := [C],
                                history := History([C], [], [], [], 1, 0))
  {
    var client := Connecting(IDS);
    slot := client.(reading := 0);
    TooBigThread(client);
    Stepping(IDS, client, [0], Crew(Sock([]), IDLE), ReadOk(1, 0, [], Some([])), slot, TOO_BIG, Crew(TOO_BIG, IDLE));
  }

  /** ... and thread 1 pushes an Error ... */
  lemma RefusingTooBig() returns (slot: Slot)
    ensures Reaches(IDS, Stage(slot, [0], Crew(Sock([Close(0), Post(0)]), IDLE)))
    ensures slot == FRESH_SLOT.(status := Start, open := true, processing := true, mailbox := [C, E],
                                history := History([C, E], [], [], [], 1, 0))
  {
    slot := ReadingTooBig();
    assert TOO_BIG.todo[1..] == [Close(0), Post(0)];
    Pushing(IDS, slot, [0], Crew(TOO_BIG, IDLE), 1, E, Crew(Sock([Close(0), Post(0)]), IDLE));
    slot := Pushed(slot, E);
    assert [C] + [E] == [C, E];
  }

  /** ... closes the socket ... */
  lemma ClosingTooBig() returns (slot: Slot)
    ensures Reaches(IDS, Stage(slot, [0], Crew(Sock([Post(0)]), IDLE)))
    ensures slot == FRESH_SLOT.(status := Start, processing := true, mailbox := [C, E, D],
                                history := History([C, E, D], [], [], [], 1, 0))
  {
    var open := RefusingTooBig();
    slot := open.(open := false);
    var b, b' := Sock([Close(0), Post(0)]), Sock([Push(0, D), Post(0)]);
    assert [] + ([Push(0, D)] + b.todo[1..]) == b'.todo && b'.todo[1..] == [Post(0)];
    NobodyGreets(open, [0], b);
    Stepping(IDS, open, [0], Crew(b, IDLE), CloseSocket(1, None), slot, b', Crew(b', IDLE));
    Pushing(IDS, slot, [0], Crew(b', IDLE), 1, D, Crew(Sock([Post(0)]), IDLE));
    slot := Pushed(slot, D);
    assert [C, E] + [D] == [C, E, D];
  }

  /** ... and posts the next read all the same. */
  lemma PostingOnClosed() returns (slot: Slot)
    ensures Reaches(IDS, Stage(slot, [0], Crew(Sock([]), IDLE)))
    ensures slot.status == Start && !slot.open && !slot.accepting && slot.reading == 1 && slot.processing
    ensures slot.mailbox == [C, E, D] && slot.lock.Free?
  {
    var closed := ClosingTooBig();
    slot := closed.(reading := 1);
    assert [Post(0)][1..] == [];
    Stepping(IDS, closed, [0], Crew(Sock([Post(0)]), IDLE), PostRead(1), slot, Sock([]), Crew(Sock([]), IDLE));
  }

  /** What handling a Read without a reply changes. */
  lemma HandlingOne(slot: Slot) returns (slot': Slot)
    requires Reaches(IDS, Stage(slot, [], Crew(Sock([]), Drainer(0, [], Empty))))
    requires slot.lock.Free? && slot.processing && slot.mailbox != [] && slot.mailbox[0].kind.Read?
    ensures Reaches(IDS, Stage(slot', [], Crew(Sock([]), Drainer(0, [], Empty))))
    ensures slot'.mailbox == slot.mailbox[1..] && slot'.lock.Free? && slot'.processing
    ensures slot'.open == slot.open && slot'.accepting == slot.accepting && slot'.reading == slot.reading
    ensures slot'.status == if IsDisconnect(slot.mailbox[0]) then Stop else slot.status
  {
    Handling(IDS, slot, Sock([]));
    slot' := Handled(Popped(slot), slot.mailbox[0], SILENCE);
  }

  /** The worker handles all three messages and recycles the slot, on which that read is still outstanding ... */
  lemma Recycling() returns (slot: Slot)
    ensures Reaches(IDS, Stage(slot, [], Crew(Sock([]), IDLE)))
    ensures slot.status == UseLess && slot.reading == 1 && slot.lock.Free?
  {
    slot := PostingOnClosed();
    Taking(IDS, slot, Sock([]));
    slot := HandlingOne(slot);
    slot := HandlingOne(slot);
    slot := HandlingOne(slot);
    GoingIdle(IDS, slot, Sock([]));
    slot := Left(slot);
  }

  const STALE := Sock([Push(0, E), Close(0)])

  /** ... thread 0 hands it out and accepts the next client on it, and the stale read completes on thread 1 ... */
  lemma CompletingStale() returns (slot: Slot)
    ensures Reaches(IDS, Stage(slot, [], [ACCEPTED, STALE, IDLE])) && slot.open && slot.lock.Free?
  {
    var free := Recycling();
    var used := Accepting(IDS, free);
    slot := used.(reading := 0);
    Stepping(IDS, used, [], [ACCEPTED, Sock([]), IDLE], ReadFail(1, 0, []), slot, STALE, [ACCEPTED, STALE, IDLE]);
  }

  /** ... which pushes its Error and is about to close the open socket, before thread 0 pushes the Connect message. */
  lemma StaleReadClosesEarly() returns (st: State)
    ensures HonestlyReachable(st) && Enabled(st, CloseSocket(1, None)) && !Timely(st, CloseSocket(1, None))
    ensures |st.threads| == 3 && st.threads[2].role.Worker?
  {
    var slot := CompletingStale();
    assert STALE.todo[1..] == [Close(0)];
    var threads := [ACCEPTED, Sock([Close(0)]), IDLE];
    Pushing(IDS, slot, [], [ACCEPTED, STALE, IDLE], 1, E, threads);
    st := Stage(Pushed(slot, E), QueueAfter([], slot, 0), threads);
    ReachedHonestly(st);
    ClosesEarly(Pushed(slot, E), QueueAfter([], slot, 0), threads);
  }

  lemma ClosesEarly(slot: Slot, q: seq<nat>, threads: seq<Thread>)
    requires slot.open && threads == [ACCEPTED, Sock([Close(0)]), IDLE]
    ensures var st := Stage(slot, q, threads);
      Enabled(st, CloseSocket(1, None)) && !Timely(st, CloseSocket(1, None))
  {
    assert Greet(0, C) in threads[0].todo && Greets(threads[0], 0);
  }

  lemma ReachedHonestly(st: State)
    requires Reaches(IDS, st)
    ensures HonestlyReachable(st)
  {
    var es :| Leads(IDS, es, st);
    StartUpIsInit();
    assert forall e :: e in es ==> WireOk(e);
  }

  /** From there the server alone comes to call the callback out of order. */
  lemma StaleReadReachesCallback() returns (st: State)
    ensures Reachable(st) && !CallbackAlternates(st)
  {
    var before := StaleReadClosesEarly();
    HonestlyReachableIsOrderly(before);
    var fs := EarlyCloseBreaksOrder(before, CloseSocket(1, None), 2);
    st := Final(before, fs);
    var init, es :| Init(init) && ValidRun(init, es) && Final(init, es) == before;
    ValidConcat(init, es, fs);
  }
}
