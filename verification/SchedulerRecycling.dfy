/** The recycling of slots: a connection is one token that enters with an allocation and leaves when the worker stops
    the slot.  All that this asks of the outside is that no message from the wire passes for a Disconnect. */
module SchedulerRecycling {
  import opened Wire
  import opened Scheduler
  import opened SchedulerTokens
  import opened SchedulerSafety

  function Disconnects(msgs: seq<Msg>): nat {
    if msgs == [] then 0 else (if IsDisconnect(msgs[0]) then 1 else 0) + Disconnects(msgs[1..])
  }

  lemma {:induction false} DisconnectsAppend(msgs: seq<Msg>, m: Msg)
    ensures Disconnects(msgs + [m]) == Disconnects(msgs) + if IsDisconnect(m) then 1 else 0
  {
    if msgs == [] {
      assert [m][1..] == [];
    } else {
      DisconnectsAppend(msgs[1..], m);
      assert (msgs + [m])[1..] == msgs[1..] + [m];
    }
  }

  function B(b: bool): nat { if b then 1 else 0 }

  // A connection is one token that moves through three stages: an accept is pending, it is live, it is leaving.

  /** The socket is open, or a thread has closed it and has yet to push the Disconnect message. */
  ghost function Live(st: State, s: nat): nat
    requires s < |st.slots|
  {
    B(st.slots[s].open) + Sum(st.threads, Closing(s))
  }

  /** A Disconnect message waits in the mailbox or in the hand of a worker that has not stopped the slot. */
  ghost function Leaving(st: State, s: nat): nat
    requires s < |st.slots|
  {
    Disconnects(st.slots[s].mailbox) + Sum(st.threads, Stopping(s))
  }

  /** A slot has at most one client, pending, live or leaving, and only while it is started; it is handed out again
      only after a return; and a stopped slot is being drained. */
  ghost predicate OneLife(st: State, s: nat)
    requires s < |st.slots|
  {
    var slot := st.slots[s];
    && B(slot.accepting) + Live(st, s) + Leaving(st, s) <= B(slot.status.Start?)
    && slot.history.allocations == slot.history.recycles + B(!slot.status.UseLess?)
    && (slot.status.Stop? ==> Sum(st.threads, Draining(s)) == 1)
  }

  ghost predicate Lives(st: State) {
    forall s :: 0 <= s < |st.slots| ==> OneLife(st, s)
  }

  /** No message from the wire has the id of a Disconnect.  `_parse_msg` does not check this. */
  predicate Genuine(e: Event) {
    e.ReadOk? ==> forall m :: m in e.msgs ==> !IsDisconnect(m)
  }

  // -------------------------------------------------------------- each step

  lemma PendingCons(a: Act, rest: seq<Act>, s: nat, id: U16)
    ensures Pending([a] + rest, s, id) == Pending(rest, s, id)
            + if Sends(a) && a.slot == s && a.msg.kind.Read? && a.msg.id == id then 1 else 0
  {
    assert ([a] + rest)[1..] == rest;
  }

  /** What a close pushes and what follows it. */
  lemma PendingClose(s: nat, error: Option<seq<Byte>>, rest: seq<Act>, id: U16)
    requires id == EMIR_CONNECT || id == EMIR_DISCONNECT
    ensures Pending(Failure(s, error) + ([Push(s, DisconnectMsg())] + rest), s, id)
            == Pending(rest, s, id) + B(id == EMIR_DISCONNECT)
  {
    var tail := [Push(s, DisconnectMsg())] + rest;
    PendingCons(Push(s, DisconnectMsg()), rest, s, id);
    if error.Some? {
      PendingCons(Push(s, ErrorMsg(error.value)), tail, s, id);
    } else {
      assert [] + tail == tail;
    }
  }

  lemma NoDisconnects(acts: seq<Act>, s: nat)
    requires forall a :: a in acts && Sends(a) ==> !IsDisconnect(a.msg)
    ensures Pending(acts, s, EMIR_DISCONNECT) == 0
  {
    PendingNone(acts, s, EMIR_DISCONNECT);
  }

  lemma NewWorkHasNoDisconnects(e: Event, th: Thread, s: nat, slot: Slot)
    requires Guard(e, th, s, slot) && Genuine(e) && (External(e) || e.Call? || e.WriteSocket?)
    ensures Pending(NextThread(e, th, s, slot).todo, s, EMIR_DISCONNECT) == 0 == |th.todo|
  {
    var todo := NextThread(e, th, s, slot).todo;
    forall a | a in todo && Sends(a) ensures !IsDisconnect(a.msg) {
      match e {
        case ReadOk(_, _, msgs, tooBig) => assert a in ParseActs(s, msgs, tooBig);
        case _ =>
      }
    }
    NoDisconnects(todo, s);
  }

  /** The pending Disconnects of the thread, event by event. */
  lemma ClosingMoves(e: Event, th: Thread, s: nat, slot: Slot)
    requires Guard(e, th, s, slot) && Genuine(e)
    ensures Weight(Closing(s), NextThread(e, th, s, slot)) + B(e.Link? && IsDisconnect(th.todo[0].msg))
            == Weight(Closing(s), th) + B(e.CloseSocket? && slot.open)
  {
    if External(e) || e.Call? || e.WriteSocket? {
      NewWorkHasNoDisconnects(e, th, s, slot);
    } else if e.CloseSocket? {
      PendingClose(s, e.error, th.todo[1..], EMIR_DISCONNECT);
    }
  }

  lemma MailboxMoves(e: Event, th: Thread, s: nat, slot: Slot)
    requires Guard(e, th, s, slot)
    ensures Disconnects(NextSlot(e, th, s, slot).mailbox)
              + B(e.Pop? && slot.mailbox != [] && IsDisconnect(slot.mailbox[0]))
            == Disconnects(slot.mailbox) + B(e.Link? && IsDisconnect(th.todo[0].msg))
  {
    if e.Link? {
      DisconnectsAppend(slot.mailbox, th.todo[0].msg);
    }
  }

  /** A Disconnect leaves the mailbox for the worker's hand, and the hand when it stops the slot. */
  lemma StoppingMoves(e: Event, th: Thread, s: nat, slot: Slot)
    requires Guard(e, th, s, slot) && (!th.hand.Empty? ==> th.draining.Some?)
    ensures Weight(Stopping(s), NextThread(e, th, s, slot)) + B(e.Mark? && IsDisconnect(th.hand.msg))
            == Weight(Stopping(s), th) + B(e.Pop? && slot.mailbox != [] && IsDisconnect(slot.mailbox[0]))
  {
  }

  /** What the step does to the flags of the slot, given that it never opens or accepts twice. */
  lemma FlagsMove(e: Event, th: Thread, s: nat, slot: Slot)
    requires Guard(e, th, s, slot)
    requires e.AllocateSlot? ==> !slot.accepting
    requires e.AcceptOk? ==> !slot.open
    ensures var slot' := NextSlot(e, th, s, slot);
      && B(slot'.accepting) + B(e.AcceptOk? || e.AcceptFail?) == B(slot.accepting) + B(e.AllocateSlot?)
      && B(slot'.open) + B(e.CloseSocket? && slot.open) == B(slot.open) + B(e.AcceptOk?)
  {
  }

  lemma StatusMoves(e: Event, th: Thread, s: nat, slot: Slot)
    requires Guard(e, th, s, slot)
    ensures NextSlot(e, th, s, slot).status ==
      if e.AllocateSlot? then Start
      else if e.Mark? && IsDisconnect(th.hand.msg) then Stop
      else if e.Pop? && slot.mailbox == [] && slot.status.Stop? then UseLess else slot.status
  {
  }

  lemma CountsMove(e: Event, th: Thread, s: nat, slot: Slot)
    requires Guard(e, th, s, slot)
    ensures var h := slot.history; var h' := NextSlot(e, th, s, slot).history;
      && h'.allocations == h.allocations + B(e.AllocateSlot?)
      && h'.recycles == h.recycles + B(e.Pop? && slot.mailbox == [] && slot.status.Stop?)
  {
  }

  lemma AllocationsMove(e: Event, th: Thread, s: nat, slot: Slot)
    requires Guard(e, th, s, slot)
    requires e.Mark? && IsDisconnect(th.hand.msg) ==> slot.status.Start?
    requires slot.history.allocations == slot.history.recycles + B(!slot.status.UseLess?)
    ensures var slot' := NextSlot(e, th, s, slot);
      slot'.history.allocations == slot'.history.recycles + B(!slot'.status.UseLess?)
  {
    StatusMoves(e, th, s, slot);
    CountsMove(e, th, s, slot);
  }

  /** A slot is not opened or accepted a second time. */
  lemma NothingTwice(st: State, e: Event)
    requires Lives(st) && Enabled(st, e) && !e.Poll?
    ensures var slot := st.slots[Target(st, e)];
      (e.AllocateSlot? ==> !slot.accepting) && (e.AcceptOk? ==> !slot.open)
  {
    assert OneLife(st, Target(st, e));
  }

  lemma LiveMoves(st: State, e: Event)
    requires Lives(st) && Enabled(st, e) && !e.Poll? && Genuine(e)
    ensures var s := Target(st, e); var th := st.threads[e.t];
      Live(Apply(st, e), s) + B(e.Link? && IsDisconnect(th.todo[0].msg))
      == Live(st, s) + B(e.AcceptOk?)
  {
    var s := Target(st, e);
    NothingTwice(st, e);
    SumMoves(st, e, Closing(s));
    ClosingMoves(e, st.threads[e.t], s, st.slots[s]);
    FlagsMove(e, st.threads[e.t], s, st.slots[s]);
  }

  lemma LeavingFollows(st: State, e: Event)
    requires Shapes(st) && Enabled(st, e) && !e.Poll?
    ensures var s := Target(st, e); var th := st.threads[e.t];
      Leaving(Apply(st, e), s) + B(e.Mark? && IsDisconnect(th.hand.msg))
      == Leaving(st, s) + B(e.Link? && IsDisconnect(th.todo[0].msg))
  {
    var s := Target(st, e);
    assert ThreadShape(st.threads[e.t], |st.slots|);
    SumMoves(st, e, Stopping(s));
    MailboxMoves(e, st.threads[e.t], s, st.slots[s]);
    StoppingMoves(e, st.threads[e.t], s, st.slots[s]);
  }

  lemma DrainingMoves(e: Event, th: Thread, s: nat, slot: Slot)
    requires Guard(e, th, s, slot) && !e.Take?
    ensures var slot' := NextSlot(e, th, s, slot);
      && (Weight(Draining(s), NextThread(e, th, s, slot)) == Weight(Draining(s), th)
          || (e.Pop? && !slot'.status.Stop?))
      && (slot'.status.Stop? ==> slot.status.Stop? || th.draining == Some(s))
  {
  }

  /** Once a slot is stopped only the worker draining it can un-stop it. */
  lemma StopMeansDraining(st: State, e: Event)
    requires Safe(st) && Lives(st) && Enabled(st, e) && !e.Poll?
    ensures var s := Target(st, e);
      Apply(st, e).slots[s].status.Stop? ==> Sum(Apply(st, e).threads, Draining(s)) == 1
  {
    var s := Target(st, e);
    var th := st.threads[e.t];
    assert Owned(st, s) && OneLife(st, s);
    if e.Take? {
      TakenIsNotDrained(st, e.t);
    } else {
      SumMoves(st, e, Draining(s));
      DrainingMoves(e, th, s, st.slots[s]);
      if th.draining == Some(s) { DrainedIsProcessing(st, e.t, s); }
    }
  }

  /** The token of the target moves from stage to stage; it enters with an allocation and leaves with a failed
      accept or when the worker stops the slot. */
  lemma TargetKeepsCounts(st: State, e: Event)
    requires Safe(st) && Lives(st) && Enabled(st, e) && !e.Poll? && Genuine(e)
    ensures var s := Target(st, e); var st' := Apply(st, e);
      B(st'.slots[s].accepting) + Live(st', s) + Leaving(st', s) <= B(st'.slots[s].status.Start?)
  {
    var s := Target(st, e);
    var th := st.threads[e.t];
    assert OneLife(st, s);
    NothingTwice(st, e);
    FlagsMove(e, th, s, st.slots[s]);
    LiveMoves(st, e);
    LeavingFollows(st, e);
    StatusMoves(e, th, s, st.slots[s]);
    SumAtLeast(st.threads, e.t, Stopping(s));
  }

  lemma TargetKeepsOneLife(st: State, e: Event)
    requires Safe(st) && Lives(st) && Enabled(st, e) && !e.Poll? && Genuine(e)
    ensures OneLife(Apply(st, e), Target(st, e))
  {
    var s := Target(st, e);
    assert OneLife(st, s);
    TargetKeepsCounts(st, e);
    StopMeansDraining(st, e);
    SumAtLeast(st.threads, e.t, Stopping(s));
    AllocationsMove(e, st.threads[e.t], s, st.slots[s]);
  }

  lemma OthersKeepOneLife(st: State, e: Event, u: nat)
    requires Lives(st) && Enabled(st, e) && !e.Poll? && u < |st.slots| && u != Target(st, e)
    ensures OneLife(Apply(st, e), u)
  {
    assert OneLife(st, u);
    SumStays(st, e, Closing(u));
    SumStays(st, e, Stopping(u));
    SumStays(st, e, Draining(u));
  }

  lemma StepKeepsLives(st: State, e: Event)
    requires Safe(st) && Lives(st) && Enabled(st, e) && Genuine(e)
    ensures Lives(Apply(st, e))
  {
    if !e.Poll? {
      forall u | 0 <= u < |st.slots|
        ensures OneLife(Apply(st, e), u)
      {
        if u == Target(st, e) { TargetKeepsOneLife(st, e); } else { OthersKeepOneLife(st, e, u); }
      }
    }
  }

  // ---------------------------------------------------------------- every run

  /** Reachable by a run in which the wire never forges a Disconnect. */
  ghost predicate GenuinelyReachable(st: State) {
    exists init, es {:trigger ValidRun(init, es)} ::
      Init(init) && ValidRun(init, es) && (forall e :: e in es ==> Genuine(e)) && Final(init, es) == st
  }

  lemma {:induction false} RunKeepsLives(st: State, es: seq<Event>)
    requires Safe(st) && Lives(st) && ValidRun(st, es) && forall e :: e in es ==> Genuine(e)
    ensures Safe(Final(st, es)) && Lives(Final(st, es))
    decreases |es|
  {
    if es != [] {
      assert es[0] in es;
      StepKeepsSafe(st, es[0]);
      StepKeepsLives(st, es[0]);
      RunKeepsLives(Apply(st, es[0]), es[1..]);
    }
  }

  lemma InitLives(st: State)
    requires Init(st)
    ensures Lives(st)
  {
    forall s | 0 <= s < |st.slots|
      ensures OneLife(st, s)
    {
      forall t | 0 <= t < |st.threads| ensures Weight(Closing(s), st.threads[t]) == 0 {
        PendingNone(st.threads[t].todo, s, EMIR_DISCONNECT);
      }
      SumZero(st.threads, Closing(s));
      SumZero(st.threads, Stopping(s));
    }
  }

  lemma GenuinelyReachableLives(st: State)
    requires GenuinelyReachable(st)
    ensures Safe(st) && Lives(st)
  {
    var init, es :| Init(init) && ValidRun(init, es) && (forall e :: e in es ==> Genuine(e)) && Final(init, es) == st;
    InitIsSafe(init);
    InitLives(init);
    RunKeepsLives(init, es);
  }

  // ---------------------------------------------------------- what it amounts to

  /** Disconnect messages of a slot that have been decided on and have not stopped it yet. */
  ghost function PendingDisconnects(st: State, s: nat): nat
    requires s < |st.slots|
  {
    Sum(st.threads, Closing(s)) + Disconnects(st.slots[s].mailbox) + Sum(st.threads, Stopping(s))
  }

  /** At most one Disconnect is pending, and one only on a started slot whose socket is closed; a socket is open only
      on a started slot with no accept pending. */
  ghost predicate OneGoodbye(st: State, s: nat)
    requires s < |st.slots|
  {
    && PendingDisconnects(st, s) <= 1
    && (PendingDisconnects(st, s) == 1 ==> st.slots[s].status == Start && !st.slots[s].open)
    && (st.slots[s].open ==> st.slots[s].status == Start && !st.slots[s].accepting)
  }

  /** A stopped slot has exactly one worker draining it, and a slot is handed out again only after a return. */
  ghost predicate ReturnedOnce(st: State, s: nat)
    requires s < |st.slots|
  {
    && (st.slots[s].status == Stop ==> |Drainers(st, s)| == 1 && st.slots[s].processing)
    && st.slots[s].history.allocations - st.slots[s].history.recycles
       == (if st.slots[s].status == UseLess then 0 else 1)
  }

  ghost predicate SafelyRecycled(st: State) {
    forall s :: 0 <= s < |st.slots| ==> OneGoodbye(st, s) && ReturnedOnce(st, s)
  }

  lemma OneDisconnectPending(st: State, s: nat)
    requires GenuinelyReachable(st) && s < |st.slots|
    ensures OneGoodbye(st, s)
  {
    GenuinelyReachableLives(st);
    assert OneLife(st, s);
  }

  lemma StoppedSlotIsDrained(st: State, s: nat)
    requires GenuinelyReachable(st) && s < |st.slots|
    ensures ReturnedOnce(st, s)
  {
    GenuinelyReachableLives(st);
    assert OneLife(st, s) && Owned(st, s);
    if st.slots[s].status == Stop {
      var t := SumWitness(st.threads, Draining(s));
      DrainedIsProcessing(st, t, s);
      assert Drainers(st, s) == {t};
    }
  }

  lemma FreeingStep(e: Event, th: Thread, s: nat, slot: Slot)
    requires Guard(e, th, s, slot)
    requires slot.status != UseLess && NextSlot(e, th, s, slot).status == UseLess
    ensures e.Pop? && slot.status == Stop && slot.mailbox == [] && slot.lock.Free?
    ensures th.hand.Empty? && th.draining == Some(s) && !NextSlot(e, th, s, slot).processing
  {
  }

  /** In every run, whatever is on the wire and whoever closes when: the only step that frees a slot is the locked step
      that finds its mailbox empty and clears `processing`; it frees a stopped slot, whose every message has been
      handled and, if it is a Read, passed to the callback. */
  lemma OnlyDrainedSlotsAreFreed(st: State, e: Event, s: nat)
    requires Reachable(st) && Enabled(st, e) && s < |st.slots|
    requires st.slots[s].status != UseLess && Apply(st, e).slots[s].status == UseLess
    ensures e.Pop? && st.slots[s].status == Stop && st.threads[e.t].draining == Some(s)
    ensures st.slots[s].mailbox == [] && st.slots[s].lock.Free? && !Apply(st, e).slots[s].processing
    ensures st.slots[s].history.pushed == st.slots[s].history.handled
    ensures st.slots[s].history.called == Reads(st.slots[s].history.handled)
  {
    ReachableIsSafe(st);
    assert !e.Poll? && s == Target(st, e);
    FreeingStep(e, st.threads[e.t], s, st.slots[s]);
    assert Delivered(st, s) && HandAgrees(st.threads[e.t], st.slots[s].history);
    EmptyHandIsSettled(st.threads[e.t], st.slots[s].history);
    assert st.slots[s].history.taken + [] == st.slots[s].history.taken;
  }
}
