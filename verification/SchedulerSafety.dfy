/** What every step of the scheduler keeps: ownership of sessions, first-in first-out delivery, locks. */
module SchedulerSafety {
  import opened Wire
  import opened Scheduler
  import opened SchedulerTokens

  /** The Read messages of a sequence: those the callback is called with. */
  function Reads(msgs: seq<Msg>): seq<Msg> {
    if msgs == [] then []
    else
      var rest := Reads(msgs[..|msgs| - 1]);
      if msgs[|msgs| - 1].kind.Read? then rest + [msgs[|msgs| - 1]] else rest
  }

  function InHand(h: Hand): seq<Msg> { if h.Empty? then [] else [h.msg] }

  /** The message in a hand if the callback has yet to be called with it. */
  function Uncalled(h: Hand): seq<Msg> {
    if (h.Fresh? || h.Marked?) && h.msg.kind.Read? then [h.msg] else []
  }

  predicate HoldsMailbox(th: Thread, s: nat) {
    th.pc == Linked(s) || th.pc == WantRun(s) || th.pc == RunHeld(s) || th.pc == Unlock(s) || th.pc == PopHeld(s)
  }

  predicate HoldsRunQueue(th: Thread) { th.pc.RunHeld? || th.pc.TakeHeld? }

  // ------------------------------------------------------------------- locks

  ghost predicate LocksAgree(st: State) {
    && (forall t, s :: 0 <= t < |st.threads| && 0 <= s < |st.slots| ==>
         (HoldsMailbox(st.threads[t], s) <==> st.slots[s].lock == HeldBy(t)))
    && (forall s :: 0 <= s < |st.slots| && st.slots[s].lock.HeldBy? ==> st.slots[s].lock.thread < |st.threads|)
    && (forall t :: 0 <= t < |st.threads| ==> (HoldsRunQueue(st.threads[t]) <==> st.runLock == HeldBy(t)))
    && (st.runLock.HeldBy? ==> st.runLock.thread < |st.threads|)
  }

  predicate InRange(th: Thread, n: nat) {
    && (th.pc.Linked? || th.pc.WantRun? || th.pc.RunHeld? || th.pc.Unlock? || th.pc.PopHeld? ==> th.pc.slot < n)
    && (forall a :: a in th.todo && !a.Allocate? ==> a.slot < n)
    && (th.draining.Some? ==> th.draining.value < n)
  }

  /** What a thread can be at, by its role and by what it is draining. */
  predicate RoleShape(th: Thread) {
    && (!th.hand.Empty? ==> th.draining.Some?)
    && (th.draining.Some? ==> th.role.Worker?)
    && (th.role.Worker? && th.draining.None? ==> th.todo == [] && (th.pc.Ready? || th.pc.PopHeld?))
    && (th.pc.TakeHeld? || th.pc.PopHeld? ==> th.todo == [])
    && (th.pc.PopHeld? && th.draining.Some? ==> th.hand.Fresh?)
    && (th.pc.TakeHeld? ==> th.draining.Some? && th.hand.Empty?)
    && (th.todo != [] && th.draining.Some? ==> th.hand.Busy? && forall a :: a in th.todo ==> a.Push? || a.Close?)
  }

  predicate ThreadShape(th: Thread, n: nat) { InRange(th, n) && RoleShape(th) }

  ghost predicate Shapes(st: State) {
    && (forall t :: 0 <= t < |st.threads| ==> ThreadShape(st.threads[t], |st.slots|))
    && forall i :: 0 <= i < |st.runQueue| ==> st.runQueue[i] < |st.slots|
  }

  // --------------------------------------------------------------- ownership

  function Queued(st: State, s: nat): nat { multiset(st.runQueue)[s] }

  /** `processing` says that exactly one of these holds: the session is queued, a worker is draining it, or
      a thread inside `push_msg` is about to queue it. */
  ghost predicate Owned(st: State, s: nat)
    requires s < |st.slots|
  {
    && Queued(st, s) + Sum(st.threads, Draining(s)) + Sum(st.threads, Wanting(s))
       == (if st.slots[s].processing then 1 else 0)
    && NoLostMessage(st, s)
  }

  /** A message waits in an idle mailbox only while the thread that linked it is still inside `enqueue`. */
  ghost predicate NoLostMessage(st: State, s: nat)
    requires s < |st.slots|
  {
    var slot := st.slots[s];
    slot.mailbox != [] && !slot.processing ==>
      slot.lock.HeldBy? && slot.lock.thread < |st.threads| && st.threads[slot.lock.thread].pc == Linked(s)
  }

  ghost predicate Ownership(st: State) {
    forall s :: 0 <= s < |st.slots| ==> Owned(st, s)
  }

  // ---------------------------------------------------------------- delivery

  /** A worker draining a session has dequeued what is handled, then what it holds. */
  predicate HandAgrees(th: Thread, h: History) {
    h.taken == h.handled + InHand(th.hand) && Reads(h.taken) == h.called + Uncalled(th.hand)
  }

  ghost predicate Delivered(st: State, s: nat)
    requires s < |st.slots|
  {
    var h := st.slots[s].history;
    && h.pushed == h.taken + st.slots[s].mailbox
    && (Sum(st.threads, Draining(s)) == 0 ==> h.taken == h.handled && Reads(h.taken) == h.called)
    && forall t :: 0 <= t < |st.threads| && st.threads[t].draining == Some(s) ==> HandAgrees(st.threads[t], h)
  }

  ghost predicate Delivery(st: State) {
    forall s :: 0 <= s < |st.slots| ==> Delivered(st, s)
  }

  ghost predicate Safe(st: State) {
    LocksAgree(st) && Shapes(st) && Ownership(st) && Delivery(st)
  }

  // -------------------------------------------------------------- each step

  lemma ThreadStaysInRange(e: Event, th: Thread, s: nat, slot: Slot, n: nat)
    requires Guard(e, th, s, slot) && s < n && InRange(th, n)
    ensures InRange(NextThread(e, th, s, slot), n)
  {
  }

  lemma ThreadKeepsRoleShape(e: Event, th: Thread, s: nat, slot: Slot)
    requires Guard(e, th, s, slot) && RoleShape(th)
    ensures RoleShape(NextThread(e, th, s, slot))
  {
  }

  lemma QueueStaysInRange(st: State, e: Event)
    requires Shapes(st) && Enabled(st, e)
    ensures forall i :: 0 <= i < |Apply(st, e).runQueue| ==> Apply(st, e).runQueue[i] < |st.slots|
  {
  }

  lemma StepKeepsShapes(st: State, e: Event)
    requires Shapes(st) && Enabled(st, e)
    ensures Shapes(Apply(st, e))
  {
    if !e.Poll? {
      var th, s := st.threads[e.t], Target(st, e);
      assert ThreadShape(th, |st.slots|);
      ThreadStaysInRange(e, th, s, st.slots[s], |st.slots|);
      ThreadKeepsRoleShape(e, th, s, st.slots[s]);
      QueueStaysInRange(st, e);
    }
  }

  /** A thread takes and releases the lock of its target in step with the slot. */
  lemma LockFollowsThread(e: Event, th: Thread, s: nat, slot: Slot, n: nat)
    requires Guard(e, th, s, slot) && s < n && ThreadShape(th, n)
    requires HoldsMailbox(th, s) <==> slot.lock == HeldBy(e.t)
    ensures HoldsMailbox(NextThread(e, th, s, slot), s) <==> NextSlot(e, th, s, slot).lock == HeldBy(e.t)
    ensures forall u :: u != s ==> (HoldsMailbox(NextThread(e, th, s, slot), u) <==> HoldsMailbox(th, u))
    ensures LockMoves(e, th, s, slot)
  {
    LockIsMine(e, th, s, slot);
    OtherLocksStay(e, th, s, slot);
  }

  /** The lock is free or held by this very thread. */
  predicate Mine(lock: Holder, t: nat) { lock.Free? || lock == HeldBy(t) }

  /** A step changes the lock of its target only where it is free or the thread's own. */
  predicate LockMoves(e: Event, th: Thread, s: nat, slot: Slot)
    requires Guard(e, th, s, slot)
  {
    var lock' := NextSlot(e, th, s, slot).lock;
    lock' == slot.lock || (Mine(lock', e.t) && Mine(slot.lock, e.t))
  }

  lemma LockIsMine(e: Event, th: Thread, s: nat, slot: Slot)
    requires Guard(e, th, s, slot) && (HoldsMailbox(th, s) <==> slot.lock == HeldBy(e.t))
    ensures LockMoves(e, th, s, slot)
  {
  }

  lemma OtherLocksStay(e: Event, th: Thread, s: nat, slot: Slot)
    requires Guard(e, th, s, slot)
    ensures forall u :: u != s ==> (HoldsMailbox(NextThread(e, th, s, slot), u) <==> HoldsMailbox(th, u))
  {
  }

  /** Replacing one thread and one slot that agree with each other keeps the locks in agreement. */
  lemma LocksFrame(st: State, t: nat, th: Thread, s: nat, slot: Slot, queue: seq<nat>, runLock: Holder)
    requires LocksAgree(st) && t < |st.threads| && s < |st.slots|
    requires HoldsMailbox(th, s) <==> slot.lock == HeldBy(t)
    requires forall u :: u != s ==> (HoldsMailbox(th, u) <==> HoldsMailbox(st.threads[t], u))
    requires slot.lock == st.slots[s].lock || (Mine(slot.lock, t) && Mine(st.slots[s].lock, t))
    requires HoldsRunQueue(th) <==> runLock == HeldBy(t)
    requires runLock == st.runLock || (Mine(runLock, t) && Mine(st.runLock, t))
    ensures LocksAgree(State(st.slots[s := slot], queue, runLock, st.threads[t := th]))
  {
    var st' := State(st.slots[s := slot], queue, runLock, st.threads[t := th]);
    forall i, u | 0 <= i < |st.threads| && 0 <= u < |st.slots|
      ensures HoldsMailbox(st'.threads[i], u) <==> st'.slots[u].lock == HeldBy(i)
    {
      assert HoldsMailbox(st.threads[i], u) <==> st.slots[u].lock == HeldBy(i);
    }
    forall i | 0 <= i < |st.threads|
      ensures HoldsRunQueue(st'.threads[i]) <==> st'.runLock == HeldBy(i)
    {
      assert HoldsRunQueue(st.threads[i]) <==> st.runLock == HeldBy(i);
    }
  }

  lemma StepKeepsLocks(st: State, e: Event)
    requires LocksAgree(st) && Shapes(st) && Enabled(st, e)
    ensures LocksAgree(Apply(st, e))
  {
    if !e.Poll? {
      var st' := Apply(st, e);
      var s := Target(st, e);
      var th := st.threads[e.t];
      assert HoldsMailbox(th, s) <==> st.slots[s].lock == HeldBy(e.t);
      assert HoldsRunQueue(th) <==> st.runLock == HeldBy(e.t);
      LockFollowsThread(e, th, s, st.slots[s], |st.slots|);
      LocksFrame(st, e.t, NextThread(e, th, s, st.slots[s]), s, NextSlot(e, th, s, st.slots[s]),
                 st'.runQueue, st'.runLock);
    }
  }

  /** A step gives and takes ownership of its target only. */
  lemma OwnershipMoves(e: Event, th: Thread, s: nat, slot: Slot, n: nat)
    requires Guard(e, th, s, slot) && s < n && ThreadShape(th, n)
    requires th.draining == Some(s) ==> slot.processing
    ensures var th' := NextThread(e, th, s, slot); var slot' := NextSlot(e, th, s, slot);
      (if e.RunAppend? then 1 else 0) + Weight(Draining(s), th') + Weight(Wanting(s), th')
      + (if slot.processing then 1 else 0)
      == (if e.Take? then 1 else 0) + Weight(Draining(s), th) + Weight(Wanting(s), th)
         + (if slot'.processing then 1 else 0)
  {
  }

  lemma HeadCount(q: seq<nat>, s: nat)
    requires q != []
    ensures multiset(q)[s] == multiset(q[1..])[s] + if q[0] == s then 1 else 0
  {
    assert q == [q[0]] + q[1..];
  }

  lemma QueuedMoves(st: State, e: Event, s: nat)
    requires Enabled(st, e)
    ensures Queued(Apply(st, e), s) + (if e.Take? && s == Target(st, e) then 1 else 0)
            == Queued(st, s) + (if e.RunAppend? && s == Target(st, e) then 1 else 0)
  {
    if e.Take? {
      HeadCount(st.runQueue, s);
    }
  }

  /** The change of one sum in a step: only the acting thread contributes. */
  lemma SumMoves(st: State, e: Event, tok: Token)
    requires Enabled(st, e) && !e.Poll?
    ensures var th' := NextThread(e, st.threads[e.t], Target(st, e), st.slots[Target(st, e)]);
      Sum(Apply(st, e).threads, tok) + Weight(tok, st.threads[e.t]) == Sum(st.threads, tok) + Weight(tok, th')
  {
    SumUpdate(st.threads, e.t, NextThread(e, st.threads[e.t], Target(st, e), st.slots[Target(st, e)]), tok);
  }

  /** What is about another slot is not moved. */
  lemma SumStays(st: State, e: Event, tok: Token)
    requires Enabled(st, e) && !e.Poll? && HasSlot(tok) && tok.slot != Target(st, e)
    ensures Sum(Apply(st, e).threads, tok) == Sum(st.threads, tok)
  {
    SumMoves(st, e, tok);
    OtherSlotsUntouched(e, st.threads[e.t], Target(st, e), st.slots[Target(st, e)], tok);
  }

  lemma DrainedIsProcessing(st: State, t: nat, s: nat)
    requires s < |st.slots| && Owned(st, s) && t < |st.threads| && st.threads[t].draining == Some(s)
    ensures st.slots[s].processing && Sum(st.threads, Draining(s)) == 1
    ensures forall u :: 0 <= u < |st.threads| && u != t ==> st.threads[u].draining != Some(s)
  {
    SumAtLeast(st.threads, t, Draining(s));
    forall u | 0 <= u < |st.threads| && u != t
      ensures st.threads[u].draining != Some(s)
    {
      SumTwo(st.threads, t, u, Draining(s));
    }
  }

  lemma TargetLosesNoMessage(e: Event, th: Thread, s: nat, slot: Slot)
    requires Guard(e, th, s, slot) && (th.draining == Some(s) ==> slot.processing)
    ensures var slot' := NextSlot(e, th, s, slot);
      slot'.mailbox != [] && !slot'.processing ==>
        || (slot'.lock == HeldBy(e.t) && NextThread(e, th, s, slot).pc == Linked(s))
        || (slot.mailbox != [] && !slot.processing && th.pc != Linked(s))
  {
  }

  lemma MessagesFrame(st: State, t: nat, th: Thread, s: nat, slot: Slot, queue: seq<nat>, runLock: Holder)
    requires t < |st.threads| && s < |st.slots| && NoLostMessage(st, s)
    requires slot.lock == st.slots[s].lock || (Mine(slot.lock, t) && Mine(st.slots[s].lock, t))
    requires slot.mailbox != [] && !slot.processing ==>
      || (slot.lock == HeldBy(t) && th.pc == Linked(s))
      || (st.slots[s].mailbox != [] && !st.slots[s].processing && st.threads[t].pc != Linked(s))
    ensures NoLostMessage(State(st.slots[s := slot], queue, runLock, st.threads[t := th]), s)
  {
  }

  lemma TargetKeepsItsMessages(st: State, e: Event)
    requires LocksAgree(st) && Shapes(st) && Ownership(st) && Enabled(st, e) && !e.Poll?
    ensures NoLostMessage(Apply(st, e), Target(st, e))
  {
    var s := Target(st, e);
    var th := st.threads[e.t];
    assert Owned(st, s);
    assert HoldsMailbox(th, s) <==> st.slots[s].lock == HeldBy(e.t);
    if th.draining == Some(s) { DrainedIsProcessing(st, e.t, s); }
    LockFollowsThread(e, th, s, st.slots[s], |st.slots|);
    TargetLosesNoMessage(e, th, s, st.slots[s]);
    var st' := Apply(st, e);
    MessagesFrame(st, e.t, NextThread(e, th, s, st.slots[s]), s, NextSlot(e, th, s, st.slots[s]),
                  st'.runQueue, st'.runLock);
  }

  lemma OnlyTheTargetIsLinked(e: Event, th: Thread, s: nat, slot: Slot, u: nat)
    requires Guard(e, th, s, slot) && u != s
    ensures th.pc == Linked(u) ==> NextThread(e, th, s, slot).pc == Linked(u)
  {
  }

  lemma OthersKeepTheirMessages(st: State, e: Event, u: nat)
    requires Ownership(st) && Enabled(st, e) && !e.Poll? && u < |st.slots| && u != Target(st, e)
    ensures NoLostMessage(Apply(st, e), u)
  {
    assert Owned(st, u);
    OnlyTheTargetIsLinked(e, st.threads[e.t], Target(st, e), st.slots[Target(st, e)], u);
  }

  lemma TargetStaysOwned(st: State, e: Event)
    requires LocksAgree(st) && Shapes(st) && Ownership(st) && Enabled(st, e) && !e.Poll?
    ensures Owned(Apply(st, e), Target(st, e))
  {
    var s := Target(st, e);
    assert Owned(st, s);
    QueuedMoves(st, e, s);
    TargetKeepsItsMessages(st, e);
    if st.threads[e.t].draining == Some(s) { DrainedIsProcessing(st, e.t, s); }
    SumMoves(st, e, Draining(s));
    SumMoves(st, e, Wanting(s));
    OwnershipMoves(e, st.threads[e.t], s, st.slots[s], |st.slots|);
  }

  lemma OthersStayOwned(st: State, e: Event, u: nat)
    requires Ownership(st) && Enabled(st, e) && !e.Poll? && u < |st.slots| && u != Target(st, e)
    ensures Owned(Apply(st, e), u)
  {
    assert Owned(st, u);
    QueuedMoves(st, e, u);
    OthersKeepTheirMessages(st, e, u);
    SumStays(st, e, Draining(u));
    SumStays(st, e, Wanting(u));
  }

  lemma StepKeepsOwnership(st: State, e: Event)
    requires LocksAgree(st) && Shapes(st) && Ownership(st) && Enabled(st, e)
    ensures Ownership(Apply(st, e))
  {
    if !e.Poll? {
      forall u | 0 <= u < |st.slots|
        ensures Owned(Apply(st, e), u)
      {
        if u == Target(st, e) { TargetStaysOwned(st, e); } else { OthersStayOwned(st, e, u); }
      }
    }
  }

  lemma ReadsAppend(msgs: seq<Msg>, m: Msg)
    ensures Reads(msgs + [m]) == if m.kind.Read? then Reads(msgs) + [m] else Reads(msgs)
  {
    assert (msgs + [m])[..|msgs|] == msgs;
  }

  /** Every message dequeued has been handled and, if it is a Read, passed to the callback. */
  predicate Settled(h: History) { h.taken == h.handled && Reads(h.taken) == h.called }

  /** What a step leaves of the relation between a slot's history, its mailbox and the worker's hand. */
  ghost predicate HistoryFollows(e: Event, th: Thread, s: nat, slot: Slot)
    requires Guard(e, th, s, slot)
  {
    var th' := NextThread(e, th, s, slot);
    var h, h' := slot.history, NextSlot(e, th, s, slot).history;
    && h'.pushed == h'.taken + NextSlot(e, th, s, slot).mailbox
    && (th'.draining == Some(s) ==> HandAgrees(th', h'))
    && (th.draining == Some(s) && th'.draining != Some(s) ==> Settled(h'))
    && (th.draining != Some(s) ==> h'.taken == h.taken && h'.handled == h.handled && h'.called == h.called)
  }

  lemma HistoryFollowsThread(e: Event, th: Thread, s: nat, slot: Slot, n: nat)
    requires Guard(e, th, s, slot) && s < n && ThreadShape(th, n)
    requires slot.history.pushed == slot.history.taken + slot.mailbox
    requires th.draining == Some(s) ==> HandAgrees(th, slot.history)
    requires e.Take? ==> Settled(slot.history)
    ensures HistoryFollows(e, th, s, slot)
  {
    if e.Pop? {
      EmptyHandIsSettled(th, slot.history);
      PopMovesHistory(e, th, s, slot);
    } else if e.Link? {
      LinkMovesHistory(e, th, s, slot);
    } else if e.Finish? {
      FinishMovesHistory(e, th, s, slot);
    } else if e.Call? {
      CallMovesHistory(e, th, s, slot);
    } else if e.Mark? || e.WriteSocket? {
      HandMovesHistory(e, th, s, slot);
    } else {
      HistoryStays(e, th, s, slot);
    }
  }

  lemma LinkMovesHistory(e: Event, th: Thread, s: nat, slot: Slot)
    requires Guard(e, th, s, slot) && e.Link? && slot.history.pushed == slot.history.taken + slot.mailbox
    requires th.draining == Some(s) ==> HandAgrees(th, slot.history)
    ensures HistoryFollows(e, th, s, slot)
  {
  }

  lemma HandMovesHistory(e: Event, th: Thread, s: nat, slot: Slot)
    requires Guard(e, th, s, slot) && (e.Mark? || e.WriteSocket?)
    requires slot.history.pushed == slot.history.taken + slot.mailbox && HandAgrees(th, slot.history)
    ensures HistoryFollows(e, th, s, slot)
  {
    var th' := NextThread(e, th, s, slot);
    assert InHand(th'.hand) == InHand(th.hand) && Uncalled(th'.hand) == Uncalled(th.hand);
  }

  lemma CallMovesHistory(e: Event, th: Thread, s: nat, slot: Slot)
    requires Guard(e, th, s, slot) && e.Call?
    requires slot.history.pushed == slot.history.taken + slot.mailbox && HandAgrees(th, slot.history)
    ensures HistoryFollows(e, th, s, slot)
  {
    var h' := NextSlot(e, th, s, slot).history;
    assert h'.called == slot.history.called + Uncalled(th.hand) && h'.called + [] == h'.called;
  }

  lemma FinishMovesHistory(e: Event, th: Thread, s: nat, slot: Slot)
    requires Guard(e, th, s, slot) && e.Finish?
    requires slot.history.pushed == slot.history.taken + slot.mailbox && HandAgrees(th, slot.history)
    ensures HistoryFollows(e, th, s, slot)
  {
    var th', h' := NextThread(e, th, s, slot), NextSlot(e, th, s, slot).history;
    assert h'.called + [] == h'.called;
    assert Settled(h');
    EmptyHandIsSettled(th', h');
  }

  lemma HistoryStays(e: Event, th: Thread, s: nat, slot: Slot)
    requires Guard(e, th, s, slot) && slot.history.pushed == slot.history.taken + slot.mailbox
    requires !e.Pop? && !e.Link? && !e.Mark? && !e.Call? && !e.WriteSocket? && !e.Finish?
    requires th.draining == Some(s) ==> HandAgrees(th, slot.history)
    requires e.Take? ==> Settled(slot.history) && th.hand.Empty?
    ensures HistoryFollows(e, th, s, slot)
  {
    var th', slot' := NextThread(e, th, s, slot), NextSlot(e, th, s, slot);
    assert slot'.history.(allocations := slot.history.allocations) == slot.history && slot'.mailbox == slot.mailbox;
    if e.Take? { EmptyHandIsSettled(th', slot.history); }
  }

  lemma EmptyHandIsSettled(th: Thread, h: History)
    requires th.hand.Empty?
    ensures HandAgrees(th, h) <==> Settled(h)
  {
    assert h.handled + [] == h.handled && h.called + [] == h.called;
  }

  lemma PopMovesHistory(e: Event, th: Thread, s: nat, slot: Slot)
    requires e.Pop? && Guard(e, th, s, slot)
    requires slot.history.pushed == slot.history.taken + slot.mailbox && Settled(slot.history)
    ensures var th' := NextThread(e, th, s, slot); var h' := NextSlot(e, th, s, slot).history;
      && h'.pushed == h'.taken + NextSlot(e, th, s, slot).mailbox
      && (th'.draining == Some(s) ==> HandAgrees(th', h'))
      && (th'.draining != Some(s) ==> Settled(h'))
  {
    var h := slot.history;
    if slot.mailbox != [] {
      var m := slot.mailbox[0];
      ReadsAppend(h.taken, m);
      assert h.taken + slot.mailbox == (h.taken + [m]) + slot.mailbox[1..];
      assert h.called + [] == h.called;
    }
  }

  lemma StepKeepsDelivery(st: State, e: Event)
    requires Safe(st) && Enabled(st, e)
    ensures Delivery(Apply(st, e))
  {
    var st' := Apply(st, e);
    forall u | 0 <= u < |st.slots|
      ensures Delivered(st', u)
    {
      assert Delivered(st, u);
      if !e.Poll? {
        if u == Target(st, e) { TargetIsDelivered(st, e); } else { OthersStayDelivered(st, e, u); }
      }
    }
  }

  lemma TakenIsNotDrained(st: State, t: nat)
    requires Enabled(st, Take(t)) && Owned(st, Target(st, Take(t)))
    ensures Sum(st.threads, Draining(Target(st, Take(t)))) == 0
  {
    assert st.runQueue == [st.runQueue[0]] + st.runQueue[1..];
    assert Queued(st, Target(st, Take(t))) >= 1;
  }

  lemma TargetIsDelivered(st: State, e: Event)
    requires Safe(st) && Enabled(st, e) && !e.Poll?
    ensures Delivered(Apply(st, e), Target(st, e))
  {
    var s := Target(st, e);
    var th := st.threads[e.t];
    assert Delivered(st, s) && Owned(st, s);
    if th.draining == Some(s) { DrainedIsProcessing(st, e.t, s); }
    if e.Take? { TakenIsNotDrained(st, e.t); }
    SumMoves(st, e, Draining(s));
    HistoryFollowsThread(e, th, s, st.slots[s], |st.slots|);
    DeliveredFrame(st, e.t, NextThread(e, th, s, st.slots[s]), s, NextSlot(e, th, s, st.slots[s]),
                   Apply(st, e).runQueue, Apply(st, e).runLock);
  }

  lemma OthersStayDelivered(st: State, e: Event, u: nat)
    requires Safe(st) && Enabled(st, e) && !e.Poll? && u < |st.slots| && u != Target(st, e)
    ensures Delivered(Apply(st, e), u)
  {
    var s := Target(st, e);
    var th := st.threads[e.t];
    assert Delivered(st, u);
    SumStays(st, e, Draining(u));
    OtherSlotsUntouched(e, th, s, st.slots[s], Draining(u));
    KeepsOtherHand(e, th, s, st.slots[s], u);
    KeepsDelivered(st, e.t, NextThread(e, th, s, st.slots[s]), s, NextSlot(e, th, s, st.slots[s]),
                   Apply(st, e).runQueue, Apply(st, e).runLock, u);
  }

  lemma KeepsDelivered(st: State, t: nat, th: Thread, s: nat, slot: Slot, queue: seq<nat>, runLock: Holder, u: nat)
    requires t < |st.threads| && s < |st.slots| && u < |st.slots| && u != s && Delivered(st, u)
    requires Sum(st.threads[t := th], Draining(u)) == Sum(st.threads, Draining(u))
    requires th.draining == Some(u) ==> st.threads[t].draining == Some(u) && th.hand == st.threads[t].hand
    ensures Delivered(State(st.slots[s := slot], queue, runLock, st.threads[t := th]), u)
  {
    var st' := State(st.slots[s := slot], queue, runLock, st.threads[t := th]);
    forall i | 0 <= i < |st'.threads| && st'.threads[i].draining == Some(u)
      ensures HandAgrees(st'.threads[i], st'.slots[u].history)
    {
      assert HandAgrees(st.threads[i], st.slots[u].history);
    }
  }

  lemma DeliveredFrame(st: State, t: nat, th: Thread, s: nat, slot: Slot, queue: seq<nat>, runLock: Holder)
    requires t < |st.threads| && s < |st.slots| && Delivered(st, s)
    requires Sum(st.threads[t := th], Draining(s)) + Weight(Draining(s), st.threads[t])
             == Sum(st.threads, Draining(s)) + Weight(Draining(s), th)
    requires st.threads[t].draining == Some(s) ==>
      Sum(st.threads, Draining(s)) == 1
      && forall u :: 0 <= u < |st.threads| && u != t ==> st.threads[u].draining != Some(s)
    requires slot.history.pushed == slot.history.taken + slot.mailbox
    requires th.draining == Some(s) ==> HandAgrees(th, slot.history)
    requires st.threads[t].draining == Some(s) && th.draining != Some(s) ==> Settled(slot.history)
    requires st.threads[t].draining != Some(s) ==>
      && slot.history.taken == st.slots[s].history.taken
      && slot.history.handled == st.slots[s].history.handled
      && slot.history.called == st.slots[s].history.called
    ensures Delivered(State(st.slots[s := slot], queue, runLock, st.threads[t := th]), s)
  {
  }

  lemma KeepsOtherHand(e: Event, th: Thread, s: nat, slot: Slot, u: nat)
    requires Guard(e, th, s, slot) && u != s
    ensures th.draining == Some(u) ==> NextThread(e, th, s, slot).hand == th.hand
  {
  }

  // ---------------------------------------------------------------- every run

  lemma StepKeepsSafe(st: State, e: Event)
    requires Safe(st) && Enabled(st, e)
    ensures Safe(Apply(st, e))
  {
    StepKeepsShapes(st, e);
    StepKeepsLocks(st, e);
    StepKeepsOwnership(st, e);
    StepKeepsDelivery(st, e);
  }

  lemma InitIsSafe(st: State)
    requires Init(st)
    ensures Safe(st)
  {
    forall s | 0 <= s < |st.slots|
      ensures Owned(st, s) && Delivered(st, s)
    {
      SumZero(st.threads, Draining(s));
      SumZero(st.threads, Wanting(s));
    }
  }

  lemma {:induction false} RunKeepsSafe(st: State, es: seq<Event>)
    requires Safe(st) && ValidRun(st, es)
    ensures Safe(Final(st, es))
    decreases |es|
  {
    if es != [] {
      StepKeepsSafe(st, es[0]);
      RunKeepsSafe(Apply(st, es[0]), es[1..]);
    }
  }

  ghost predicate Reachable(st: State) {
    exists init, es {:trigger ValidRun(init, es)} :: Init(init) && ValidRun(init, es) && Final(init, es) == st
  }

  lemma ReachableIsSafe(st: State)
    requires Reachable(st)
    ensures Safe(st)
  {
    var init, es :| Init(init) && ValidRun(init, es) && Final(init, es) == st;
    InitIsSafe(init);
    RunKeepsSafe(init, es);
  }

  // ---------------------------------------------------------- what it amounts to

  ghost function Drainers(st: State, s: nat): set<nat> {
    set t | 0 <= t < |st.threads| && st.threads[t].draining == Some(s)
  }

  lemma NobodyDrains(st: State, s: nat)
    requires Drainers(st, s) == {}
    ensures Sum(st.threads, Draining(s)) == 0
  {
    forall t | 0 <= t < |st.threads| ensures Weight(Draining(s), st.threads[t]) == 0 {
      assert t !in Drainers(st, s);
    }
    SumZero(st.threads, Draining(s));
  }

  ghost function Wanters(st: State, s: nat): set<nat> {
    set t | 0 <= t < |st.threads| && st.threads[t].pc == WantRun(s)
  }

  /** No session is drained by two workers or queued twice, and never both at once: its places in the run queue, the
      workers draining it and the threads about to queue it are one in all if it is being processed, else none. */
  lemma SingleOwner(st: State, s: nat)
    requires Reachable(st) && s < |st.slots|
    ensures multiset(st.runQueue)[s] + |Drainers(st, s)| + |Wanters(st, s)| == if st.slots[s].processing then 1 else 0
  {
    ReachableIsSafe(st);
    assert Owned(st, s);
    if Sum(st.threads, Draining(s)) == 0 {
      forall t | 0 <= t < |st.threads| ensures t !in Drainers(st, s) { SumAtLeast(st.threads, t, Draining(s)); }
      assert Drainers(st, s) == {};
    } else {
      var t := SumWitness(st.threads, Draining(s));
      DrainedIsProcessing(st, t, s);
      assert Drainers(st, s) == {t};
    }
    if Sum(st.threads, Wanting(s)) == 0 {
      forall t | 0 <= t < |st.threads| ensures t !in Wanters(st, s) { SumAtLeast(st.threads, t, Wanting(s)); }
      assert Wanters(st, s) == {};
    } else {
      var t := SumWitness(st.threads, Wanting(s));
      forall u | 0 <= u < |st.threads| && u != t ensures u !in Wanters(st, s) {
        SumTwo(st.threads, t, u, Wanting(s));
      }
      assert Wanters(st, s) == {t};
    }
  }

  /** The session that a thread is about to queue is in the queue nowhere: the `after` callback runs only for a
      session that is not being processed. */
  lemma NotQueuedYet(st: State, t: nat)
    requires Safe(st) && Enabled(st, RunAppend(t))
    ensures Target(st, RunAppend(t)) !in st.runQueue
  {
    var s := Target(st, RunAppend(t));
    assert Owned(st, s);
    SumAtLeast(st.threads, t, Wanting(s));
    assert s in st.runQueue ==> Queued(st, s) >= 1;
  }

  /** No wakeup is lost: with nothing queued, nobody draining and nobody inside `push_msg`, no message waits. */
  lemma NoLostWakeup(st: State, s: nat)
    requires Reachable(st) && s < |st.slots|
    requires s !in st.runQueue && Drainers(st, s) == {} && st.slots[s].lock.Free?
    ensures st.slots[s].mailbox == [] && !st.slots[s].processing
  {
    ReachableIsSafe(st);
    assert Owned(st, s);
    NobodyDrains(st, s);
    forall t | 0 <= t < |st.threads| ensures Weight(Wanting(s), st.threads[t]) == 0 {
      assert HoldsMailbox(st.threads[t], s) <==> st.slots[s].lock == HeldBy(t);
    }
    SumZero(st.threads, Wanting(s));
  }

  /** Exactly once, first in first out: what was pushed is what was handled, then what the draining worker
      holds, then the mailbox; and the callback has seen exactly the Read messages among those, in order. */
  lemma ExactlyOnceInOrder(st: State, s: nat, t: nat)
    requires Reachable(st) && s < |st.slots| && t < |st.threads| && st.threads[t].draining == Some(s)
    ensures var h := st.slots[s].history;
      && h.pushed == h.handled + InHand(st.threads[t].hand) + st.slots[s].mailbox
      && Reads(h.handled + InHand(st.threads[t].hand)) == h.called + Uncalled(st.threads[t].hand)
  {
    ReachableIsSafe(st);
    assert Delivered(st, s) && HandAgrees(st.threads[t], st.slots[s].history);
  }

  lemma ExactlyOnceUndrained(st: State, s: nat)
    requires Reachable(st) && s < |st.slots| && Drainers(st, s) == {}
    ensures var h := st.slots[s].history;
      h.pushed == h.handled + st.slots[s].mailbox && Reads(h.handled) == h.called
  {
    ReachableIsSafe(st);
    assert Delivered(st, s);
    NobodyDrains(st, s);
  }

  /** The two kinds of locks are held by at most one thread each. */
  lemma MutualExclusion(st: State, t: nat, u: nat, s: nat)
    requires Reachable(st) && t < |st.threads| && u < |st.threads| && t != u && s < |st.slots|
    ensures !(HoldsMailbox(st.threads[t], s) && HoldsMailbox(st.threads[u], s))
    ensures !(HoldsRunQueue(st.threads[t]) && HoldsRunQueue(st.threads[u]))
  {
    ReachableIsSafe(st);
    assert HoldsMailbox(st.threads[t], s) <==> st.slots[s].lock == HeldBy(t);
    assert HoldsMailbox(st.threads[u], s) <==> st.slots[s].lock == HeldBy(u);
    assert HoldsRunQueue(st.threads[t]) <==> st.runLock == HeldBy(t);
    assert HoldsRunQueue(st.threads[u]) <==> st.runLock == HeldBy(u);
  }
}
