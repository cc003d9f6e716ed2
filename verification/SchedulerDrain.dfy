/** Without further outside events the workers empty every mailbox, in a bounded number of steps. */
module SchedulerDrain {
  import opened Wire
  import opened Scheduler
  import opened SchedulerTokens
  import opened SchedulerSafety

  /** The callback of `main.cpp`: at most one reply to an ordinary message, none to a reserved one. */
  predicate Behaved(st: State, e: Event)
    requires Enabled(st, e)
  {
    e.Call? ==> |e.replies| <= if st.threads[e.t].hand.msg.id >= EMIR_MAX then 1 else 0
  }

  /** A step of the server itself that does something; an empty poll leaves the state as it is. */
  predicate Works(st: State, e: Event) {
    Enabled(st, e) && !External(e) && !e.Poll? && Behaved(st, e)
  }

  // ------------------------------------------------------------------- the measure

  function SlotsEffort(slots: seq<Slot>): nat {
    if slots == [] then 0 else MailboxEffort(slots[0].mailbox) + SlotsEffort(slots[1..])
  }

  lemma {:induction false} SlotsEffortUpdate(slots: seq<Slot>, s: nat, slot: Slot)
    requires s < |slots|
    ensures SlotsEffort(slots[s := slot]) + MailboxEffort(slots[s].mailbox)
            == SlotsEffort(slots) + MailboxEffort(slot.mailbox)
  {
    if s == 0 {
      assert slots[0 := slot][1..] == slots[1..];
    } else {
      SlotsEffortUpdate(slots[1..], s - 1, slot);
      assert slots[s := slot][1..] == slots[1..][s - 1 := slot];
    }
  }

  lemma {:induction false} MailboxEffortAppend(msgs: seq<Msg>, m: Msg)
    ensures MailboxEffort(msgs + [m]) == MailboxEffort(msgs) + MailEffort(m)
  {
    if msgs == [] {
      assert [m][1..] == [];
    } else {
      MailboxEffortAppend(msgs[1..], m);
      assert (msgs + [m])[1..] == msgs[1..] + [m];
    }
  }

  lemma ActsEffortCons(a: Act, rest: seq<Act>)
    ensures ActsEffort([a] + rest) == ActEffort(a) + ActsEffort(rest)
  {
    assert ([a] + rest)[1..] == rest;
  }

  lemma CloseEffort(s: nat, error: Option<seq<Byte>>, rest: seq<Act>)
    ensures ActsEffort(Failure(s, error) + ([Push(s, DisconnectMsg())] + rest))
            <= 2 * (PUSH_EFFORT + 6) + ActsEffort(rest)
  {
    var tail := [Push(s, DisconnectMsg())] + rest;
    ActsEffortCons(Push(s, DisconnectMsg()), rest);
    if error.Some? {
      ActsEffortCons(Push(s, ErrorMsg(error.value)), tail);
    } else {
      assert [] + tail == tail;
    }
  }

  lemma CallEffort(s: nat, replies: seq<Msg>)
    requires |replies| <= 1 && forall r :: r in replies ==> r.kind.Write?
    ensures ActsEffort(Pushes(s, replies)) == |replies| * (PUSH_EFFORT + 6 + 1 + 3 * (PUSH_EFFORT + 6))
  {
    if replies != [] {
      assert replies[0] in replies;
      assert Pushes(s, replies) == [Push(s, replies[0])] + [];
      ActsEffortCons(Push(s, replies[0]), []);
    }
  }

  lemma WriteEffort(s: nat, text: seq<Byte>)
    ensures ActsEffort([Push(s, ErrorMsg(text)), Close(s)]) == 1 + 3 * (PUSH_EFFORT + 6)
  {
    assert [Push(s, ErrorMsg(text)), Close(s)] == [Push(s, ErrorMsg(text))] + ([Close(s)] + []);
    ActsEffortCons(Close(s), []);
    ActsEffortCons(Push(s, ErrorMsg(text)), [Close(s)] + []);
  }

  /** Upper bound on the working steps left: pending pushes and closes, messages, run-queue entries. */
  function EffortLeft(st: State): nat {
    Sum(st.threads, Effort) + SlotsEffort(st.slots) + 6 * |st.runQueue|
  }

  /** The acting thread and its target lose more than the queue gains. */
  lemma LocalEffortDrops(e: Event, th: Thread, s: nat, slot: Slot)
    requires Guard(e, th, s, slot) && !External(e) && !e.Poll?
    requires e.Call? ==> |e.replies| <= if th.hand.msg.id >= EMIR_MAX then 1 else 0
    ensures ThreadEffort(NextThread(e, th, s, slot)) + MailboxEffort(NextSlot(e, th, s, slot).mailbox)
              + (if e.RunAppend? then 6 else 0)
            < ThreadEffort(th) + MailboxEffort(slot.mailbox) + (if e.Take? then 6 else 0)
  {
    match e {
      case Link(_) => MailboxEffortAppend(slot.mailbox, th.todo[0].msg);
      case CloseSocket(_, error) => CloseEffort(s, error, th.todo[1..]);
      case Call(_, replies) => CallEffort(s, replies);
      case WriteSocket(_, error) =>
        if error.Some? {
          WriteEffort(s, error.value);
        }
      case _ =>
    }
  }

  lemma WorkLowersEffort(st: State, e: Event)
    requires Works(st, e)
    ensures EffortLeft(Apply(st, e)) < EffortLeft(st)
  {
    var s := Target(st, e);
    SumMoves(st, e, Effort);
    SlotsEffortUpdate(st.slots, s, NextSlot(e, st.threads[e.t], s, st.slots[s]));
    LocalEffortDrops(e, st.threads[e.t], s, st.slots[s]);
  }

  // -------------------------------------------------------------------- progress

  ghost predicate AllLocksFree(st: State) {
    st.runLock.Free? && forall s :: 0 <= s < |st.slots| ==> st.slots[s].lock.Free?
  }

  /** A step of a thread that holds a lock. */
  predicate MovesLocks(e: Event) {
    e.After? || e.RunAppend? || e.RunRelease? || e.Release? || e.TakeRelease? || e.PopRelease?
  }

  lemma RunLockCanMoveOn(st: State, t: nat) returns (e: Event)
    requires Safe(st) && t < |st.threads| && st.runLock == HeldBy(t)
    ensures Works(st, e) && MovesLocks(e)
  {
    assert HoldsRunQueue(st.threads[t]) <==> st.runLock == HeldBy(t);
    assert ThreadShape(st.threads[t], |st.slots|);
    e := if st.threads[t].pc.RunHeld? then RunRelease(t) else TakeRelease(t);
  }

  lemma MailboxLockCanMoveOn(st: State, t: nat, s: nat) returns (e: Event)
    requires Safe(st) && t < |st.threads| && s < |st.slots| && st.slots[s].lock == HeldBy(t) && st.runLock.Free?
    ensures Works(st, e) && MovesLocks(e)
  {
    assert HoldsMailbox(st.threads[t], s) <==> st.slots[s].lock == HeldBy(t);
    assert HoldsRunQueue(st.threads[t]) <==> st.runLock == HeldBy(t);
    e := match st.threads[t].pc
         case Linked(_) => After(t)
         case WantRun(_) => RunAppend(t)
         case PopHeld(_) => PopRelease(t)
         case _ => Release(t);
  }

  /** The lock order never deadlocks: some thread that holds a lock can go on. */
  lemma HeldLockCanMoveOn(st: State) returns (e: Event)
    requires Safe(st) && !AllLocksFree(st)
    ensures Works(st, e) && MovesLocks(e)
  {
    if st.runLock.HeldBy? {
      e := RunLockCanMoveOn(st, st.runLock.thread);
    } else {
      var s: nat :| s < |st.slots| && !st.slots[s].lock.Free?;
      e := MailboxLockCanMoveOn(st, st.slots[s].lock.thread, s);
    }
  }

  lemma NobodyIsLocked(st: State, t: nat)
    requires Safe(st) && AllLocksFree(st) && t < |st.threads|
    ensures st.threads[t].pc.Ready?
  {
    var th := st.threads[t];
    assert ThreadShape(th, |st.slots|);
    assert HoldsRunQueue(th) <==> st.runLock == HeldBy(t);
    var s := if th.pc.Ready? || th.pc.TakeHeld? then 0 else th.pc.slot;
    if s < |st.slots| {
      assert HoldsMailbox(th, s) <==> st.slots[s].lock == HeldBy(t);
    }
  }

  /** A worker draining a session can always go on when no lock is held. */
  lemma DrainerCanMoveOn(st: State, t: nat) returns (e: Event)
    requires Safe(st) && AllLocksFree(st) && t < |st.threads| && st.threads[t].draining.Some?
    ensures Works(st, e)
  {
    NobodyIsLocked(st, t);
    var th := st.threads[t];
    assert ThreadShape(th, |st.slots|);
    if th.todo != [] {
      assert th.todo[0] in th.todo;
      e := if th.todo[0].Push? then Link(t) else CloseSocket(t, None);
    } else {
      e := match th.hand
           case Empty => Pop(t)
           case Fresh(_) => Mark(t)
           case Marked(m) => if m.kind.Read? then Call(t, []) else WriteSocket(t, None)
           case Busy(_) => Finish(t);
    }
  }

  /** While a message waits, some thread can do something other than poll. */
  lemma WaitingMessageMeansWork(st: State, s: nat, worker: nat) returns (e: Event)
    requires Safe(st) && s < |st.slots| && st.slots[s].mailbox != []
    requires worker < |st.threads| && st.threads[worker].role.Worker?
    ensures Works(st, e)
  {
    if !AllLocksFree(st) {
      e := HeldLockCanMoveOn(st);
    } else if st.threads[worker].draining.Some? {
      e := DrainerCanMoveOn(st, worker);
    } else if st.runQueue != [] {
      NobodyIsLocked(st, worker);
      assert ThreadShape(st.threads[worker], |st.slots|);
      e := Take(worker);
    } else {
      assert Owned(st, s);
      forall t | 0 <= t < |st.threads| ensures Weight(Wanting(s), st.threads[t]) == 0 { NobodyIsLocked(st, t); }
      SumZero(st.threads, Wanting(s));
      var t := SumWitness(st.threads, Draining(s));
      e := DrainerCanMoveOn(st, t);
    }
  }

  // ------------------------------------------------------------------------ runs

  /** A run of the server alone: no completion arrives and the callback behaves. */
  predicate QuietRun(st: State, es: seq<Event>)
    decreases |es|
  {
    es == [] || (Enabled(st, es[0]) && (Works(st, es[0]) || es[0].Poll?) && QuietRun(Apply(st, es[0]), es[1..]))
  }

  lemma {:induction false} QuietIsValid(st: State, es: seq<Event>)
    requires QuietRun(st, es)
    ensures ValidRun(st, es)
    decreases |es|
  {
    if es != [] { QuietIsValid(Apply(st, es[0]), es[1..]); }
  }

  lemma QuietCons(st: State, e: Event, es: seq<Event>)
    requires Enabled(st, e) && (Works(st, e) || e.Poll?) && QuietRun(Apply(st, e), es)
    ensures QuietRun(st, [e] + es)
  {
    assert ([e] + es)[0] == e && ([e] + es)[1..] == es;
  }

  lemma {:induction false} QuietConcat(st: State, es: seq<Event>, fs: seq<Event>)
    requires QuietRun(st, es) && ValidRun(st, es) && QuietRun(Final(st, es), fs)
    ensures QuietRun(st, es + fs)
    decreases |es|
  {
    if es == [] {
      assert es + fs == fs;
    } else {
      QuietConcat(Apply(st, es[0]), es[1..], fs);
      ConsAppend(es, fs);
      QuietCons(st, es[0], es[1..] + fs);
    }
  }

  /** Number of steps that are not empty polls. */
  function WorkingSteps(es: seq<Event>): nat {
    if es == [] then 0 else (if es[0].Poll? then 0 else 1) + WorkingSteps(es[1..])
  }

  /** Nobody can do anything but poll. */
  ghost predicate AtRest(st: State) {
    forall e :: !Works(st, e)
  }

  ghost predicate Drained(st: State) {
    forall s :: 0 <= s < |st.slots| ==>
      st.slots[s].mailbox == [] && st.slots[s].history.pushed == st.slots[s].history.handled
  }

  /** However the threads are scheduled, a run of the server alone does at most `EffortLeft` working steps. */
  lemma {:induction false} DrainingIsBounded(st: State, es: seq<Event>)
    requires QuietRun(st, es)
    ensures ValidRun(st, es) && EffortLeft(Final(st, es)) + WorkingSteps(es) <= EffortLeft(st)
    decreases |es|
  {
    QuietIsValid(st, es);
    if es != [] {
      if !es[0].Poll? { WorkLowersEffort(st, es[0]); }
      DrainingIsBounded(Apply(st, es[0]), es[1..]);
    }
  }

  /** When nothing but polling is left to do, every message ever pushed has been handled. */
  lemma RestMeansDrained(st: State, worker: nat)
    requires Safe(st) && AtRest(st)
    requires worker < |st.threads| && st.threads[worker].role.Worker?
    ensures Drained(st)
  {
    if !AllLocksFree(st) {
      var e := HeldLockCanMoveOn(st);
      assert false;
    }
    forall s | 0 <= s < |st.slots|
      ensures st.slots[s].mailbox == [] && st.slots[s].history.pushed == st.slots[s].history.handled
    {
      assert Delivered(st, s);
      if st.slots[s].mailbox != [] {
        var e := WaitingMessageMeansWork(st, s, worker);
        assert false;
      }
      if Sum(st.threads, Draining(s)) > 0 {
        var t := SumWitness(st.threads, Draining(s));
        var e := DrainerCanMoveOn(st, t);
        assert false;
      }
      assert st.slots[s].history.taken + [] == st.slots[s].history.taken;
    }
  }

  /** From every reachable state the server can drain itself; together with `DrainingIsBounded` and
      `RestMeansDrained`, it does so however its threads are scheduled. */
  lemma DrainExists(st: State, worker: nat) returns (es: seq<Event>)
    requires Reachable(st) && worker < |st.threads| && st.threads[worker].role.Worker?
    ensures QuietRun(st, es) && ValidRun(st, es) && AtRest(Final(st, es)) && Drained(Final(st, es))
  {
    ReachableIsSafe(st);
    es := RunToRest(st, worker);
  }

  lemma {:induction false} RunToRest(st: State, worker: nat) returns (es: seq<Event>)
    requires Safe(st) && worker < |st.threads| && st.threads[worker].role.Worker?
    ensures QuietRun(st, es) && ValidRun(st, es) && AtRest(Final(st, es)) && Drained(Final(st, es))
    decreases EffortLeft(st)
  {
    if e :| Works(st, e) {
      WorkLowersEffort(st, e);
      StepKeepsSafe(st, e);
      RolesStay(st, e, worker);
      var rest := RunToRest(Apply(st, e), worker);
      es := [e] + rest;
      assert es[1..] == rest;
    } else {
      es := [];
      RestMeansDrained(st, worker);
    }
  }

  lemma RoleStays(e: Event, th: Thread, s: nat, slot: Slot)
    requires Guard(e, th, s, slot)
    ensures NextThread(e, th, s, slot).role == th.role
  {
  }

  lemma RolesStay(st: State, e: Event, t: nat)
    requires Enabled(st, e) && t < |st.threads|
    ensures |Apply(st, e).threads| == |st.threads| && Apply(st, e).threads[t].role == st.threads[t].role
  {
    if !e.Poll? { RoleStays(e, st.threads[e.t], Target(st, e), st.slots[Target(st, e)]); }
  }
}
