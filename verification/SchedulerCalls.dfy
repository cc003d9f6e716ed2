/** Whole calls as runs of the scheduler: what one thread does from the start of a call to its end while the others
    stand still, wherever they are, and the run lock is free. */
module SchedulerCalls {
  import opened Wire
  import opened Scheduler
  import opened SchedulerDrain

  // ------------------------------------------------------------------ chaining runs

  /** The events lead from one state to the other, and none of them is an outside completion. */
  predicate Moves(a: State, es: seq<Event>, b: State) {
    QuietRun(a, es) && ValidRun(a, es) && Final(a, es) == b
  }

  lemma MovesOn(a: State, es: seq<Event>, b: State, fs: seq<Event>, c: State)
    requires Moves(a, es, b) && Moves(b, fs, c)
    ensures Moves(a, es + fs, c)
  {
    ValidConcat(a, es, fs);
    QuietConcat(a, es, fs);
  }

  lemma OneMove(a: State, e: Event)
    requires Works(a, e)
    ensures Moves(a, [e], Apply(a, e))
  {
    assert [e][1..] == [];
    assert QuietRun(Apply(a, e), []);
  }

  lemma Then(a: State, es: seq<Event>, b: State, e: Event)
    requires Moves(a, es, b) && Works(b, e)
    ensures Moves(a, es + [e], Apply(b, e))
  {
    OneMove(b, e);
    MovesOn(a, es, b, [e], Apply(b, e));
  }

  lemma Nowhere(a: State)
    ensures Moves(a, [], a)
  {
  }

  /** A run that does something leaves less to do. */
  lemma MovesLowerEffort(a: State, es: seq<Event>, b: State)
    requires Moves(a, es, b)
    ensures EffortLeft(b) + WorkingSteps(es) <= EffortLeft(a)
  {
    DrainingIsBounded(a, es);
  }

  lemma {:induction false} UnclosedIsTimely(st: State, es: seq<Event>)
    requires ValidRun(st, es) && forall e :: e in es ==> !e.CloseSocket?
    ensures TimelyRun(st, es)
    decreases |es|
  {
    if es != [] {
      assert es[0] in es;
      UnclosedIsTimely(Apply(st, es[0]), es[1..]);
    }
  }

  lemma {:induction false} TimelyConcat(st: State, es: seq<Event>, fs: seq<Event>)
    requires ValidRun(st, es) && TimelyRun(st, es) && ValidRun(Final(st, es), fs) && TimelyRun(Final(st, es), fs)
    ensures ValidRun(st, es + fs) && TimelyRun(st, es + fs)
    decreases |es|
  {
    ValidConcat(st, es, fs);
    if es == [] {
      assert es + fs == fs;
    } else {
      ConsAppend(es, fs);
      assert (es + fs)[0] == es[0] && (es + fs)[1..] == es[1..] + fs;
      TimelyConcat(Apply(st, es[0]), es[1..], fs);
    }
  }

  // ------------------------------------------------------------------ single steps

  /** The state in which thread `t` is at `th`, the other threads are as in `threads` and the run queue is unlocked. */
  function At(slots: seq<Slot>, q: seq<nat>, threads: seq<Thread>, t: nat, th: Thread): State
    requires t < |threads|
  {
    State(slots, q, Free, threads[t := th])
  }

  /** A step that leaves the run queue alone. */
  predicate Local(e: Event) {
    !External(e) && !e.Poll? && !e.RunAppend? && !e.RunRelease? && !e.Take? && !e.TakeRelease?
  }

  lemma LocalStep(slots: seq<Slot>, q: seq<nat>, threads: seq<Thread>, t: nat, th: Thread, e: Event, s: nat,
                  slot: Slot, next: Thread)
    requires t < |threads| && e.t == t && Local(e) && s < |slots|
    requires Guard(e, th, s, slots[s]) && Target(At(slots, q, threads, t, th), e) == s
    requires Behaved(At(slots, q, threads, t, th), e)
    requires slot == NextSlot(e, th, s, slots[s]) && next == NextThread(e, th, s, slots[s])
    ensures Works(At(slots, q, threads, t, th), e)
    ensures Apply(At(slots, q, threads, t, th), e) == At(slots[s := slot], q, threads, t, next)
  {
  }

  lemma QueueSteps(slots: seq<Slot>, q: seq<nat>, threads: seq<Thread>, t: nat, th: Thread, s: nat)
    requires t < |threads| && th.pc == WantRun(s) && s < |slots|
    ensures Moves(At(slots, q, threads, t, th), [RunAppend(t)] + [RunRelease(t)],
                  At(slots, q + [s], threads, t, th.(pc := Unlock(s))))
  {
    var st := At(slots, q, threads, t, th);
    var held := At(slots, q + [s], threads, t, th.(pc := RunHeld(s))).(runLock := HeldBy(t));
    assert slots[s := slots[s]] == slots;
    assert Apply(st, RunAppend(t)) == held;
    OneMove(st, RunAppend(t));
    assert Apply(held, RunRelease(t)) == At(slots, q + [s], threads, t, th.(pc := Unlock(s)));
    Then(st, [RunAppend(t)], held, RunRelease(t));
  }

  // ---------------------------------------------------------------------- push_msg

  /** A push as a whole: the message is last in the mailbox, and an idle session is queued. */
  function Pushed(slot: Slot, m: Msg): Slot {
    slot.(mailbox := slot.mailbox + [m], processing := true,
          history := slot.history.(pushed := slot.history.pushed + [m]))
  }

  /** The run queue after a push onto slot `s`. */
  function QueueAfter(q: seq<nat>, slot: Slot, s: nat): seq<nat> { if slot.processing then q else q + [s] }

  function Linking(slot: Slot, t: nat, m: Msg): Slot {
    Pushed(slot, m).(processing := slot.processing, lock := HeldBy(t))
  }

  lemma LinkSteps(slots: seq<Slot>, q: seq<nat>, threads: seq<Thread>, t: nat, th: Thread, s: nat, m: Msg)
    requires t < |threads| && s < |slots| && th.pc.Ready? && slots[s].lock.Free?
    requires th.todo != [] && th.todo[0] in {Push(s, m), Greet(s, m)}
    ensures Moves(At(slots, q, threads, t, th), [Link(t)] + [After(t)],
                  At(slots[s := Pushed(slots[s], m).(lock := HeldBy(t))], q, threads, t,
                     th.(pc := if slots[s].processing then Unlock(s) else WantRun(s), todo := th.todo[1..])))
  {
    var st := At(slots, q, threads, t, th);
    var th1 := th.(pc := Linked(s), todo := th.todo[1..]);
    var slots1 := slots[s := Linking(slots[s], t, m)];
    LocalStep(slots, q, threads, t, th, Link(t), s, Linking(slots[s], t, m), th1);
    OneMove(st, Link(t));
    LocalStep(slots1, q, threads, t, th1, After(t), s, Pushed(slots[s], m).(lock := HeldBy(t)),
              th1.(pc := if slots[s].processing then Unlock(s) else WantRun(s)));
    Then(st, [Link(t)], At(slots1, q, threads, t, th1), After(t));
    assert slots1[s := Pushed(slots[s], m).(lock := HeldBy(t))] == slots[s := Pushed(slots[s], m).(lock := HeldBy(t))];
  }

  lemma ReleaseStep(slots: seq<Slot>, q: seq<nat>, threads: seq<Thread>, t: nat, th: Thread, s: nat, slot: Slot)
    requires t < |threads| && s < |slots| && th.pc == Unlock(s) && slot == slots[s].(lock := Free)
    ensures Works(At(slots, q, threads, t, th), Release(t))
    ensures Apply(At(slots, q, threads, t, th), Release(t))
            == At(slots[s := slot], q, threads, t, th.(pc := Ready))
  {
    LocalStep(slots, q, threads, t, th, Release(t), s, slot, th.(pc := Ready));
  }

  /** The five locked steps of `push_msg`, or three if the session is being processed. */
  lemma PushMoves(slots: seq<Slot>, q: seq<nat>, threads: seq<Thread>, t: nat, th: Thread, s: nat, m: Msg)
      returns (es: seq<Event>)
    requires t < |threads| && s < |slots| && th.pc.Ready? && slots[s].lock.Free?
    requires th.todo != [] && th.todo[0] in {Push(s, m), Greet(s, m)}
    ensures es != [] && forall e :: e in es ==> !e.CloseSocket?
    ensures Moves(At(slots, q, threads, t, th), es,
                  At(slots[s := Pushed(slots[s], m)], QueueAfter(q, slots[s], s), threads, t,
                     th.(todo := th.todo[1..])))
  {
    var st := At(slots, q, threads, t, th);
    var slots1 := slots[s := Pushed(slots[s], m).(lock := HeldBy(t))];
    var unlock := th.(pc := Unlock(s), todo := th.todo[1..]);
    var q1 := QueueAfter(q, slots[s], s);
    LinkSteps(slots, q, threads, t, th, s, m);
    es := [Link(t)] + [After(t)];
    if !slots[s].processing {
      QueueSteps(slots1, q, threads, t, unlock.(pc := WantRun(s)), s);
      MovesOn(st, es, At(slots1, q, threads, t, unlock.(pc := WantRun(s))), [RunAppend(t)] + [RunRelease(t)],
              At(slots1, q1, threads, t, unlock));
      es := es + ([RunAppend(t)] + [RunRelease(t)]);
    }
    ReleaseStep(slots1, q1, threads, t, unlock, s, Pushed(slots[s], m));
    Then(st, es, At(slots1, q1, threads, t, unlock), Release(t));
    es := es + [Release(t)];
    assert slots1[s := Pushed(slots[s], m)] == slots[s := Pushed(slots[s], m)];
  }

  // ---------------------------------------------------------------------- the worker

  const IDLE := Thread(Worker, Ready, [], None, Empty)

  function Drainer(s: nat, todo: seq<Act>, hand: Hand): Thread {
    Thread(Worker, Ready, todo, Some(s), hand)
  }

  lemma TakeMoves(slots: seq<Slot>, q: seq<nat>, threads: seq<Thread>, t: nat)
    requires t < |threads| && q != [] && q[0] < |slots|
    ensures Moves(At(slots, q, threads, t, IDLE), [Take(t)] + [TakeRelease(t)],
                  At(slots, q[1..], threads, t, Drainer(q[0], [], Empty)))
  {
    var st := At(slots, q, threads, t, IDLE);
    var s := q[0];
    var held := At(slots, q[1..], threads, t, Drainer(s, [], Empty).(pc := TakeHeld)).(runLock := HeldBy(t));
    assert slots[s := slots[s]] == slots;
    assert Apply(st, Take(t)) == held;
    OneMove(st, Take(t));
    assert Apply(held, TakeRelease(t)) == At(slots, q[1..], threads, t, Drainer(s, [], Empty));
    Then(st, [Take(t)], held, TakeRelease(t));
  }

  function Popped(slot: Slot): Slot
    requires slot.mailbox != []
  {
    slot.(mailbox := slot.mailbox[1..],
          history := slot.history.(taken := slot.history.taken + [slot.mailbox[0]]))
  }

  /** The dequeue that finds nothing. */
  function Left(slot: Slot): Slot {
    if slot.status == Stop then
      slot.(processing := false, status := UseLess,
            history := slot.history.(recycles := slot.history.recycles + 1))
    else slot.(processing := false)
  }

  lemma PopSteps(slots: seq<Slot>, q: seq<nat>, threads: seq<Thread>, t: nat, s: nat, slot: Slot, next: Thread)
    requires t < |threads| && s < |slots| && slots[s].lock.Free?
    requires slot == if slots[s].mailbox == [] then Left(slots[s]) else Popped(slots[s])
    requires next == if slots[s].mailbox == [] then IDLE else Drainer(s, [], Fresh(slots[s].mailbox[0]))
    ensures var held := At(slots[s := slot.(lock := HeldBy(t))], q, threads, t, next.(pc := PopHeld(s)));
      Moves(At(slots, q, threads, t, Drainer(s, [], Empty)), [Pop(t)], held)
  {
    var th := Drainer(s, [], Empty);
    LocalStep(slots, q, threads, t, th, Pop(t), s, slot.(lock := HeldBy(t)), next.(pc := PopHeld(s)));
    OneMove(At(slots, q, threads, t, th), Pop(t));
  }

  /** A locked dequeue, with or without a message. */
  lemma PopMoves(slots: seq<Slot>, q: seq<nat>, threads: seq<Thread>, t: nat, s: nat)
    requires t < |threads| && s < |slots| && slots[s].lock.Free?
    ensures Moves(At(slots, q, threads, t, Drainer(s, [], Empty)), [Pop(t)] + [PopRelease(t)],
                  if slots[s].mailbox == [] then At(slots[s := Left(slots[s])], q, threads, t, IDLE)
                  else At(slots[s := Popped(slots[s])], q, threads, t, Drainer(s, [], Fresh(slots[s].mailbox[0]))))
  {
    var slot := if slots[s].mailbox == [] then Left(slots[s]) else Popped(slots[s]);
    var next := if slots[s].mailbox == [] then IDLE else Drainer(s, [], Fresh(slots[s].mailbox[0]));
    var slots1 := slots[s := slot.(lock := HeldBy(t))];
    PopSteps(slots, q, threads, t, s, slot, next);
    LocalStep(slots1, q, threads, t, next.(pc := PopHeld(s)), PopRelease(t), s, slot, next);
    assert slots1[s := slot] == slots[s := slot];
    Then(At(slots, q, threads, t, Drainer(s, [], Empty)), [Pop(t)],
         At(slots1, q, threads, t, next.(pc := PopHeld(s))), PopRelease(t));
  }

  /** The slot once the worker has looked at the message. */
  function Noticed(slot: Slot, m: Msg): Slot {
    if IsDisconnect(m) then slot.(status := Stop) else slot
  }

  lemma MarkMoves(slots: seq<Slot>, q: seq<nat>, threads: seq<Thread>, t: nat, s: nat, m: Msg)
    requires t < |threads| && s < |slots|
    ensures Moves(At(slots, q, threads, t, Drainer(s, [], Fresh(m))), [Mark(t)],
                  At(slots[s := Noticed(slots[s], m)], q, threads, t, Drainer(s, [], Marked(m))))
  {
    LocalStep(slots, q, threads, t, Drainer(s, [], Fresh(m)), Mark(t), s, Noticed(slots[s], m),
              Drainer(s, [], Marked(m)));
    OneMove(At(slots, q, threads, t, Drainer(s, [], Fresh(m))), Mark(t));
  }

  function Called(slot: Slot, m: Msg): Slot {
    slot.(history := slot.history.(called := slot.history.called + [m]))
  }

  lemma CallMoves(slots: seq<Slot>, q: seq<nat>, threads: seq<Thread>, t: nat, s: nat, m: Msg, replies: seq<Msg>)
    requires t < |threads| && s < |slots| && m.kind.Read? && forall r :: r in replies ==> r.kind.Write?
    requires |replies| <= if m.id >= EMIR_MAX then 1 else 0
    ensures Moves(At(slots, q, threads, t, Drainer(s, [], Marked(m))), [Call(t, replies)],
                  At(slots[s := Called(slots[s], m)], q, threads, t, Drainer(s, Pushes(s, replies), Busy(m))))
  {
    LocalStep(slots, q, threads, t, Drainer(s, [], Marked(m)), Call(t, replies), s, Called(slots[s], m),
              Drainer(s, Pushes(s, replies), Busy(m)));
    OneMove(At(slots, q, threads, t, Drainer(s, [], Marked(m))), Call(t, replies));
  }

  lemma WriteMoves(slots: seq<Slot>, q: seq<nat>, threads: seq<Thread>, t: nat, s: nat, m: Msg,
                   error: Option<seq<Byte>>)
    requires t < |threads| && s < |slots| && m.kind.Write?
    ensures Moves(At(slots, q, threads, t, Drainer(s, [], Marked(m))), [WriteSocket(t, error)],
                  At(slots, q, threads, t,
                     Drainer(s, if error.Some? then [Push(s, ErrorMsg(error.value)), Close(s)] else [], Busy(m))))
  {
    var th := Drainer(s, [], Marked(m));
    LocalStep(slots, q, threads, t, th, WriteSocket(t, error), s, slots[s],
              NextThread(WriteSocket(t, error), th, s, slots[s]));
    OneMove(At(slots, q, threads, t, th), WriteSocket(t, error));
    assert slots[s := slots[s]] == slots;
  }

  function Finished(slot: Slot, m: Msg): Slot {
    slot.(history := slot.history.(handled := slot.history.handled + [m]))
  }

  lemma FinishMoves(slots: seq<Slot>, q: seq<nat>, threads: seq<Thread>, t: nat, s: nat, m: Msg)
    requires t < |threads| && s < |slots|
    ensures Moves(At(slots, q, threads, t, Drainer(s, [], Busy(m))), [Finish(t)],
                  At(slots[s := Finished(slots[s], m)], q, threads, t, Drainer(s, [], Empty)))
  {
    LocalStep(slots, q, threads, t, Drainer(s, [], Busy(m)), Finish(t), s, Finished(slots[s], m),
              Drainer(s, [], Empty));
    OneMove(At(slots, q, threads, t, Drainer(s, [], Busy(m))), Finish(t));
  }

  // ------------------------------------------------------------------------ _close

  lemma CloseMoves(slots: seq<Slot>, q: seq<nat>, threads: seq<Thread>, t: nat, th: Thread, s: nat,
                   error: Option<seq<Byte>>)
    requires t < |threads| && s < |slots| && th.pc.Ready? && th.todo != [] && th.todo[0] == Close(s)
    ensures Moves(At(slots, q, threads, t, th), [CloseSocket(t, error)],
            At(slots[s := slots[s].(open := false)], q, threads, t,
               th.(todo := if slots[s].open then Failure(s, error) + ([Push(s, DisconnectMsg())] + th.todo[1..])
                           else th.todo[1..])))
  {
    LocalStep(slots, q, threads, t, th, CloseSocket(t, error), s, slots[s].(open := false),
              NextThread(CloseSocket(t, error), th, s, slots[s]));
    OneMove(At(slots, q, threads, t, th), CloseSocket(t, error));
  }

  /** The messages a close pushes after closing the socket: an Error if that failed, then the Disconnect. */
  function SaidGoodbye(slot: Slot, error: Option<seq<Byte>>): Slot {
    Pushed(if error.Some? then Pushed(slot, ErrorMsg(error.value)) else slot, DisconnectMsg())
  }

  /** The messages a close pushes. */
  function Goodbyes(error: Option<seq<Byte>>): seq<Msg> {
    if error.Some? then [ErrorMsg(error.value), DisconnectMsg()] else [DisconnectMsg()]
  }

  /** The messages a write pushes: none if it succeeds, else an Error and, if the socket was open, those of a close. */
  function WriteOutcome(open: bool, error: Option<seq<Byte>>, closing: Option<seq<Byte>>): seq<Msg> {
    if error.None? then [] else [ErrorMsg(error.value)] + if open then Goodbyes(closing) else []
  }

  lemma GoodbyeMoves(slots: seq<Slot>, q: seq<nat>, threads: seq<Thread>, t: nat, th: Thread, s: nat,
                     error: Option<seq<Byte>>, rest: seq<Act>) returns (es: seq<Event>)
    requires t < |threads| && s < |slots| && th.pc.Ready? && slots[s].lock.Free?
    requires th.todo == Failure(s, error) + ([Push(s, DisconnectMsg())] + rest)
    ensures Moves(At(slots, q, threads, t, th), es,
                  At(slots[s := SaidGoodbye(slots[s], error)], QueueAfter(q, slots[s], s), threads, t,
                     th.(todo := rest)))
  {
    var tail := [Push(s, DisconnectMsg())] + rest;
    assert tail[1..] == rest;
    if error.None? {
      assert th.todo == tail;
      es := PushMoves(slots, q, threads, t, th, s, DisconnectMsg());
    } else {
      assert th.todo[1..] == tail;
      var m := ErrorMsg(error.value);
      var slots1 := slots[s := Pushed(slots[s], m)];
      es := PushMoves(slots, q, threads, t, th, s, m);
      var fs := PushMoves(slots1, QueueAfter(q, slots[s], s), threads, t, th.(todo := tail), s, DisconnectMsg());
      assert slots1[s := Pushed(slots1[s], DisconnectMsg())] == slots[s := SaidGoodbye(slots[s], error)];
      MovesOn(At(slots, q, threads, t, th), es,
              At(slots1, QueueAfter(q, slots[s], s), threads, t, th.(todo := tail)), fs,
              At(slots[s := SaidGoodbye(slots[s], error)], QueueAfter(q, slots[s], s), threads, t, th.(todo := rest)));
      es := es + fs;
    }
  }

  /** The slot after `_close`: only the first close of a socket pushes a Disconnect. */
  function HungUp(slot: Slot, error: Option<seq<Byte>>): Slot {
    if slot.open then SaidGoodbye(slot.(open := false), error) else slot
  }

  function QueueHungUp(q: seq<nat>, slot: Slot, s: nat): seq<nat> {
    if slot.open then QueueAfter(q, slot, s) else q
  }

  lemma HangUpMoves(slots: seq<Slot>, q: seq<nat>, threads: seq<Thread>, t: nat, th: Thread, s: nat,
                    error: Option<seq<Byte>>) returns (es: seq<Event>)
    requires t < |threads| && s < |slots| && th.pc.Ready? && slots[s].lock.Free?
    requires th.todo != [] && th.todo[0] == Close(s)
    ensures Moves(At(slots, q, threads, t, th), es,
                  At(slots[s := HungUp(slots[s], error)], QueueHungUp(q, slots[s], s), threads, t,
                     th.(todo := th.todo[1..])))
  {
    CloseMoves(slots, q, threads, t, th, s, error);
    es := [CloseSocket(t, error)];
    if slots[s].open {
      var slots1 := slots[s := slots[s].(open := false)];
      var th1 := th.(todo := Failure(s, error) + ([Push(s, DisconnectMsg())] + th.todo[1..]));
      var fs := GoodbyeMoves(slots1, q, threads, t, th1, s, error, th.todo[1..]);
      assert slots1[s := SaidGoodbye(slots1[s], error)] == slots[s := HungUp(slots[s], error)];
      MovesOn(At(slots, q, threads, t, th), es, At(slots1, q, threads, t, th1), fs,
              At(slots[s := HungUp(slots[s], error)], QueueHungUp(q, slots[s], s), threads, t,
                 th.(todo := th.todo[1..])));
      es := es + fs;
    }
  }

  /** The slot after `write_msg`: a failed write pushes an Error and closes. */
  function Written(slot: Slot, error: Option<seq<Byte>>, closing: Option<seq<Byte>>): Slot {
    if error.Some? then HungUp(Pushed(slot, ErrorMsg(error.value)), closing) else slot
  }

  lemma WriteCallMoves(slots: seq<Slot>, q: seq<nat>, threads: seq<Thread>, t: nat, s: nat, m: Msg,
                       error: Option<seq<Byte>>, closing: Option<seq<Byte>>) returns (es: seq<Event>)
    requires t < |threads| && s < |slots| && slots[s].lock.Free? && slots[s].processing && m.kind.Write?
    ensures Moves(At(slots, q, threads, t, Drainer(s, [], Marked(m))), es,
                  At(slots[s := Written(slots[s], error, closing)], q, threads, t, Drainer(s, [], Busy(m))))
  {
    WriteMoves(slots, q, threads, t, s, m, error);
    es := [WriteSocket(t, error)];
    if error.Some? {
      var th := Drainer(s, [Push(s, ErrorMsg(error.value)), Close(s)], Busy(m));
      var th1 := Drainer(s, [Close(s)], Busy(m));
      assert th.todo[1..] == th1.todo && th1.todo[1..] == [];
      var slots1 := slots[s := Pushed(slots[s], ErrorMsg(error.value))];
      var fs := PushMoves(slots, q, threads, t, th, s, ErrorMsg(error.value));
      var gs := HangUpMoves(slots1, q, threads, t, th1, s, closing);
      assert slots1[s := HungUp(slots1[s], closing)] == slots[s := Written(slots[s], error, closing)];
      var start := At(slots, q, threads, t, Drainer(s, [], Marked(m)));
      MovesOn(start, es, At(slots, q, threads, t, th), fs, At(slots1, q, threads, t, th1));
      MovesOn(start, es + fs, At(slots1, q, threads, t, th1), gs,
              At(slots[s := Written(slots[s], error, closing)], q, threads, t, Drainer(s, [], Busy(m))));
      es := es + fs + gs;
    } else {
      assert slots[s := slots[s]] == slots;
    }
  }

  /** The slot after the callback and the push of its reply, if any. */
  function Answered(slot: Slot, m: Msg, replies: seq<Msg>): Slot {
    if replies == [] then Called(slot, m) else Pushed(Called(slot, m), replies[0])
  }

  lemma AnswerMoves(slots: seq<Slot>, q: seq<nat>, threads: seq<Thread>, t: nat, s: nat, m: Msg, replies: seq<Msg>)
      returns (es: seq<Event>)
    requires t < |threads| && s < |slots| && slots[s].lock.Free? && slots[s].processing && m.kind.Read?
    requires |replies| <= (if m.id >= EMIR_MAX then 1 else 0) && forall r :: r in replies ==> r.kind.Write?
    ensures forall e :: e in es ==> !e.CloseSocket?
    ensures Moves(At(slots, q, threads, t, Drainer(s, [], Marked(m))), es,
                  At(slots[s := Answered(slots[s], m, replies)], q, threads, t, Drainer(s, [], Busy(m))))
  {
    CallMoves(slots, q, threads, t, s, m, replies);
    es := [Call(t, replies)];
    if replies == [] {
      assert Pushes(s, replies) == [];
    } else {
      var slots1 := slots[s := Called(slots[s], m)];
      var th := Drainer(s, Pushes(s, replies), Busy(m));
      assert th.todo[1..] == [];
      var fs := PushMoves(slots1, q, threads, t, th, s, replies[0]);
      assert slots1[s := Pushed(slots1[s], replies[0])] == slots[s := Answered(slots[s], m, replies)];
      MovesOn(At(slots, q, threads, t, Drainer(s, [], Marked(m))), es, At(slots1, q, threads, t, th), fs,
              At(slots[s := Answered(slots[s], m, replies)], q, threads, t, Drainer(s, [], Busy(m))));
      es := es + fs;
    }
  }

  /** What the world answers while the worker handles one message: the replies of the callback, the outcome of a
      write, the outcome of the close a failed write makes. */
  datatype World = World(replies: seq<Msg>, error: Option<seq<Byte>>, closing: Option<seq<Byte>>)

  predicate Allowed(w: World, m: Msg) {
    |w.replies| <= (if m.id >= EMIR_MAX then 1 else 0) && forall r :: r in w.replies ==> r.kind.Write?
  }

  /** The slot after the worker has handled a message it dequeued. */
  function Handled(slot: Slot, m: Msg, w: World): Slot {
    Finished(if m.kind.Read? then Answered(Noticed(slot, m), m, w.replies)
             else Written(Noticed(slot, m), w.error, w.closing), m)
  }

  lemma HandleMoves(slots: seq<Slot>, q: seq<nat>, threads: seq<Thread>, t: nat, s: nat, m: Msg, w: World)
      returns (es: seq<Event>)
    requires t < |threads| && s < |slots| && slots[s].lock.Free? && slots[s].processing && Allowed(w, m)
    ensures m.kind.Read? ==> forall e :: e in es ==> !e.CloseSocket?
    ensures Moves(At(slots, q, threads, t, Drainer(s, [], Fresh(m))), es,
                  At(slots[s := Handled(slots[s], m, w)], q, threads, t, Drainer(s, [], Empty)))
  {
    var start := At(slots, q, threads, t, Drainer(s, [], Fresh(m)));
    var slots1 := slots[s := Noticed(slots[s], m)];
    MarkMoves(slots, q, threads, t, s, m);
    var fs;
    if m.kind.Read? {
      fs := AnswerMoves(slots1, q, threads, t, s, m, w.replies);
    } else {
      fs := WriteCallMoves(slots1, q, threads, t, s, m, w.error, w.closing);
    }
    var slot2 := if m.kind.Read? then Answered(slots1[s], m, w.replies) else Written(slots1[s], w.error, w.closing);
    MovesOn(start, [Mark(t)], At(slots1, q, threads, t, Drainer(s, [], Marked(m))), fs,
            At(slots1[s := slot2], q, threads, t, Drainer(s, [], Busy(m))));
    FinishMoves(slots1[s := slot2], q, threads, t, s, m);
    assert slots1[s := slot2][s := Finished(slot2, m)] == slots[s := Handled(slots[s], m, w)];
    es := [Mark(t)] + fs + [Finish(t)];
    MovesOn(start, [Mark(t)] + fs, At(slots1[s := slot2], q, threads, t, Drainer(s, [], Busy(m))), [Finish(t)],
            At(slots[s := Handled(slots[s], m, w)], q, threads, t, Drainer(s, [], Empty)));
  }

  /** One turn of the worker's loop on a mailbox that holds a message. */
  lemma TurnMoves(slots: seq<Slot>, q: seq<nat>, threads: seq<Thread>, t: nat, s: nat, w: World)
      returns (es: seq<Event>)
    requires t < |threads| && s < |slots| && slots[s].lock.Free? && slots[s].processing
    requires slots[s].mailbox != [] && Allowed(w, slots[s].mailbox[0])
    ensures Moves(At(slots, q, threads, t, Drainer(s, [], Empty)), es,
                  At(slots[s := Handled(Popped(slots[s]), slots[s].mailbox[0], w)], q, threads, t,
                     Drainer(s, [], Empty)))
    ensures WorkingSteps(es) > 0
    ensures slots[s].mailbox[0].kind.Read? ==> forall e :: e in es ==> !e.CloseSocket?
  {
    var m := slots[s].mailbox[0];
    var slots1 := slots[s := Popped(slots[s])];
    PopMoves(slots, q, threads, t, s);
    var fs := HandleMoves(slots1, q, threads, t, s, m, w);
    assert slots1[s := Handled(slots1[s], m, w)] == slots[s := Handled(Popped(slots[s]), m, w)];
    MovesOn(At(slots, q, threads, t, Drainer(s, [], Empty)), [Pop(t)] + [PopRelease(t)],
            At(slots1, q, threads, t, Drainer(s, [], Fresh(m))), fs,
            At(slots[s := Handled(Popped(slots[s]), m, w)], q, threads, t, Drainer(s, [], Empty)));
    es := [Pop(t)] + [PopRelease(t)] + fs;
    assert es[0] == Pop(t);
  }
}
