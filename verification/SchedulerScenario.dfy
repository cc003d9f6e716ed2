/** Concrete runs of a small server: one slot, two socket threads (0 and 1) and a worker (2). */
module SchedulerScenario {
  import opened Wire
  import opened Scheduler
  import opened SchedulerDrain
  import opened SchedulerCalls

  const C := ConnectMsg([])
  const D := DisconnectMsg()
  const E := ErrorMsg([])

  function Sock(todo: seq<Act>): Thread { Thread(Socket, Ready, todo, None, Empty) }

  function Stage(slot: Slot, q: seq<nat>, threads: seq<Thread>): State {
    State([slot], q, Free, threads)
  }

  const START_UP := Stage(FRESH_SLOT, [], [Sock([Allocate]), Sock([]), IDLE])

  lemma StartUpIsInit()
    ensures Init(START_UP)
  {
  }

  /** The messages a read completion takes from the wire have these ids. */
  predicate WireFrom(e: Event, allowed: set<U16>) {
    e.ReadOk? ==> forall m :: m in e.msgs ==> m.id in allowed
  }

  /** The events are a run from the start of the server, with these ids on the wire and no early close. */
  predicate Leads(ids: set<U16>, es: seq<Event>, st: State) {
    && ValidRun(START_UP, es) && TimelyRun(START_UP, es) && Final(START_UP, es) == st
    && forall e :: e in es ==> WireFrom(e, ids)
  }

  lemma {:induction false} QuietTakesNothingFromTheWire(st: State, es: seq<Event>, allowed: set<U16>)
    requires QuietRun(st, es)
    ensures forall e :: e in es ==> WireFrom(e, allowed)
    decreases |es|
  {
    if es != [] {
      QuietTakesNothingFromTheWire(Apply(st, es[0]), es[1..], allowed);
    }
  }

  lemma Through(ids: set<U16>, es: seq<Event>, st: State, fs: seq<Event>, next: State)
    requires Leads(ids, es, st) && Moves(st, fs, next) && TimelyRun(st, fs)
    ensures Leads(ids, es + fs, next)
  {
    ValidConcat(START_UP, es, fs);
    TimelyConcat(START_UP, es, fs);
    QuietTakesNothingFromTheWire(st, fs, ids);
  }

  lemma On(ids: set<U16>, es: seq<Event>, st: State, e: Event)
    requires Leads(ids, es, st) && Enabled(st, e) && Timely(st, e) && WireFrom(e, ids)
    ensures Leads(ids, es + [e], Apply(st, e))
  {
    assert [e][1..] == [];
    assert ValidRun(Apply(st, e), []) && TimelyRun(Apply(st, e), []);
    assert ValidRun(st, [e]) && TimelyRun(st, [e]) && Final(st, [e]) == Apply(st, e);
    ValidConcat(START_UP, es, [e]);
    TimelyConcat(START_UP, es, [e]);
  }

  ghost predicate Reaches(ids: set<U16>, st: State) {
    exists es :: Leads(ids, es, st)
  }

  lemma MovesReach(ids: set<U16>, st: State, fs: seq<Event>, next: State)
    requires Reaches(ids, st) && Moves(st, fs, next) && forall e :: e in fs ==> !e.CloseSocket?
    ensures Reaches(ids, next)
  {
    var es :| Leads(ids, es, st);
    UnclosedIsTimely(st, fs);
    Through(ids, es, st, fs, next);
  }

  /** One step of thread `t` that leaves the run queue alone. */
  lemma Stepping(ids: set<U16>, slot: Slot, q: seq<nat>, threads: seq<Thread>, e: Event, slot': Slot, th: Thread,
             threads': seq<Thread>)
    requires Reaches(ids, Stage(slot, q, threads)) && WireFrom(e, ids) && (External(e) || Local(e))
    requires e.t < |threads| && Target(Stage(slot, q, threads), e) == 0 && Guard(e, threads[e.t], 0, slot)
    requires Timely(Stage(slot, q, threads), e)
    requires slot' == NextSlot(e, threads[e.t], 0, slot) && th == NextThread(e, threads[e.t], 0, slot)
    requires threads' == threads[e.t := th]
    ensures Reaches(ids, Stage(slot', q, threads'))
  {
    var st := Stage(slot, q, threads);
    var es :| Leads(ids, es, st);
    On(ids, es, st, e);
    assert [slot][0 := slot'] == [slot'];
    assert Apply(st, e) == Stage(slot', q, threads');
  }

  /** Thread `t` pushes its next message. */
  lemma Pushing(ids: set<U16>, slot: Slot, q: seq<nat>, threads: seq<Thread>, t: nat, m: Msg, threads': seq<Thread>)
    requires Reaches(ids, Stage(slot, q, threads)) && t < |threads| && threads[t].pc.Ready? && slot.lock.Free?
    requires threads[t].todo != [] && threads[t].todo[0] in {Push(0, m), Greet(0, m)}
    requires threads' == threads[t := threads[t].(todo := threads[t].todo[1..])]
    ensures Reaches(ids, Stage(Pushed(slot, m), QueueAfter(q, slot, 0), threads'))
  {
    assert threads[t := threads[t]] == threads && [slot][0 := Pushed(slot, m)] == [Pushed(slot, m)];
    var fs := PushMoves([slot], q, threads, t, threads[t], 0, m);
    MovesReach(ids, Stage(slot, q, threads), fs, Stage(Pushed(slot, m), QueueAfter(q, slot, 0), threads'));
  }

  // ------------------------------------------------------------------ what the worker does

  /** What the other threads do while the worker is busy: thread 0 has yet to hand out the next slot. */
  function Crew(b: Thread, worker: Thread): seq<Thread> { [Sock([Allocate]), b, worker] }

  lemma NobodyGreets(slot: Slot, q: seq<nat>, b: Thread)
    requires forall a :: a in b.todo ==> !a.Greet?
    ensures !GreetPending(Stage(slot, q, Crew(b, IDLE)), 0)
  {
  }

  /** The worker takes the session ... */
  lemma Taking(ids: set<U16>, slot: Slot, b: Thread)
    requires Reaches(ids, Stage(slot, [0], Crew(b, IDLE)))
    ensures Reaches(ids, Stage(slot, [], Crew(b, Drainer(0, [], Empty))))
  {
    TakeMoves([slot], [0], Crew(b, IDLE), 2);
    assert Crew(b, IDLE)[2 := IDLE] == Crew(b, IDLE);
    assert Crew(b, IDLE)[2 := Drainer(0, [], Empty)] == Crew(b, Drainer(0, [], Empty));
    MovesReach(ids, Stage(slot, [0], Crew(b, IDLE)), [Take(2)] + [TakeRelease(2)],
               Stage(slot, [], Crew(b, Drainer(0, [], Empty))));
  }

  const SILENCE := World([], None, None)

  /** ... handles a Read message without a reply ... */
  lemma Handling(ids: set<U16>, slot: Slot, b: Thread)
    requires Reaches(ids, Stage(slot, [], Crew(b, Drainer(0, [], Empty))))
    requires slot.lock.Free? && slot.processing && slot.mailbox != [] && slot.mailbox[0].kind.Read?
    ensures Reaches(ids, Stage(Handled(Popped(slot), slot.mailbox[0], SILENCE), [], Crew(b, Drainer(0, [], Empty))))
  {
    var slot' := Handled(Popped(slot), slot.mailbox[0], SILENCE);
    var threads := Crew(b, Drainer(0, [], Empty));
    assert threads[2 := threads[2]] == threads && [slot][0 := slot'] == [slot'];
    var fs := TurnMoves([slot], [], threads, 2, 0, SILENCE);
    MovesReach(ids, Stage(slot, [], threads), fs, Stage(slot', [], threads));
  }

  /** ... and leaves the empty session. */
  lemma GoingIdle(ids: set<U16>, slot: Slot, b: Thread)
    requires Reaches(ids, Stage(slot, [], Crew(b, Drainer(0, [], Empty))))
    requires slot.lock.Free? && slot.mailbox == []
    ensures Reaches(ids, Stage(Left(slot), [], Crew(b, IDLE)))
  {
    var threads := Crew(b, Drainer(0, [], Empty));
    assert threads[2 := threads[2]] == threads && [slot][0 := Left(slot)] == [Left(slot)];
    PopMoves([slot], [], threads, 2, 0);
    assert threads[2 := IDLE] == Crew(b, IDLE);
    MovesReach(ids, Stage(slot, [], threads), [Pop(2)] + [PopRelease(2)], Stage(Left(slot), [], Crew(b, IDLE)));
  }

  // ------------------------------------------------------------------ a client connects

  /** The slot with a client on it. */
  function Used(slot: Slot): Slot {
    slot.(status := Start, accepting := false, open := true,
          history := slot.history.(allocations := slot.history.allocations + 1))
  }

  /** Thread 0 hands out the slot ... */
  lemma HandingOut(ids: set<U16>, slot: Slot) returns (slot': Slot)
    requires Reaches(ids, Stage(slot, [], Crew(Sock([]), IDLE))) && slot.status.UseLess?
    ensures Reaches(ids, Stage(slot', [], [Sock([]), Sock([]), IDLE]))
    ensures slot' == Used(slot).(accepting := true, open := slot.open)
  {
    assert FirstFree([slot]) == 0 && [Allocate][1..] == [];
    slot' := NextSlot(AllocateSlot(0), Sock([Allocate]), 0, slot);
    Stepping(ids, slot, [], Crew(Sock([]), IDLE), AllocateSlot(0), slot', Sock([]), [Sock([]), Sock([]), IDLE]);
  }

  const ACCEPTED := Sock([Greet(0, C), Post(0), Allocate])

  lemma AcceptedThread(slot: Slot)
    requires slot.accepting
    ensures Guard(AcceptOk(0, 0, [], []), Sock([]), 0, slot)
    ensures NextThread(AcceptOk(0, 0, [], []), Sock([]), 0, slot) == ACCEPTED
  {
    assert Pushes(0, Errors([])) + [Greet(0, C), Post(0), Allocate] == [Greet(0, C), Post(0), Allocate];
  }

  /** ... and a client is accepted on it. */
  lemma Accepting(ids: set<U16>, slot: Slot) returns (slot': Slot)
    requires Reaches(ids, Stage(slot, [], Crew(Sock([]), IDLE))) && slot.status.UseLess?
    ensures Reaches(ids, Stage(slot', [], [ACCEPTED, Sock([]), IDLE]))
    ensures slot' == Used(slot)
  {
    var slot1 := HandingOut(ids, slot);
    AcceptedThread(slot1);
    slot' := Used(slot);
    assert slot' == slot1.(accepting := false, open := true);
    Stepping(ids, slot1, [], [Sock([]), Sock([]), IDLE], AcceptOk(0, 0, [], []), slot', ACCEPTED,
         [ACCEPTED, Sock([]), IDLE]);
  }

  /** The first client is greeted ... */
  lemma Greeting(ids: set<U16>) returns (slot: Slot)
    ensures Reaches(ids, Stage(slot, [0], [Sock([Post(0), Allocate]), Sock([]), IDLE]))
    ensures slot == FRESH_SLOT.(status := Start, open := true, processing := true, mailbox := [C],
                                history := History([C], [], [], [], 1, 0))
  {
    assert Leads(ids, [], START_UP);
    slot := Accepting(ids, FRESH_SLOT);
    assert ACCEPTED.todo[1..] == [Post(0), Allocate];
    Pushing(ids, slot, [], [ACCEPTED, Sock([]), IDLE], 0, C, [Sock([Post(0), Allocate]), Sock([]), IDLE]);
    slot := Pushed(slot, C);
    assert [] + [C] == [C] && [] + [0] == [0];
  }

  /** ... and read from; thread 0 has yet to hand out the next slot. */
  lemma Connecting(ids: set<U16>) returns (slot: Slot)
    ensures Reaches(ids, Stage(slot, [0], Crew(Sock([]), IDLE)))
    ensures slot == FRESH_SLOT.(status := Start, open := true, reading := 1, processing := true, mailbox := [C],
                                history := History([C], [], [], [], 1, 0))
  {
    var slot1 := Greeting(ids);
    slot := slot1.(reading := 1);
    assert [Post(0), Allocate][1..] == [Allocate];
    Stepping(ids, slot1, [0], [Sock([Post(0), Allocate]), Sock([]), IDLE], PostRead(0), slot, Sock([Allocate]),
         Crew(Sock([]), IDLE));
  }
}
