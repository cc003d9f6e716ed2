/** What a failed accept costs: its slot, and the chain of accepts it was part of. */
module SchedulerAccepts {
  import opened Wire
  import opened Scheduler
  import opened SchedulerTokens
  import opened SchedulerSafety
  import opened SchedulerRecycling

  // ------------------------------------------------------------------------ the slot

  /** Everything that can still happen to a client of the slot. */
  ghost function LifeLeft(st: State, s: nat): nat
    requires s < |st.slots|
  {
    B(st.slots[s].accepting) + Live(st, s) + Leaving(st, s)
  }

  /** Started, with no client and none to come. */
  ghost predicate Abandoned(st: State, s: nat) {
    s < |st.slots| && st.slots[s].status.Start? && LifeLeft(st, s) == 0
  }

  /** A life begins with an allocation and ends with a failed accept or when the worker stops the slot. */
  lemma LifeMoves(st: State, e: Event)
    requires Safe(st) && Lives(st) && Enabled(st, e) && !e.Poll? && Genuine(e)
    ensures var s := Target(st, e);
      LifeLeft(Apply(st, e), s) + B(e.AcceptFail?) + B(e.Mark? && IsDisconnect(st.threads[e.t].hand.msg))
      == LifeLeft(st, s) + B(e.AllocateSlot?)
  {
    var s := Target(st, e);
    NothingTwice(st, e);
    FlagsMove(e, st.threads[e.t], s, st.slots[s]);
    LiveMoves(st, e);
    LeavingFollows(st, e);
  }

  /** A failed accept abandons its slot ... */
  lemma FailedAcceptAbandons(st: State, t: nat, s: nat)
    requires GenuinelyReachable(st) && Enabled(st, AcceptFail(t, s))
    ensures Abandoned(Apply(st, AcceptFail(t, s)), s)
  {
    GenuinelyReachableLives(st);
    assert OneLife(st, s);
    LifeMoves(st, AcceptFail(t, s));
  }

  lemma StepLeavesAbandoned(st: State, e: Event, s: nat)
    requires Safe(st) && Lives(st) && Enabled(st, e) && Genuine(e) && Abandoned(st, s)
    ensures Abandoned(Apply(st, e), s)
  {
    if !e.Poll? {
      if s == Target(st, e) {
        SumAtLeast(st.threads, e.t, Stopping(s));
        LifeMoves(st, e);
        StatusMoves(e, st.threads[e.t], s, st.slots[s]);
      } else {
        SumStays(st, e, Closing(s));
        SumStays(st, e, Stopping(s));
      }
    }
  }

  lemma {:induction false} RunLeavesAbandoned(st: State, es: seq<Event>, s: nat)
    requires Safe(st) && Lives(st) && Abandoned(st, s)
    requires ValidRun(st, es) && forall e :: e in es ==> Genuine(e)
    ensures Abandoned(Final(st, es), s)
    decreases |es|
  {
    if es != [] {
      assert es[0] in es;
      StepLeavesAbandoned(st, es[0], s);
      StepKeepsSafe(st, es[0]);
      StepKeepsLives(st, es[0]);
      RunLeavesAbandoned(Apply(st, es[0]), es[1..], s);
    }
  }

  /** ... for good: it is never handed out again and never serves a client. */
  lemma AbandonedForGood(st: State, es: seq<Event>, s: nat)
    requires GenuinelyReachable(st) && Abandoned(st, s)
    requires ValidRun(st, es) && forall e :: e in es ==> Genuine(e)
    ensures Abandoned(Final(st, es), s)
  {
    GenuinelyReachableLives(st);
    RunLeavesAbandoned(st, es, s);
  }

  // ----------------------------------------------------------------------- the chains

  function Accepting(slots: seq<Slot>): nat {
    if slots == [] then 0 else B(slots[0].accepting) + Accepting(slots[1..])
  }

  lemma {:induction false} AcceptingUpdate(slots: seq<Slot>, s: nat, slot: Slot)
    requires s < |slots|
    ensures Accepting(slots[s := slot]) + B(slots[s].accepting) == Accepting(slots) + B(slot.accepting)
  {
    if s == 0 {
      assert slots[0 := slot][1..] == slots[1..];
    } else {
      AcceptingUpdate(slots[1..], s - 1, slot);
      assert slots[s := slot][1..] == slots[1..][s - 1 := slot];
    }
  }

  /** Accepts pending and accepts about to be posted. */
  function Chains(st: State): nat { Accepting(st.slots) + Sum(st.threads, Posting) }

  lemma {:induction false} AllocatesConcat(a: seq<Act>, b: seq<Act>)
    ensures Allocates(a + b) == Allocates(a) + Allocates(b)
  {
    if a == [] {
      assert a + b == b;
    } else {
      AllocatesConcat(a[1..], b);
      assert (a + b)[1..] == a[1..] + b;
    }
  }

  lemma {:induction false} NoAllocates(acts: seq<Act>)
    requires forall a :: a in acts ==> !a.Allocate?
    ensures Allocates(acts) == 0
  {
    if acts != [] {
      assert acts[0] in acts;
      NoAllocates(acts[1..]);
    }
  }

  lemma AllocatesAfterAccept(s: nat, failures: seq<Msg>, greeting: Msg)
    ensures Allocates(Pushes(s, failures) + [Greet(s, greeting), Post(s), Allocate]) == 1
  {
    var tail := [Greet(s, greeting), Post(s), Allocate];
    AllocatesConcat(Pushes(s, failures), tail);
    NoAllocates(Pushes(s, failures));
    AllocatesConcat([Greet(s, greeting), Post(s)], [Allocate]);
    NoAllocates([Greet(s, greeting), Post(s)]);
    assert tail == [Greet(s, greeting), Post(s)] + [Allocate] && [Allocate][1..] == [];
  }

  lemma AllocatesAfterClose(s: nat, error: Option<seq<Byte>>, rest: seq<Act>)
    ensures Allocates(Failure(s, error) + ([Push(s, DisconnectMsg())] + rest)) == Allocates(rest)
  {
    var goodbye := Failure(s, error) + [Push(s, DisconnectMsg())];
    assert Failure(s, error) + ([Push(s, DisconnectMsg())] + rest) == goodbye + rest;
    AllocatesConcat(goodbye, rest);
    NoAllocates(goodbye);
  }

  lemma PostingMoves(e: Event, th: Thread, s: nat, slot: Slot)
    requires Guard(e, th, s, slot)
    ensures Allocates(NextThread(e, th, s, slot).todo) + B(e.AllocateSlot?) == Allocates(th.todo) + B(e.AcceptOk?)
  {
    if e.AcceptOk? {
      AllocatesAfterAccept(s, Errors(e.errors), ConnectMsg(e.endpoint));
    } else if External(e) || e.Call? || e.WriteSocket? {
      NoAllocates(NextThread(e, th, s, slot).todo);
    } else if e.CloseSocket? {
      AllocatesAfterClose(s, e.error, th.todo[1..]);
    }
  }

  /** A completed accept posts the next one; a failed accept does not. */
  lemma ChainsMove(st: State, e: Event)
    requires Lives(st) && Enabled(st, e)
    ensures Chains(Apply(st, e)) + B(e.AcceptFail?) == Chains(st)
  {
    if !e.Poll? {
      var s := Target(st, e);
      var th := st.threads[e.t];
      NothingTwice(st, e);
      FlagsMove(e, th, s, st.slots[s]);
      PostingMoves(e, th, s, st.slots[s]);
      SumMoves(st, e, Posting);
      AcceptingUpdate(st.slots, s, NextSlot(e, th, s, st.slots[s]));
    }
  }

  function Failures(es: seq<Event>): nat {
    if es == [] then 0 else B(es[0].AcceptFail?) + Failures(es[1..])
  }

  lemma {:induction false} RunMovesChains(st: State, es: seq<Event>)
    requires Safe(st) && Lives(st) && ValidRun(st, es) && forall e :: e in es ==> Genuine(e)
    ensures Chains(Final(st, es)) + Failures(es) == Chains(st)
    decreases |es|
  {
    if es != [] {
      assert es[0] in es;
      ChainsMove(st, es[0]);
      StepKeepsSafe(st, es[0]);
      StepKeepsLives(st, es[0]);
      RunMovesChains(Apply(st, es[0]), es[1..]);
    }
  }

  /** Over every run the server loses one of its accept chains with each failed accept, and no other way. */
  lemma ChainsOverRuns(init: State, es: seq<Event>)
    requires Init(init) && ValidRun(init, es) && forall e :: e in es ==> Genuine(e)
    ensures Chains(Final(init, es)) + Failures(es) == Chains(init)
  {
    InitIsSafe(init);
    InitLives(init);
    RunMovesChains(init, es);
  }
}
