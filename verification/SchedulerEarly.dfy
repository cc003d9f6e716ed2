/** Closes that come too early.  `_close` asks only whether the socket is open, and a read that was outstanding when
    the slot was closed completes at any later time, also when the slot has been recycled and accepted again; its
    close then pushes the Disconnect of a client whose Connect has yet to be pushed. */
module SchedulerEarly {
  import opened Wire
  import opened Scheduler
  import opened SchedulerTokens
  import opened SchedulerSafety
  import opened SchedulerRecycling
  import opened SchedulerLifecycle
  import opened SchedulerDrain
  import opened SchedulerDisorder
  import opened SchedulerCalls
  import Alternation

  // ---------------------------------------------------------- an early close and after

  /** Nothing but locks and queues has moved. */
  predicate SameWork(a: State, b: State) {
    && |b.slots| == |a.slots| && |b.threads| == |a.threads|
    && (forall s :: 0 <= s < |a.slots| ==> b.slots[s].history.pushed == a.slots[s].history.pushed)
    && forall t :: 0 <= t < |a.threads| ==>
         b.threads[t].todo == a.threads[t].todo && b.threads[t].role == a.threads[t].role
  }

  lemma LockMoveIsNoWork(st: State, e: Event)
    requires Enabled(st, e) && MovesLocks(e)
    ensures SameWork(st, Apply(st, e))
  {
  }

  /** The threads that hold locks can give them up before anything else happens. */
  lemma {:induction false} LocksAreGivenUp(st: State) returns (es: seq<Event>, next: State)
    requires Safe(st)
    ensures Moves(st, es, next) && Safe(next) && AllLocksFree(next) && SameWork(st, next)
    decreases EffortLeft(st)
  {
    if AllLocksFree(st) {
      return [], st;
    }
    var e := HeldLockCanMoveOn(st);
    WorkLowersEffort(st, e);
    StepKeepsSafe(st, e);
    LockMoveIsNoWork(st, e);
    es, next := LocksAreGivenUp(Apply(st, e));
    OneMove(st, e);
    MovesOn(st, [e], Apply(st, e), es, next);
    es := [e] + es;
  }

  lemma LinkPushes(st: State, t: nat, s: nat, m: Msg)
    requires Enabled(st, Link(t)) && st.threads[t].todo[0] == Push(s, m)
    ensures var st' := Apply(st, Link(t));
      && s < |st.slots| == |st'.slots| && |st'.threads| == |st.threads|
      && st'.slots[s].history.pushed == st.slots[s].history.pushed + [m]
      && st'.threads[t].todo == st.threads[t].todo[1..]
      && forall u :: 0 <= u < |st.threads| ==> st'.threads[u].role == st.threads[u].role
  {
    forall u | 0 <= u < |st.threads| ensures Apply(st, Link(t)).threads[u].role == st.threads[u].role {
      RolesStay(st, Link(t), u);
    }
  }

  /** A thread with a push to do comes to do it before any other thread works. */
  lemma PushComesFirst(st: State, t: nat, s: nat, m: Msg) returns (es: seq<Event>, next: State)
    requires Safe(st) && t < |st.threads| && st.threads[t].todo != [] && st.threads[t].todo[0] == Push(s, m)
    ensures Moves(st, es, next) && Safe(next) && |next.slots| == |st.slots| && |next.threads| == |st.threads|
    ensures s < |st.slots| && next.slots[s].history.pushed == st.slots[s].history.pushed + [m]
    ensures next.threads[t].todo == st.threads[t].todo[1..]
    ensures forall u :: 0 <= u < |st.threads| ==> next.threads[u].role == st.threads[u].role
  {
    var free;
    es, free := LocksAreGivenUp(st);
    NobodyIsLocked(free, t);
    assert ThreadShape(free.threads[t], |free.slots|) && free.threads[t].todo[0] in free.threads[t].todo;
    LinkPushes(free, t, s, m);
    StepKeepsSafe(free, Link(t));
    next := Apply(free, Link(t));
    Then(st, es, free, Link(t));
    es := es + [Link(t)];
  }

  lemma {:induction false} GreetIsPending(acts: seq<Act>, s: nat)
    requires exists a :: a in acts && a.Greet? && a.slot == s
    requires forall a :: a in acts && Sends(a) ==> (a.Greet? <==> IsConnect(a.msg))
    ensures Pending(acts, s, EMIR_CONNECT) > 0
  {
    if !(acts[0].Greet? && acts[0].slot == s) {
      GreetIsPending(acts[1..], s);
    }
  }

  /** Of the client whose socket is closed early nothing has been pushed yet. */
  lemma EarlyMeansUngreeted(st: State, s: nat)
    requires Orderly(st) && s < |st.slots| && st.slots[s].open && GreetPending(st, s)
    ensures Phase(st.slots[s].history.pushed) == 0
  {
    var t :| 0 <= t < |st.threads| && Greets(st.threads[t], s);
    assert Honest(st.threads[t]) && OneLife(st, s) && InOrder(st, s);
    GreetIsPending(st.threads[t].todo, s);
    SumAtLeast(st.threads, t, Opening(s));
  }

  /** After an early close the server can come to push the Disconnect first ... */
  lemma GoodbyeComesFirst(st: State, t: nat, s: nat, error: Option<seq<Byte>>, rest: seq<Act>)
      returns (es: seq<Event>, next: State)
    requires Safe(st) && t < |st.threads| && s < |st.slots| && Phase(st.slots[s].history.pushed) == 0
    requires st.threads[t].todo == Failure(s, error) + ([Push(s, DisconnectMsg())] + rest)
    ensures Moves(st, es, next) && Safe(next) && |next.slots| == |st.slots| && |next.threads| == |st.threads|
    ensures Phase(next.slots[s].history.pushed) < 0
    ensures forall u :: 0 <= u < |st.threads| ==> next.threads[u].role == st.threads[u].role
  {
    var before := st;
    Nowhere(st);
    es := [];
    if error.Some? {
      es, before := PushComesFirst(st, t, s, ErrorMsg(error.value));
      PhaseAppend(st.slots[s].history.pushed, ErrorMsg(error.value));
      assert st.threads[t].todo[1..] == [Push(s, DisconnectMsg())] + rest;
    }
    var fs;
    fs, next := PushComesFirst(before, t, s, DisconnectMsg());
    PhaseAppend(before.slots[s].history.pushed, DisconnectMsg());
    MovesOn(st, es, before, fs, next);
    es := es + fs;
  }

  /** ... and then call the callback with it. */
  lemma EarlyCloseBreaksOrder(st: State, e: Event, worker: nat) returns (es: seq<Event>)
    requires Safe(st) && Orderly(st) && Enabled(st, e) && !Timely(st, e)
    requires worker < |st.threads| && st.threads[worker].role.Worker?
    ensures QuietRun(st, es) && ValidRun(st, es) && !CallbackAlternates(Final(st, es))
  {
    var s := Target(st, e);
    EarlyMeansUngreeted(st, s);
    var closed := Apply(st, e);
    StepKeepsSafe(st, e);
    RolesStay(st, e, worker);
    OneMove(st, e);
    var fs, pushed := GoodbyeComesFirst(closed, e.t, s, e.error, st.threads[e.t].todo[1..]);
    MovesOn(st, [e], closed, fs, pushed);
    var gs := DisorderReachesCallback(pushed, s, worker);
    MovesOn(st, [e] + fs, pushed, gs, Final(pushed, gs));
    es := [e] + fs + gs;
  }

  // ------------------------------------------------------------------ the exact condition

  lemma TimelyCons(st: State, e: Event, es: seq<Event>)
    requires Enabled(st, e) && Timely(st, e) && ValidRun(Apply(st, e), es) && TimelyRun(Apply(st, e), es)
    ensures ValidRun(st, [e] + es) && TimelyRun(st, [e] + es) && Final(st, [e] + es) == Final(Apply(st, e), es)
  {
    ValidCons(st, e, es);
    assert ([e] + es)[0] == e && ([e] + es)[1..] == es;
  }

  /** Where a run first closes early. */
  lemma {:induction false} FirstEarlyClose(st: State, es: seq<Event>) returns (k: nat)
    requires ValidRun(st, es) && !TimelyRun(st, es)
    ensures k < |es| && ValidRun(st, es[..k]) && TimelyRun(st, es[..k])
    ensures Enabled(Final(st, es[..k]), es[k]) && !Timely(Final(st, es[..k]), es[k])
    decreases |es|
  {
    if !Timely(st, es[0]) {
      k := 0;
    } else {
      var i := FirstEarlyClose(Apply(st, es[0]), es[1..]);
      k := i + 1;
      assert es[..k] == [es[0]] + es[1..][..i] && es[k] == es[1..][i];
      TimelyCons(st, es[0], es[1..][..i]);
    }
  }

  lemma {:induction false} RunKeepsRoles(st: State, es: seq<Event>, t: nat)
    requires ValidRun(st, es) && t < |st.threads|
    ensures |Final(st, es).threads| == |st.threads| && Final(st, es).threads[t].role == st.threads[t].role
    decreases |es|
  {
    if es != [] {
      RolesStay(st, es[0], t);
      RunKeepsRoles(Apply(st, es[0]), es[1..], t);
    }
  }

  /** A set of runs that can occur: what the outside does is up to the set, but a run that occurs has all its
      beginnings in the set, and whatever the server alone can go on to do. */
  ghost predicate CanOccur(init: State, runs: iset<seq<Event>>) {
    && (forall es :: es in runs ==> ValidRun(init, es) && forall e :: e in es ==> WireOk(e))
    && (forall es, k :: es in runs && 0 <= k <= |es| ==> es[..k] in runs)
    && (forall es, fs :: es in runs && QuietRun(Final(init, es), fs) ==> es + fs in runs)
  }

  /** The exact condition: whatever set of runs the outside allows, the callback sees an alternating lifecycle on every
      slot in all of them if and only if none of them closes a socket before its Connect message is pushed. */
  lemma AlternationHoldsExactly(init: State, worker: nat, runs: iset<seq<Event>>)
    requires Init(init) && CanOccur(init, runs)
    requires worker < |init.threads| && init.threads[worker].role.Worker?
    ensures (forall es :: es in runs ==> CallbackAlternates(Final(init, es)))
            <==> (forall es :: es in runs ==> TimelyRun(init, es))
  {
    if forall es :: es in runs ==> TimelyRun(init, es) {
      forall es | es in runs ensures CallbackAlternates(Final(init, es)) {
        assert HonestlyReachable(Final(init, es));
        forall s | 0 <= s < |Final(init, es).slots|
          ensures Alternation.Alternates(Edges(Final(init, es).slots[s].history.called))
        {
          CallbackSeesAlternation(Final(init, es), s);
        }
      }
    } else {
      var es :| es in runs && !TimelyRun(init, es);
      var k := FirstEarlyClose(init, es);
      var st := Final(init, es[..k]);
      assert es[..k] in runs;
      InitIsSafe(init);
      InitIsOrderly(init);
      RunKeepsOrderly(init, es[..k]);
      RunKeepsRoles(init, es[..k], worker);
      var fs := EarlyCloseBreaksOrder(st, es[k], worker);
      assert es[..k] + fs in runs;
      ValidConcat(init, es[..k], fs);
      assert !CallbackAlternates(Final(init, es[..k] + fs));
    }
  }
}
