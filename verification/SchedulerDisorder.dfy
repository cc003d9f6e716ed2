/** Once the pushes of a slot do not alternate, the server itself carries that to the callback. */
module SchedulerDisorder {
  import opened Scheduler
  import opened SchedulerTokens
  import opened SchedulerSafety
  import opened SchedulerLifecycle
  import opened SchedulerDrain
  import Alternation

  ghost predicate CallbackAlternates(st: State) {
    forall s :: 0 <= s < |st.slots| ==> Alternation.Alternates(Edges(st.slots[s].history.called))
  }

  lemma SlotGrowsPushed(e: Event, th: Thread, s: nat, slot: Slot)
    requires Guard(e, th, s, slot)
    ensures slot.history.pushed <= NextSlot(e, th, s, slot).history.pushed
  {
  }

  lemma StepGrowsPushed(st: State, e: Event, s: nat)
    requires Enabled(st, e) && s < |st.slots|
    ensures |Apply(st, e).slots| == |st.slots|
    ensures st.slots[s].history.pushed <= Apply(st, e).slots[s].history.pushed
  {
    if !e.Poll? {
      SlotGrowsPushed(e, st.threads[e.t], Target(st, e), st.slots[Target(st, e)]);
    }
  }

  lemma {:induction false} PushedGrows(st: State, es: seq<Event>, s: nat)
    requires ValidRun(st, es) && s < |st.slots|
    ensures |Final(st, es).slots| == |st.slots|
    ensures st.slots[s].history.pushed <= Final(st, es).slots[s].history.pushed
    decreases |es|
  {
    if es != [] {
      StepGrowsPushed(st, es[0], s);
      PushedGrows(Apply(st, es[0]), es[1..], s);
    }
  }

  lemma DisorderStays(msgs: seq<Msg>, more: seq<Msg>)
    requires Phase(msgs) < 0 && msgs <= more
    ensures Phase(more) < 0
  {
    assert more == msgs + more[|msgs|..];
    if Phase(more) >= 0 { PrefixAlternates(msgs, more[|msgs|..]); }
  }

  lemma AtRestIsSettled(st: State, s: nat)
    requires Safe(st) && AtRest(st) && Drained(st) && s < |st.slots|
    ensures st.slots[s].history.called == Reads(st.slots[s].history.pushed)
  {
    assert Delivered(st, s);
    if !AllLocksFree(st) {
      var e := HeldLockCanMoveOn(st);
      assert false;
    }
    if Sum(st.threads, Draining(s)) > 0 {
      var t := SumWitness(st.threads, Draining(s));
      var e := DrainerCanMoveOn(st, t);
      assert false;
    }
  }

  /** What was pushed out of order is called out of order. */
  lemma DisorderReachesCallback(st: State, s: nat, worker: nat) returns (es: seq<Event>)
    requires Safe(st) && s < |st.slots| && Phase(st.slots[s].history.pushed) < 0
    requires worker < |st.threads| && st.threads[worker].role.Worker?
    ensures QuietRun(st, es) && ValidRun(st, es) && !CallbackAlternates(Final(st, es))
  {
    es := RunToRest(st, worker);
    var rest := Final(st, es);
    RunKeepsSafe(st, es);
    PushedGrows(st, es, s);
    var h := rest.slots[s].history;
    DisorderStays(st.slots[s].history.pushed, h.pushed);
    AtRestIsSettled(rest, s);
    ReadsKeepPhase(h.pushed);
    Alternation.PhaseMeansAlternates(Edges(h.called));
  }
}
