/** The callback of `main.cpp` sends every ordinary message back as it came.  With it no frame is too long for the send
    buffer, which `write_msg` does not check. */
module SchedulerEcho {
  import opened Wire
  import opened Scheduler

  /** The callback replies with the message itself, and to the reserved ids with nothing. */
  predicate Echoes(st: State, e: Event)
    requires Enabled(st, e)
  {
    e.Call? ==>
      var m := st.threads[e.t].hand.msg;
      e.replies == if m.id >= EMIR_MAX then [Msg(Write, m.id, m.body)] else []
  }

  predicate EchoRun(st: State, es: seq<Event>)
    decreases |es|
  {
    es == [] || (Enabled(st, es[0]) && Echoes(st, es[0]) && EchoRun(Apply(st, es[0]), es[1..]))
  }

  /** The server's own messages to the callback are not sent back. */
  predicate Fits(m: Msg) { m.kind.Write? || m.id >= EMIR_MAX ==> |m.body| <= MAX_BODY }

  predicate ActsFit(acts: seq<Act>) { forall a :: a in acts && (a.Push? || a.Greet?) ==> Fits(a.msg) }

  predicate ThreadFits(th: Thread) {
    && ActsFit(th.todo)
    && (!th.hand.Empty? ==> Fits(th.hand.msg))
  }

  predicate SlotFits(slot: Slot) { forall m :: m in slot.mailbox ==> Fits(m) }

  ghost predicate AllFit(st: State) {
    && (forall t :: 0 <= t < |st.threads| ==> ThreadFits(st.threads[t]))
    && forall s :: 0 <= s < |st.slots| ==> SlotFits(st.slots[s])
  }

  lemma PushesFit(s: nat, msgs: seq<Msg>)
    requires forall m :: m in msgs ==> Fits(m)
    ensures ActsFit(Pushes(s, msgs))
  {
  }

  /** What a thread newly has to do. */
  lemma NewWorkFits(e: Event, th: Thread, s: nat, slot: Slot)
    requires Guard(e, th, s, slot) && (External(e) || e.Call? || e.WriteSocket?)
    requires e.Call? ==> forall r :: r in e.replies ==> Fits(r)
    ensures ActsFit(NextThread(e, th, s, slot).todo)
  {
    match e {
      case AcceptOk(_, _, errors, _) => PushesFit(s, Errors(errors));
      case ReadOk(_, _, msgs, _) => PushesFit(s, msgs);
      case Call(_, replies) => PushesFit(s, replies);
      case _ =>
    }
  }

  lemma ThreadStaysFitting(e: Event, th: Thread, s: nat, slot: Slot)
    requires Guard(e, th, s, slot) && ThreadFits(th) && SlotFits(slot)
    requires e.Call? ==> forall r :: r in e.replies ==> Fits(r)
    ensures ThreadFits(NextThread(e, th, s, slot))
  {
    if External(e) || e.Call? || e.WriteSocket? {
      NewWorkFits(e, th, s, slot);
    }
  }

  lemma SlotStaysFitting(e: Event, th: Thread, s: nat, slot: Slot)
    requires Guard(e, th, s, slot) && ThreadFits(th) && SlotFits(slot)
    ensures SlotFits(NextSlot(e, th, s, slot))
  {
  }

  lemma StepKeepsFitting(st: State, e: Event)
    requires AllFit(st) && Enabled(st, e) && Echoes(st, e)
    ensures AllFit(Apply(st, e))
  {
    if !e.Poll? {
      var th, s := st.threads[e.t], Target(st, e);
      assert ThreadFits(th) && SlotFits(st.slots[s]);
      ThreadStaysFitting(e, th, s, st.slots[s]);
      SlotStaysFitting(e, th, s, st.slots[s]);
    }
  }

  lemma {:induction false} EchoKeepsFitting(st: State, es: seq<Event>)
    requires AllFit(st) && EchoRun(st, es)
    ensures ValidRun(st, es) && AllFit(Final(st, es))
    decreases |es|
  {
    if es != [] {
      StepKeepsFitting(st, es[0]);
      EchoKeepsFitting(Apply(st, es[0]), es[1..]);
    }
  }

  /** In every run with this callback, every message about to be written fits the send buffer. */
  lemma EveryWriteFits(init: State, es: seq<Event>, t: nat, error: Option<seq<Byte>>)
    requires Init(init) && EchoRun(init, es)
    ensures ValidRun(init, es)
    ensures Enabled(Final(init, es), WriteSocket(t, error)) ==>
      |Final(init, es).threads[t].hand.msg.body| <= MAX_BODY
  {
    EchoKeepsFitting(init, es);
    if Enabled(Final(init, es), WriteSocket(t, error)) { WrittenFits(Final(init, es), t, error); }
  }

  lemma WrittenFits(st: State, t: nat, error: Option<seq<Byte>>)
    requires AllFit(st) && Enabled(st, WriteSocket(t, error))
    ensures |st.threads[t].hand.msg.body| <= MAX_BODY
  {
    assert ThreadFits(st.threads[t]) && Fits(st.threads[t].hand.msg);
  }
}
