/** Counting what the threads of a state hold between them. */
module SchedulerTokens {
  import opened Wire
  import opened Scheduler

  /** Something a thread can hold for a slot; `Weight` says how many of it one thread holds. */
  datatype Token =
    | Draining(slot: nat)    // the thread is the worker draining the slot's session
    | Wanting(slot: nat)     // the thread has set `processing` and has yet to queue the session
    | Opening(slot: nat)     // Connect messages the thread has yet to push
    | Closing(slot: nat)     // Disconnect messages the thread has yet to push
    | Stopping(slot: nat)    // a Disconnect in the thread's hand that has not stopped the slot yet
    | Posting                // accepts the thread has yet to post
    | Effort                 // steps the thread and what it spawns can still take

  predicate Sends(a: Act) { a.Push? || a.Greet? }

  /** Number of pushes in `acts` of a Read message with this id onto this slot. */
  function Pending(acts: seq<Act>, s: nat, id: U16): nat {
    if acts == [] then 0
    else Pending(acts[1..], s, id)
         + if Sends(acts[0]) && acts[0].slot == s && acts[0].msg.kind.Read? && acts[0].msg.id == id then 1 else 0
  }

  lemma {:induction false} PendingConcat(a: seq<Act>, b: seq<Act>, s: nat, id: U16)
    ensures Pending(a + b, s, id) == Pending(a, s, id) + Pending(b, s, id)
  {
    if a == [] {
      assert a + b == b;
    } else {
      PendingConcat(a[1..], b, s, id);
      assert (a + b)[1..] == a[1..] + b;
    }
  }

  lemma {:induction false} PendingNone(acts: seq<Act>, s: nat, id: U16)
    requires forall a :: a in acts && Sends(a) && a.msg.kind.Read? ==> a.msg.id != id
    ensures Pending(acts, s, id) == 0
  {
    if acts != [] {
      assert acts[0] in acts;
      PendingNone(acts[1..], s, id);
    }
  }

  function Allocates(acts: seq<Act>): nat {
    if acts == [] then 0 else Allocates(acts[1..]) + if acts[0].Allocate? then 1 else 0
  }

  // Effort, in steps.  A pending push pays for its own steps, for the run-queue entry it may create and
  // for handling the message; a message pays for the messages its handling may push.

  const PUSH_EFFORT: nat := 16

  /** Bound on the effort spawned by handling `m`: a failed Write pushes an Error and closes, a close pushes
      an Error and a Disconnect, an ordinary Read is answered by at most one Write. */
  function Spawned(m: Msg): nat {
    if m.kind.Write? then 1 + 3 * (PUSH_EFFORT + 6)
    else if m.id >= EMIR_MAX then (PUSH_EFFORT + 6) + 1 + 3 * (PUSH_EFFORT + 6)
    else 0
  }

  function MailEffort(m: Msg): nat { 6 + Spawned(m) }

  function ActEffort(a: Act): nat {
    match a
    case Push(_, m) => PUSH_EFFORT + MailEffort(m)
    case Greet(_, m) => PUSH_EFFORT + MailEffort(m)
    case Close(_) => 1 + 2 * (PUSH_EFFORT + 6)
    case Post(_) => 1
    case Allocate => 1
  }

  function ActsEffort(acts: seq<Act>): nat {
    if acts == [] then 0 else ActEffort(acts[0]) + ActsEffort(acts[1..])
  }

  function MailboxEffort(msgs: seq<Msg>): nat {
    if msgs == [] then 0 else MailEffort(msgs[0]) + MailboxEffort(msgs[1..])
  }

  function PcEffort(th: Thread): nat {
    match th.pc
    case Ready => if th.draining.Some? then 4 else 0
    case Linked(_) => 15
    case WantRun(_) => 14
    case RunHeld(_) => 7
    case Unlock(_) => 6
    case TakeHeld => 5
    case PopHeld(_) => if th.draining.Some? then 5 else 2
  }

  function HandEffort(h: Hand): nat {
    match h
    case Empty => 0
    case Fresh(m) => 3 + Spawned(m)
    case Marked(m) => 2 + Spawned(m)
    case Busy(_) => 1
  }

  function ThreadEffort(th: Thread): nat {
    PcEffort(th) + HandEffort(th.hand) + ActsEffort(th.todo)
  }

  function Weight(tok: Token, th: Thread): nat {
    match tok
    case Draining(s) => if th.draining == Some(s) then 1 else 0
    case Wanting(s) => if th.pc == WantRun(s) then 1 else 0
    case Opening(s) => Pending(th.todo, s, EMIR_CONNECT)
    case Closing(s) => Pending(th.todo, s, EMIR_DISCONNECT)
    case Stopping(s) => if th.draining == Some(s) && th.hand.Fresh? && IsDisconnect(th.hand.msg) then 1 else 0
    case Posting => Allocates(th.todo)
    case Effort => ThreadEffort(th)
  }

  function Sum(threads: seq<Thread>, tok: Token): nat {
    if threads == [] then 0 else Weight(tok, threads[0]) + Sum(threads[1..], tok)
  }

  /** Replacing one thread moves every sum by the difference of that thread's weights. */
  lemma {:induction false} SumUpdate(threads: seq<Thread>, t: nat, th: Thread, tok: Token)
    requires t < |threads|
    ensures Sum(threads[t := th], tok) + Weight(tok, threads[t]) == Sum(threads, tok) + Weight(tok, th)
  {
    if t == 0 {
      assert threads[0 := th][1..] == threads[1..];
    } else {
      SumUpdate(threads[1..], t - 1, th, tok);
      assert threads[t := th][1..] == threads[1..][t - 1 := th];
    }
  }

  lemma {:induction false} SumAtLeast(threads: seq<Thread>, t: nat, tok: Token)
    requires t < |threads|
    ensures Weight(tok, threads[t]) <= Sum(threads, tok)
  {
    if t > 0 {
      SumAtLeast(threads[1..], t - 1, tok);
    }
  }

  /** Of something there is at most one of, a second thread has none. */
  lemma {:induction false} SumTwo(threads: seq<Thread>, t: nat, u: nat, tok: Token)
    requires t < |threads| && u < |threads| && t != u
    ensures Weight(tok, threads[t]) + Weight(tok, threads[u]) <= Sum(threads, tok)
  {
    if t == 0 {
      SumAtLeast(threads[1..], u - 1, tok);
    } else if u == 0 {
      SumAtLeast(threads[1..], t - 1, tok);
    } else {
      SumTwo(threads[1..], t - 1, u - 1, tok);
    }
  }

  lemma {:induction false} SumWitness(threads: seq<Thread>, tok: Token) returns (t: nat)
    requires Sum(threads, tok) > 0
    ensures t < |threads| && Weight(tok, threads[t]) > 0
  {
    if Weight(tok, threads[0]) > 0 {
      t := 0;
    } else {
      t := SumWitness(threads[1..], tok);
      t := t + 1;
    }
  }

  lemma {:induction false} SumZero(threads: seq<Thread>, tok: Token)
    requires forall t :: 0 <= t < |threads| ==> Weight(tok, threads[t]) == 0
    ensures Sum(threads, tok) == 0
  {
    if threads != [] {
      forall t | 0 <= t < |threads[1..]| ensures Weight(tok, threads[1..][t]) == 0 {
        assert threads[1..][t] == threads[t + 1];
      }
      SumZero(threads[1..], tok);
    }
  }

  /** The token is about a slot. */
  predicate HasSlot(tok: Token) { !tok.Effort? && !tok.Posting? }

  /** A step moves nothing of any slot but its target. */
  lemma OtherSlotsUntouched(e: Event, th: Thread, s: nat, slot: Slot, tok: Token)
    requires Guard(e, th, s, slot) && HasSlot(tok) && tok.slot != s
    ensures Weight(tok, NextThread(e, th, s, slot)) == Weight(tok, th)
  {
    var th' := NextThread(e, th, s, slot);
    match tok {
      case Opening(u) => OtherPending(e, th, s, slot, u, EMIR_CONNECT);
      case Closing(u) => OtherPending(e, th, s, slot, u, EMIR_DISCONNECT);
      case _ =>
    }
  }

  lemma PendingElsewhere(acts: seq<Act>, s: nat, u: nat, id: U16)
    requires u != s && forall a :: a in acts && Sends(a) ==> a.slot == s
    ensures Pending(acts, u, id) == 0
  {
    if acts != [] {
      assert acts[0] in acts;
      PendingElsewhere(acts[1..], s, u, id);
    }
  }

  lemma OtherPending(e: Event, th: Thread, s: nat, slot: Slot, u: nat, id: U16)
    requires Guard(e, th, s, slot) && u != s
    ensures Pending(NextThread(e, th, s, slot).todo, u, id) == Pending(th.todo, u, id)
  {
    var todo := NextThread(e, th, s, slot).todo;
    if e.CloseSocket? && slot.open {
      var rest := [Push(s, DisconnectMsg())] + th.todo[1..];
      assert rest[1..] == th.todo[1..];
      assert todo == rest || (todo[0].Push? && todo[0].slot == s && todo[1..] == rest);
    } else if External(e) || e.Call? || e.WriteSocket? {
      PendingElsewhere(todo, s, u, id);
    }
  }
}
