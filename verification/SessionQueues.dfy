/** The linked lists the scheduler runs on: one list of sessions, shared by all threads, and the mailbox of each
    session.  Every step of the scheduler keeps them in step with its sequences. */
module SessionQueues {
  import opened Scheduler
  import opened SchedulerSafety
  import opened IntrusiveQueue

  ghost predicate Apart(a: Queue<Msg>, b: Queue<Msg>)
    reads a, b
  {
    a != b && forall n :: n in a.nodes ==> n !in b.nodes
  }

  /** What a step of the scheduler does to mailboxes and run queue. */
  lemma StepOnLists(st: State, e: Event)
    requires Enabled(st, e)
    ensures var st' := Apply(st, e);
      && |st'.slots| == |st.slots|
      && (e.Link? || e.Pop? || e.RunAppend? ==> Target(st, e) < |st.slots|)
      && (forall u :: 0 <= u < |st.slots| && ((e.Link? || e.Pop?) ==> u != Target(st, e)) ==>
            st'.slots[u].mailbox == st.slots[u].mailbox)
      && st'.runQueue == (if e.RunAppend? then st.runQueue + [Target(st, e)]
                          else if e.Take? then st.runQueue[1..] else st.runQueue)
      && (e.Take? ==> st.runQueue != [])
  {
  }

  lemma StepOnMailbox(st: State, e: Event)
    requires Enabled(st, e) && (e.Link? || e.Pop?)
    ensures var mailbox := st.slots[Target(st, e)].mailbox;
      Apply(st, e).slots[Target(st, e)].mailbox ==
        if e.Link? then mailbox + [st.threads[e.t].todo[0].msg] else if mailbox == [] then [] else mailbox[1..]
  {
  }

  method CreateSessions(n: nat) returns (nodes: seq<Node<nat>>, ghost made: set<object>)
    ensures |nodes| == n && fresh(made)
    ensures forall s :: 0 <= s < n ==> nodes[s] in made && nodes[s].value == s && nodes[s].next == null
  {
    nodes, made := [], {};
    while |nodes| < n
      invariant |nodes| <= n && fresh(made)
      invariant forall s :: 0 <= s < |nodes| ==> nodes[s] in made && nodes[s].value == s && nodes[s].next == null
    {
      var node := new Node<nat>(|nodes|);
      nodes, made := nodes + [node], made + {node};
    }
  }

  method CreateMailboxes(n: nat) returns (queues: seq<Queue<Msg>>, ghost made: set<object>)
    ensures |queues| == n && fresh(made)
    ensures forall s :: 0 <= s < n ==> queues[s] in made && queues[s].Valid() && queues[s].nodes == []
    ensures forall s, u :: 0 <= s < u < n ==> queues[s] != queues[u]
  {
    queues, made := [], {};
    while |queues| < n
      invariant |queues| <= n && fresh(made)
      invariant forall s :: 0 <= s < |queues| ==> queues[s] in made && queues[s].Valid() && queues[s].nodes == []
      invariant forall s, u :: 0 <= s < u < |queues| ==> queues[s] != queues[u]
    {
      var queue := new Queue<Msg>();
      queues, made := queues + [queue], made + {queue};
    }
  }

  /** Neither the list nor any of its nodes has changed. */
  twostate predicate Untouched(list: Queue<Msg>)
    reads list, list.nodes
  {
    unchanged(list) && forall i :: 0 <= i < |list.nodes| ==> unchanged(list.nodes[i])
  }

  class SessionQueues {
    const runQueue: Queue<nat>
    /** The one node of each session, in the run queue or not. */
    const sessions: seq<Node<nat>>
    const mailboxes: seq<Queue<Msg>>
    ghost var repr: set<object>

    ghost predicate Owns()
      reads this, repr
    {
      && this !in repr && runQueue in repr
      && (forall s :: 0 <= s < |sessions| ==> sessions[s] in repr && sessions[s].value == s)
      && |sessions| == |mailboxes|
      && (forall s :: 0 <= s < |mailboxes| ==> mailboxes[s] in repr)
      && (forall s :: 0 <= s < |mailboxes| ==> forall n :: n in mailboxes[s].nodes ==> n in repr)
      && (forall s, u :: 0 <= s < |mailboxes| && 0 <= u < |mailboxes| && s != u ==> Apart(mailboxes[s], mailboxes[u]))
    }

    /** The run queue is the list of the queued sessions' nodes; the node of a session that is not queued is
        unlinked, although `enqueue` never clears `next`. */
    ghost predicate RunQueueIs(q: seq<nat>)
      requires Owns()
      reads this, repr
    {
      && |runQueue.nodes| == |q|
      && (forall i :: 0 <= i < |q| ==> q[i] < |sessions| && runQueue.nodes[i] == sessions[q[i]])
      && runQueue.Valid()
      && (forall s :: 0 <= s < |sessions| && s !in q ==> sessions[s].next == null)
    }

    /** The lists stand for these mailboxes and this run queue. */
    ghost predicate Represents(slots: seq<Slot>, q: seq<nat>)
      reads this, repr
    {
      && Owns() && |slots| == |mailboxes| && RunQueueIs(q)
      && forall s :: 0 <= s < |slots| ==> mailboxes[s].Valid() && mailboxes[s].Contents() == slots[s].mailbox
    }

    ghost predicate OthersAre(s: nat, slots: seq<Slot>)
      requires Owns()
      reads this, repr
    {
      && |slots| == |mailboxes|
      && forall u :: 0 <= u < |slots| && u != s ==> mailboxes[u].Valid() && mailboxes[u].Contents() == slots[u].mailbox
    }

    // What one operation leaves alone.

    /** A change to the run queue alone. */
    twostate lemma MailboxesStay()
      requires old(Owns()) && old(repr) <= repr && this !in repr
      requires forall s :: 0 <= s < |mailboxes| ==> old(mailboxes[s].Valid()) && Untouched(mailboxes[s])
      ensures Owns()
      ensures forall s :: 0 <= s < |mailboxes| ==>
        mailboxes[s].Valid() && mailboxes[s].Contents() == old(mailboxes[s].Contents())
    {
      forall s, u | 0 <= s < |mailboxes| && 0 <= u < |mailboxes| && s != u
        ensures Apart(mailboxes[s], mailboxes[u])
      {
        assert old(Apart(mailboxes[s], mailboxes[u]));
      }
      forall s | 0 <= s < |mailboxes|
        ensures mailboxes[s].Valid() && mailboxes[s].Contents() == old(mailboxes[s].Contents())
      {
        mailboxes[s].Stays();
      }
    }

    /** The ends of one mailbox are in no other. */
    lemma EndsAreApart(s: nat)
      requires Owns() && s < |mailboxes| && mailboxes[s].Valid()
      ensures forall u, i :: 0 <= u < |mailboxes| && u != s && 0 <= i < |mailboxes[u].nodes| ==>
        mailboxes[u].nodes[i] != mailboxes[s].head && mailboxes[u].nodes[i] != mailboxes[s].tail
    {
      forall u, i | 0 <= u < |mailboxes| && u != s && 0 <= i < |mailboxes[u].nodes|
        ensures mailboxes[u].nodes[i] != mailboxes[s].head && mailboxes[u].nodes[i] != mailboxes[s].tail
      {
        assert Apart(mailboxes[u], mailboxes[s]) && mailboxes[u].nodes[i] in mailboxes[u].nodes;
      }
    }

    /** A change to one mailbox alone, whose nodes afterwards are some it had before and loose ones. */
    twostate lemma OtherMailboxesStay(s: nat)
      requires old(Owns()) && s < |mailboxes| && repr == old(repr)
      requires forall n :: n in mailboxes[s].nodes ==> (
        || n in old(mailboxes[s].nodes)
        || (n in repr && forall u :: 0 <= u < |mailboxes| ==> n !in old(mailboxes[u].nodes)))
      requires forall u :: 0 <= u < |mailboxes| && u != s ==> old(mailboxes[u].Valid()) && Untouched(mailboxes[u])
      ensures Owns()
      ensures forall u :: 0 <= u < |mailboxes| && u != s ==>
        mailboxes[u].Valid() && mailboxes[u].Contents() == old(mailboxes[u].Contents())
    {
      forall u, v | 0 <= u < |mailboxes| && 0 <= v < |mailboxes| && u != v
        ensures Apart(mailboxes[u], mailboxes[v])
      {
        assert old(Apart(mailboxes[u], mailboxes[v]));
      }
      forall u | 0 <= u < |mailboxes| && u != s
        ensures mailboxes[u].Valid() && mailboxes[u].Contents() == old(mailboxes[u].Contents())
      {
        mailboxes[u].Stays();
      }
    }

    lemma EmptyListsAreOwned(n: nat)
      requires |sessions| == n == |mailboxes| && this !in repr && runQueue in repr
      requires forall s :: 0 <= s < n ==> sessions[s] in repr && sessions[s].value == s
      requires forall s :: 0 <= s < n ==> mailboxes[s] in repr && mailboxes[s].nodes == []
      requires forall s, u :: 0 <= s < u < n ==> mailboxes[s] != mailboxes[u]
      ensures Owns()
    {
      forall s, u | 0 <= s < n && 0 <= u < n && s != u ensures Apart(mailboxes[s], mailboxes[u]) {
        assert if s < u then mailboxes[s] != mailboxes[u] else mailboxes[u] != mailboxes[s];
      }
    }

    lemma EmptyListsRepresent(n: nat)
      requires Owns() && |mailboxes| == n && runQueue.Valid() && runQueue.nodes == []
      requires forall s :: 0 <= s < n ==> sessions[s].next == null
      requires forall s :: 0 <= s < n ==> mailboxes[s].Valid() && mailboxes[s].nodes == []
      ensures Represents(seq(n, _ => FRESH_SLOT), [])
    {
      assert RunQueueIs([]);
      forall s | 0 <= s < n ensures mailboxes[s].Contents() == [] {
      }
    }

    /** Every session unlinked, every list empty. */
    constructor (n: nat)
      ensures fresh(repr) && Represents(seq(n, _ => FRESH_SLOT), [])
    {
      runQueue := new Queue<nat>();
      ghost var objects: set<object>, lists: set<object>;
      var nodes, queues;
      nodes, objects := CreateSessions(n);
      queues, lists := CreateMailboxes(n);
      sessions, mailboxes := nodes, queues;
      new;
      repr := {runQueue} + objects + lists;
      EmptyListsAreOwned(n);
      EmptyListsRepresent(n);
    }

    method QueueSession(s: nat, ghost slots: seq<Slot>, ghost q: seq<nat>)
      requires Represents(slots, q) && s < |slots| && s !in q
      modifies repr
      ensures Represents(slots, q + [s])
    {
      var session := sessions[s];
      assert session.next == null && session !in runQueue.nodes;
      runQueue.Enqueue(session);
      MailboxesStay();
      assert RunQueueIs(q + [s]);
    }

    method TakeSession(ghost slots: seq<Slot>, ghost q: seq<nat>) returns (session: Node?<nat>)
      requires Represents(slots, q)
      modifies repr
      ensures session == null <==> q == []
      ensures session != null ==> session.value == q[0]
      ensures Represents(slots, if q == [] then [] else q[1..])
    {
      session := runQueue.Dequeue();
      MailboxesStay();
      assert RunQueueIs(if q == [] then [] else q[1..]);
    }

    /** A node of its own, in none of the lists. */
    ghost predicate Loose(node: Node<Msg>)
      requires Owns()
      reads this, repr, node
    {
      node in repr && node.next == null && forall s :: 0 <= s < |mailboxes| ==> node !in mailboxes[s].nodes
    }

    /** `net_msg_queue::create`. */
    method CreateMessage(m: Msg, ghost slots: seq<Slot>, ghost q: seq<nat>) returns (node: Node<Msg>)
      requires Represents(slots, q)
      modifies this
      ensures fresh(node) && repr == old(repr) + {node}
      ensures Represents(slots, q) && Loose(node) && node.value == m
    {
      node := new Node(m);
      repr := repr + {node};
      MailboxesStay();
      runQueue.Stays();
      assert RunQueueIs(q);
    }

    /** `enqueue` of a created message. */
    method LinkMessage(s: nat, node: Node<Msg>, ghost slots: seq<Slot>, ghost q: seq<nat>, ghost slots': seq<Slot>)
      requires Represents(slots, q) && Loose(node)
      requires s < |slots| == |slots'| && slots'[s].mailbox == slots[s].mailbox + [node.value]
      requires forall u :: 0 <= u < |slots| && u != s ==> slots'[u].mailbox == slots[u].mailbox
      modifies repr
      ensures Represents(slots', q)
    {
      EndsAreApart(s);
      mailboxes[s].Enqueue(node);
      assert mailboxes[s].Contents() == slots'[s].mailbox;
      assert Owns() && OthersAre(s, slots') by { OtherMailboxesStay(s); }
      assert RunQueueIs(q) by { runQueue.Stays(); }
    }

    /** The first half of `push_msg`: create a message and enqueue it. */
    method PushMessage(s: nat, m: Msg, ghost slots: seq<Slot>, ghost q: seq<nat>, ghost slots': seq<Slot>)
      requires Represents(slots, q)
      requires s < |slots| == |slots'| && slots'[s].mailbox == slots[s].mailbox + [m]
      requires forall u :: 0 <= u < |slots| && u != s ==> slots'[u].mailbox == slots[u].mailbox
      modifies this, repr
      ensures Represents(slots', q) && fresh(repr - old(repr))
    {
      var node := CreateMessage(m, slots, q);
      LinkMessage(s, node, slots, q, slots');
    }

    method PopMessage(s: nat, ghost slots: seq<Slot>, ghost q: seq<nat>, ghost slots': seq<Slot>)
        returns (node: Node?<Msg>)
      requires Represents(slots, q) && s < |slots| == |slots'|
      requires slots'[s].mailbox == if slots[s].mailbox == [] then [] else slots[s].mailbox[1..]
      requires forall u :: 0 <= u < |slots| && u != s ==> slots'[u].mailbox == slots[u].mailbox
      modifies repr
      ensures Represents(slots', q)
      ensures node == null <==> slots[s].mailbox == []
      ensures node != null ==> node.value == slots[s].mailbox[0]
    {
      EndsAreApart(s);
      node := mailboxes[s].Dequeue();
      assert Owns() && OthersAre(s, slots') by { OtherMailboxesStay(s); }
      assert RunQueueIs(q) by { runQueue.Stays(); }
    }

    // ------------------------------------------------------------------- every run

    /** The lists stand for nothing but mailboxes and run queue. */
    lemma SameMailboxes(slots: seq<Slot>, slots': seq<Slot>, q: seq<nat>)
      requires Represents(slots, q) && |slots'| == |slots|
      requires forall u :: 0 <= u < |slots| ==> slots'[u].mailbox == slots[u].mailbox
      ensures Represents(slots', q)
    {
    }

    /** One step of the scheduler on the lists. */
    method Step(st: State, e: Event)
      requires Safe(st) && Enabled(st, e) && Represents(st.slots, st.runQueue)
      modifies this, repr
      ensures fresh(repr - old(repr)) && Represents(Apply(st, e).slots, Apply(st, e).runQueue)
    {
      ghost var st' := Apply(st, e);
      StepOnLists(st, e);
      if e.Link? || e.Pop? { StepOnMailbox(st, e); }
      if e.Link? {
        PushMessage(Target(st, e), st.threads[e.t].todo[0].msg, st.slots, st.runQueue, st'.slots);
      } else if e.RunAppend? {
        NotQueuedYet(st, e.t);
        QueueSession(Target(st, e), st.slots, st.runQueue);
        SameMailboxes(st.slots, st'.slots, st'.runQueue);
      } else if e.Take? {
        var session := TakeSession(st.slots, st.runQueue);
        SameMailboxes(st.slots, st'.slots, st'.runQueue);
      } else if e.Pop? {
        var node := PopMessage(Target(st, e), st.slots, st.runQueue, st'.slots);
      } else {
        SameMailboxes(st.slots, st'.slots, st'.runQueue);
      }
    }

    /** Every run, however the threads interleave: the lists stay acyclic, with their tails last, every node outside
        its list stays unlinked, and they stand for the mailboxes and the run queue all the time. */
    method Run(st: State, es: seq<Event>)
      requires Safe(st) && ValidRun(st, es) && Represents(st.slots, st.runQueue)
      modifies this, repr
      ensures Represents(Final(st, es).slots, Final(st, es).runQueue)
    {
      var now, rest := st, es;
      while rest != []
        invariant Safe(now) && ValidRun(now, rest) && Final(now, rest) == Final(st, es)
        invariant fresh(repr - old(repr)) && Represents(now.slots, now.runQueue)
        decreases |rest|
      {
        Step(now, rest[0]);
        StepKeepsSafe(now, rest[0]);
        now, rest := Apply(now, rest[0]), rest[1..];
      }
    }
  }

  /** So it is from the start of the server on. */
  method RunFromStart(st: State, es: seq<Event>) returns (lists: SessionQueues)
    requires Init(st) && ValidRun(st, es)
    ensures lists.Represents(Final(st, es).slots, Final(st, es).runQueue)
  {
    InitIsSafe(st);
    lists := new SessionQueues(|st.slots|);
    assert st.slots == seq(|st.slots|, _ => FRESH_SLOT);
    lists.Run(st, es);
  }
}
