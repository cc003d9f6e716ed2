/** The intrusive singly linked queue behind `net_msg_queue` and `net_session_queue`: the queued objects carry
    the `next` pointer themselves.  The two source classes have the same body apart from the `after` callback,
    which runs under the lock and is part of the scheduler. */
module IntrusiveQueue {

  class Node<T> {
    var next: Node?<T>
    const value: T

    /** `create`: a node starts unlinked. */
    constructor (value: T)
      ensures next == null && this.value == value
    {
      this.value := value;
      next := null;
    }
  }

  /** The heap structure from `head` to `tail` is exactly the acyclic list of these nodes. */
  ghost predicate Chain<T>(head: Node?<T>, tail: Node?<T>, nodes: seq<Node<T>>)
    reads set i | 0 <= i < |nodes| :: nodes[i]
  {
    && (forall i, j :: 0 <= i < j < |nodes| ==> nodes[i] != nodes[j])
    && (nodes == [] <==> head == null)
    && (nodes == [] <==> tail == null)
    && (nodes != [] ==> head == nodes[0] && tail == nodes[|nodes| - 1] && nodes[|nodes| - 1].next == null)
    && forall i {:trigger nodes[i]} :: 0 <= i < |nodes| - 1 ==> nodes[i].next == nodes[i + 1]
  }

  /** The heap determines the list: a queue cannot stand for two sequences. */
  lemma ChainIsUnique<T>(head: Node?<T>, tail: Node?<T>, a: seq<Node<T>>, b: seq<Node<T>>)
    requires Chain(head, tail, a) && Chain(head, tail, b)
    ensures a == b
  {
    if |a| <= |b| { ShorterChainIsPrefix(head, tail, a, b); } else { ShorterChainIsPrefix(head, tail, b, a); }
  }

  lemma ShorterChainIsPrefix<T>(head: Node?<T>, tail: Node?<T>, a: seq<Node<T>>, b: seq<Node<T>>)
    requires Chain(head, tail, a) && Chain(head, tail, b) && |a| <= |b|
    ensures a == b
  {
    if a != [] {
      ChainsAgree(head, tail, a, b, |a| - 1);
    }
  }

  lemma {:induction false} ChainsAgree<T>(head: Node?<T>, tail: Node?<T>, a: seq<Node<T>>, b: seq<Node<T>>, i: nat)
    requires Chain(head, tail, a) && Chain(head, tail, b) && i < |a| <= |b|
    ensures forall j :: 0 <= j <= i ==> a[j] == b[j]
  {
    if i > 0 {
      ChainsAgree(head, tail, a, b, i - 1);
      assert a[i - 1].next == a[i] && b[i - 1].next == b[i];
    }
  }

  class Queue<T> {
    var head: Node?<T>
    var tail: Node?<T>
    ghost var nodes: seq<Node<T>>

    ghost predicate Valid()
      reads this, nodes
    {
      Chain(head, tail, nodes)
    }

    ghost function Contents(): seq<T>
      reads this
    {
      seq(|nodes|, i requires 0 <= i < |nodes| reads this => nodes[i].value)
    }

    /** A list none of whose nodes changes stays what it was. */
    twostate lemma Stays()
      requires old(Valid()) && unchanged(this)
      requires forall i :: 0 <= i < |nodes| ==> nodes[i].next == old(nodes[i].next)
      ensures Valid() && Contents() == old(Contents())
    {
      assert nodes != [] ==> nodes[|nodes| - 1].next == old(nodes[|nodes| - 1].next);
    }

    constructor ()
      ensures Valid() && nodes == []
    {
      head, tail, nodes := null, null, [];
    }

    /** `enqueue` never clears `next`: the result is the old queue followed by the node exactly if the node
        came unlinked and was not queued already. */
    method Enqueue(node: Node<T>)
      requires Valid()
      modifies this, tail
      ensures nodes == old(nodes) + [node] && Contents() == old(Contents()) + [node.value]
      ensures Valid() <==> old(node.next) == null && node !in old(nodes)
      ensures forall n :: n in old(nodes) && n != old(tail) ==> n.next == old(n.next)
    {
      ghost var extended := nodes + [node];
      ghost var fits := node.next == null && node !in nodes;
      if tail != null {
        tail.next := node;
        tail := node;
      } else {
        head, tail := node, node;
      }
      nodes := extended;
      if fits {
        assert forall i :: 0 <= i < |old(nodes)| ==> extended[i] == old(nodes)[i];
      } else if node in old(nodes) {
        var i :| 0 <= i < |old(nodes)| && old(nodes)[i] == node;
        assert extended[i] == node == extended[|old(nodes)|];
      } else {
        assert extended[|extended| - 1] == node && node.next == old(node.next);
      }
    }

    /** `dequeue`: null exactly on the empty queue; otherwise the front node, unlinked. */
    method Dequeue() returns (node: Node?<T>)
      requires Valid()
      modifies this, head
      ensures Valid()
      ensures node == null <==> old(nodes) == []
      ensures node == null ==> nodes == [] && head == null && tail == null
      ensures node != null ==>
        node == old(nodes)[0] && nodes == old(nodes)[1..] && node.next == null && node !in nodes
        && Contents() == old(Contents())[1..]
    {
      node := head;
      if head != null {
        assert |nodes| > 1 ==> nodes[0].next == nodes[1];
        head := node.next;
        if head == null {
          tail := head;
        }
        node.next := null;
        ghost var rest := nodes[1..];
        assert forall i :: 0 <= i < |rest| ==> rest[i] == nodes[i + 1];
        nodes := rest;
      }
    }

    /** `count` walks the list. */
    method Count() returns (count: nat)
      requires Valid()
      ensures count == |nodes|
    {
      count := 0;
      var node := head;
      while node != null
        invariant count <= |nodes|
        invariant node == if count < |nodes| then nodes[count] else null
        decreases |nodes| - count
      {
        count := count + 1;
        node := node.next;
      }
    }
  }
}
