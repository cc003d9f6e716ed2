/** Sequences of opposite edges: connect (true) and disconnect (false). */
module Alternation {

  /** The edges are true, false, true, ... */
  predicate Alternates(edges: seq<bool>) {
    forall i :: 0 <= i < |edges| ==> (edges[i] <==> i % 2 == 0)
  }

  /** 0 if the edges alternate and end down, 1 if they alternate and end up, -1 if they do not alternate. */
  function Phase(edges: seq<bool>): int {
    if edges == [] then 0
    else
      var before := Phase(edges[..|edges| - 1]);
      if edges[|edges| - 1] then if before == 0 then 1 else -1
      else if before == 1 then 0 else -1
  }

  lemma PhaseAppend(edges: seq<bool>, up: bool)
    ensures Phase(edges + [up]) ==
      if up then if Phase(edges) == 0 then 1 else -1 else if Phase(edges) == 1 then 0 else -1
  {
    assert (edges + [up])[..|edges|] == edges;
  }

  lemma AlternatesAppend(edges: seq<bool>, up: bool)
    ensures Alternates(edges + [up]) <==> Alternates(edges) && (up <==> |edges| % 2 == 0)
  {
    assert (edges + [up])[|edges|] == up;
    assert forall i :: 0 <= i < |edges| ==> (edges + [up])[i] == edges[i];
  }

  lemma {:induction false} PhaseMeansAlternates(edges: seq<bool>)
    ensures Phase(edges) >= 0 <==> Alternates(edges)
    ensures Phase(edges) >= 0 ==> Phase(edges) == |edges| % 2
  {
    if edges != [] {
      var front := edges[..|edges| - 1];
      PhaseMeansAlternates(front);
      assert edges == front + [edges[|edges| - 1]];
      AlternatesAppend(front, edges[|edges| - 1]);
    }
  }
}
