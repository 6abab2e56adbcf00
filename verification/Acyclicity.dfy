/** Closed walks in a finite dependency relation, and the ranking argument that rules them out. */
module Acyclicity {

  /** `walk` follows edges from each node to one of its dependencies and ends where it began. */
  ghost predicate ClosedWalk<T>(edges: set<(T, T)>, walk: seq<T>)
  {
    && |walk| >= 2
    && walk[0] == walk[|walk| - 1]
    && Follows(edges, walk)
  }

  ghost predicate Follows<T>(edges: set<(T, T)>, walk: seq<T>)
  {
    forall k :: 0 <= k < |walk| - 1 ==> StepIn(edges, walk, k)
  }

  ghost predicate StepIn<T>(edges: set<(T, T)>, walk: seq<T>, k: nat)
    requires k < |walk| - 1
  {
    (walk[k], walk[k + 1]) in edges
  }

  ghost predicate Acyclic<T(!new)>(edges: set<(T, T)>)
  {
    forall walk: seq<T> :: !ClosedWalk(edges, walk)
  }

  /** Every edge leads to a strictly smaller rank. */
  ghost predicate Ranks<T>(edges: set<(T, T)>, rank: map<T, nat>)
  {
    forall e :: e in edges ==> e.0 in rank && e.1 in rank && rank[e.1] < rank[e.0]
  }

  lemma {:induction false} RankFallsAlongWalk<T>(edges: set<(T, T)>, rank: map<T, nat>, walk: seq<T>, k: nat)
    requires Ranks(edges, rank)
    requires 0 < k < |walk|
    requires Follows(edges, walk)
    ensures walk[0] in rank && walk[k] in rank && rank[walk[k]] < rank[walk[0]]
  {
    assert StepIn(edges, walk, k - 1);
    if k > 1 {
      RankFallsAlongWalk(edges, rank, walk, k - 1);
    }
  }

  /** A relation that can be ranked has no closed walk. */
  lemma RankedIsAcyclic<T(!new)>(edges: set<(T, T)>, rank: map<T, nat>)
    requires Ranks(edges, rank)
    ensures Acyclic(edges)
  {
    forall walk: seq<T>
      ensures !ClosedWalk(edges, walk)
    {
      if ClosedWalk(edges, walk) {
        RankFallsAlongWalk(edges, rank, walk, |walk| - 1);
        assert false;
      }
    }
  }
}
