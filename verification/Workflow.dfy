/** Batch workflow graphs: reference resolution, Kahn's ordering and the cycle witness
    (api/internal/workflow/graph.go). */
module Workflow {
  import opened Wrappers
  import opened Acyclicity
  import opened Sequences
  import opened Text

  const MAX_DEPENDENCIES_PER_JOB := 64

  datatype Node = Node(ref: string, dependsOn: seq<string>)

  datatype Fault =
    | DuplicateRef(index: nat, previous: nat)
    | TooManyDependencies(index: nat)
    | EmptyReference(index: nat)
    | SelfDependency(index: nat)

  /** The three ways Resolve returns. A key absent from Go's Internal or External map is an empty sequence here. */
  datatype Outcome =
    | Invalid(fault: Fault)
    | Cyclic(path: seq<string>)
    | Resolved(order: seq<nat>, internal: seq<seq<nat>>, external: seq<seq<string>>)

  // ---------- What the input means ----------

  ghost function References(deps: seq<string>): set<string>
  {
    set d | d in deps :: TrimSpace(d)
  }

  ghost predicate Declared(nodes: seq<Node>, ref: string)
  {
    ref != "" && exists j :: 0 <= j < |nodes| && nodes[j].ref == ref
  }

  /** Node i names node j among its dependencies. */
  ghost predicate DependsOn(nodes: seq<Node>, i: nat, j: nat)
    requires i < |nodes| && j < |nodes|
  {
    nodes[j].ref != "" && nodes[j].ref in References(nodes[i].dependsOn)
  }

  ghost function InternalEdges(nodes: seq<Node>): set<(nat, nat)>
  {
    set i, j | 0 <= i < |nodes| && 0 <= j < |nodes| && DependsOn(nodes, i, j) :: (i, j)
  }

  ghost predicate RefsDistinct(nodes: seq<Node>)
  {
    forall i, j :: 0 <= i < j < |nodes| && nodes[j].ref != "" ==> nodes[i].ref != nodes[j].ref
  }

  ghost predicate NodeOk(node: Node)
  {
    && |node.dependsOn| <= MAX_DEPENDENCIES_PER_JOB
    && forall k :: 0 <= k < |node.dependsOn| ==> ReferenceOk(node, node.dependsOn[k])
  }

  ghost predicate ReferenceOk(node: Node, dep: string)
  {
    TrimSpace(dep) != "" && TrimSpace(dep) != node.ref
  }

  /** The ref, count, empty and self checks all pass. */
  ghost predicate Passes(nodes: seq<Node>)
  {
    RefsDistinct(nodes) && forall i :: 0 <= i < |nodes| ==> NodeOk(nodes[i])
  }

  ghost predicate GoodBefore(node: Node, k: nat)
    requires k <= |node.dependsOn|
  {
    forall l :: 0 <= l < k ==> ReferenceOk(node, node.dependsOn[l])
  }

  /** `dep` is the first offending reference of `node`. */
  ghost predicate FirstBad(node: Node, dep: string)
  {
    && |node.dependsOn| <= MAX_DEPENDENCIES_PER_JOB
    && !ReferenceOk(node, dep)
    && exists k :: 0 <= k < |node.dependsOn| && node.dependsOn[k] == dep && GoodBefore(node, k)
  }

  /** The first thing wrong with node i on its own. */
  ghost predicate NodeFault(node: Node, fault: Fault)
  {
    match fault
    case DuplicateRef(_, _) => false
    case TooManyDependencies(_) => |node.dependsOn| > MAX_DEPENDENCIES_PER_JOB
    case EmptyReference(_) => exists dep :: FirstBad(node, dep) && TrimSpace(dep) == ""
    case SelfDependency(_) => exists dep :: FirstBad(node, dep) && TrimSpace(dep) == node.ref != ""
  }

  /** The reported fault is real, and everything checked before it was in order. */
  ghost predicate FirstFault(nodes: seq<Node>, fault: Fault)
  {
    && fault.index < |nodes|
    && if fault.DuplicateRef? then
         && fault.previous < fault.index
         && nodes[fault.previous].ref == nodes[fault.index].ref != ""
         && RefsDistinct(nodes[..fault.index])
       else
         && RefsDistinct(nodes)
         && (forall k :: 0 <= k < fault.index ==> NodeOk(nodes[k]))
         && NodeFault(nodes[fault.index], fault)
  }

  // ---------- What a resolution promises ----------

  /** `ints` and `exts` are the distinct trimmed references among `deps`, split by whether a node declares them. */
  ghost predicate Splits(nodes: seq<Node>, deps: seq<string>, ints: seq<nat>, exts: seq<string>)
  {
    && NoDup(ints) && NoDup(exts)
    && (forall j :: j in ints <==> 0 <= j < |nodes| && nodes[j].ref != "" && nodes[j].ref in References(deps))
    && (forall x :: x in exts <==> x in References(deps) && !Declared(nodes, x))
  }

  ghost predicate SplitsAll(nodes: seq<Node>, internal: seq<seq<nat>>, external: seq<seq<string>>)
  {
    && |internal| == |external| == |nodes|
    && forall i :: 0 <= i < |nodes| ==> Splits(nodes, nodes[i].dependsOn, internal[i], external[i])
  }

  ghost predicate AllIn(deps: seq<nat>, done: seq<nat>)
  {
    forall d :: d in deps ==> d in done
  }

  /** Every node occurs exactly once, after all of its dependencies. */
  ghost predicate Topological(internal: seq<seq<nat>>, order: seq<nat>)
  {
    && NoDup(order)
    && (forall i :: i in order <==> 0 <= i < |internal|)
    && (forall p :: 0 <= p < |order| ==> order[p] < |internal| && AllIn(internal[order[p]], order[..p]))
  }

  ghost predicate Resolution(nodes: seq<Node>, order: seq<nat>, internal: seq<seq<nat>>, external: seq<seq<string>>)
  {
    SplitsAll(nodes, internal, external) && Topological(internal, order)
  }

  /** `path` spells a dependency cycle out in declared references. */
  ghost predicate NamesCycle(nodes: seq<Node>, path: seq<string>)
  {
    && |path| >= 3
    && path[0] == path[|path| - 1]
    && DistinctTail(path)
    && (forall k :: 0 <= k < |path| ==> Declared(nodes, path[k]))
    && (forall k :: 0 <= k < |path| - 1 ==> NamesStep(nodes, path, k))
  }

  /** Some node declared as path[k] lists path[k + 1] among its references. */
  ghost predicate NamesStep(nodes: seq<Node>, path: seq<string>, k: nat)
    requires k < |path| - 1
  {
    RefDependsOn(nodes, path[k], path[k + 1])
  }

  ghost predicate RefDependsOn(nodes: seq<Node>, a: string, b: string)
  {
    exists i :: 0 <= i < |nodes| && nodes[i].ref == a && b in References(nodes[i].dependsOn)
  }

  // ---------- Counting unplaced dependencies ----------

  /** How many of `deps` are still missing from `done`: the value Kahn's algorithm keeps as an indegree. */
  ghost function Pending(deps: seq<nat>, done: seq<nat>): nat
  {
    if deps == [] then 0
    else (if deps[0] in done then 0 else 1) + Pending(deps[1..], done)
  }

  lemma {:induction false} PendingNone(deps: seq<nat>)
    ensures Pending(deps, []) == |deps|
  {
    if deps != [] { PendingNone(deps[1..]); }
  }

  lemma {:induction false} PendingZero(deps: seq<nat>, done: seq<nat>)
    ensures Pending(deps, done) == 0 <==> AllIn(deps, done)
  {
    if deps != [] {
      PendingZero(deps[1..], done);
      assert forall d :: d in deps <==> d == deps[0] || d in deps[1..];
    }
  }

  /** Placing one more node lowers the count by one exactly when it was an unplaced dependency. */
  lemma {:induction false} PendingAfter(deps: seq<nat>, done: seq<nat>, cur: nat)
    requires NoDup(deps) && cur !in done
    ensures Pending(deps, done + [cur]) == Pending(deps, done) - (if cur in deps then 1 else 0)
  {
    if deps != [] {
      assert NoDup(deps[1..]);
      PendingAfter(deps[1..], done, cur);
      assert deps == [deps[0]] + deps[1..];
    }
  }

  // ---------- Kahn's algorithm ----------

  /** `adjacency` lists, for each node, the nodes that depend on it. */
  ghost predicate Transposes(internal: seq<seq<nat>>, adjacency: seq<seq<nat>>)
  {
    && |internal| == |adjacency|
    && (forall i :: 0 <= i < |internal| ==> NoDup(internal[i]) && NoDup(adjacency[i]))
    && (forall i, d :: 0 <= i < |internal| && d in internal[i] ==> d < |internal|)
    && (forall j, v :: 0 <= j < |adjacency| && v in adjacency[j] ==> v < |adjacency|)
    && (forall i, j :: 0 <= i < |internal| && 0 <= j < |internal| ==> (i in adjacency[j] <==> j in internal[i]))
  }

  /** `placed` is closed under dependencies, and `indegree` counts what each node still waits for. */
  ghost predicate Residue(internal: seq<seq<nat>>, placed: seq<nat>, indegree: seq<int>)
  {
    && |indegree| == |internal|
    && (forall v :: 0 <= v < |internal| ==> indegree[v] == Pending(internal[v], placed))
    && (forall v: nat :: v < |internal| ==> (v in placed <==> indegree[v] == 0))
  }

  ghost predicate PlacedInOrder(internal: seq<seq<nat>>, order: seq<nat>)
  {
    forall p :: 0 <= p < |order| ==> order[p] < |internal| && AllIn(internal[order[p]], order[..p])
  }

  /** The queue holds exactly the unplaced nodes whose indegree is zero. */
  ghost predicate Ready(n: nat, order: seq<nat>, queue: seq<nat>, indegree: seq<int>)
  {
    && |indegree| == n
    && NoDup(order + queue)
    && (forall v :: v in order + queue ==> v < n)
    && (forall v: nat :: v < n ==> (v in order + queue <==> indegree[v] == 0))
  }

  /** The ordering loop of Resolve. It places as many nodes as can be placed and leaves the residue's indegrees
      behind. */
  method Drain(internal: seq<seq<nat>>, adjacency: seq<seq<nat>>, indegree: array<int>) returns (order: seq<nat>)
    requires Transposes(internal, adjacency)
    requires indegree.Length == |internal|
    requires forall v :: 0 <= v < |internal| ==> indegree[v] == |internal[v]|
    modifies indegree
    ensures NoDup(order) && PlacedInOrder(internal, order)
    ensures Residue(internal, order, indegree[..])
  {
    var n := |internal|;
    var queue: seq<nat> := [];
    for i := 0 to n
      invariant NoDup(queue)
      invariant forall k :: 0 <= k < |queue| ==> queue[k] < i
      invariant forall v: nat :: v < i ==> (v in queue <==> indegree[v] == 0)
    {
      if indegree[i] == 0 {
        queue := queue + [i];
      }
    }
    order := [];
    forall v | 0 <= v < n
      ensures indegree[v] == Pending(internal[v], [])
    {
      PendingNone(internal[v]);
    }
    assert order + queue == queue;
    while |queue| > 0
      invariant Ready(n, order, queue, indegree[..])
      invariant forall v :: 0 <= v < n ==> indegree[v] == Pending(internal[v], order)
      invariant PlacedInOrder(internal, order)
      decreases n - |order|
    {
      DistinctIndices(order + queue, n);
      PlaceHead(internal, adjacency, indegree[..], queue, order);
      var cur := queue[0];
      queue, order := queue[1..], order + [cur];
      queue := Release(internal, adjacency[cur], indegree, order, queue);
      DistinctIndices(order + queue, n);
    }
    assert order + queue == order;
  }

  /** Moving the head of the queue to the end of the order: what its dependents' indegrees are now too high by. */
  lemma PlaceHead(internal: seq<seq<nat>>, adjacency: seq<seq<nat>>, indegree: seq<int>, queue: seq<nat>,
                  order: seq<nat>)
    requires Transposes(internal, adjacency)
    requires queue != [] && Ready(|internal|, order, queue, indegree)
    requires forall v :: 0 <= v < |internal| ==> indegree[v] == Pending(internal[v], order)
    requires PlacedInOrder(internal, order)
    ensures Ready(|internal|, order + [queue[0]], queue[1..], indegree)
    ensures PlacedInOrder(internal, order + [queue[0]])
    ensures queue[0] < |internal|
    ensures forall v: nat :: v < |internal| ==>
      indegree[v] == Pending(internal[v], order + [queue[0]]) + (if v in adjacency[queue[0]] then 1 else 0)
  {
    var cur, order' := queue[0], order + [queue[0]];
    var all := order + queue;
    assert all == order' + queue[1..];
    assert all[|order|] == cur && cur in all;
    assert cur !in order by {
      assert forall i :: 0 <= i < |order| ==> all[i] == order[i] && all[i] != all[|order|];
    }
    PendingZero(internal[cur], order);
    forall v: nat | v < |internal|
      ensures Pending(internal[v], order') == Pending(internal[v], order) - (if v in adjacency[cur] then 1 else 0)
    {
      PendingAfter(internal[v], order, cur);
    }
    forall p | 0 <= p < |order'|
      ensures order'[p] < |internal| && AllIn(internal[order'[p]], order'[..p])
    {
      if p < |order| {
        assert order'[..p] == order[..p];
      } else {
        assert order'[..p] == order;
      }
    }
  }

  /** The inner loop of the ordering: every dependent of the node just placed loses one from its indegree,
      and joins the queue when nothing is left to wait for. */
  method Release(internal: seq<seq<nat>>, waiting: seq<nat>, indegree: array<int>, order: seq<nat>, queue0: seq<nat>)
    returns (queue: seq<nat>)
    requires NoDup(waiting) && forall v :: v in waiting ==> v < |internal|
    requires Ready(|internal|, order, queue0, indegree[..])
    requires forall v: nat :: v < |internal| ==>
      indegree[v] == Pending(internal[v], order) + (if v in waiting then 1 else 0)
    modifies indegree
    ensures Ready(|internal|, order, queue, indegree[..])
    ensures forall v :: 0 <= v < |internal| ==> indegree[v] == Pending(internal[v], order)
  {
    queue := queue0;
    for k := 0 to |waiting|
      invariant Ready(|internal|, order, queue, indegree[..])
      invariant forall v: nat :: v < |internal| ==>
        indegree[v] == Pending(internal[v], order) + (if v in waiting[k..] then 1 else 0)
    {
      var next := waiting[k];
      assert next in waiting;
      assert waiting[k..] == [next] + waiting[k + 1..];
      assert next !in waiting[k + 1..];
      ghost var before := order + queue;
      assert next !in before;
      indegree[next] := indegree[next] - 1;
      if indegree[next] == 0 {
        queue := queue + [next];
        assert order + queue == before + [next];
      }
    }
  }

  // ---------- The cycle witness ----------

  function Label(nodes: seq<Node>, i: nat): string
    requires i < |nodes|
  {
    if nodes[i].ref != "" then nodes[i].ref else "index:" + Decimal(i)
  }

  ghost function Labels(nodes: seq<Node>, path: seq<nat>): (r: seq<string>)
    requires forall k :: 0 <= k < |path| ==> path[k] < |nodes|
  {
    seq(|path|, k requires 0 <= k < |path| => Label(nodes, path[k]))
  }

  /** Consecutive nodes of `path` are joined by a dependency. */
  ghost predicate Chain(internal: seq<seq<nat>>, path: seq<nat>)
  {
    && (forall k :: 0 <= k < |path| ==> path[k] < |internal|)
    && (forall k :: 0 <= k < |path| - 1 ==> Steps(internal, path, k))
  }

  ghost predicate Steps(internal: seq<seq<nat>>, path: seq<nat>, k: nat)
    requires k < |path| - 1 && path[k] < |internal|
  {
    path[k + 1] in internal[path[k]]
  }

  ghost predicate CycleIn(internal: seq<seq<nat>>, cycle: seq<nat>)
  {
    && |cycle| >= 2
    && Chain(internal, cycle)
    && cycle[0] == cycle[|cycle| - 1]
    && DistinctTail(cycle)
  }

  /** Where findCycle's walk stands: `walked` is a chain of distinct nodes leading to `cur`, and `seen` indexes it. */
  ghost predicate Walking(internal: seq<seq<nat>>, walked: seq<nat>, seen: map<nat, nat>, cur: nat)
  {
    && cur < |internal|
    && (forall v :: v in seen <==> v in walked)
    && (forall v :: v in seen ==> seen[v] < |walked| && walked[seen[v]] == v)
    && NoDup(walked)
    && Chain(internal, walked + [cur])
  }

  lemma WalkOn(internal: seq<seq<nat>>, walked: seq<nat>, seen: map<nat, nat>, cur: nat, next: nat)
    requires Walking(internal, walked, seen, cur)
    requires cur !in seen && next in internal[cur] && next < |internal|
    ensures Walking(internal, walked + [cur], seen[cur := |walked|], next)
    ensures |walked| < |internal|
  {
    var all := walked + [cur];
    forall k | 0 <= k < |walked|
      ensures all[k] == walked[k] && walked[k] in seen
    {
      assert walked[k] in walked;
    }
    assert forall k :: 0 <= k < |all| ==> all[k] < |internal|;
    DistinctIndices(all, |internal|);
    var chain := all + [next];
    assert forall k :: 0 <= k < |all| ==> chain[k] == all[k];
    forall k | 0 <= k < |chain| - 1
      ensures Steps(internal, chain, k)
    {
      if k < |all| - 1 { assert Steps(internal, all, k); }
    }
  }

  /** The first dependency still waiting, as the walk's inner loop picks it. */
  method NextWaiting(deps: seq<nat>, indegree: array<int>, start: nat) returns (k: nat)
    requires forall l :: 0 <= l < |deps| ==> deps[l] < indegree.Length
    ensures k <= |deps|
    ensures k < |deps| ==> indegree[deps[k]] > 0 || deps[k] == start
    ensures k == |deps| ==> forall d :: d in deps ==> indegree[d] <= 0
  {
    k := 0;
    while k < |deps| && !(indegree[deps[k]] > 0 || deps[k] == start)
      invariant 0 <= k <= |deps|
      invariant forall l :: 0 <= l < k ==> indegree[deps[l]] <= 0
    {
      k := k + 1;
    }
  }

  /** findCycle. On the residue Kahn's loop leaves it never falls back: it walks unplaced nodes until one repeats. */
  method FindCycle(nodes: seq<Node>, internal: seq<seq<nat>>, indegree: array<int>, ghost placed: seq<nat>)
    returns (path: seq<string>)
    requires |internal| == |nodes| == indegree.Length
    requires forall i, d :: 0 <= i < |internal| && d in internal[i] ==> d < |internal|
    ensures Residue(internal, placed, indegree[..]) && (exists i: nat :: i < |nodes| && i !in placed) ==>
      exists cycle :: CycleIn(internal, cycle) && path == Labels(nodes, cycle)
  {
    var n := |nodes|;
    ghost var waits := indegree[..];
    ghost var stuck := Residue(internal, placed, waits) && (exists i: nat :: i < n && i !in placed);
    var start: nat := 0;
    while start < n && indegree[start] <= 0
      invariant start <= n
      invariant forall i :: 0 <= i < start ==> indegree[i] <= 0
    {
      start := start + 1;
    }
    if start == n {
      if stuck {
        SomethingWaits(internal, placed, waits);
      }
      return ["unknown"];
    }

    var seen: map<nat, nat> := map[];
    var walked: seq<nat> := [];
    var cur: nat := start;
    while cur !in seen
      invariant Walking(internal, walked, seen, cur)
      invariant stuck ==> indegree[cur] > 0
      decreases n - |walked|
    {
      var deps := internal[cur];
      assert forall l :: 0 <= l < |deps| ==> deps[l] in internal[cur];
      var k := NextWaiting(deps, indegree, start);
      if k == |deps| {
        if stuck {
          WaitsForUnplaced(internal, placed, waits, cur);
        }
        return [Label(nodes, cur)];
      }
      WalkOn(internal, walked, seen, cur, deps[k]);
      seen := seen[cur := |walked|];
      walked := walked + [cur];
      cur := deps[k];
    }
    var loop := walked[seen[cur]..];
    LoopIsCycle(internal, walked, cur, seen[cur]);
    path := Spell(nodes, loop, cur);
  }

  /** The labels of a loop, closed with the label it started from. */
  method Spell(nodes: seq<Node>, loop: seq<nat>, cur: nat) returns (out: seq<string>)
    requires cur < |nodes| && forall k :: 0 <= k < |loop| ==> loop[k] < |nodes|
    ensures out == Labels(nodes, loop + [cur])
  {
    out := [];
    for k := 0 to |loop|
      invariant |out| == k && forall l :: 0 <= l < k ==> out[l] == Label(nodes, loop[l])
    {
      out := out + [Label(nodes, loop[k])];
    }
    out := out + [Label(nodes, cur)];
  }

  lemma SomethingWaits(internal: seq<seq<nat>>, placed: seq<nat>, indegree: seq<int>)
    requires Residue(internal, placed, indegree)
    requires exists i: nat :: i < |internal| && i !in placed
    ensures exists i :: 0 <= i < |internal| && indegree[i] > 0
  {
    var i: nat :| i < |internal| && i !in placed;
    assert indegree[i] == Pending(internal[i], placed);
  }

  lemma WaitsForUnplaced(internal: seq<seq<nat>>, placed: seq<nat>, indegree: seq<int>, v: nat)
    requires Residue(internal, placed, indegree)
    requires v < |internal| && indegree[v] > 0
    requires forall d :: d in internal[v] ==> d < |internal|
    ensures exists d :: d in internal[v] && indegree[d] > 0
  {
    PendingZero(internal[v], placed);
    var d :| d in internal[v] && d !in placed;
    assert indegree[d] == Pending(internal[d], placed);
  }

  lemma LoopIsCycle(internal: seq<seq<nat>>, walked: seq<nat>, cur: nat, at: nat)
    requires at < |walked| && walked[at] == cur
    requires NoDup(walked) && Chain(internal, walked + [cur])
    ensures CycleIn(internal, walked[at..] + [cur])
    ensures forall k :: at <= k < |walked| ==> walked[k] < |internal|
  {
    hide NoDup;
    var whole := walked + [cur];
    var cycle := walked[at..] + [cur];
    assert forall k :: 0 <= k < |walked| ==> whole[k] == walked[k];
    assert cycle == whole[at..];
    forall k | 0 <= k < |cycle| - 1
      ensures Steps(internal, cycle, k)
    {
      assert Steps(internal, whole, at + k);
    }
    TurnedIsDistinct(walked, at);
  }

  lemma TurnedIsDistinct(walked: seq<nat>, at: nat)
    requires at < |walked| && NoDup(walked)
    ensures DistinctTail(walked[at..] + [walked[at]])
  {
    var turned := walked[at..] + [walked[at]];
    assert forall k :: 0 <= k < |turned| - 1 ==> turned[k] == walked[at + k];
  }

  // ---------- Cycles and orders, in terms of the input ----------

  /** One step of a cycle: an edge of the input's relation between distinct nodes, the second of them declared. */
  lemma CycleStep(nodes: seq<Node>, internal: seq<seq<nat>>, external: seq<seq<string>>, cycle: seq<nat>, k: nat)
    requires Passes(nodes) && SplitsAll(nodes, internal, external)
    requires CycleIn(internal, cycle) && k < |cycle| - 1
    ensures cycle[k] < |nodes| && cycle[k + 1] < |nodes| && cycle[k] != cycle[k + 1]
    ensures (cycle[k], cycle[k + 1]) in InternalEdges(nodes)
    ensures DependsOn(nodes, cycle[k], cycle[k + 1])
    ensures Declared(nodes, nodes[cycle[k + 1]].ref) && Label(nodes, cycle[k + 1]) == nodes[cycle[k + 1]].ref
  {
    assert Steps(internal, cycle, k);
    StepIsEdge(nodes, internal, external, cycle[k], cycle[k + 1]);
  }

  /** Every node of a cycle is one some other node refers to, so it carries a declared ref. */
  lemma CycleNodeDeclared(nodes: seq<Node>, internal: seq<seq<nat>>, external: seq<seq<string>>, cycle: seq<nat>,
                          k: nat)
    requires Passes(nodes) && SplitsAll(nodes, internal, external)
    requires CycleIn(internal, cycle) && k < |cycle|
    ensures cycle[k] < |nodes| && nodes[cycle[k]].ref != ""
    ensures Declared(nodes, nodes[cycle[k]].ref) && Label(nodes, cycle[k]) == nodes[cycle[k]].ref
  {
    CycleStep(nodes, internal, external, cycle, if k == 0 then |cycle| - 2 else k - 1);
  }

  /** A cycle among resolved nodes is spelled in declared references only. */
  lemma CycleIsNamed(nodes: seq<Node>, internal: seq<seq<nat>>, external: seq<seq<string>>, cycle: seq<nat>)
    requires Passes(nodes) && SplitsAll(nodes, internal, external)
    requires CycleIn(internal, cycle)
    ensures NamesCycle(nodes, Labels(nodes, cycle))
  {
    assert |internal| == |nodes|;
    hide Passes, SplitsAll, Declared, InternalEdges;
    var path := Labels(nodes, cycle);
    forall k | 0 <= k < |path|
      ensures path[k] == nodes[cycle[k]].ref != "" && Declared(nodes, path[k])
    {
      CycleNodeDeclared(nodes, internal, external, cycle, k);
    }
    CycleStep(nodes, internal, external, cycle, 0);
    forall k | 0 <= k < |path| - 1
      ensures NamesStep(nodes, path, k)
    {
      CycleStep(nodes, internal, external, cycle, k);
      assert path[k] == nodes[cycle[k]].ref;
    }
    forall i, j | 0 < i < j < |path|
      ensures path[i] != path[j]
    {
      CycleLabelsApart(nodes, internal, external, cycle, i, j);
    }
  }

  lemma CycleLabelsApart(nodes: seq<Node>, internal: seq<seq<nat>>, external: seq<seq<string>>, cycle: seq<nat>,
                         i: nat, j: nat)
    requires Passes(nodes) && SplitsAll(nodes, internal, external)
    requires CycleIn(internal, cycle)
    requires 0 < i < j < |cycle|
    ensures cycle[i] < |nodes| && cycle[j] < |nodes| && Label(nodes, cycle[i]) != Label(nodes, cycle[j])
  {
    CycleNodeDeclared(nodes, internal, external, cycle, i);
    CycleNodeDeclared(nodes, internal, external, cycle, j);
    DistinctNodesDistinctRefs(nodes, cycle[i], cycle[j]);
  }

  lemma CycleCloses(nodes: seq<Node>, internal: seq<seq<nat>>, external: seq<seq<string>>, cycle: seq<nat>)
    requires Passes(nodes) && SplitsAll(nodes, internal, external)
    requires CycleIn(internal, cycle)
    ensures ClosedWalk(InternalEdges(nodes), cycle)
  {
    forall k | 0 <= k < |cycle| - 1
      ensures StepIn(InternalEdges(nodes), cycle, k)
    {
      CycleStep(nodes, internal, external, cycle, k);
    }
  }

  lemma DistinctNodesDistinctRefs(nodes: seq<Node>, i: nat, j: nat)
    requires RefsDistinct(nodes) && i < |nodes| && j < |nodes| && i != j
    requires nodes[i].ref != "" && nodes[j].ref != ""
    ensures nodes[i].ref != nodes[j].ref
  {
    if i < j {
      assert nodes[i].ref != nodes[j].ref;
    } else {
      assert nodes[j].ref != nodes[i].ref;
    }
  }

  lemma StepIsEdge(nodes: seq<Node>, internal: seq<seq<nat>>, external: seq<seq<string>>, i: nat, j: nat)
    requires Passes(nodes) && SplitsAll(nodes, internal, external)
    requires i < |nodes| && j in internal[i]
    ensures j < |nodes| && i != j && DependsOn(nodes, i, j) && (i, j) in InternalEdges(nodes)
  {
    assert Splits(nodes, nodes[i].dependsOn, internal[i], external[i]);
    var d :| d in nodes[i].dependsOn && TrimSpace(d) == nodes[j].ref;
    var k :| 0 <= k < |nodes[i].dependsOn| && nodes[i].dependsOn[k] == d;
    assert NodeOk(nodes[i]) && ReferenceOk(nodes[i], nodes[i].dependsOn[k]);
  }

  ghost function Position(order: seq<nat>, v: nat): (p: nat)
    requires v in order
    ensures p < |order| && order[p] == v
  {
    var p :| 0 <= p < |order| && order[p] == v; p
  }

  /** An order that places every node after its dependencies ranks the input's relation. */
  lemma OrderRanks(nodes: seq<Node>, internal: seq<seq<nat>>, external: seq<seq<string>>, order: seq<nat>)
    requires Resolution(nodes, order, internal, external)
    ensures Ranks(InternalEdges(nodes), map v | v in order :: Position(order, v))
  {
    var rank := map v | v in order :: Position(order, v);
    forall e | e in InternalEdges(nodes)
      ensures e.0 in rank && e.1 in rank && rank[e.1] < rank[e.0]
    {
      assert Splits(nodes, nodes[e.0].dependsOn, internal[e.0], external[e.0]);
      assert e.0 in order && e.1 in order;
      var p := Position(order, e.0);
      assert AllIn(internal[order[p]], order[..p]);
      assert e.1 in order[..p];
      var q :| 0 <= q < p && order[q] == e.1;
      assert Position(order, e.1) == q by {
        assert order[Position(order, e.1)] == order[q];
      }
    }
  }

  // ---------- Resolve ----------

  /** The first loop of Resolve: index the declared refs, or report the first duplicate. */
  method IndexRefs(nodes: seq<Node>) returns (refIndex: map<string, nat>, fault: Option<Fault>)
    ensures fault.None? ==> RefsDistinct(nodes) && Indexes(nodes, refIndex)
    ensures fault.Some? ==> fault.value.DuplicateRef? && FirstFault(nodes, fault.value) && !RefsDistinct(nodes)
  {
    refIndex := map[];
    for i := 0 to |nodes|
      invariant RefsDistinct(nodes[..i]) && Indexes(nodes[..i], refIndex)
    {
      var ref := nodes[i].ref;
      if ref != "" {
        if ref in refIndex {
          assert nodes[..i][refIndex[ref]].ref == ref;
          return refIndex, Some(DuplicateRef(i, refIndex[ref]));
        }
        refIndex := refIndex[ref := i];
      }
      assert nodes[..i + 1] == nodes[..i] + [nodes[i]];
    }
    assert nodes[..|nodes|] == nodes;
    return refIndex, None;
  }

  ghost predicate Indexes(nodes: seq<Node>, refIndex: map<string, nat>)
  {
    && (forall r :: r in refIndex ==> refIndex[r] < |nodes| && nodes[refIndex[r]].ref == r && r != "")
    && (forall i :: 0 <= i < |nodes| && nodes[i].ref != "" ==> nodes[i].ref in refIndex && refIndex[nodes[i].ref] == i)
  }

  lemma ReferencesOneMore(deps: seq<string>, k: nat)
    requires k < |deps|
    ensures References(deps[..k + 1]) == References(deps[..k]) + {TrimSpace(deps[k])}
  {
    assert deps[..k + 1] == deps[..k] + [deps[k]];
  }

  /** The inner loop of Resolve for node i: split its references, linking it below the internal ones. */
  method SplitNode(nodes: seq<Node>, refIndex: map<string, nat>, i: nat,
                   adjacency: array<seq<nat>>, indegree: array<int>)
    returns (ints: seq<nat>, exts: seq<string>, fault: Option<Fault>)
    requires i < |nodes| == adjacency.Length == indegree.Length
    requires Indexes(nodes, refIndex) && RefsDistinct(nodes)
    requires |nodes[i].dependsOn| <= MAX_DEPENDENCIES_PER_JOB
    requires indegree[i] == 0
    modifies adjacency, indegree
    ensures fault.Some? ==> fault.value.index == i && NodeFault(nodes[i], fault.value) && !NodeOk(nodes[i])
    ensures fault.None? ==> NodeOk(nodes[i]) && Splits(nodes, nodes[i].dependsOn, ints, exts)
    ensures fault.None? ==> indegree[..] == old(indegree[..])[i := |ints|]
    ensures fault.None? ==> Linked(old(adjacency[..]), adjacency[..], ints, i)
  {
    var deps := nodes[i].dependsOn;
    ints, exts := [], [];
    var seen: set<string> := {};
    NothingSplit(nodes, i, adjacency[..], indegree[..]);
    for k := 0 to |deps|
      invariant seen == References(deps[..k])
      invariant SplitUpTo(nodes, i, k, ints, exts, old(adjacency[..]), adjacency[..], old(indegree[..]), indegree[..])
    {
      ints, exts, seen, fault := SplitReference(nodes, refIndex, i, k, ints, exts, seen, adjacency, indegree,
                                                old(adjacency[..]), old(indegree[..]));
      if fault.Some? {
        return;
      }
    }
    assert deps[..|deps|] == deps;
    GoodThroughout(nodes[i]);
    fault := None;
  }

  /** The first k references of node i are in order, split and linked; `before` and `counts` are the arrays at the
      start. */
  ghost predicate SplitUpTo(nodes: seq<Node>, i: nat, k: nat, ints: seq<nat>, exts: seq<string>,
                            before: seq<seq<nat>>, after: seq<seq<nat>>, counts: seq<int>, indegree: seq<int>)
    requires i < |nodes| && k <= |nodes[i].dependsOn| && i < |counts|
  {
    && GoodBefore(nodes[i], k)
    && Splits(nodes, nodes[i].dependsOn[..k], ints, exts)
    && Linked(before, after, ints, i)
    && indegree == counts[i := |ints|]
  }

  /** One turn of the loop: report a bad reference, skip a repeated one, or take it. */
  method SplitReference(nodes: seq<Node>, refIndex: map<string, nat>, i: nat, k: nat, ints0: seq<nat>,
                        exts0: seq<string>, seen0: set<string>, adjacency: array<seq<nat>>, indegree: array<int>,
                        ghost before: seq<seq<nat>>, ghost counts: seq<int>)
    returns (ints: seq<nat>, exts: seq<string>, seen: set<string>, fault: Option<Fault>)
    requires i < |nodes| == adjacency.Length == indegree.Length == |counts|
    requires Indexes(nodes, refIndex) && RefsDistinct(nodes)
    requires k < |nodes[i].dependsOn| <= MAX_DEPENDENCIES_PER_JOB
    requires seen0 == References(nodes[i].dependsOn[..k])
    requires SplitUpTo(nodes, i, k, ints0, exts0, before, adjacency[..], counts, indegree[..])
    modifies adjacency, indegree
    ensures fault.Some? ==> fault.value.index == i && NodeFault(nodes[i], fault.value) && !NodeOk(nodes[i])
    ensures fault.None? ==> seen == References(nodes[i].dependsOn[..k + 1])
    ensures fault.None? ==> SplitUpTo(nodes, i, k + 1, ints, exts, before, adjacency[..], counts, indegree[..])
  {
    hide References, Splits, Linked;
    var node := nodes[i];
    var dep := TrimSpace(node.dependsOn[k]);
    ints, exts, seen := ints0, exts0, seen0;
    ReferencesOneMore(node.dependsOn, k);
    if dep == "" {
      FirstBadHere(node, k);
      return ints, exts, seen, Some(EmptyReference(i));
    }
    if dep in seen {
      SplitsRepeat(nodes, node.dependsOn, k, ints, exts);
      SeenIsGood(node, k);
      return ints, exts, seen, None;
    }
    seen := seen + {dep};
    if dep in refIndex && refIndex[dep] == i {
      FirstBadHere(node, k);
      return ints, exts, seen, Some(SelfDependency(i));
    }
    ghost var now := indegree[..];
    assert indegree[i] == now[i] == |ints|;
    ints, exts := TakeReference(nodes, refIndex, i, k, ints, exts, adjacency, indegree, before);
    assert indegree[..] == now[i := |ints|] == counts[i := |ints|];
    return ints, exts, seen, None;
  }

  /** A reference not seen before: an edge to the node that declares it, or an external id. */
  method TakeReference(nodes: seq<Node>, refIndex: map<string, nat>, i: nat, k: nat, ints0: seq<nat>,
                       exts0: seq<string>, adjacency: array<seq<nat>>, indegree: array<int>,
                       ghost before: seq<seq<nat>>)
    returns (ints: seq<nat>, exts: seq<string>)
    requires i < |nodes| == adjacency.Length == indegree.Length && k < |nodes[i].dependsOn|
    requires Indexes(nodes, refIndex)
    requires Splits(nodes, nodes[i].dependsOn[..k], ints0, exts0)
    requires TrimSpace(nodes[i].dependsOn[k]) !in References(nodes[i].dependsOn[..k])
    requires indegree[i] == |ints0| && Linked(before, adjacency[..], ints0, i)
    modifies adjacency, indegree
    ensures Splits(nodes, nodes[i].dependsOn[..k + 1], ints, exts)
    ensures indegree[..] == old(indegree[..])[i := |ints|] && Linked(before, adjacency[..], ints, i)
  {
    var dep := TrimSpace(nodes[i].dependsOn[k]);
    ints, exts := ints0, exts0;
    if dep in refIndex {
      var j := refIndex[dep];
      SplitsInternal(nodes, refIndex, nodes[i].dependsOn, k, ints, exts);
      LinkedOneMore(before, adjacency[..], ints, i, j);
      LinkBelow(adjacency, indegree, i, j);
      ints := ints + [j];
    } else {
      SplitsExternal(nodes, refIndex, nodes[i].dependsOn, k, ints, exts);
      exts := exts + [dep];
    }
  }

  /** Node i waits for node j. */
  method LinkBelow(adjacency: array<seq<nat>>, indegree: array<int>, i: nat, j: nat)
    requires i < indegree.Length && j < adjacency.Length
    modifies adjacency, indegree
    ensures adjacency[..] == old(adjacency[..])[j := old(adjacency[j]) + [i]]
    ensures indegree[..] == old(indegree[..])[i := old(indegree[i]) + 1]
  {
    adjacency[j] := adjacency[j] + [i];
    indegree[i] := indegree[i] + 1;
  }

  /** Node i has been appended below exactly the nodes in `ints`. */
  ghost predicate Linked(before: seq<seq<nat>>, after: seq<seq<nat>>, ints: seq<nat>, i: nat)
  {
    && |before| == |after|
    && forall j :: 0 <= j < |after| ==> after[j] == before[j] + (if j in ints then [i] else [])
  }

  lemma NothingSplit(nodes: seq<Node>, i: nat, adjacency: seq<seq<nat>>, indegree: seq<int>)
    requires i < |nodes| && i < |indegree| && indegree[i] == 0
    ensures SplitUpTo(nodes, i, 0, [], [], adjacency, adjacency, indegree, indegree)
  {
  }

  lemma LinkedOneMore(before: seq<seq<nat>>, after: seq<seq<nat>>, ints: seq<nat>, i: nat, j: nat)
    requires Linked(before, after, ints, i)
    requires j < |after| && j !in ints
    ensures Linked(before, after[j := after[j] + [i]], ints + [j], i)
  {
    assert after[j] == before[j];
  }

  lemma FirstBadHere(node: Node, k: nat)
    requires k < |node.dependsOn| <= MAX_DEPENDENCIES_PER_JOB
    requires GoodBefore(node, k) && !ReferenceOk(node, node.dependsOn[k])
    ensures FirstBad(node, node.dependsOn[k]) && !NodeOk(node)
  {
  }

  lemma GoodThroughout(node: Node)
    requires |node.dependsOn| <= MAX_DEPENDENCIES_PER_JOB && GoodBefore(node, |node.dependsOn|)
    ensures NodeOk(node)
  {
  }

  lemma SeenIsGood(node: Node, k: nat)
    requires k < |node.dependsOn|
    requires GoodBefore(node, k) && TrimSpace(node.dependsOn[k]) in References(node.dependsOn[..k])
    ensures GoodBefore(node, k + 1)
  {
    var d :| d in node.dependsOn[..k] && TrimSpace(d) == TrimSpace(node.dependsOn[k]);
    var l :| 0 <= l < k && node.dependsOn[l] == d;
    assert ReferenceOk(node, node.dependsOn[l]);
  }

  lemma SplitsRepeat(nodes: seq<Node>, deps: seq<string>, k: nat, ints: seq<nat>, exts: seq<string>)
    requires k < |deps| && Splits(nodes, deps[..k], ints, exts)
    requires TrimSpace(deps[k]) in References(deps[..k])
    ensures Splits(nodes, deps[..k + 1], ints, exts)
  {
    ReferencesOneMore(deps, k);
    assert References(deps[..k + 1]) == References(deps[..k]);
  }

  lemma SplitsInternal(nodes: seq<Node>, refIndex: map<string, nat>, deps: seq<string>, k: nat, ints: seq<nat>,
                       exts: seq<string>)
    requires k < |deps| && Splits(nodes, deps[..k], ints, exts)
    requires Indexes(nodes, refIndex)
    requires TrimSpace(deps[k]) !in References(deps[..k]) && TrimSpace(deps[k]) in refIndex
    ensures refIndex[TrimSpace(deps[k])] !in ints
    ensures Splits(nodes, deps[..k + 1], ints + [refIndex[TrimSpace(deps[k])]], exts)
  {
    ReferencesOneMore(deps, k);
    var dep := TrimSpace(deps[k]);
    assert Declared(nodes, dep);
  }

  lemma SplitsExternal(nodes: seq<Node>, refIndex: map<string, nat>, deps: seq<string>, k: nat, ints: seq<nat>,
                       exts: seq<string>)
    requires k < |deps| && Splits(nodes, deps[..k], ints, exts)
    requires Indexes(nodes, refIndex)
    requires TrimSpace(deps[k]) !in References(deps[..k]) && TrimSpace(deps[k]) !in refIndex
    ensures Splits(nodes, deps[..k + 1], ints, exts + [TrimSpace(deps[k])])
  {
    ReferencesOneMore(deps, k);
    var dep := TrimSpace(deps[k]);
    assert !Declared(nodes, dep);
  }

  /** After the first `i` nodes, `adjacency` holds their internal references turned around. */
  ghost predicate Turned(internal: seq<seq<nat>>, adjacency: seq<seq<nat>>)
  {
    forall j :: 0 <= j < |adjacency| ==> TurnedAt(internal, adjacency[j], j)
  }

  ghost predicate TurnedAt(internal: seq<seq<nat>>, waiting: seq<nat>, j: nat)
  {
    && NoDup(waiting)
    && (forall v :: v in waiting <==> 0 <= v < |internal| && j in internal[v])
  }

  lemma TurnedOneMore(internal: seq<seq<nat>>, before: seq<seq<nat>>, after: seq<seq<nat>>, ints: seq<nat>)
    requires Turned(internal, before) && Linked(before, after, ints, |internal|)
    ensures Turned(internal + [ints], after)
  {
    var next := internal + [ints];
    forall j | 0 <= j < |after|
      ensures TurnedAt(next, after[j], j)
    {
      assert TurnedAt(internal, before[j], j);
      assert forall v :: 0 <= v < |internal| ==> next[v] == internal[v];
      assert forall k :: 0 <= k < |before[j]| ==> before[j][k] in before[j];
    }
  }

  lemma TurnedTransposes(nodes: seq<Node>, internal: seq<seq<nat>>, external: seq<seq<string>>,
                         adjacency: seq<seq<nat>>)
    requires SplitsAll(nodes, internal, external)
    requires Turned(internal, adjacency) && |adjacency| == |nodes|
    ensures Transposes(internal, adjacency)
  {
    forall i | 0 <= i < |nodes|
      ensures NoDup(internal[i]) && NoDup(adjacency[i])
      ensures forall d :: d in internal[i] ==> d < |nodes|
      ensures forall v :: v in adjacency[i] <==> 0 <= v < |nodes| && i in internal[v]
    {
      assert Splits(nodes, nodes[i].dependsOn, internal[i], external[i]);
      assert TurnedAt(internal, adjacency[i], i);
    }
  }

  /** Either every node was placed, and the input is acyclic, or the residue is non-empty. */
  lemma Ordered(nodes: seq<Node>, internal: seq<seq<nat>>, external: seq<seq<string>>, order: seq<nat>)
    requires SplitsAll(nodes, internal, external)
    requires NoDup(order) && PlacedInOrder(internal, order)
    ensures |order| == |nodes| ==> Resolution(nodes, order, internal, external) && Acyclic(InternalEdges(nodes))
    ensures |order| != |nodes| ==> exists i: nat :: i < |nodes| && i !in order
  {
    forall x | x in order
      ensures x < |nodes|
    {
      var p :| 0 <= p < |order| && order[p] == x;
    }
    DistinctIndices(order, |nodes|);
    if |order| == |nodes| {
      OrderRanks(nodes, internal, external, order);
      RankedIsAcyclic(InternalEdges(nodes), map v | v in order :: Position(order, v));
    }
  }

  /** Resolve. It reports the first fault there is; on a sound input it succeeds exactly when the dependency
      relation is acyclic, and otherwise spells out a cycle. */
  method Resolve(nodes: seq<Node>) returns (r: Outcome)
    ensures r.Invalid? <==> !Passes(nodes)
    ensures r.Invalid? ==> FirstFault(nodes, r.fault)
    ensures Passes(nodes) ==> (r.Resolved? <==> Acyclic(InternalEdges(nodes)))
    ensures r.Resolved? ==> Resolution(nodes, r.order, r.internal, r.external)
    ensures r.Cyclic? ==> NamesCycle(nodes, r.path)
  {
    hide FirstFault, NamesCycle, Acyclic, InternalEdges, Splits, NodeOk;
    var n := |nodes|;
    var refIndex, fault := IndexRefs(nodes);
    if fault.Some? {
      return Invalid(fault.value);
    }

    var internal: seq<seq<nat>> := [];
    var external: seq<seq<string>> := [];
    var adjacency := new seq<nat>[n](_ => []);
    var indegree := new int[n](_ => 0);
    for i := 0 to n
      invariant |internal| == |external| == i
      invariant forall k :: 0 <= k < i ==>
        NodeOk(nodes[k]) && Splits(nodes, nodes[k].dependsOn, internal[k], external[k])
      invariant Turned(internal, adjacency[..])
      invariant forall v :: 0 <= v < n ==> indegree[v] == if v < i then |internal[v]| else 0
    {
      ghost var before, waits := adjacency[..], indegree[..];
      if |nodes[i].dependsOn| > MAX_DEPENDENCIES_PER_JOB {
        TooManyIsFault(nodes, i);
        return Invalid(TooManyDependencies(i));
      }
      var ints, exts, bad := SplitNode(nodes, refIndex, i, adjacency, indegree);
      if bad.Some? {
        NodeFaultIsFirst(nodes, bad.value);
        return Invalid(bad.value);
      }
      TurnedOneMore(internal, before, adjacency[..], ints);
      internal, external := internal + [ints], external + [exts];
      assert forall v :: 0 <= v < n ==> indegree[v] == waits[i := |ints|][v];
    }

    TurnedTransposes(nodes, internal, external, adjacency[..]);
    var order := Drain(internal, adjacency[..], indegree);
    Ordered(nodes, internal, external, order);
    if |order| != n {
      var path := FindCycle(nodes, internal, indegree, order);
      ghost var cycle :| CycleIn(internal, cycle) && path == Labels(nodes, cycle);
      CycleIsNamed(nodes, internal, external, cycle);
      NoOrderForCycle(nodes, internal, external, cycle);
      return Cyclic(path);
    }
    return Resolved(order, internal, external);
  }

  lemma TooManyIsFault(nodes: seq<Node>, i: nat)
    requires i < |nodes| && |nodes[i].dependsOn| > MAX_DEPENDENCIES_PER_JOB
    requires RefsDistinct(nodes) && forall k :: 0 <= k < i ==> NodeOk(nodes[k])
    ensures FirstFault(nodes, TooManyDependencies(i)) && !NodeOk(nodes[i])
  {
  }

  lemma NodeFaultIsFirst(nodes: seq<Node>, fault: Fault)
    requires fault.index < |nodes| && NodeFault(nodes[fault.index], fault)
    requires RefsDistinct(nodes) && forall k :: 0 <= k < fault.index ==> NodeOk(nodes[k])
    ensures FirstFault(nodes, fault)
  {
  }

  lemma NoOrderForCycle(nodes: seq<Node>, internal: seq<seq<nat>>, external: seq<seq<string>>, cycle: seq<nat>)
    requires Passes(nodes) && SplitsAll(nodes, internal, external)
    requires CycleIn(internal, cycle)
    ensures !Acyclic(InternalEdges(nodes))
  {
    CycleCloses(nodes, internal, external, cycle);
  }
}
