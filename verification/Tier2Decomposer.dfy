/** Slicing a plan: the first-in first-out sort, grouping under a token budget, counting
    dependents, and the slices built from them. */
module Tier2Decomposer {
  import opened Sequences
  import opened TierContracts
  import opened PlanGraph
  import opened KahnWorklist
  import opened DagValidator
  import opened QueueOrder

  function IdsOf(nodes: seq<Node>): seq<Id> {
    seq(|nodes|, i requires 0 <= i < |nodes| => nodes[i].id)
  }

  /** A topological order of the plan, given by its nodes. */
  ghost predicate TopologicalNodes(plan: Plan, nodes: seq<Node>) {
    Topological(plan, IdsOf(nodes)) && NodesAlong(plan, IdsOf(nodes), nodes)
  }

  /** The topological order that a queue yields. */
  ghost predicate QueueOrdered(plan: Plan, nodes: seq<Node>) {
    TopologicalNodes(plan, nodes) && FirstReleasedFirst(plan, IdsOf(nodes))
  }

  /** The order is determined by the plan when no id repeats. */
  lemma QueueOrderIsUnique(plan: Plan, a: seq<Node>, b: seq<Node>)
    requires UniqueIds(plan) && QueueOrdered(plan, a) && QueueOrdered(plan, b)
    ensures a == b
  {
    FirstReleasedIsUnique(plan, IdsOf(a), IdsOf(b));
    assert |a| == |b|;
  }

  method PopFirst(plan: Plan, adj: map<Id, seq<Id>>, indeg0: map<Id, int>, queue0: seq<Id>,
                  ghost edges: seq<(Id, Id)>, ghost done: seq<Id>)
      returns (cur: Id, indeg: map<Id, int>, queue: seq<Id>)
    requires WorklistFits(plan, edges, done, indeg0, queue0) && queue0 != [] && Queued(plan, done, queue0)
    requires UniqueIds(plan) ==> EdgesListed(plan, edges)
    requires adj.Keys == Ids(plan) && forall d :: d in adj ==> adj[d] == Children(edges, d)
    ensures cur in Available(plan, Elems(done))
    ensures WorklistFits(plan, edges, done + [cur], indeg, queue) && Queued(plan, done + [cur], queue)
  {
    cur := queue0[0];
    assert cur in queue0;
    ReleaseFits(plan, edges, done, indeg0, queue0);
    indeg, queue := ReleaseChildren(adj[cur], indeg0, queue0[1..], plan);
    WorklistStep(plan, edges, done, indeg0, queue0, cur, indeg, queue);
    PoppedInOrder(plan, edges, done, indeg0, queue0, indeg, queue);
  }

  lemma TakeNext(plan: Plan, done: seq<Id>, cur: Id, order: seq<Node>)
    requires NodesAlong(plan, done, order) && IdsOf(order) == done && cur in Available(plan, Elems(done))
    ensures NodesAlong(plan, done + [cur], order + [LastNode(plan, cur)])
    ensures IdsOf(order + [LastNode(plan, cur)]) == done + [cur]
    ensures Ids(plan) - Elems(done + [cur]) < Ids(plan) - Elems(done)
  {
    ElemsSnoc(done, cur);
    LastNodeIn(plan, cur);
    assert cur in Ids(plan) - Elems(done);
  }

  /** Kahn's algorithm with a queue: an exception exactly on a cycle, and otherwise the nodes
      in the order in which their dependencies are complete, ties in listing order. */
  method TopologicalSort(plan: Plan) returns (r: Result<seq<Node>>)
    ensures r.Raised? <==> Cyclic(plan)
    ensures r.Ok? ==> QueueOrdered(plan, r.value)
  {
    var nodes := NodesById(plan);
    var indeg, adj, edges := BuildGraph(plan);
    var queue := InitialReady(plan, indeg, edges);
    var order: seq<Node> := [];
    ghost var done: seq<Id> := [];
    QueuedAtStart(plan, edges, indeg, queue);
    while queue != []
      invariant WorklistFits(plan, edges, done, indeg, queue) && Queued(plan, done, queue)
      invariant NodesAlong(plan, done, order) && IdsOf(order) == done
      decreases Ids(plan) - Elems(done)
    {
      var cur;
      cur, indeg, queue := PopFirst(plan, adj, indeg, queue, edges, done);
      TakeNext(plan, done, cur, order);
      order := order + [nodes[cur]];
      done := done + [cur];
    }
    EmptyWorklist(plan, edges, done, indeg);
    assert |nodes| == |nodes.Keys|;
    if |order| != |nodes| {
      r := Raised;
    } else {
      r := Ok(order);
    }
  }

  // -------------------------------------------------------------- grouping

  function Cost(cost: Node -> nat, nodes: seq<Node>): nat {
    if nodes == [] then 0 else Cost(cost, nodes[..|nodes| - 1]) + cost(nodes[|nodes| - 1])
  }

  function Flat(groups: seq<seq<Node>>): seq<Node> {
    if groups == [] then [] else groups[0] + Flat(groups[1..])
  }

  /** A single node of any cost, or several within the budget. */
  predicate Fits(cost: Node -> nat, budget: int, g: seq<Node>) {
    |g| == 1 || (|g| > 1 && Cost(cost, g) <= budget)
  }

  ghost predicate AllFit(cost: Node -> nat, budget: int, groups: seq<seq<Node>>) {
    forall g :: g in groups ==> Fits(cost, budget, g)
  }

  /** No group could have taken the first node of the next one. */
  ghost predicate Maximal(cost: Node -> nat, budget: int, groups: seq<seq<Node>>) {
    forall i :: 0 <= i < |groups| - 1 && groups[i + 1] != [] ==> Cost(cost, groups[i] + [groups[i + 1][0]]) > budget
  }

  lemma CostSnoc(cost: Node -> nat, nodes: seq<Node>, n: Node)
    ensures Cost(cost, nodes + [n]) == Cost(cost, nodes) + cost(n)
  {
    assert (nodes + [n])[..|nodes|] == nodes;
  }

  lemma {:induction false} CostConcat(cost: Node -> nat, a: seq<Node>, b: seq<Node>)
    ensures Cost(cost, a + b) == Cost(cost, a) + Cost(cost, b)
    ensures |b| == 1 ==> Cost(cost, b) == cost(b[0])
  {
    if b == [] {
      assert a + b == a;
    } else {
      assert (a + b)[..|a + b| - 1] == a + b[..|b| - 1];
      CostConcat(cost, a, b[..|b| - 1]);
    }
  }

  lemma {:induction false} FlatSnoc(groups: seq<seq<Node>>, g: seq<Node>)
    ensures Flat(groups + [g]) == Flat(groups) + g
  {
    if groups == [] {
      assert groups + [g] == [g];
    } else {
      assert (groups + [g])[1..] == groups[1..] + [g];
      FlatSnoc(groups[1..], g);
      assert groups[0] + (Flat(groups[1..]) + g) == groups[0] + Flat(groups[1..]) + g;
    }
  }

  /** A list that runs past `pre` and `g` holds them and the next element after them. */
  lemma RunsPast(first: seq<Node>, left: seq<Node>, pre: seq<Node>, g: seq<Node>, tail: seq<Node>)
    requires first + left == pre + (g + tail) && |first| > |pre| + |g|
    ensures tail != [] && first == pre + (g + [tail[0]]) + first[|pre| + |g| + 1..]
  {
    var all, m := first + left, |pre| + |g| + 1;
    assert all[|pre| + |g|] == first[|pre| + |g|];
    assert first[..m] == all[..m] == pre + (g + [tail[0]]);
  }

  lemma CostOfInner(cost: Node -> nat, a: seq<Node>, b: seq<Node>, c: seq<Node>)
    ensures Cost(cost, a + b + c) >= Cost(cost, b)
  {
    CostConcat(cost, a + b, c);
    CostConcat(cost, a, b);
  }

  /** A group that fits and starts no later than a maximal one ends no later. */
  lemma FirstReachesNoFarther(cost: Node -> nat, budget: int, groups: seq<seq<Node>>,
                                                 first: seq<Node>, left: seq<Node>, pre: seq<Node>)
    requires AllFit(cost, budget, groups) && Maximal(cost, budget, groups) && groups != []
    requires Fits(cost, budget, first) && first + left == pre + Flat(groups)
    ensures |first| <= |pre| + |groups[0]|
  {
    var g, tail := groups[0], Flat(groups[1..]);
    assert g in groups;
    if |first| > |pre| + |g| {
      RunsPast(first, left, pre, g, tail);
      assert groups[1] in groups && tail[0] == groups[1][0];
      CostOfInner(cost, pre, g + [tail[0]], first[|pre| + |g| + 1..]);
      assert false;
    }
  }

  /** If `other` splits `pre` followed by the maximal grouping's nodes into fitting groups, it
      uses at least as many groups. */
  lemma {:induction false} MaximalIsFewest(cost: Node -> nat, budget: int, groups: seq<seq<Node>>,
                                           other: seq<seq<Node>>, pre: seq<Node>)
    requires AllFit(cost, budget, groups) && Maximal(cost, budget, groups) && AllFit(cost, budget, other)
    requires Flat(other) == pre + Flat(groups)
    ensures |groups| <= |other|
    decreases |groups|
  {
    if groups != [] {
      var g, rest := groups[0], groups[1..];
      assert g in groups && other != [];
      var first, others := other[0], other[1..];
      assert first in other;
      var all := Flat(other);
      assert all == pre + g + Flat(rest) && all == first + Flat(others);
      FirstReachesNoFarther(cost, budget, groups, first, Flat(others), pre);
      var pre' := (pre + g)[|first|..];
      assert Flat(others) == pre' + Flat(rest) by {
        assert Flat(others) == all[|first|..];
      }
      forall i | 0 <= i < |rest| - 1 && rest[i + 1] != []
        ensures Cost(cost, rest[i] + [rest[i + 1][0]]) > budget
      {
        assert rest[i] == groups[i + 1];
      }
      MaximalIsFewest(cost, budget, rest, others, pre');
    }
  }

  ghost predicate FewestGroups(cost: Node -> nat, budget: int, groups: seq<seq<Node>>) {
    forall other :: AllFit(cost, budget, other) && Flat(other) == Flat(groups) ==> |groups| <= |other|
  }

  lemma MaximalIsOptimal(cost: Node -> nat, budget: int, groups: seq<seq<Node>>)
    requires AllFit(cost, budget, groups) && Maximal(cost, budget, groups)
    ensures FewestGroups(cost, budget, groups)
  {
    forall other | AllFit(cost, budget, other) && Flat(other) == Flat(groups)
      ensures |groups| <= |other|
    {
      assert [] + Flat(groups) == Flat(groups);
      MaximalIsFewest(cost, budget, groups, other, []);
    }
  }

  ghost predicate Packed(cost: Node -> nat, budget: int, groups: seq<seq<Node>>, cur: seq<Node>, nodes: seq<Node>) {
    && Flat(groups) + cur == nodes
    && AllFit(cost, budget, groups) && (cur != [] ==> Fits(cost, budget, cur)) && (cur == [] ==> groups == [])
    && Maximal(cost, budget, groups + [cur])
  }

  lemma PackInto(cost: Node -> nat, budget: int, groups: seq<seq<Node>>, cur: seq<Node>,
                                    nodes: seq<Node>, n: Node)
    requires Packed(cost, budget, groups, cur, nodes)
    requires cur == [] || Cost(cost, cur) + cost(n) <= budget
    ensures Packed(cost, budget, groups, cur + [n], nodes + [n])
  {
    CostSnoc(cost, cur, n);
    assert Flat(groups) + (cur + [n]) == Flat(groups) + cur + [n];
    var before, after := groups + [cur], groups + [cur + [n]];
    forall i | 0 <= i < |after| - 1 && after[i + 1] != []
      ensures Cost(cost, after[i] + [after[i + 1][0]]) > budget
    {
      assert before[i] == after[i] && before[i + 1] != [] && before[i + 1][0] == after[i + 1][0];
    }
  }

  lemma PackNew(cost: Node -> nat, budget: int, groups: seq<seq<Node>>, cur: seq<Node>,
                                   nodes: seq<Node>, n: Node)
    requires Packed(cost, budget, groups, cur, nodes)
    requires cur != [] && Cost(cost, cur) + cost(n) > budget
    ensures Packed(cost, budget, groups + [cur], [n], nodes + [n])
  {
    CostSnoc(cost, cur, n);
    FlatSnoc(groups, cur);
    var before, after := groups + [cur], groups + [cur] + [[n]];
    forall i | 0 <= i < |after| - 1 && after[i + 1] != []
      ensures Cost(cost, after[i] + [after[i + 1][0]]) > budget
    {
      if i < |before| - 1 { assert before[i] == after[i] && before[i + 1] == after[i + 1]; }
    }
  }

  lemma FitAndMaximal(cost: Node -> nat, budget: int, groups: seq<seq<Node>>)
    requires AllFit(cost, budget, groups) && Maximal(cost, budget, groups)
    ensures forall i :: 0 <= i < |groups| ==> groups[i] != []
    ensures forall i :: 0 <= i < |groups| ==> |groups[i]| == 1 || Cost(cost, groups[i]) <= budget
    ensures forall i :: 0 < i < |groups| ==> Cost(cost, groups[i - 1]) + cost(groups[i][0]) > budget
  {
    assert forall i :: 0 <= i < |groups| ==> groups[i] in groups;
    forall i | 0 < i < |groups|
      ensures Cost(cost, groups[i - 1]) + cost(groups[i][0]) > budget
    {
      var before := i - 1;
      assert groups[before + 1] != [];
      CostSnoc(cost, groups[before], groups[i][0]);
    }
  }

  /** Packs the queue's order greedily: contiguous groups, each a single node or within
      the budget, and the fewest such groups. */
  method GroupNodesIntoSlices(plan: Plan, cost: Node -> nat, budget: int) returns (r: Result<seq<seq<Node>>>)
    ensures r.Raised? <==> Cyclic(plan)
    ensures r.Ok? ==> QueueOrdered(plan, Flat(r.value))
    ensures r.Ok? ==> AllFit(cost, budget, r.value) && FewestGroups(cost, budget, r.value)
    ensures r.Ok? ==> forall i :: 0 <= i < |r.value| ==> |r.value[i]| == 1 || Cost(cost, r.value[i]) <= budget
    ensures r.Ok? ==> forall i :: 0 < i < |r.value| ==> r.value[i] != []
    ensures r.Ok? ==> forall i :: 0 < i < |r.value| ==> Cost(cost, r.value[i - 1]) + cost(r.value[i][0]) > budget
  {
    var sorted := TopologicalSort(plan);
    if sorted.Raised? { return Raised; }
    var ordered := sorted.value;
    var groups: seq<seq<Node>>, cur: seq<Node>, curCost := [], [], 0;
    for i := 0 to |ordered|
      invariant Packed(cost, budget, groups, cur, ordered[..i])
      invariant curCost == Cost(cost, cur)
    {
      var n := ordered[i];
      assert ordered[..i + 1] == ordered[..i] + [n];
      CostSnoc(cost, cur, n);
      CostSnoc(cost, [], n);
      if cur == [] {
        PackInto(cost, budget, groups, cur, ordered[..i], n);
        assert [] + [n] == [n];
        cur, curCost := [n], cost(n);
      } else if curCost + cost(n) > budget {
        PackNew(cost, budget, groups, cur, ordered[..i], n);
        assert [] + [n] == [n];
        groups, cur, curCost := groups + [cur], [n], cost(n);
      } else {
        PackInto(cost, budget, groups, cur, ordered[..i], n);
        cur, curCost := cur + [n], curCost + cost(n);
      }
    }
    assert ordered[..|ordered|] == ordered;
    if cur != [] {
      FlatSnoc(groups, cur);
      groups := groups + [cur];
    } else {
      assert Flat(groups) == ordered;
    }
    MaximalIsOptimal(cost, budget, groups);
    FitAndMaximal(cost, budget, groups);
    r := Ok(groups);
  }
}
