/** How many nodes lie downstream of each node, found with a stack and a seen set. */
module DependentCount {
  import opened Sequences
  import opened TierContracts
  import opened PlanGraph
  import opened DagValidator

  /** The plan ids that depend on `id`, directly or through others; on a cycle this includes
      `id` itself. */
  ghost function Downstream(plan: Plan, id: Id): set<Id> {
    set x | x in Ids(plan) && exists w :: DownPath(plan, id, x, w)
  }

  ghost predicate DownPath(plan: Plan, id: Id, x: Id, w: seq<Id>) {
    |w| >= 2 && w[0] == id && w[|w| - 1] == x && Dependents(plan, w)
  }

  /** `children` lists, for every id anyone depends on, exactly its direct dependents. */
  ghost predicate ListsDependents(plan: Plan, children: map<Id, seq<Id>>) {
    forall d, c :: c in ChildrenOf(children, d) <==> DependsOn(plan, c, d)
  }

  function ChildrenOf(children: map<Id, seq<Id>>, d: Id): seq<Id> {
    if d in children then children[d] else []
  }

  method BuildChildren(plan: Plan, graph: map<Id, Node>) returns (children: map<Id, seq<Id>>)
    requires graph.Keys == Ids(plan) && forall id :: id in graph ==> graph[id] == LastNode(plan, id)
    ensures ListsDependents(plan, children)
  {
    children := map id | id in Ids(plan) :: [];
    var listed := {};
    for i := 0 to |plan|
      invariant forall id :: id in listed <==> exists k :: 0 <= k < i && plan[k].id == id
      invariant forall d, c :: c in ChildrenOf(children, d) <==> c in listed && DependsOn(plan, c, d)
    {
      var id := plan[i].id;
      if id !in listed {
        children := AddChild(graph[id].deps, id, children);
        listed := listed + {id};
      }
    }
  }

  method AddChild(deps: seq<Id>, id: Id, children0: map<Id, seq<Id>>) returns (children: map<Id, seq<Id>>)
    ensures forall d, c :: c in ChildrenOf(children, d) <==> c in ChildrenOf(children0, d) || (c == id && d in deps)
  {
    children := children0;
    for j := 0 to |deps|
      invariant forall d, c :: c in ChildrenOf(children, d) <==>
                               c in ChildrenOf(children0, d) || (c == id && d in deps[..j])
    {
      var d := deps[j];
      assert deps[..j + 1] == deps[..j] + [d];
      children := children[d := ChildrenOf(children, d) + [id]];
    }
    assert deps[..|deps|] == deps;
  }

  lemma DownstreamStep(plan: Plan, id: Id, c: Id, x: Id)
    requires c == id || c in Downstream(plan, id)
    requires DependsOn(plan, x, c)
    ensures x in Downstream(plan, id)
  {
    var w: seq<Id> := [c];
    if c in Downstream(plan, id) {
      w :| DownPath(plan, id, c, w);
    }
    var longer := w + [x];
    forall i | 0 <= i < |longer| - 1
      ensures DependsOn(plan, longer[i + 1], longer[i])
    {
      if i < |w| - 1 { assert DependsOn(plan, w[i + 1], w[i]); }
    }
    assert DownPath(plan, id, x, longer);
  }

  /** A set that holds the direct dependents of `id` and of each of its members holds the end
      of every path down from `id`. */
  lemma {:induction false} ClosedHoldsPath(plan: Plan, id: Id, s: set<Id>, w: seq<Id>)
    requires forall x, c :: (c == id || c in s) && DependsOn(plan, x, c) ==> x in s
    requires |w| >= 2 && w[0] == id && Dependents(plan, w)
    ensures w[|w| - 1] in s
  {
    assert DependsOn(plan, w[|w| - 2 + 1], w[|w| - 2]);
    if |w| > 2 { ClosedHoldsPath(plan, id, s, w[..|w| - 1]); }
  }

  method CollectDownstream(plan: Plan, children: map<Id, seq<Id>>, id: Id) returns (seen: set<Id>)
    requires ListsDependents(plan, children)
    ensures seen == Downstream(plan, id)
  {
    seen := {};
    var stack := ChildrenOf(children, id);
    forall c | c in stack {
      DownstreamStep(plan, id, id, c);
    }
    while stack != []
      invariant seen <= Downstream(plan, id) && forall c :: c in stack ==> c in Downstream(plan, id)
      invariant forall x, c :: (c == id || c in seen) && DependsOn(plan, x, c) ==> x in seen || x in stack
      decreases Downstream(plan, id) - seen, |stack|
    {
      var c := stack[|stack| - 1];
      ghost var before := stack;
      stack := stack[..|stack| - 1];
      assert before == stack + [c];
      if c !in seen {
        seen := seen + {c};
        forall x | DependsOn(plan, x, c) {
          DownstreamStep(plan, id, c, x);
        }
        stack := PushUnseen(ChildrenOf(children, c), seen, stack);
      }
    }
    forall x | x in Downstream(plan, id)
      ensures x in seen
    {
      var w :| DownPath(plan, id, x, w);
      ClosedHoldsPath(plan, id, seen, w);
    }
  }

  method PushUnseen(kids: seq<Id>, seen: set<Id>, stack0: seq<Id>) returns (stack: seq<Id>)
    ensures forall x :: x in stack <==> x in stack0 || (x in kids && x !in seen)
  {
    stack := stack0;
    for j := 0 to |kids|
      invariant forall x :: x in stack <==> x in stack0 || (x in kids[..j] && x !in seen)
    {
      assert kids[..j + 1] == kids[..j] + [kids[j]];
      if kids[j] !in seen { stack := stack + [kids[j]]; }
    }
    assert kids[..|kids|] == kids;
  }

  /** The exact number of transitive dependents of every node, cyclic plans included. */
  method CountDependents(plan: Plan) returns (result: map<Id, nat>)
    ensures result.Keys == Ids(plan)
    ensures forall id :: id in result ==> result[id] == |Downstream(plan, id)|
  {
    var graph := NodesById(plan);
    var children := BuildChildren(plan, graph);
    result := map[];
    for i := 0 to |plan|
      invariant forall id :: id in result <==> exists k :: 0 <= k < i && plan[k].id == id
      invariant forall id :: id in result ==> result[id] == |Downstream(plan, id)|
    {
      var seen := CollectDownstream(plan, children, plan[i].id);
      result := result[plan[i].id := |seen|];
    }
  }

  /** The nodes a dictionary keyed by id keeps: without repeated ids, the plan itself. */
  ghost function Kept(plan: Plan): Plan {
    Filter(plan, IsKept(plan))
  }

  ghost function IsKept(plan: Plan): Node -> bool {
    (n: Node) => n.id in Ids(plan) && LastNode(plan, n.id) == n
  }

  lemma KeptWithoutRepeats(plan: Plan)
    requires UniqueIds(plan)
    ensures Kept(plan) == plan
  {
    forall n | n in plan
      ensures IsKept(plan)(n)
    {
      LastNodeUnique(plan, n);
    }
    FilterAll(plan, IsKept(plan));
  }

  /** In the plan as kept, an edge is exactly a listed dependency on a plan id. */
  lemma EdgesAgree(plan: Plan, a: Id, b: Id)
    ensures Edge(Kept(plan), a, b) <==> DependsOn(plan, b, a) && a in Ids(plan)
  {
    FilterMembers(plan, IsKept(plan));
    forall id | id in Ids(plan)
      ensures id in Ids(Kept(plan)) && LastNode(plan, id) in Kept(plan) && LastNode(plan, id).id == id
    {
      LastNodeIn(plan, id);
    }
  }

  lemma WalksAgree(plan: Plan, w: seq<Id>)
    ensures Dependents(plan, w) && w != [] && w[0] in Ids(plan) ==> Walk(Kept(plan), w)
    ensures Walk(Kept(plan), w) && w != [] ==> Dependents(plan, w)
  {
    forall i | 0 <= i < |w| - 1
      ensures Edge(Kept(plan), w[i], w[i + 1]) <==> DependsOn(plan, w[i + 1], w[i]) && w[i] in Ids(plan)
    {
      EdgesAgree(plan, w[i], w[i + 1]);
    }
    if Dependents(plan, w) && w != [] && w[0] in Ids(plan) {
      forall i | 0 <= i < |w| - 1
        ensures Edge(Kept(plan), w[i], w[i + 1])
      {
        assert DependsOn(plan, w[i + 1], w[i]);
        if i > 0 { assert DependsOn(plan, w[i - 1 + 1], w[i - 1]); }
      }
    }
  }

  /** A node is downstream of itself exactly when it lies on a cycle of the plan as kept;
      otherwise its count leaves it out. */
  lemma SelfDownstreamIff(plan: Plan, id: Id)
    requires id in Ids(plan)
    ensures id in Downstream(plan, id) <==> exists w :: ClosedWalk(Kept(plan), w) && w[0] == id
    ensures UniqueIds(plan) ==> Kept(plan) == plan
  {
    if UniqueIds(plan) { KeptWithoutRepeats(plan); }
    if id in Downstream(plan, id) {
      var w :| DownPath(plan, id, id, w);
      WalksAgree(plan, w);
      assert ClosedWalk(Kept(plan), w);
    }
    if w :| ClosedWalk(Kept(plan), w) && w[0] == id {
      WalksAgree(plan, w);
      assert DownPath(plan, id, id, w);
    }
  }
}
