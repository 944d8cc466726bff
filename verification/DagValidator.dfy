/** Plan validation and the deterministic topological sort. */
module DagValidator {
  import opened Sequences
  import opened StringOrder
  import opened TierContracts
  import opened PlanGraph
  import opened KahnWorklist

  /** What the sort returns: the nodes along `order`, each the last one written for its id. */
  ghost predicate NodesAlong(plan: Plan, order: seq<Id>, nodes: seq<Node>) {
    && |nodes| == |order| && Elems(order) <= Ids(plan)
    && forall i :: 0 <= i < |order| ==> order[i] in Ids(plan) && nodes[i] == LastNode(plan, order[i])
  }

  /** The dictionary of nodes by id. */
  method NodesById(plan: Plan) returns (nodes: map<Id, Node>)
    ensures nodes.Keys == Ids(plan)
    ensures forall id :: id in nodes ==> nodes[id] == LastNode(plan, id)
  {
    nodes := map[];
    for i := 0 to |plan|
      invariant nodes.Keys == Ids(plan[..i])
      invariant forall id :: id in nodes ==> nodes[id] == LastNode(plan[..i], id)
    {
      forall id {
        LastNodeOfPrefix(plan, i, id);
      }
      nodes := nodes[plan[i].id := plan[i]];
    }
    assert plan[..|plan|] == plan;
  }

  /** Pops the least ready id and releases its children into the sorted ready list. */
  method PopAndRelease(plan: Plan, adj: map<Id, seq<Id>>, indeg0: map<Id, int>, ready0: seq<Id>,
                       ghost edges: seq<(Id, Id)>, ghost done: seq<Id>)
      returns (cur: Id, indeg: map<Id, int>, ready: seq<Id>)
    requires WorklistFits(plan, edges, done, indeg0, ready0) && SortedBy(ready0, Leq) && ready0 != []
    requires adj.Keys == Ids(plan) && forall d :: d in adj ==> adj[d] == Children(edges, d)
    ensures cur in Available(plan, Elems(done)) && cur == Least(Available(plan, Elems(done)))
    ensures WorklistFits(plan, edges, done + [cur], indeg, ready) && SortedBy(ready, Leq)
  {
    cur := ready0[0];
    HeadIsLeast(plan, edges, done, indeg0, ready0);
    LeqTotalOrder();
    var kids := Sort(adj[cur], Leq);
    SortSorts(adj[cur], Leq);
    ReleaseFits(plan, edges, done, indeg0, ready0);
    SameMembers(kids, adj[cur]);
    indeg, ready := ReleaseChildren(kids, indeg0, ready0[1..], plan);
    WorklistStep(plan, edges, done, indeg0, ready0, cur, indeg, ready);
    SortSorts(ready, Leq);
    SortKeepsFit(plan, edges, done + [cur], indeg, ready);
    ready := Sort(ready, Leq);
  }

  lemma SameMembers(s: seq<Id>, t: seq<Id>)
    requires multiset(s) == multiset(t)
    ensures forall c :: c in s <==> c in t
  {
    forall c
      ensures c in s <==> c in t
    {
      assert c in multiset(s) <==> c in multiset(t);
    }
  }

  lemma TakeLeast(plan: Plan, done: seq<Id>, cur: Id, ordered: seq<Node>)
    requires NodesAlong(plan, done, ordered)
    requires cur in Available(plan, Elems(done)) && cur == Least(Available(plan, Elems(done)))
    ensures Extend(plan, done + [cur]) == Extend(plan, done)
    ensures NodesAlong(plan, done + [cur], ordered + [LastNode(plan, cur)])
    ensures Ids(plan) - Elems(done + [cur]) < Ids(plan) - Elems(done)
  {
    ElemsSnoc(done, cur);
    assert cur in Ids(plan) - Elems(done);
  }

  /** Kahn's algorithm with a ready list kept sorted. Raises exactly on a cycle; otherwise
      the result follows the stable order, the least topological order of the plan. */
  method StableTopologicalSort(plan: Plan) returns (r: Result<seq<Node>>)
    ensures r.Raised? <==> Cyclic(plan)
    ensures r.Raised? <==> !Sortable(plan)
    ensures r.Ok? ==> NodesAlong(plan, StableOrder(plan), r.value)
  {
    var nodes := NodesById(plan);
    var indeg, adj, edges := BuildGraph(plan);
    var ready := InitialReady(plan, indeg, edges);
    LeqTotalOrder();
    SortSorts(ready, Leq);
    SortKeepsFit(plan, edges, [], indeg, ready);
    ready := Sort(ready, Leq);
    var ordered: seq<Node> := [];
    ghost var done: seq<Id> := [];
    while ready != []
      invariant WorklistFits(plan, edges, done, indeg, ready)
      invariant SortedBy(ready, Leq)
      invariant NodesAlong(plan, done, ordered)
      invariant Extend(plan, done) == StableOrder(plan)
      decreases Ids(plan) - Elems(done)
    {
      var cur;
      cur, indeg, ready := PopAndRelease(plan, adj, indeg, ready, edges, done);
      TakeLeast(plan, done, cur, ordered);
      ordered := ordered + [nodes[cur]];
      done := done + [cur];
    }
    EmptyWorklist(plan, edges, done, indeg);
    SortableIffAcyclic(plan);
    assert |nodes| == |nodes.Keys|;
    if |ordered| != |nodes| {
      r := Raised;
    } else {
      r := Ok(ordered);
    }
  }

  lemma SortKeepsFit(plan: Plan, edges: seq<(Id, Id)>, done: seq<Id>, indeg: map<Id, int>,
                                        ready: seq<Id>)
    requires WorklistFits(plan, edges, done, indeg, ready)
    ensures WorklistFits(plan, edges, done, indeg, Sort(ready, Leq))
  {
    LeqTotalOrder();
    SortSorts(ready, Leq);
    var s := Sort(ready, Leq);
    MultisetNoDup(ready, s);
    forall c
      ensures c in s <==> c in ready
    {
      assert c in multiset(s) <==> c in multiset(ready);
    }
  }

  lemma MultisetNoDup(s: seq<Id>, t: seq<Id>)
    requires NoDup(s) && multiset(t) == multiset(s)
    ensures NoDup(t)
  {
    forall i, j | 0 <= i < j < |t|
      ensures t[i] != t[j]
    {
      NoDupCounts(s, t[i]);
      assert t == t[..i] + [t[i]] + t[i + 1..j] + [t[j]] + t[j + 1..];
    }
  }

  lemma {:induction false} NoDupCounts(s: seq<Id>, x: Id)
    requires NoDup(s)
    ensures multiset(s)[x] <= 1
  {
    if s != [] {
      NoDupCounts(s[1..], x);
      assert s == [s[0]] + s[1..];
      assert x == s[0] ==> x !in s[1..];
    }
  }

  lemma HeadIsLeast(plan: Plan, edges: seq<(Id, Id)>, done: seq<Id>, indeg: map<Id, int>,
                                       ready: seq<Id>)
    requires WorklistFits(plan, edges, done, indeg, ready) && SortedBy(ready, Leq) && ready != []
    ensures ready[0] in Available(plan, Elems(done)) && ready[0] == Least(Available(plan, Elems(done)))
  {
    var avail := Available(plan, Elems(done));
    assert ready[0] in avail;
    LessTrichotomy(ready[0], Least(avail));
    assert Least(avail) in ready;
  }

  lemma EmptyWorklist(plan: Plan, edges: seq<(Id, Id)>, done: seq<Id>, indeg: map<Id, int>)
    requires WorklistFits(plan, edges, done, indeg, [])
    ensures Extend(plan, done) == done
    ensures |done| == |Ids(plan)| <==> !Cyclic(plan)
    ensures |done| == |Ids(plan)| <==> Topological(plan, done)
  {
    assert Available(plan, Elems(done)) == {} by {
      forall c
        ensures c !in Available(plan, Elems(done))
      {
        assert c !in [];
      }
    }
    DryMeansSortedOrCyclic(plan, done);
  }

  // --------------------------------------------------------------- validation

  datatype PlanError =
    | DuplicateNodeId(id: Id)
    | DanglingDependsOn(id: Id, dep: Id)
    | CycleOrSortError

  /** One report for each node whose id an earlier node already has. */
  function DuplicateErrors(plan: Plan): seq<PlanError> {
    if plan == [] then []
    else
      var front, last := plan[..|plan| - 1], plan[|plan| - 1];
      DuplicateErrors(front) + if last.id in Ids(front) then [DuplicateNodeId(last.id)] else []
  }

  function NodeDangling(ids: set<Id>, id: Id, deps: seq<Id>): seq<PlanError> {
    if deps == [] then []
    else
      var dep := deps[|deps| - 1];
      NodeDangling(ids, id, deps[..|deps| - 1]) + if dep !in ids then [DanglingDependsOn(id, dep)] else []
  }

  /** One report for each listed dependency that is not a plan id. */
  function DanglingErrors(ids: set<Id>, plan: Plan): seq<PlanError> {
    if plan == [] then []
    else
      var last := plan[|plan| - 1];
      DanglingErrors(ids, plan[..|plan| - 1]) + NodeDangling(ids, last.id, last.deps)
  }

  ghost predicate NoDangling(plan: Plan) {
    forall n, d :: n in plan && d in n.deps ==> d in Ids(plan)
  }

  lemma UniqueSnoc(front: Plan, last: Node)
    ensures UniqueIds(front + [last]) <==> UniqueIds(front) && last.id !in Ids(front)
  {
    var plan := front + [last];
    if UniqueIds(plan) {
      forall i, j | 0 <= i < j < |front|
        ensures front[i].id != front[j].id
      {
        assert plan[i].id != plan[j].id;
      }
      forall n | n in front
        ensures n.id != last.id
      {
        var i :| 0 <= i < |front| && front[i] == n;
        assert plan[i].id != plan[|front|].id;
      }
    }
    if UniqueIds(front) && last.id !in Ids(front) {
      forall i, j | 0 <= i < j < |plan|
        ensures plan[i].id != plan[j].id
      {
        if j < |front| { assert front[i].id != front[j].id; } else { assert front[i] in front; }
      }
    }
  }

  lemma {:induction false} DuplicateErrorsMeaning(plan: Plan)
    ensures DuplicateErrors(plan) == [] <==> UniqueIds(plan)
  {
    if plan != [] {
      var front, last := plan[..|plan| - 1], plan[|plan| - 1];
      DuplicateErrorsMeaning(front);
      assert plan == front + [last];
      UniqueSnoc(front, last);
    }
  }

  predicate Repeats(plan: Plan, id: Id) {
    exists i, j :: 0 <= i < j < |plan| && plan[i].id == plan[j].id == id
  }

  /** A repeated id is reported, once for each time it comes again. */
  lemma DuplicateReports(plan: Plan)
    ensures |DuplicateErrors(plan)| == |plan| - |Ids(plan)|
    ensures forall id :: DuplicateNodeId(id) in DuplicateErrors(plan) <==> Repeats(plan, id)
  {
    DuplicateCount(plan);
    DuplicateMembers(plan);
  }

  lemma {:induction false} DuplicateCount(plan: Plan)
    ensures |DuplicateErrors(plan)| == |plan| - |Ids(plan)|
  {
    if plan != [] {
      var front, last := plan[..|plan| - 1], plan[|plan| - 1];
      DuplicateCount(front);
      IdsSnoc(front, last);
      assert plan == front + [last];
    }
  }

  lemma IdsSnoc(front: Plan, last: Node)
    ensures |Ids(front + [last])| == |Ids(front)| + if last.id in Ids(front) then 0 else 1
  {
    assert Ids(front + [last]) == Ids(front) + {last.id};
  }

  lemma {:induction false} DuplicateMembers(plan: Plan)
    ensures forall id :: DuplicateNodeId(id) in DuplicateErrors(plan) <==> Repeats(plan, id)
  {
    if plan != [] {
      var front, last := plan[..|plan| - 1], plan[|plan| - 1];
      DuplicateMembers(front);
      assert plan == front + [last];
      RepeatedSnoc(front, last);
    }
  }

  lemma RepeatedSnoc(front: Plan, last: Node)
    ensures forall id :: Repeats(front + [last], id) <==>
                         Repeats(front, id) || (id == last.id && last.id in Ids(front))
  {
    var plan, n := front + [last], |front|;
    assert forall i :: 0 <= i < n ==> plan[i] == front[i] && front[i] in front;
    forall id | Repeats(front, id)
      ensures Repeats(plan, id)
    {
      var i, j :| 0 <= i < j < n && front[i].id == front[j].id == id;
      assert plan[i].id == plan[j].id == id;
    }
    if last.id in Ids(front) {
      var node :| node in front && node.id == last.id;
      var i :| 0 <= i < n && front[i] == node;
      assert plan[i].id == plan[n].id;
    }
  }

  lemma {:induction false} NodeDanglingMembers(ids: set<Id>, id: Id, deps: seq<Id>)
    ensures forall e :: e in NodeDangling(ids, id, deps) <==>
                        e.DanglingDependsOn? && e.id == id && e.dep in deps && e.dep !in ids
  {
    if deps != [] {
      NodeDanglingMembers(ids, id, deps[..|deps| - 1]);
      assert deps == deps[..|deps| - 1] + [deps[|deps| - 1]];
    }
  }

  /** A dependency is reported exactly when a node lists it and no node has that id. */
  lemma {:induction false} DanglingReports(ids: set<Id>, plan: Plan)
    ensures forall e :: e in DanglingErrors(ids, plan) <==>
                        && e.DanglingDependsOn? && e.dep !in ids
                        && exists n :: n in plan && n.id == e.id && e.dep in n.deps
  {
    if plan != [] {
      var front, last := plan[..|plan| - 1], plan[|plan| - 1];
      DanglingReports(ids, front);
      NodeDanglingMembers(ids, last.id, last.deps);
      assert plan == front + [last];
    }
  }

  lemma {:induction false} NodeDanglingMeaning(ids: set<Id>, id: Id, deps: seq<Id>)
    ensures NodeDangling(ids, id, deps) == [] <==> forall d :: d in deps ==> d in ids
  {
    if deps != [] {
      NodeDanglingMeaning(ids, id, deps[..|deps| - 1]);
      assert deps == deps[..|deps| - 1] + [deps[|deps| - 1]];
    }
  }

  lemma {:induction false} DanglingErrorsMeaning(ids: set<Id>, plan: Plan)
    ensures DanglingErrors(ids, plan) == [] <==> forall n, d :: n in plan && d in n.deps ==> d in ids
  {
    if plan != [] {
      var front, last := plan[..|plan| - 1], plan[|plan| - 1];
      DanglingErrorsMeaning(ids, front);
      NodeDanglingMeaning(ids, last.id, last.deps);
      assert plan == front + [last];
    }
  }

  ghost predicate Valid(plan: Plan) {
    UniqueIds(plan) && NoDangling(plan) && !Cyclic(plan)
  }

  method FindDuplicates(plan: Plan) returns (errors: seq<PlanError>, seen: set<Id>)
    ensures errors == DuplicateErrors(plan) && seen == Ids(plan)
    ensures errors == [] <==> UniqueIds(plan)
  {
    errors, seen := [], {};
    for i := 0 to |plan|
      invariant errors == DuplicateErrors(plan[..i]) && seen == Ids(plan[..i])
    {
      assert plan[..i + 1][..i] == plan[..i];
      LastNodeOfPrefix(plan, i, plan[i].id);
      if plan[i].id in seen {
        errors := errors + [DuplicateNodeId(plan[i].id)];
      }
      seen := seen + {plan[i].id};
    }
    assert plan[..|plan|] == plan;
    DuplicateErrorsMeaning(plan);
  }

  lemma NodeDanglingAt(ids: set<Id>, id: Id, deps: seq<Id>, i: nat)
    requires i < |deps|
    ensures NodeDangling(ids, id, deps[..i + 1]) ==
            NodeDangling(ids, id, deps[..i]) + if deps[i] !in ids then [DanglingDependsOn(id, deps[i])] else []
  {
    assert deps[..i + 1][..i] == deps[..i];
  }

  method FindDangling(ids: set<Id>, plan: Plan) returns (errors: seq<PlanError>)
    ensures errors == DanglingErrors(ids, plan)
    ensures errors == [] <==> forall n, d :: n in plan && d in n.deps ==> d in ids
  {
    errors := [];
    for i := 0 to |plan|
      invariant errors == DanglingErrors(ids, plan[..i])
    {
      assert plan[..i + 1][..i] == plan[..i];
      ghost var before := errors;
      var n := plan[i];
      for j := 0 to |n.deps|
        invariant errors == before + NodeDangling(ids, n.id, n.deps[..j])
      {
        NodeDanglingAt(ids, n.id, n.deps, j);
        if n.deps[j] !in ids {
          errors := errors + [DanglingDependsOn(n.id, n.deps[j])];
        }
      }
      assert n.deps[..|n.deps|] == n.deps;
    }
    assert plan[..|plan|] == plan;
    DanglingErrorsMeaning(ids, plan);
  }

  /** Reports duplicates, then dangling dependencies, then a cycle; it is silent exactly on
      plans with unique ids, no dangling dependency and no cycle. */
  method ValidateDag(plan: Plan) returns (errors: seq<PlanError>)
    ensures errors == DuplicateErrors(plan) + DanglingErrors(Ids(plan), plan)
                      + if Cyclic(plan) then [CycleOrSortError] else []
    ensures errors == [] <==> Valid(plan)
  {
    var ids;
    errors, ids := FindDuplicates(plan);
    var dangling := FindDangling(ids, plan);
    errors := errors + dangling;
    var sorted := StableTopologicalSort(plan);
    if sorted.Raised? {
      errors := errors + [CycleOrSortError];
    }
  }

  // ---------------------------------------------------------------- readiness

  /** Not completed, and every listed dependency (dangling ones included) completed. */
  predicate NodeReady(plan: Plan, completed: set<Id>, id: Id) {
    && id in Ids(plan) && id !in completed
    && forall d :: d in LastNode(plan, id).deps ==> d in completed
  }

  function ReadyAmong(plan: Plan, completed: set<Id>, order: seq<Id>): seq<Id> {
    if order == [] then []
    else (if NodeReady(plan, completed, order[0]) then [order[0]] else []) + ReadyAmong(plan, completed, order[1..])
  }

  lemma {:induction false} ReadyAmongMembers(plan: Plan, completed: set<Id>, order: seq<Id>, id: Id)
    ensures id in ReadyAmong(plan, completed, order) <==> id in order && NodeReady(plan, completed, id)
  {
    if order != [] {
      ReadyAmongMembers(plan, completed, order[1..], id);
      assert order == [order[0]] + order[1..];
    }
  }

  function IsReady(plan: Plan, completed: set<Id>): Id -> bool {
    (id: Id) => NodeReady(plan, completed, id)
  }

  lemma {:induction false} ReadyAmongFilters(plan: Plan, completed: set<Id>, order: seq<Id>)
    ensures ReadyAmong(plan, completed, order) == Filter(order, IsReady(plan, completed))
  {
    if order != [] {
      ReadyAmongFilters(plan, completed, order[1..]);
      assert order == [order[0]] + order[1..];
      FilterConcat([order[0]], order[1..], IsReady(plan, completed));
      FilterSnoc([], order[0], IsReady(plan, completed));
      assert [] + [order[0]] == [order[0]];
    }
  }

  lemma ReadyAmongNext(plan: Plan, completed: set<Id>, order: seq<Id>, i: nat, ready: seq<Id>)
    requires i < |order|
    ensures var next := if NodeReady(plan, completed, order[i]) then ready + [order[i]] else ready;
      ready + ReadyAmong(plan, completed, order[i..]) == next + ReadyAmong(plan, completed, order[i + 1..])
  {
    assert order[i..][1..] == order[i + 1..];
  }

  lemma ReadyAmongAll(plan: Plan, completed: set<Id>)
    requires Sortable(plan)
    ensures forall id :: id in ReadyAmong(plan, completed, StableOrder(plan)) <==> NodeReady(plan, completed, id)
  {
    var order := StableOrder(plan);
    SortableIffAcyclic(plan);
    forall id
      ensures id in ReadyAmong(plan, completed, order) <==> NodeReady(plan, completed, id)
    {
      ReadyAmongMembers(plan, completed, order, id);
      assert id in order <==> id in Elems(order);
    }
  }

  /** The ready ids in stable order; raises on a cyclic plan. An id is listed exactly when it
      is a plan id, not completed, with all its dependencies completed. */
  method ReadyNodeIds(plan: Plan, completed: set<Id>) returns (r: Result<seq<Id>>)
    ensures r.Raised? <==> !Sortable(plan)
    ensures r.Ok? ==> r.value == ReadyAmong(plan, completed, StableOrder(plan))
    ensures r.Ok? ==> forall id :: id in r.value <==> NodeReady(plan, completed, id)
  {
    var sorted := StableTopologicalSort(plan);
    if sorted.Raised? { return Raised; }
    var ordered := sorted.value;
    ghost var order := StableOrder(plan);
    var ready: seq<Id> := [];
    for i := 0 to |ordered|
      invariant ready + ReadyAmong(plan, completed, order[i..]) == ReadyAmong(plan, completed, order)
    {
      var n := ordered[i];
      LastNodeIn(plan, order[i]);
      ReadyAmongNext(plan, completed, order, i, ready);
      if n.id !in completed && forall d :: d in n.deps ==> d in completed {
        ready := ready + [n.id];
      }
    }
    ReadyAmongAll(plan, completed);
    r := Ok(ready);
  }
}
