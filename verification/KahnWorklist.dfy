/** The in-degree bookkeeping both topological sorts share. */
module KahnWorklist {
  import opened Sequences
  import opened TierContracts
  import opened PlanGraph

  /** How many listed edges into `c` start at an id that is not done. */
  function Pending(edges: seq<(Id, Id)>, c: Id, done: set<Id>): nat {
    if edges == [] then 0
    else
      var last := edges[|edges| - 1];
      Pending(edges[..|edges| - 1], c, done) + if last.1 == c && last.0 !in done then 1 else 0
  }

  /** The children of `d`, once for every listed edge. */
  function Children(edges: seq<(Id, Id)>, d: Id): seq<Id> {
    if edges == [] then []
    else
      var last := edges[|edges| - 1];
      Children(edges[..|edges| - 1], d) + if last.0 == d then [last.1] else []
  }

  lemma {:induction false} PendingZero(edges: seq<(Id, Id)>, c: Id, done: set<Id>)
    ensures Pending(edges, c, done) == 0 <==> forall a :: (a, c) in edges ==> a in done
  {
    if edges != [] {
      var front, last := edges[..|edges| - 1], edges[|edges| - 1];
      PendingZero(front, c, done);
      assert edges == front + [last];
      if Pending(edges, c, done) != 0 && Pending(front, c, done) == 0 {
        assert (last.0, c) in edges;
      }
    }
  }

  /** Finishing `d` releases exactly its children, with multiplicity. */
  lemma {:induction false} PendingAfter(edges: seq<(Id, Id)>, c: Id, done: set<Id>, d: Id)
    requires d !in done
    ensures Pending(edges, c, done) == Pending(edges, c, done + {d}) + multiset(Children(edges, d))[c]
  {
    if edges != [] {
      PendingAfter(edges[..|edges| - 1], c, done, d);
    }
  }

  lemma {:induction false} ChildrenAreEdges(edges: seq<(Id, Id)>, d: Id, c: Id)
    ensures c in Children(edges, d) <==> (d, c) in edges
  {
    if edges != [] {
      ChildrenAreEdges(edges[..|edges| - 1], d, c);
      assert edges == edges[..|edges| - 1] + [edges[|edges| - 1]];
    }
  }

  // --------------------------------------------------------- listing order

  /** Where the plan first lists an id. */
  function Position(plan: Plan, id: Id): nat {
    if plan == [] || plan[0].id == id then 0 else 1 + Position(plan[1..], id)
  }

  lemma {:induction false} PositionIs(plan: Plan, k: nat)
    requires k < |plan| && forall i :: 0 <= i < k ==> plan[i].id != plan[k].id
    ensures Position(plan, plan[k].id) == k
  {
    if k > 0 { PositionIs(plan[1..], k - 1); }
  }

  lemma {:induction false} IdAtPosition(plan: Plan, id: Id)
    requires id in Ids(plan)
    ensures Position(plan, id) < |plan| && plan[Position(plan, id)].id == id
  {
    if plan[0].id != id {
      assert plan == [plan[0]] + plan[1..];
      IdAtPosition(plan[1..], id);
    }
  }

  ghost predicate InListing(plan: Plan, ids: seq<Id>) {
    forall i, j :: 0 <= i < j < |ids| ==> Position(plan, ids[i]) <= Position(plan, ids[j])
  }

  lemma InListingSnoc(plan: Plan, ids: seq<Id>, id: Id)
    requires InListing(plan, ids) && forall x :: x in ids ==> Position(plan, x) <= Position(plan, id)
    ensures InListing(plan, ids + [id])
  {
  }

  /** The edges are listed by the node they lead into. */
  ghost predicate EdgesListed(plan: Plan, edges: seq<(Id, Id)>) {
    forall i, j :: 0 <= i < j < |edges| ==> Position(plan, edges[i].1) <= Position(plan, edges[j].1)
  }

  lemma {:induction false} ChildrenListed(plan: Plan, edges: seq<(Id, Id)>, d: Id)
    requires EdgesListed(plan, edges)
    ensures InListing(plan, Children(edges, d))
  {
    if edges != [] {
      var front, last := edges[..|edges| - 1], edges[|edges| - 1];
      ChildrenListed(plan, front, d);
      forall x | x in Children(front, d)
        ensures Position(plan, x) <= Position(plan, last.1)
      {
        ChildrenAreEdges(front, d, x);
        var i :| 0 <= i < |front| && front[i] == (d, x);
        assert edges[i] == (d, x);
      }
      InListingSnoc(plan, Children(front, d), last.1);
    }
  }

  /** The dictionaries filled from the edge list. */
  ghost predicate Filled(ids: set<Id>, edges: seq<(Id, Id)>, indeg: map<Id, int>, adj: map<Id, seq<Id>>) {
    && indeg.Keys == ids && adj.Keys == ids
    && (forall e :: e in edges ==> e.0 in ids && e.1 in ids)
    && (forall c :: c in ids ==> indeg[c] == Pending(edges, c, {}))
    && (forall d :: d in ids ==> adj[d] == Children(edges, d))
  }

  ghost predicate EdgesOf(plan: Plan, edges: seq<(Id, Id)>) {
    forall a, b :: (a, b) in edges <==> Edge(plan, a, b)
  }

  lemma FilledSnoc(ids: set<Id>, edges: seq<(Id, Id)>, indeg: map<Id, int>, adj: map<Id, seq<Id>>,
                                      d: Id, c: Id)
    requires Filled(ids, edges, indeg, adj) && d in ids && c in ids
    ensures Filled(ids, edges + [(d, c)], indeg[c := indeg[c] + 1], adj[d := adj[d] + [c]])
  {
    assert (edges + [(d, c)])[..|edges|] == edges;
  }

  /** The dependencies of `n` that are plan ids, as edges into `n`, in listing order. */
  function NodeEdges(ids: set<Id>, deps: seq<Id>, c: Id): seq<(Id, Id)> {
    if deps == [] then []
    else
      var last := deps[|deps| - 1];
      NodeEdges(ids, deps[..|deps| - 1], c) + if last in ids then [(last, c)] else []
  }

  lemma {:induction false} NodeEdgesMembers(ids: set<Id>, deps: seq<Id>, c: Id, a: Id, b: Id)
    ensures (a, b) in NodeEdges(ids, deps, c) <==> a in ids && a in deps && b == c
  {
    if deps != [] {
      NodeEdgesMembers(ids, deps[..|deps| - 1], c, a, b);
      assert deps == deps[..|deps| - 1] + [deps[|deps| - 1]];
    }
  }

  lemma NodeEdgesStep(ids: set<Id>, deps: seq<Id>, j: nat, c: Id, edges0: seq<(Id, Id)>)
    requires j < |deps|
    ensures edges0 + NodeEdges(ids, deps[..j + 1], c) ==
            edges0 + NodeEdges(ids, deps[..j], c) + if deps[j] in ids then [(deps[j], c)] else []
  {
    assert deps[..j + 1][..j] == deps[..j];
  }

  method AddEdge(ids: set<Id>, dep: Id, id: Id, indeg0: map<Id, int>, adj0: map<Id, seq<Id>>,
                 ghost edges0: seq<(Id, Id)>)
      returns (indeg: map<Id, int>, adj: map<Id, seq<Id>>, ghost edges: seq<(Id, Id)>)
    requires Filled(ids, edges0, indeg0, adj0) && dep in ids && id in ids
    ensures edges == edges0 + [(dep, id)] && Filled(ids, edges, indeg, adj)
  {
    FilledSnoc(ids, edges0, indeg0, adj0, dep, id);
    edges := edges0 + [(dep, id)];
    indeg := indeg0[id := indeg0[id] + 1];
    adj := adj0[dep := adj0[dep] + [id]];
  }

  /** Records one node's in-plan dependencies in the dictionaries. */
  method AddNode(ids: set<Id>, n: Node, indeg0: map<Id, int>, adj0: map<Id, seq<Id>>, ghost edges0: seq<(Id, Id)>)
      returns (indeg: map<Id, int>, adj: map<Id, seq<Id>>, ghost edges: seq<(Id, Id)>)
    requires Filled(ids, edges0, indeg0, adj0) && n.id in ids
    ensures edges == edges0 + NodeEdges(ids, n.deps, n.id)
    ensures Filled(ids, edges, indeg, adj)
  {
    indeg, adj, edges := indeg0, adj0, edges0;
    for j := 0 to |n.deps|
      invariant edges == edges0 + NodeEdges(ids, n.deps[..j], n.id)
      invariant Filled(ids, edges, indeg, adj)
    {
      var dep := n.deps[j];
      NodeEdgesStep(ids, n.deps, j, n.id, edges0);
      if dep in ids {
        indeg, adj, edges := AddEdge(ids, dep, n.id, indeg, adj, edges);
      }
    }
    assert n.deps[..|n.deps|] == n.deps;
  }

  ghost predicate EdgesOfFirst(plan: Plan, ids: set<Id>, i: nat, edges: seq<(Id, Id)>)
    requires i <= |plan|
  {
    forall a, b :: (a, b) in edges <==> a in ids && exists k :: 0 <= k < i && plan[k].id == b && a in plan[k].deps
  }

  lemma EdgesOfFirstStep(plan: Plan, ids: set<Id>, i: nat, edges: seq<(Id, Id)>)
    requires i < |plan| && EdgesOfFirst(plan, ids, i, edges)
    ensures EdgesOfFirst(plan, ids, i + 1, edges + NodeEdges(ids, plan[i].deps, plan[i].id))
  {
    forall a, b
      ensures (a, b) in edges + NodeEdges(ids, plan[i].deps, plan[i].id) <==>
              a in ids && exists k :: 0 <= k < i + 1 && plan[k].id == b && a in plan[k].deps
    {
      NodeEdgesMembers(ids, plan[i].deps, plan[i].id, a, b);
    }
  }

  lemma EdgesListedStep(plan: Plan, ids: set<Id>, i: nat, edges: seq<(Id, Id)>)
    requires UniqueIds(plan) && i < |plan| && EdgesOfFirst(plan, ids, i, edges) && EdgesListed(plan, edges)
    ensures EdgesListed(plan, edges + NodeEdges(ids, plan[i].deps, plan[i].id))
  {
    var more := NodeEdges(ids, plan[i].deps, plan[i].id);
    PositionIs(plan, i);
    forall e | e in more
      ensures Position(plan, e.1) == i
    {
      NodeEdgesMembers(ids, plan[i].deps, plan[i].id, e.0, e.1);
    }
    forall e | e in edges
      ensures Position(plan, e.1) < i
    {
      assert (e.0, e.1) in edges;
      var k :| 0 <= k < i && plan[k].id == e.1 && e.0 in plan[k].deps;
      PositionIs(plan, k);
    }
  }

  /** Counts every in-plan dependency and records it in the adjacency lists, node by node. */
  method BuildGraph(plan: Plan)
      returns (indeg: map<Id, int>, adj: map<Id, seq<Id>>, ghost edges: seq<(Id, Id)>)
    ensures Filled(Ids(plan), edges, indeg, adj)
    ensures EdgesOf(plan, edges) && (UniqueIds(plan) ==> EdgesListed(plan, edges))
  {
    var ids := Ids(plan);
    indeg := map id | id in ids :: 0;
    adj := map id | id in ids :: [];
    edges := [];
    for i := 0 to |plan|
      invariant Filled(ids, edges, indeg, adj)
      invariant EdgesOfFirst(plan, ids, i, edges)
      invariant UniqueIds(plan) ==> EdgesListed(plan, edges)
    {
      if UniqueIds(plan) { EdgesListedStep(plan, ids, i, edges); }
      EdgesOfFirstStep(plan, ids, i, edges);
      indeg, adj, edges := AddNode(ids, plan[i], indeg, adj, edges);
    }
    forall a, b
      ensures (a, b) in edges <==> Edge(plan, a, b)
    {
      if Edge(plan, a, b) {
        var n :| n in plan && n.id == b && a in n.deps;
        var k :| 0 <= k < |plan| && plan[k] == n;
      }
    }
  }

  /** The worklist before the next pop: in-degrees count the unfinished dependencies and
      `ready` holds each available id once. */
  ghost predicate WorklistFits(
    plan: Plan, edges: seq<(Id, Id)>, done: seq<Id>, indeg: map<Id, int>, ready: seq<Id>)
  {
    && Partial(plan, done) && EdgesOf(plan, edges)
    && indeg.Keys == Ids(plan)
    && (forall c :: c in Ids(plan) ==> indeg[c] == Pending(edges, c, Elems(done)))
    && NoDup(ready)
    && (forall c :: c in ready <==> c in Available(plan, Elems(done)))
  }

  lemma AvailableIffZero(plan: Plan, edges: seq<(Id, Id)>, done: set<Id>, c: Id)
    requires EdgesOf(plan, edges)
    ensures c in Available(plan, done) <==> c in Ids(plan) && c !in done && Pending(edges, c, done) == 0
  {
    PendingZero(edges, c, done);
  }

  lemma DoneHasNoPending(plan: Plan, edges: seq<(Id, Id)>, done: seq<Id>, c: Id)
    requires Partial(plan, done) && EdgesOf(plan, edges) && c in done
    ensures Pending(edges, c, Elems(done)) == 0
  {
    PendingZero(edges, c, Elems(done));
    var i :| 0 <= i < |done| && done[i] == c;
    forall a | Edge(plan, a, c)
      ensures a in Elems(done)
    {
      assert a in done[..i];
    }
  }

  /** The ids without dependencies, in the order the dictionary lists them. */
  method InitialReady(plan: Plan, indeg: map<Id, int>, ghost edges: seq<(Id, Id)>) returns (ready: seq<Id>)
    requires EdgesOf(plan, edges) && indeg.Keys == Ids(plan)
    requires forall c :: c in Ids(plan) ==> indeg[c] == Pending(edges, c, {})
    ensures WorklistFits(plan, edges, [], indeg, ready) && InListing(plan, ready)
  {
    ready := [];
    var seen := {};
    for i := 0 to |plan|
      invariant NoDup(ready)
      invariant InListing(plan, ready) && forall c :: c in ready ==> Position(plan, c) < i
      invariant forall c :: c in seen <==> exists k :: 0 <= k < i && plan[k].id == c
      invariant forall c :: c in ready <==> c in seen && c in indeg && indeg[c] == 0
    {
      var id := plan[i].id;
      if id !in seen && indeg[id] == 0 {
        NoDupSnoc(ready, id);
        PositionIs(plan, i);
        InListingSnoc(plan, ready, id);
        ready := ready + [id];
      }
      seen := seen + {id};
    }
    forall c
      ensures c in ready <==> c in Available(plan, Elems<Id>([]))
    {
      AvailableIffZero(plan, edges, {}, c);
    }
    assert Elems<Id>([]) == {};
  }

  lemma CountStep(kids: seq<Id>, j: nat)
    requires j < |kids|
    ensures multiset(kids[..j + 1]) == multiset(kids[..j]) + multiset{kids[j]}
    ensures multiset(kids)[kids[j]] >= multiset(kids[..j])[kids[j]] + 1
  {
    assert kids[..j + 1] == kids[..j] + [kids[j]];
    assert kids == kids[..j + 1] + kids[j + 1..];
  }

  /** `kids` have been released: their in-degrees are down by one for each time they are
      listed, and those that reached zero are ready, once. */
  ghost predicate Released(indeg0: map<Id, int>, ready0: seq<Id>, kids: seq<Id>, indeg: map<Id, int>, ready: seq<Id>) {
    && indeg.Keys == indeg0.Keys
    && (forall c :: c in indeg ==> indeg[c] == indeg0[c] - multiset(kids)[c])
    && NoDup(ready)
    && (forall c :: c in ready <==> c in ready0 || (c in indeg && c in multiset(kids) && indeg[c] == 0))
  }

  lemma ReleaseOne(indeg0: map<Id, int>, ready0: seq<Id>, kids: seq<Id>, j: nat,
                                      indeg: map<Id, int>, ready: seq<Id>)
    requires j < |kids| && Released(indeg0, ready0, kids[..j], indeg, ready)
    requires kids[j] in indeg0 && indeg0[kids[j]] >= multiset(kids)[kids[j]]
    requires forall c :: c in ready0 ==> c in indeg0 && indeg0[c] == 0
    ensures var next := indeg[kids[j] := indeg[kids[j]] - 1];
      Released(indeg0, ready0, kids[..j + 1], next, if next[kids[j]] == 0 then ready + [kids[j]] else ready)
  {
    CountStep(kids, j);
    if indeg[kids[j]] - 1 == 0 { NoDupSnoc(ready, kids[j]); }
  }

  /** What is queued behind `ready0` comes from `kids`, and in listing order if they do. */
  ghost predicate QueuedBehind(plan: Plan, kids: seq<Id>, ready0: seq<Id>, ready: seq<Id>) {
    && ready0 <= ready && (forall c :: c in ready[|ready0|..] ==> c in kids)
    && (InListing(plan, kids) ==> InListing(plan, ready[|ready0|..]))
  }

  lemma QueueOne(plan: Plan, kids: seq<Id>, j: nat, ready0: seq<Id>, ready: seq<Id>)
    requires j < |kids| && QueuedBehind(plan, kids[..j], ready0, ready)
    ensures QueuedBehind(plan, kids[..j + 1], ready0, ready)
    ensures QueuedBehind(plan, kids[..j + 1], ready0, ready + [kids[j]])
  {
    var queued := ready[|ready0|..];
    assert (ready + [kids[j]])[|ready0|..] == queued + [kids[j]];
    assert kids[..j + 1] == kids[..j] + [kids[j]];
    if InListing(plan, kids[..j + 1]) {
      assert forall i :: 0 <= i < j ==> kids[..j][i] == kids[..j + 1][i];
      InListingSnoc(plan, queued, kids[j]);
    }
  }

  /** Decrements the in-degree of each listed child and queues those that reach zero behind
      the ids already queued, in the order in which the plan lists them if the children are. */
  method ReleaseChildren(kids: seq<Id>, indeg0: map<Id, int>, ready0: seq<Id>, ghost plan: Plan)
      returns (indeg: map<Id, int>, ready: seq<Id>)
    requires forall c :: c in indeg0 ==> indeg0[c] >= multiset(kids)[c]
    requires forall c :: c in kids ==> c in indeg0
    requires NoDup(ready0) && forall c :: c in ready0 ==> c in indeg0 && indeg0[c] == 0
    ensures Released(indeg0, ready0, kids, indeg, ready) && QueuedBehind(plan, kids, ready0, ready)
  {
    indeg, ready := indeg0, ready0;
    for j := 0 to |kids|
      invariant Released(indeg0, ready0, kids[..j], indeg, ready) && QueuedBehind(plan, kids[..j], ready0, ready)
    {
      indeg, ready := ReleaseChild(kids, j, indeg, ready, indeg0, ready0, plan);
    }
    assert kids[..|kids|] == kids;
  }

  method ReleaseChild(kids: seq<Id>, j: nat, indeg1: map<Id, int>, ready1: seq<Id>,
                      ghost indeg0: map<Id, int>, ghost ready0: seq<Id>, ghost plan: Plan)
      returns (indeg: map<Id, int>, ready: seq<Id>)
    requires j < |kids| && Released(indeg0, ready0, kids[..j], indeg1, ready1)
    requires QueuedBehind(plan, kids[..j], ready0, ready1)
    requires kids[j] in indeg0 && indeg0[kids[j]] >= multiset(kids)[kids[j]]
    requires forall c :: c in ready0 ==> c in indeg0 && indeg0[c] == 0
    ensures Released(indeg0, ready0, kids[..j + 1], indeg, ready)
    ensures QueuedBehind(plan, kids[..j + 1], ready0, ready)
  {
    ReleaseOne(indeg0, ready0, kids, j, indeg1, ready1);
    QueueOne(plan, kids, j, ready0, ready1);
    var child := kids[j];
    indeg, ready := indeg1[child := indeg1[child] - 1], ready1;
    if indeg[child] == 0 {
      ready := ready + [child];
    }
  }

  /** The head's children may be released: each is a plan id with enough pending edges. */
  lemma ReleaseFits(plan: Plan, edges: seq<(Id, Id)>, done: seq<Id>, indeg: map<Id, int>,
                                       ready: seq<Id>)
    requires WorklistFits(plan, edges, done, indeg, ready) && ready != []
    ensures forall c :: c in indeg ==> indeg[c] >= multiset(Children(edges, ready[0]))[c]
    ensures forall c :: c in Children(edges, ready[0]) ==> c in indeg
    ensures NoDup(ready[1..]) && forall c :: c in ready[1..] ==> c in indeg && indeg[c] == 0
  {
    var cur := ready[0];
    assert cur in ready && cur in Available(plan, Elems(done));
    forall c
      ensures c in indeg ==> indeg[c] >= multiset(Children(edges, cur))[c]
      ensures c in Children(edges, cur) ==> c in indeg
      ensures c in ready[1..] ==> c in indeg && indeg[c] == 0
    {
      PendingAfter(edges, c, Elems(done), cur);
      ChildrenAreEdges(edges, cur, c);
      AvailableIffZero(plan, edges, Elems(done), c);
      assert c in ready[1..] ==> c in ready;
    }
  }

  /** One iteration of the outer loop keeps the worklist fitting. */
  lemma {:induction false} WorklistStep(
    plan: Plan, edges: seq<(Id, Id)>, done: seq<Id>, indeg0: map<Id, int>, ready0: seq<Id>,
    cur: Id, indeg: map<Id, int>, ready: seq<Id>)
    requires WorklistFits(plan, edges, done, indeg0, ready0)
    requires ready0 != [] && cur == ready0[0]
    requires indeg.Keys == Ids(plan) && NoDup(ready)
    requires forall c :: c in indeg ==> indeg[c] == indeg0[c] - multiset(Children(edges, cur))[c]
    requires forall c :: c in ready <==>
               c in ready0[1..] || (c in indeg && c in multiset(Children(edges, cur)) && indeg[c] == 0)
    ensures WorklistFits(plan, edges, done + [cur], indeg, ready)
  {
    assert cur in Available(plan, Elems(done));
    PartialSnoc(plan, done, cur);
    forall c
      ensures c in Ids(plan) ==> indeg[c] == Pending(edges, c, Elems(done) + {cur})
      ensures c in ready <==> c in Available(plan, Elems(done) + {cur})
    {
      PendingAfter(edges, c, Elems(done), cur);
      AvailableIffZero(plan, edges, Elems(done), c);
      AvailableIffZero(plan, edges, Elems(done) + {cur}, c);
      AvailableIffZero(plan, edges, Elems(done), cur);
      ChildrenAreEdges(edges, cur, c);
      if c in done { DoneHasNoPending(plan, edges, done, c); }
      assert c in multiset(Children(edges, cur)) <==> c in Children(edges, cur);
      assert ready0 == [cur] + ready0[1..];
    }
  }
}
