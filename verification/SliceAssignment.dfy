/** Turning plan nodes into task slices, one per node or one per group. */
module SliceAssignment {
  import opened Sequences
  import opened StringOrder
  import opened TierContracts
  import opened PlanGraph
  import opened DagValidator
  import opened ReadyScheduler
  import opened Decimals
  import opened Liveness
  import opened Tier2Decomposer

  function ToolsOf(tools: map<Id, seq<string>>, id: Id): seq<string> {
    if id in tools then tools[id] else []
  }

  function ParentOf(n: Node): Id {
    if n.parent == "" then n.id else n.parent
  }

  function AmongTools(allowed: seq<string>): string -> bool {
    (t: string) => t in allowed
  }

  // --------------------------------------------------------- one per node

  /** A missing entry in a non-empty class map reads back as the text "None". */
  function NodeClass(classes: map<Id, string>, id: Id): string {
    if |classes| == 0 then "llm" else if id in classes then classes[id] else "None"
  }

  function NodeSlice(n: Node, tools: map<Id, seq<string>>, allowed: seq<string>, classes: map<Id, string>): Slice {
    Slice(n.id + "-slice", n.id, n.description, Filter(ToolsOf(tools, n.id), AmongTools(allowed)), 1024,
          NodeClass(classes, n.id), n.deps, ParentOf(n))
  }

  /** The slice keeps the listed tools that are allowed, in listing order. */
  ghost predicate KeepsAllowed(kept: seq<string>, listed: seq<string>, allowed: seq<string>) {
    exists idx: seq<nat> :: KeptAt(idx, listed, kept, AmongTools(allowed))
  }

  /** Field by field, the slice of a node assigned on its own. */
  ghost predicate IsNodeSlice(s: Slice, n: Node, tools: map<Id, seq<string>>, allowed: seq<string>,
                              classes: map<Id, string>) {
    && s.sliceId == n.id + "-slice" && s.nodeId == n.id && s.description == n.description
    && (forall t :: t in s.allowedTools <==> t in allowed && n.id in tools && t in tools[n.id])
    && (n.id in tools ==> KeepsAllowed(s.allowedTools, tools[n.id], allowed))
    && s.budgetTokens == 1024
    && (classes == map[] ==> s.modelClass == "llm")
    && (n.id in classes ==> s.modelClass == classes[n.id])
    && (classes != map[] && n.id !in classes ==> s.modelClass == "None")
    && s.deps == n.deps
    && (n.parent != "" ==> s.parent == n.parent) && (n.parent == "" ==> s.parent == n.id)
  }

  lemma NodeSliceFields(n: Node, tools: map<Id, seq<string>>, allowed: seq<string>, classes: map<Id, string>)
    ensures IsNodeSlice(NodeSlice(n, tools, allowed, classes), n, tools, allowed, classes)
  {
    var listed := ToolsOf(tools, n.id);
    FilterMembers(listed, AmongTools(allowed));
    var idx := FilterKeeps(listed, AmongTools(allowed));
    assert |classes| == 0 <==> classes == map[];
  }

  method AssignPerNode(plan: Plan, tools: map<Id, seq<string>>, allowed: seq<string>, classes: map<Id, string>)
      returns (slices: seq<Slice>)
    ensures |slices| == |plan|
    ensures forall i :: 0 <= i < |plan| ==> slices[i] == NodeSlice(plan[i], tools, allowed, classes)
    ensures forall i :: 0 <= i < |plan| ==> IsNodeSlice(slices[i], plan[i], tools, allowed, classes)
    ensures forall i, t :: 0 <= i < |plan| && t in slices[i].allowedTools ==> t in allowed
    ensures SliceForEach(plan, slices)
    ensures UniqueIds(plan) ==>
              forall s :: s in slices ==> s.nodeId in Ids(plan) && s.deps == LastNode(plan, s.nodeId).deps
  {
    slices := [];
    for i := 0 to |plan|
      invariant |slices| == i
      invariant forall k :: 0 <= k < i ==> slices[k] == NodeSlice(plan[k], tools, allowed, classes)
      invariant forall k :: 0 <= k < i ==> IsNodeSlice(slices[k], plan[k], tools, allowed, classes)
    {
      NodeSliceFields(plan[i], tools, allowed, classes);
      slices := slices + [NodeSlice(plan[i], tools, allowed, classes)];
    }
    PerNodeSlices(plan, slices);
  }

  lemma {:induction false} PerNodeSlices(plan: Plan, slices: seq<Slice>)
    requires |slices| == |plan|
    requires forall i :: 0 <= i < |plan| ==> slices[i].nodeId == plan[i].id && slices[i].deps == plan[i].deps
    ensures SliceForEach(plan, slices)
    ensures UniqueIds(plan) ==>
              forall s :: s in slices ==> s.nodeId in Ids(plan) && s.deps == LastNode(plan, s.nodeId).deps
  {
    forall id | id in Ids(plan)
      ensures SliceFor(slices, id).Some?
    {
      var n :| n in plan && n.id == id;
      var i :| 0 <= i < |plan| && plan[i] == n;
      assert slices[i] in slices;
      SliceForMeaning(slices, id);
    }
    if UniqueIds(plan) {
      forall s | s in slices
        ensures s.nodeId in Ids(plan) && s.deps == LastNode(plan, s.nodeId).deps
      {
        var i :| 0 <= i < |slices| && slices[i] == s;
        LastNodeUnique(plan, plan[i]);
      }
    }
  }

  /** On a valid plan the slices built per node pass the readiness gate exactly when their
      node is ready and has not failed. */
  lemma PerNodeGateIsExact(plan: Plan, s: Slice, c: Context)
    requires s.nodeId in Ids(plan) && s.deps == LastNode(plan, s.nodeId).deps
    ensures SliceErrors(s, plan, c) == [] <==> NodeReady(plan, Elems(c.completed), s.nodeId) && s.nodeId !in c.failed
  {
    GateMeaning(s, plan, c);
  }

  // ---------------------------------------------------------- one per group

  /** The dependencies of the group's nodes that lie outside the group. */
  function OuterDeps(g: seq<Node>): set<Id> {
    set n, d | n in g && d in n.deps && d !in Ids(g) :: d
  }

  /** A set as the sorted list without repetitions. */
  ghost predicate SortedListOf(s: seq<Id>, elems: set<Id>) {
    SortedBy(s, Leq) && NoDup(s) && Elems(s) == elems
  }

  method CollectOuterDeps(g: seq<Node>) returns (deps: seq<Id>)
    ensures SortedListOf(deps, OuterDeps(g))
  {
    var inner := Ids(g);
    deps := [];
    for i := 0 to |g|
      invariant NoDup(deps)
      invariant forall d :: d in deps <==> d !in inner && exists k :: 0 <= k < i && d in g[k].deps
    {
      deps := AddOuter(g[i].deps, inner, deps);
    }
    forall d
      ensures d in deps <==> d in OuterDeps(g)
    {
      if n :| n in g && d in n.deps {
        var k :| 0 <= k < |g| && g[k] == n;
      }
    }
    LeqTotalOrder();
    SortSorts(deps, Leq);
    MultisetNoDup(deps, Sort(deps, Leq));
    SameMembers(Sort(deps, Leq), deps);
    deps := Sort(deps, Leq);
  }

  method AddOuter(more: seq<Id>, inner: set<Id>, deps0: seq<Id>) returns (deps: seq<Id>)
    requires NoDup(deps0)
    ensures NoDup(deps) && forall d :: d in deps <==> d in deps0 || (d in more && d !in inner)
  {
    deps := deps0;
    for j := 0 to |more|
      invariant NoDup(deps) && forall d :: d in deps <==> d in deps0 || (d in more[..j] && d !in inner)
    {
      assert more[..j + 1] == more[..j] + [more[j]];
      if more[j] !in inner && more[j] !in deps {
        NoDupSnoc(deps, more[j]);
        deps := deps + [more[j]];
      }
    }
    assert more[..|more|] == more;
  }

  /** The allowed tools of the group's nodes, node after node. */
  function GroupTools(g: seq<Node>, tools: map<Id, seq<string>>, allowed: seq<string>): seq<string> {
    if g == [] then []
    else GroupTools(g[..|g| - 1], tools, allowed) + Filter(ToolsOf(tools, g[|g| - 1].id), AmongTools(allowed))
  }

  /** The group's allowed tools, each once, in the order in which they are first listed. */
  method UnionTools(g: seq<Node>, tools: map<Id, seq<string>>, allowed: seq<string>) returns (union: seq<string>)
    ensures union == FirstSeen(GroupTools(g, tools, allowed))
  {
    union := [];
    for i := 0 to |g|
      invariant union == FirstSeen(GroupTools(g[..i], tools, allowed))
    {
      assert g[..i + 1][..i] == g[..i];
      union := AddTools(ToolsOf(tools, g[i].id), allowed, union, GroupTools(g[..i], tools, allowed));
    }
    assert g[..|g|] == g;
  }

  method AddTools(mine: seq<string>, allowed: seq<string>, union0: seq<string>, ghost before: seq<string>)
      returns (union: seq<string>)
    requires union0 == FirstSeen(before)
    ensures union == FirstSeen(before + Filter(mine, AmongTools(allowed)))
  {
    union := union0;
    assert before + [] == before;
    for j := 0 to |mine|
      invariant union == FirstSeen(before + Filter(mine[..j], AmongTools(allowed)))
    {
      OneMoreTool(before, mine, j, allowed);
      if mine[j] in allowed && mine[j] !in union { union := union + [mine[j]]; }
    }
    assert mine[..|mine|] == mine;
  }

  lemma OneMoreTool(before: seq<string>, mine: seq<string>, j: nat, allowed: seq<string>)
    requires j < |mine|
    ensures var seen := FirstSeen(before + Filter(mine[..j], AmongTools(allowed)));
      FirstSeen(before + Filter(mine[..j + 1], AmongTools(allowed))) ==
      if mine[j] in allowed && mine[j] !in seen then seen + [mine[j]] else seen
  {
    var listed := Filter(mine[..j], AmongTools(allowed));
    assert mine[..j + 1] == mine[..j] + [mine[j]];
    FilterSnoc(mine[..j], mine[j], AmongTools(allowed));
    FirstSeenSnoc(before + listed, mine[j]);
    assert before + (listed + [mine[j]]) == before + listed + [mine[j]];
  }

  /** What the union is: exactly the allowed tools of the group, each once, earlier ones those
      that some node lists earlier. */
  lemma UnionMeaning(g: seq<Node>, tools: map<Id, seq<string>>, allowed: seq<string>)
    ensures var all := GroupTools(g, tools, allowed);
      && NoDup(FirstSeen(all))
      && (forall t :: t in FirstSeen(all) <==> t in allowed && exists n :: n in g && t in ToolsOf(tools, n.id))
      && forall i, j :: 0 <= i < j < |FirstSeen(all)| ==> SeenBefore(all, FirstSeen(all)[i], FirstSeen(all)[j])
  {
    var all := GroupTools(g, tools, allowed);
    FirstSeenMeaning(all);
    GroupToolsMembers(g, tools, allowed);
    assert forall t :: t in FirstSeen(all) <==> t in Elems(FirstSeen(all));
  }

  lemma {:induction false} GroupToolsMembers(g: seq<Node>, tools: map<Id, seq<string>>, allowed: seq<string>)
    ensures forall t :: t in GroupTools(g, tools, allowed) <==>
                        t in allowed && exists n :: n in g && t in ToolsOf(tools, n.id)
  {
    if g != [] {
      var front, last := g[..|g| - 1], g[|g| - 1];
      assert g == front + [last];
      GroupToolsMembers(front, tools, allowed);
      FilterMembers(ToolsOf(tools, last.id), AmongTools(allowed));
    }
  }

  function JoinDescriptions(g: seq<Node>): string {
    if g == [] then "" else if |g| == 1 then g[0].description
    else g[0].description + "; " + JoinDescriptions(g[1..])
  }

  function GroupDescription(g: seq<Node>, cost: Node -> nat, budget: int): string {
    JoinDescriptions(g) + if exists n :: n in g && cost(n) > budget then " [OVERSIZED]" else ""
  }

  /** The descriptions in group order with "; " between them, and a mark at the end exactly
      when some node alone costs more than the budget. */
  lemma {:induction false} DescriptionParts(g: seq<Node>, h: seq<Node>, cost: Node -> nat, budget: int)
    requires g != [] && h != []
    ensures JoinDescriptions(g + h) == JoinDescriptions(g) + "; " + JoinDescriptions(h)
    ensures |g| == 1 ==> JoinDescriptions(g) == g[0].description
    ensures (forall n :: n in g ==> cost(n) <= budget) ==> GroupDescription(g, cost, budget) == JoinDescriptions(g)
    ensures (exists n :: n in g && cost(n) > budget) ==>
              GroupDescription(g, cost, budget) == JoinDescriptions(g) + " [OVERSIZED]"
  {
    if |g| == 1 {
      assert (g + h)[1..] == h;
    } else {
      DescriptionParts(g[1..], h, cost, budget);
      assert (g + h)[1..] == g[1..] + h;
    }
  }

  /** "slm" if any node asks for it, and otherwise the least class in the group. */
  ghost predicate IsGroupClass(g: seq<Node>, classes: map<Id, string>, c: string) {
    var wanted := set n | n in g :: if n.id in classes then classes[n.id] else "llm";
    if "slm" in wanted then c == "slm" else c in wanted && forall w :: w in wanted ==> Leq(c, w)
  }

  method GroupClass(g: seq<Node>, classes: map<Id, string>) returns (c: string)
    requires g != []
    ensures IsGroupClass(g, classes, c)
  {
    var wanted := seq(|g|, i requires 0 <= i < |g| => if g[i].id in classes then classes[g[i].id] else "llm");
    ghost var all := set n | n in g :: if n.id in classes then classes[n.id] else "llm";
    forall w
      ensures w in wanted <==> w in all
    {
      if w in all {
        var n :| n in g && w == if n.id in classes then classes[n.id] else "llm";
        var i :| 0 <= i < |g| && g[i] == n;
        assert wanted[i] == w;
      }
    }
    if "slm" in wanted { return "slm"; }
    LeqTotalOrder();
    SortSorts(wanted, Leq);
    var sorted := Sort(wanted, Leq);
    SameMembers(sorted, wanted);
    assert |sorted| == |multiset(sorted)| == |multiset(wanted)| == |wanted|;
    c := sorted[0];
    assert c in sorted;
    forall w | w in sorted
      ensures Leq(c, w)
    {
      var i :| 0 <= i < |sorted| && sorted[i] == w;
      assert Leq(c, c);
    }
  }

  ghost predicate IsGroupSlice(s: Slice, idx: nat, g: seq<Node>, tools: map<Id, seq<string>>, allowed: seq<string>,
                               classes: map<Id, string>, cost: Node -> nat, budget: int) {
    && g != [] && s.sliceId == "slice-" + NatToString(idx) && s.nodeId == g[0].id && s.parent == ParentOf(g[0])
    && s.description == GroupDescription(g, cost, budget)
    && s.budgetTokens == budget && SortedListOf(s.deps, OuterDeps(g))
    && IsGroupClass(g, classes, s.modelClass)
    && s.allowedTools == FirstSeen(GroupTools(g, tools, allowed))
    && forall t :: t in s.allowedTools <==> t in allowed && exists n :: n in g && n.id in tools && t in tools[n.id]
  }

  ghost predicate AreGroupSlices(slices: seq<Slice>, groups: seq<seq<Node>>, tools: map<Id, seq<string>>,
                                 allowed: seq<string>, classes: map<Id, string>, cost: Node -> nat, budget: int) {
    && |slices| == |groups|
    && forall i :: 0 <= i < |groups| ==> IsGroupSlice(slices[i], i, groups[i], tools, allowed, classes, cost, budget)
  }

  /** Each in-plan dependency a slice lists belongs to an earlier group. */
  ghost predicate DepsInEarlierGroups(plan: Plan, slices: seq<Slice>, groups: seq<seq<Node>>) {
    forall i, d :: 0 <= i < |slices| && i < |groups| && d in slices[i].deps && d in Ids(plan) ==>
      exists j :: 0 <= j < i && d in Ids(groups[j])
  }

  method BuildGroupSlice(idx: nat, g: seq<Node>, tools: map<Id, seq<string>>, allowed: seq<string>,
                         classes: map<Id, string>, cost: Node -> nat, budget: int) returns (s: Slice)
    requires g != []
    ensures IsGroupSlice(s, idx, g, tools, allowed, classes, cost, budget)
  {
    var union := UnionTools(g, tools, allowed);
    var deps := CollectOuterDeps(g);
    var c := GroupClass(g, classes);
    UnionMeaning(g, tools, allowed);
    s := Slice("slice-" + NatToString(idx), g[0].id, GroupDescription(g, cost, budget), union, budget, c, deps,
               ParentOf(g[0]));
  }

  /** The slices are those of the fewest fitting groups over the queue's order, and each
      in-plan dependency a slice lists belongs to an earlier group. */
  ghost predicate AreGrouped(plan: Plan, slices: seq<Slice>, groups: seq<seq<Node>>, tools: map<Id, seq<string>>,
                             allowed: seq<string>, classes: map<Id, string>, cost: Node -> nat, budget: int) {
    && QueueOrdered(plan, Flat(groups)) && AllFit(cost, budget, groups) && FewestGroups(cost, budget, groups)
    && AreGroupSlices(slices, groups, tools, allowed, classes, cost, budget)
    && DepsInEarlierGroups(plan, slices, groups)
  }

  /** One slice per group of the greedy packing; each in-plan dependency a slice lists
      belongs to an earlier group. */
  method AssignGrouped(plan: Plan, tools: map<Id, seq<string>>, allowed: seq<string>, classes: map<Id, string>,
                       cost: Node -> nat, budget: int)
      returns (r: Result<seq<Slice>>, ghost groups: seq<seq<Node>>)
    ensures r.Raised? <==> Cyclic(plan)
    ensures r.Ok? ==> AreGrouped(plan, r.value, groups, tools, allowed, classes, cost, budget)
  {
    var packed := GroupNodesIntoSlices(plan, cost, budget);
    if packed.Raised? { return Raised, []; }
    groups := packed.value;
    var slices := BuildGroupSlices(packed.value, tools, allowed, classes, cost, budget);
    GroupedDepsAreEarlier(plan, slices, groups, tools, allowed, classes, cost, budget);
    r := Ok(slices);
  }

  method BuildGroupSlices(groups: seq<seq<Node>>, tools: map<Id, seq<string>>, allowed: seq<string>,
                          classes: map<Id, string>, cost: Node -> nat, budget: int) returns (slices: seq<Slice>)
    requires AllFit(cost, budget, groups)
    ensures AreGroupSlices(slices, groups, tools, allowed, classes, cost, budget)
  {
    slices := [];
    for i := 0 to |groups|
      invariant AreGroupSlices(slices, groups[..i], tools, allowed, classes, cost, budget)
    {
      assert groups[i] in groups;
      var s := BuildGroupSlice(i, groups[i], tools, allowed, classes, cost, budget);
      GroupSlicesSnoc(slices, groups, i, s, tools, allowed, classes, cost, budget);
      slices := slices + [s];
    }
    assert groups[..|groups|] == groups;
  }

  lemma {:induction false} GroupSlicesSnoc(slices: seq<Slice>, groups: seq<seq<Node>>, i: nat, s: Slice,
                                           tools: map<Id, seq<string>>, allowed: seq<string>,
                                           classes: map<Id, string>, cost: Node -> nat, budget: int)
    requires i < |groups| && AreGroupSlices(slices, groups[..i], tools, allowed, classes, cost, budget)
    requires IsGroupSlice(s, i, groups[i], tools, allowed, classes, cost, budget)
    ensures AreGroupSlices(slices + [s], groups[..i + 1], tools, allowed, classes, cost, budget)
  {
    var longer, first := slices + [s], groups[..i + 1];
    PrefixAgrees(slices, s, groups, i);
    forall k | 0 <= k < i + 1
      ensures IsGroupSlice(longer[k], k, first[k], tools, allowed, classes, cost, budget)
    {
      if k < i { assert IsGroupSlice(slices[k], k, groups[..i][k], tools, allowed, classes, cost, budget); }
    }
  }

  lemma PrefixAgrees(slices: seq<Slice>, s: Slice, groups: seq<seq<Node>>, i: nat)
    requires |slices| == i < |groups|
    ensures forall k :: 0 <= k < i ==> (slices + [s])[k] == slices[k] && groups[..i + 1][k] == groups[..i][k]
    ensures (slices + [s])[i] == s && groups[..i + 1][i] == groups[i]
  {
  }

  lemma GroupedDepsAreEarlier(
    plan: Plan, slices: seq<Slice>, groups: seq<seq<Node>>, tools: map<Id, seq<string>>, allowed: seq<string>,
    classes: map<Id, string>, cost: Node -> nat, budget: int)
    requires TopologicalNodes(plan, Flat(groups))
    requires AreGroupSlices(slices, groups, tools, allowed, classes, cost, budget)
    ensures DepsInEarlierGroups(plan, slices, groups)
  {
    forall i, d | 0 <= i < |slices| && i < |groups| && d in slices[i].deps && d in Ids(plan)
      ensures exists j :: 0 <= j < i && d in Ids(groups[j])
    {
      assert d in Elems(slices[i].deps);
      OuterDepIsEarlier(plan, groups, i, d);
    }
  }

  lemma {:induction false} FlatMember(groups: seq<seq<Node>>, n: Node)
    requires n in Flat(groups)
    ensures exists j :: 0 <= j < |groups| && n in groups[j]
  {
    if n !in groups[0] {
      FlatMember(groups[1..], n);
      var j :| 0 <= j < |groups[1..]| && n in groups[1..][j];
      assert n in groups[j + 1];
    }
  }

  lemma {:induction false} FlatParts(groups: seq<seq<Node>>, i: nat)
    requires i < |groups|
    ensures Flat(groups) == Flat(groups[..i]) + groups[i] + Flat(groups[i + 1..])
  {
    if i == 0 {
      assert groups[..0] == [];
    } else {
      FlatParts(groups[1..], i - 1);
      assert groups[1..][..i - 1] == groups[..i][1..] && groups[1..][i..] == groups[i + 1..];
      assert groups[..i][0] == groups[0];
    }
  }

  /** In the grouped order every in-plan dependency from outside a group comes in an earlier
      group. */
  lemma {:induction false} OuterDepIsEarlier(plan: Plan, groups: seq<seq<Node>>, i: nat, d: Id)
    requires TopologicalNodes(plan, Flat(groups)) && i < |groups|
    requires d in OuterDeps(groups[i]) && d in Ids(plan)
    ensures exists j :: 0 <= j < i && d in Ids(groups[j])
  {
    var g, flat, before := groups[i], Flat(groups), Flat(groups[..i]);
    FlatParts(groups, i);
    var n :| n in g && d in n.deps && d !in Ids(g);
    var q :| 0 <= q < |g| && g[q] == n;
    var p := |before| + q;
    assert flat[p] == n && IdsOf(flat)[p] == n.id;
    LastNodeIn(plan, n.id);
    assert Edge(plan, d, IdsOf(flat)[p]);
    assert d in IdsOf(flat)[..p];
    var m :| 0 <= m < p && IdsOf(flat)[m] == d;
    assert flat[m].id == d;
    assert flat[m] == before[m];
    FlatMember(groups[..i], flat[m]);
    var j :| 0 <= j < i && flat[m] in groups[..i][j];
    assert groups[..i][j] == groups[j];
  }

  /** The entry point: a token budget other than zero groups, otherwise one slice per node. */
  method AssignTaskSlices(plan: Plan, tools: map<Id, seq<string>>, allowed: seq<string>, classes: map<Id, string>,
                          cost: Node -> nat, budget: int)
      returns (r: Result<seq<Slice>>)
    ensures r.Raised? <==> budget != 0 && Cyclic(plan)
    ensures r.Ok? && budget == 0 ==>
              && |r.value| == |plan| && SliceForEach(plan, r.value)
              && forall i :: 0 <= i < |plan| ==> IsNodeSlice(r.value[i], plan[i], tools, allowed, classes)
    ensures r.Ok? && budget != 0 ==>
              exists groups :: AreGrouped(plan, r.value, groups, tools, allowed, classes, cost, budget)
    ensures r.Ok? ==> forall s :: s in r.value ==> s.nodeId in Ids(plan)
    ensures r.Ok? ==> forall i, t :: 0 <= i < |r.value| && t in r.value[i].allowedTools ==> t in allowed
  {
    if budget != 0 {
      ghost var groups;
      r, groups := AssignGrouped(plan, tools, allowed, classes, cost, budget);
      if r.Ok? { GroupSlicesConform(plan, r.value, groups, tools, allowed, classes, cost, budget); }
    } else {
      var slices := AssignPerNode(plan, tools, allowed, classes);
      r := Ok(slices);
      forall s | s in slices
        ensures s.nodeId in Ids(plan)
      {
        var i :| 0 <= i < |slices| && slices[i] == s;
        assert plan[i] in plan;
      }
    }
  }

  /** Every slice of a group belongs to a node of the plan and holds allowed tools only. */
  lemma GroupSlicesConform(
    plan: Plan, slices: seq<Slice>, groups: seq<seq<Node>>, tools: map<Id, seq<string>>, allowed: seq<string>,
    classes: map<Id, string>, cost: Node -> nat, budget: int)
    requires TopologicalNodes(plan, Flat(groups))
    requires AreGroupSlices(slices, groups, tools, allowed, classes, cost, budget)
    ensures forall s :: s in slices ==> s.nodeId in Ids(plan)
    ensures forall i, t :: 0 <= i < |slices| && t in slices[i].allowedTools ==> t in allowed
  {
    forall i | 0 <= i < |slices|
      ensures slices[i].nodeId in Ids(plan)
      ensures forall t :: t in slices[i].allowedTools ==> t in allowed
    {
      assert IsGroupSlice(slices[i], i, groups[i], tools, allowed, classes, cost, budget);
      FlatParts(groups, i);
      var flat, p := Flat(groups), |Flat(groups[..i])|;
      assert flat[p] == groups[i][0];
      assert IdsOf(flat)[p] in Elems(IdsOf(flat));
    }
  }
}
