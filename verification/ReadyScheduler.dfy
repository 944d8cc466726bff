/** Which slices may run next, and the readiness gate in front of a dispatch. */
module ReadyScheduler {
  import opened Sequences
  import opened TierContracts
  import opened PlanGraph
  import opened DagValidator

  /** The dictionary of slices by node id keeps the last slice for each node. */
  function SliceFor(slices: seq<Slice>, id: Id): Option<Slice> {
    if slices == [] then None
    else
      var last := slices[|slices| - 1];
      if last.nodeId == id then Some(last) else SliceFor(slices[..|slices| - 1], id)
  }

  lemma {:induction false} SliceForMeaning(slices: seq<Slice>, id: Id)
    ensures SliceFor(slices, id).Some? <==> exists s :: s in slices && s.nodeId == id
    ensures SliceFor(slices, id).Some? ==>
              SliceFor(slices, id).value in slices && SliceFor(slices, id).value.nodeId == id
  {
    if slices != [] {
      SliceForMeaning(slices[..|slices| - 1], id);
      assert slices == slices[..|slices| - 1] + [slices[|slices| - 1]];
    }
  }

  /** The last slice listed for a node is the one that counts. */
  lemma {:induction false} SliceForIsLast(slices: seq<Slice>, i: nat)
    requires i < |slices| && forall j :: i < j < |slices| ==> slices[j].nodeId != slices[i].nodeId
    ensures SliceFor(slices, slices[i].nodeId) == Some(slices[i])
    decreases |slices|
  {
    if i < |slices| - 1 {
      var front := slices[..|slices| - 1];
      assert forall j :: 0 <= j < |front| ==> front[j] == slices[j];
      SliceForIsLast(front, i);
    }
  }

  predicate Dispatchable(plan: Plan, slices: seq<Slice>, c: Context, id: Id) {
    NodeReady(plan, Elems(c.completed), id) && id !in c.failed && SliceFor(slices, id).Some?
  }

  function ReadyAlong(plan: Plan, slices: seq<Slice>, c: Context, order: seq<Id>): seq<Slice> {
    if order == [] then []
    else
      (if Dispatchable(plan, slices, c, order[0]) then [SliceFor(slices, order[0]).value] else [])
      + ReadyAlong(plan, slices, c, order[1..])
  }

  ghost function NextReady(plan: Plan, slices: seq<Slice>, c: Context): seq<Slice> {
    ReadyAlong(plan, slices, c, StableOrder(plan))
  }

  lemma {:induction false} ReadyAlongHead(plan: Plan, slices: seq<Slice>, c: Context, order: seq<Id>, k: nat)
    requires k < |order| && Dispatchable(plan, slices, c, order[k])
    requires forall i :: 0 <= i < k ==> !Dispatchable(plan, slices, c, order[i])
    ensures ReadyAlong(plan, slices, c, order) != []
    ensures ReadyAlong(plan, slices, c, order)[0] == SliceFor(slices, order[k]).value
  {
    if k > 0 { ReadyAlongHead(plan, slices, c, order[1..], k - 1); }
  }

  lemma {:induction false} ReadyAlongFirst(plan: Plan, slices: seq<Slice>, c: Context, order: seq<Id>) returns (k: nat)
    ensures k <= |order| && forall i :: 0 <= i < k ==> !Dispatchable(plan, slices, c, order[i])
    ensures k < |order| <==> ReadyAlong(plan, slices, c, order) != []
    ensures k < |order| ==> Dispatchable(plan, slices, c, order[k])
                            && ReadyAlong(plan, slices, c, order)[0] == SliceFor(slices, order[k]).value
  {
    if order == [] || Dispatchable(plan, slices, c, order[0]) {
      k := 0;
    } else {
      var j := ReadyAlongFirst(plan, slices, c, order[1..]);
      k := j + 1;
      assert forall i :: 0 <= i < j ==> order[1..][i] == order[i + 1];
    }
  }

  /** The head of the ready list belongs to the first dispatchable node of the stable order;
      the list is empty exactly when no plan node is dispatchable. */
  lemma NextReadyHead(plan: Plan, slices: seq<Slice>, c: Context)
    requires Sortable(plan)
    ensures NextReady(plan, slices, c) == [] <==> forall id :: !Dispatchable(plan, slices, c, id)
    ensures NextReady(plan, slices, c) != [] ==>
              var s := NextReady(plan, slices, c)[0];
              s in slices && Dispatchable(plan, slices, c, s.nodeId) && SliceFor(slices, s.nodeId) == Some(s)
  {
    var order := StableOrder(plan);
    SortableIffAcyclic(plan);
    var k := ReadyAlongFirst(plan, slices, c, order);
    if k < |order| {
      SliceForMeaning(slices, order[k]);
    } else {
      forall id
        ensures !Dispatchable(plan, slices, c, id)
      {
        assert id in Ids(plan) <==> id in Elems(order);
      }
    }
  }

  function CanDispatch(plan: Plan, slices: seq<Slice>, c: Context): Id -> bool {
    (id: Id) => Dispatchable(plan, slices, c, id)
  }

  /** The ready list runs through the dispatchable ids of the order, each with its slice. */
  lemma {:induction false} ReadyAlongIds(plan: Plan, slices: seq<Slice>, c: Context, order: seq<Id>)
    ensures var out, ids := ReadyAlong(plan, slices, c, order), Filter(order, CanDispatch(plan, slices, c));
      |out| == |ids| && forall i :: 0 <= i < |ids| ==> SliceFor(slices, ids[i]) == Some(out[i])
  {
    if order != [] {
      ReadyAlongIds(plan, slices, c, order[1..]);
      assert order == [order[0]] + order[1..];
      FilterConcat([order[0]], order[1..], CanDispatch(plan, slices, c));
      FilterSnoc([], order[0], CanDispatch(plan, slices, c));
      assert [] + [order[0]] == [order[0]];
    }
  }

  lemma ReadyAlongAt(plan: Plan, slices: seq<Slice>, c: Context, order: seq<Id>, i: nat)
    requires i < |order|
    ensures ReadyAlong(plan, slices, c, order[i..]) ==
            (if Dispatchable(plan, slices, c, order[i]) then [SliceFor(slices, order[i]).value] else [])
            + ReadyAlong(plan, slices, c, order[i + 1..])
  {
    assert order[i..][1..] == order[i + 1..];
  }

  method NextReadySlices(plan: Plan, slices: seq<Slice>, c: Context) returns (r: Result<seq<Slice>>)
    ensures r.Raised? <==> !Sortable(plan)
    ensures r.Ok? ==> r.value == NextReady(plan, slices, c)
    ensures r.Ok? ==>
              var ids := Filter(StableOrder(plan), CanDispatch(plan, slices, c));
              |r.value| == |ids| && forall i :: 0 <= i < |ids| ==> SliceFor(slices, ids[i]) == Some(r.value[i])
  {
    ReadyAlongIds(plan, slices, c, StableOrder(plan));
    var completed := Elems(c.completed);
    var failed := Elems(c.failed);
    var readyIds := ReadyNodeIds(plan, completed);
    if readyIds.Raised? { return Raised; }
    var sliceByNode := SlicesByNode(slices);
    var sorted := StableTopologicalSort(plan);
    var nodes := sorted.value;
    ghost var order := StableOrder(plan);
    var ordered: seq<Slice> := [];
    for i := 0 to |nodes|
      invariant ordered + ReadyAlong(plan, slices, c, order[i..]) == NextReady(plan, slices, c)
    {
      ReadyAlongAt(plan, slices, c, order, i);
      LastNodeIn(plan, order[i]);
      ghost var next := if Dispatchable(plan, slices, c, order[i]) then [SliceFor(slices, order[i]).value] else [];
      MoveOver(ordered, next, ReadyAlong(plan, slices, c, order[i + 1..]));
      var id := nodes[i].id;
      if !(id in completed || id in failed) && id in readyIds.value && id in sliceByNode {
        ordered := ordered + [sliceByNode[id]];
      }
    }
    r := Ok(ordered);
  }

  method SlicesByNode(slices: seq<Slice>) returns (m: map<Id, Slice>)
    ensures forall id :: id in m <==> SliceFor(slices, id).Some?
    ensures forall id :: id in m ==> Some(m[id]) == SliceFor(slices, id)
  {
    m := map[];
    for i := 0 to |slices|
      invariant forall id :: id in m <==> SliceFor(slices[..i], id).Some?
      invariant forall id :: id in m ==> Some(m[id]) == SliceFor(slices[..i], id)
    {
      assert slices[..i + 1][..i] == slices[..i];
      m := m[slices[i].nodeId := slices[i]];
    }
    assert slices[..|slices|] == slices;
  }

  // ------------------------------------------------------ the readiness gate

  datatype ReadyError =
    | UnknownSliceNode
    | AlreadyCompleted
    | FailedNodeBlocked
    | DependencyNotReady(dep: Id)

  function Missing(deps: seq<Id>, completed: set<Id>): seq<ReadyError> {
    if deps == [] then []
    else
      var dep := deps[|deps| - 1];
      Missing(deps[..|deps| - 1], completed) + if dep !in completed then [DependencyNotReady(dep)] else []
  }

  lemma {:induction false} MissingNone(deps: seq<Id>, completed: set<Id>)
    ensures Missing(deps, completed) == [] <==> forall d :: d in deps ==> d in completed
  {
    if deps != [] {
      MissingNone(deps[..|deps| - 1], completed);
      assert deps == deps[..|deps| - 1] + [deps[|deps| - 1]];
    }
  }

  /** The gate's report on a sortable plan. An unready node is reported through the slice's
      own dependency list, not the node's. */
  function SliceErrors(s: Slice, plan: Plan, c: Context): seq<ReadyError> {
    if s.nodeId !in Ids(plan) then [UnknownSliceNode]
    else
      (if s.nodeId in c.completed then [AlreadyCompleted] else [])
      + (if s.nodeId in c.failed then [FailedNodeBlocked] else [])
      + (if !NodeReady(plan, Elems(c.completed), s.nodeId) then Missing(s.deps, Elems(c.completed)) else [])
  }

  method IsNodeReady(id: Id, plan: Plan, c: Context) returns (r: Result<bool>)
    ensures r.Raised? <==> !Sortable(plan)
    ensures r.Ok? ==> r.value == NodeReady(plan, Elems(c.completed), id)
  {
    var ready := ReadyNodeIds(plan, Elems(c.completed));
    if ready.Raised? { return Raised; }
    r := Ok(id in ready.value);
  }

  lemma MissingAt(deps: seq<Id>, completed: set<Id>, i: nat)
    requires i < |deps|
    ensures Missing(deps[..i + 1], completed) ==
            Missing(deps[..i], completed) + if deps[i] !in completed then [DependencyNotReady(deps[i])] else []
  {
    assert deps[..i + 1][..i] == deps[..i];
  }

  method MissingDeps(deps: seq<Id>, completed: set<Id>) returns (errors: seq<ReadyError>)
    ensures errors == Missing(deps, completed)
  {
    errors := [];
    for i := 0 to |deps|
      invariant errors == Missing(deps[..i], completed)
    {
      MissingAt(deps, completed, i);
      if deps[i] !in completed {
        errors := errors + [DependencyNotReady(deps[i])];
      }
    }
    assert deps[..|deps|] == deps;
  }

  method ValidateSliceReady(s: Slice, plan: Plan, c: Context) returns (r: Result<seq<ReadyError>>)
    ensures r.Raised? <==> s.nodeId in Ids(plan) && !Sortable(plan)
    ensures r.Ok? ==> r.value == SliceErrors(s, plan, c)
  {
    if s.nodeId !in Ids(plan) {
      return Ok([UnknownSliceNode]);
    }
    var errors: seq<ReadyError> := [];
    if s.nodeId in c.completed {
      errors := errors + [AlreadyCompleted];
    }
    if s.nodeId in c.failed {
      errors := errors + [FailedNodeBlocked];
    }
    var ready := IsNodeReady(s.nodeId, plan, c);
    if ready.Raised? { return Raised; }
    if !ready.value {
      var missing := MissingDeps(s.deps, Elems(c.completed));
      errors := errors + missing;
    }
    r := Ok(errors);
  }

  lemma {:induction false} MissingMembers(deps: seq<Id>, completed: set<Id>)
    ensures forall d :: DependencyNotReady(d) in Missing(deps, completed) <==> d in deps && d !in completed
    ensures forall e :: e in Missing(deps, completed) ==> e.DependencyNotReady?
  {
    if deps != [] {
      MissingMembers(deps[..|deps| - 1], completed);
      assert deps == deps[..|deps| - 1] + [deps[|deps| - 1]];
    }
  }

  /** When the gate's report holds each kind of entry. */
  lemma GateReports(s: Slice, plan: Plan, c: Context)
    ensures var errors := SliceErrors(s, plan, c);
      && (UnknownSliceNode in errors <==> s.nodeId !in Ids(plan))
      && (AlreadyCompleted in errors <==> s.nodeId in Ids(plan) && s.nodeId in c.completed)
      && (FailedNodeBlocked in errors <==> s.nodeId in Ids(plan) && s.nodeId in c.failed)
      && forall d :: DependencyNotReady(d) in errors <==>
             && s.nodeId in Ids(plan) && d in s.deps && d !in c.completed
             && (s.nodeId in c.completed || exists e :: e in LastNode(plan, s.nodeId).deps && e !in c.completed)
  {
    MissingMembers(s.deps, Elems(c.completed));
  }

  /** The gate lets a slice through exactly when its node is in the plan, neither completed
      nor failed, and either the node's or the slice's own dependencies are all completed. */
  lemma GateMeaning(s: Slice, plan: Plan, c: Context)
    ensures SliceErrors(s, plan, c) == [] <==>
            && s.nodeId in Ids(plan) && s.nodeId !in c.completed && s.nodeId !in c.failed
            && (NodeReady(plan, Elems(c.completed), s.nodeId) || forall d :: d in s.deps ==> d in c.completed)
  {
    MissingNone(s.deps, Elems(c.completed));
  }

  /** The gate only ever lets ready nodes through exactly for slices that list all the
      dependencies of their node (or, pointlessly, the node itself). */
  lemma GateSoundIff(s: Slice, plan: Plan)
    requires s.nodeId in Ids(plan)
    ensures (forall c: Context :: SliceErrors(s, plan, c) == [] ==>
              NodeReady(plan, Elems(c.completed), s.nodeId))
            <==> s.nodeId in s.deps || forall d :: d in LastNode(plan, s.nodeId).deps ==> d in s.deps
  {
    if s.nodeId !in s.deps && exists d :: d in LastNode(plan, s.nodeId).deps && d !in s.deps {
      var d :| d in LastNode(plan, s.nodeId).deps && d !in s.deps;
      var c := EMPTY_CONTEXT.(completed := s.deps);
      GateMeaning(s, plan, c);
      assert d !in Elems(c.completed);
      assert !NodeReady(plan, Elems(c.completed), s.nodeId);
    } else {
      forall c: Context | SliceErrors(s, plan, c) == []
        ensures NodeReady(plan, Elems(c.completed), s.nodeId)
      {
        GateMeaning(s, plan, c);
      }
    }
  }
}
