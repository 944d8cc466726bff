/** A plan of one node with one slice: the smallest inputs at which a promise is seen to fail. */
module OneNodePlan {
  import opened Sequences
  import opened TierContracts
  import opened PlanGraph
  import opened DagValidator
  import opened ReadyScheduler
  import opened TierDispatcher
  import opened OrchestrationLoop

  function Single(id: Id): Plan {
    [Node(id, "", [], "")]
  }

  function SingleSlice(id: Id): Slice {
    Slice("slice", id, "", [], 0, "slm", [], id)
  }

  function NoError(): (nat, string) -> string {
    (i, tool) => ""
  }

  /** Surroundings in which the slice succeeds, is retried, fails for good, or is blocked. */
  const ANSWERS := World(true, None, true, NoError(), 0)
  const FALTERS := World(true, Some(""), true, NoError(), 0)
  const REFUSES := World(false, None, false, NoError(), 0)
  const OFFERS_NOTHING := World(false, None, true, NoError(), 0)

  function SingleTurn(id: Id, w: World, clock: nat -> real, saveOk: bool, persist: bool): Turn {
    Turn(Single(id), [SingleSlice(id)], Env((k, s, c) => w, clock, k => saveOk), persist)
  }

  function Frozen(): nat -> real {
    (i: nat) => 0.0
  }

  lemma SinglePlan(id: Id)
    ensures Ids(Single(id)) == {id} && LastNode(Single(id), id).deps == []
    ensures Valid(Single(id)) && Sortable(Single(id)) && StableOrder(Single(id)) == [id]
  {
    var plan := Single(id);
    assert plan[0] in plan;
    forall w
      ensures !ClosedWalk(plan, w)
    {
      if |w| >= 2 { assert !Edge(plan, w[0], w[0 + 1]); }
    }
    SortableIffAcyclic(plan);
    var order := StableOrder(plan);
    assert Elems(order) == {id};
    NoDupSize(order);
    assert order[0] in Elems(order);
  }

  /** The slice is ready until its node is completed or has failed, and the gate lets it
      through. */
  lemma SingleReady(id: Id, c: Context)
    requires id !in c.completed && id !in c.failed
    ensures NextReady(Single(id), [SingleSlice(id)], c) == [SingleSlice(id)]
    ensures forall w :: Dispatch(w, Single(id), SingleSlice(id), c) == Execute(w, SingleSlice(id), c)
  {
    var plan, slices := Single(id), [SingleSlice(id)];
    SinglePlan(id);
    assert SliceFor(slices, id) == Some(slices[0]);
    assert Dispatchable(plan, slices, c, id);
    assert [id][1..] == [] && ReadyAlong(plan, slices, c, []) == [];
    assert ReadyAlong(plan, slices, c, [id]) == [slices[0]] + [];
    GateMeaning(slices[0], plan, c);
  }

  lemma SingleOutcome(id: Id, c: Context)
    ensures Execute(ANSWERS, SingleSlice(id), c).status == Success
    ensures Execute(FALTERS, SingleSlice(id), c).status ==
            if RetryCount(c, id) < c.maxRetries then RetryScheduled else Failed
    ensures Execute(REFUSES, SingleSlice(id), c).status == Failed
    ensures Execute(OFFERS_NOTHING, SingleSlice(id), c).status == Blocked
    ensures forall w :: Execute(w, SingleSlice(id), c).tokens == w.tokens
  {
    assert RetryPolicy.Lower("") == "";
  }
}
