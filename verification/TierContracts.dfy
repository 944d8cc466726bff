/** The data exchanged by the tiers: plan nodes, task slices and the execution context. */
module TierContracts {

  type Id = string

  datatype Node = Node(id: Id, description: string, deps: seq<Id>, parent: Id)

  type Plan = seq<Node>

  datatype Slice = Slice(
    sliceId: string,
    nodeId: Id,
    description: string,
    allowedTools: seq<string>,
    budgetTokens: int,
    modelClass: string,
    deps: seq<Id>,
    parent: Id)

  /** The serialised execution context, the value checkpoints hold. */
  datatype Context = Context(
    completed: seq<Id>,
    failed: seq<Id>,
    retries: map<Id, int>,
    maxRetries: int,
    baseBackoff: real,
    maxBackoff: real)

  /** A fresh context, as read from an empty payload. */
  const EMPTY_CONTEXT := Context([], [], map[], 2, 1.0, 30.0)

  function RetryCount(c: Context, id: Id): int {
    if id in c.retries then c.retries[id] else 0
  }

  function Ids(plan: Plan): set<Id> {
    set n | n in plan :: n.id
  }

  /** The node a dictionary keyed by id ends up with: the last one written. */
  function LastNode(plan: Plan, id: Id): Node
    requires id in Ids(plan)
  {
    if plan[|plan| - 1].id == id then plan[|plan| - 1] else LastNode(plan[..|plan| - 1], id)
  }

  lemma LastNodeOfPrefix(plan: Plan, i: nat, id: Id)
    requires i < |plan|
    ensures Ids(plan[..i + 1]) == Ids(plan[..i]) + {plan[i].id}
    ensures id in Ids(plan[..i + 1]) ==>
              LastNode(plan[..i + 1], id) == if plan[i].id == id then plan[i] else LastNode(plan[..i], id)
  {
    assert plan[..i + 1] == plan[..i] + [plan[i]];
    assert plan[..i + 1][..i] == plan[..i];
  }

  lemma {:induction false} LastNodeIn(plan: Plan, id: Id)
    requires id in Ids(plan)
    ensures LastNode(plan, id) in plan && LastNode(plan, id).id == id
  {
    if plan[|plan| - 1].id != id {
      LastNodeIn(plan[..|plan| - 1], id);
    }
  }

  ghost predicate UniqueIds(plan: Plan) {
    forall i, j :: 0 <= i < j < |plan| ==> plan[i].id != plan[j].id
  }

  lemma LastNodeUnique(plan: Plan, n: Node)
    requires UniqueIds(plan) && n in plan
    ensures LastNode(plan, n.id) == n
  {
    LastNodeIn(plan, n.id);
  }

  /** The last node listed with an id is the one that counts. */
  lemma {:induction false} LastNodeIsLast(plan: Plan, i: nat)
    requires i < |plan| && forall j :: i < j < |plan| ==> plan[j].id != plan[i].id
    ensures plan[i].id in Ids(plan) && LastNode(plan, plan[i].id) == plan[i]
    decreases |plan|
  {
    if i < |plan| - 1 {
      var front := plan[..|plan| - 1];
      assert forall j :: 0 <= j < |front| ==> front[j] == plan[j];
      LastNodeIsLast(front, i);
    }
  }
}
