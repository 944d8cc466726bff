/** What every run keeps: safety, failure containment and the measure that bounds the work,
    over chains of dispatches. */
module RunTheory {
  import opened Sequences
  import opened TierContracts
  import opened PlanGraph
  import opened DagValidator
  import opened ReadyScheduler
  import opened TierDispatcher
  import opened TurnBudget
  import opened OrchestrationLoop

  /** A dispatch the loop can make: of a ready, unfailed node, updating the context. */
  ghost predicate LegalStep(plan: Plan, e: Event) {
    var id, r := e.slice.nodeId, ResultOf(plan, e);
    && Sortable(plan) && NodeReady(plan, Elems(e.before.completed), id) && id !in e.before.failed
    && e.after == Updated(e.before, id, r.status, r.retryable)
  }

  /** Dispatches leading from `c0` to `c`, each starting where the one before ended. */
  ghost predicate Chain(plan: Plan, c0: Context, trace: seq<Event>, c: Context) {
    if trace == [] then c == c0
    else
      var last := trace[|trace| - 1];
      LegalStep(plan, last) && last.after == c && Chain(plan, c0, trace[..|trace| - 1], last.before)
  }

  lemma ChainSnoc(plan: Plan, c0: Context, trace: seq<Event>, last: Event)
    requires Chain(plan, c0, trace, last.before) && LegalStep(plan, last)
    ensures Chain(plan, c0, trace + [last], last.after)
  {
    assert (trace + [last])[..|trace|] == trace;
  }

  lemma {:induction false} ChainJoin(plan: Plan, c0: Context, a: seq<Event>, c1: Context, b: seq<Event>, c2: Context)
    requires Chain(plan, c0, a, c1) && Chain(plan, c1, b, c2)
    ensures Chain(plan, c0, a + b, c2)
  {
    if b == [] {
      assert a + b == a;
    } else {
      var front, last := b[..|b| - 1], b[|b| - 1];
      ChainJoin(plan, c0, a, c1, front, last.before);
      ChainSnoc(plan, c0, a + front, last);
      Regroup(a, b);
    }
  }

  lemma ChainOne(plan: Plan, e: Event)
    requires LegalStep(plan, e)
    ensures Chain(plan, e.before, [e], e.after)
  {
    assert [e][..0] == [];
  }

  // ------------------------------------------------------- the loop is a chain

  lemma NextEventLegal(t: Turn, c: Context, b: Budget, k: nat)
    requires StopBefore(t, c, b, k).None?
    ensures LegalStep(t.plan, NextEvent(t, c, k)) && NextEvent(t, c, k).before == c
    ensures NextEvent(t, c, k).slice in t.slices
  {
    NextReadyHead(t.plan, t.slices, c);
  }

  lemma {:induction false} RunLoopIsChain(t: Turn, c: Context, b: Budget, k: nat)
    ensures Chain(t.plan, c, RunLoop(t, c, b, k).trace, RunLoop(t, c, b, k).context)
    decreases b.maxSlices - b.executed
  {
    if StopBefore(t, c, b, k).None? {
      var e := NextEvent(t, c, k);
      NextEventLegal(t, c, b, k);
      RunStep(t, c, b, k, e);
      ChainOne(t.plan, e);
      if StopAfter(t, e, k).None? {
        var b' := BudgetAfter(t, e, b, k);
        RunLoopIsChain(t, e.after, b', k + 1);
        var rest := RunLoop(t, e.after, b', k + 1);
        ChainJoin(t.plan, c, [e], e.after, rest.trace, rest.context);
      }
    }
  }

  /** Every context the loop meets lets each dispatched slice through the readiness gate, so
      a dispatch is only ever blocked for want of a registered tool. */
  lemma GateNeverFires(t: Turn, c: Context, b: Budget, k: nat)
    requires StopBefore(t, c, b, k).None?
    ensures SliceErrors(NextEvent(t, c, k).slice, t.plan, c) == []
    ensures ResultOf(t.plan, NextEvent(t, c, k)) == Execute(NextEvent(t, c, k).world, NextEvent(t, c, k).slice, c)
  {
    NextEventLegal(t, c, b, k);
    GateMeaning(NextEvent(t, c, k).slice, t.plan, c);
  }

  // -------------------------------------------------------------------- safety

  ghost predicate Closed(plan: Plan, completed: seq<Id>) {
    forall id, d :: id in completed && DependsOn(plan, id, d) ==> d in completed
  }

  ghost predicate Sound(plan: Plan, c: Context) {
    && NoDup(c.completed) && Closed(plan, c.completed)
    && forall id :: id in c.completed ==> id !in c.failed
  }

  /** From position `n` on, each completed node is a plan node listed after all of its
      dependencies. */
  ghost predicate InOrderFrom(plan: Plan, completed: seq<Id>, n: nat) {
    forall i :: n <= i < |completed| ==>
      completed[i] in Ids(plan) && forall d :: DependsOn(plan, completed[i], d) ==> d in completed[..i]
  }

  /** A legal step appends its node to the completed list or leaves that list alone, and
      failed nodes stay failed. */
  lemma StepShape(plan: Plan, e: Event)
    requires LegalStep(plan, e)
    ensures var id, old', new' := e.slice.nodeId, e.before.completed, e.after.completed;
      && id in Ids(plan) && id !in old' && (forall d :: DependsOn(plan, id, d) ==> d in old')
      && (new' == old' || (new' == old' + [id] && id !in e.after.failed))
      && (forall x :: x in e.after.failed && x != id ==> x in e.before.failed)
      && (forall f :: f in e.before.failed ==> f in e.after.failed)
  {
    var id := e.slice.nodeId;
    FilterMembers(e.before.failed, Except(id));
    assert id !in Elems(e.before.completed) && forall d :: DependsOn(plan, id, d) ==> d in Elems(e.before.completed);
  }

  lemma InOrderSnoc(plan: Plan, completed: seq<Id>, id: Id, n: nat)
    requires n <= |completed| && InOrderFrom(plan, completed, n)
    requires id in Ids(plan) && forall d :: DependsOn(plan, id, d) ==> d in completed
    ensures InOrderFrom(plan, completed + [id], n)
  {
    var longer := completed + [id];
    forall i | n <= i < |longer|
      ensures longer[i] in Ids(plan) && forall d :: DependsOn(plan, longer[i], d) ==> d in longer[..i]
    {
      assert longer[..i] == completed[..i];
    }
  }

  lemma StepIsSafe(plan: Plan, e: Event, n: nat)
    requires LegalStep(plan, e) && Sound(plan, e.before)
    requires n <= |e.before.completed| && InOrderFrom(plan, e.before.completed, n)
    ensures Sound(plan, e.after) && InOrderFrom(plan, e.after.completed, n)
    ensures e.before.completed <= e.after.completed
    ensures forall f :: f in e.before.failed ==> f in e.after.failed
  {
    StepShape(plan, e);
    NoDupSnoc(e.before.completed, e.slice.nodeId);
    InOrderSnoc(plan, e.before.completed, e.slice.nodeId, n);
  }

  /** Run safety: every reachable context is sound, the completed list only grows at its end,
      and every node that was added comes after all of its dependencies. */
  lemma {:induction false} RunIsSafe(plan: Plan, c0: Context, trace: seq<Event>, c: Context)
    requires Chain(plan, c0, trace, c) && Sound(plan, c0)
    ensures Sound(plan, c) && c0.completed <= c.completed
    ensures InOrderFrom(plan, c.completed, |c0.completed|)
    ensures forall f :: f in c0.failed ==> f in c.failed
  {
    if trace != [] {
      var last := trace[|trace| - 1];
      RunIsSafe(plan, c0, trace[..|trace| - 1], last.before);
      StepIsSafe(plan, last, |c0.completed|);
    }
  }

  lemma {:induction false} ClosedBackwards(plan: Plan, c: Context, w: seq<Id>)
    requires Closed(plan, c.completed) && Dependents(plan, w) && w[|w| - 1] in c.completed
    ensures w[0] in c.completed
  {
    if |w| > 1 {
      assert DependsOn(plan, w[|w| - 2 + 1], w[|w| - 2]);
      ClosedBackwards(plan, c, w[..|w| - 1]);
    }
  }

  lemma {:induction false} FailedNeverDispatched(plan: Plan, c0: Context, trace: seq<Event>, c: Context, f: Id)
    requires Chain(plan, c0, trace, c) && Sound(plan, c0) && f in c0.failed
    ensures forall e :: e in trace ==> e.slice.nodeId != f
  {
    if trace != [] {
      var front, last := trace[..|trace| - 1], trace[|trace| - 1];
      assert trace == front + [last];
      FailedNeverDispatched(plan, c0, front, last.before, f);
      RunIsSafe(plan, c0, front, last.before);
    }
  }

  /** Failure containment: a failed node is never dispatched again, and neither it nor any
      transitive dependent of it is ever completed. */
  lemma FailureIsContained(plan: Plan, c0: Context, trace: seq<Event>, c: Context, f: Id)
    requires Chain(plan, c0, trace, c) && Sound(plan, c0) && f in c0.failed
    ensures f in c.failed
    ensures forall e :: e in trace ==> e.slice.nodeId != f
    ensures forall w :: Dependents(plan, w) && w[0] == f ==> w[|w| - 1] !in c.completed
  {
    RunIsSafe(plan, c0, trace, c);
    FailedNeverDispatched(plan, c0, trace, c, f);
    forall w | Dependents(plan, w) && w[0] == f
      ensures w[|w| - 1] !in c.completed
    {
      if w[|w| - 1] in c.completed {
        ClosedBackwards(plan, c, w);
      }
    }
  }

  // --------------------------------------------------------------- termination

  /** How many more effective dispatches of a node a context still allows. */
  function Weight(c: Context, id: Id): nat {
    if id in c.completed || id in c.failed then 0 else Max(1, c.maxRetries + 1 - RetryCount(c, id))
  }

  function Total(order: seq<Id>, c: Context): nat {
    if order == [] then 0 else Weight(c, order[0]) + Total(order[1..], c)
  }

  predicate NotBlocked(s: Status) {
    s == Success || s == RetryScheduled || s == Failed
  }

  lemma {:induction false} TotalSame(order: seq<Id>, c: Context, c': Context)
    requires forall x :: x in order ==> Weight(c, x) == Weight(c', x)
    ensures Total(order, c) == Total(order, c')
  {
    if order != [] { TotalSame(order[1..], c, c'); }
  }

  lemma {:induction false} TotalFalls(order: seq<Id>, c: Context, c': Context, id: Id)
    requires NoDup(order) && id in order && Weight(c', id) < Weight(c, id)
    requires forall x :: x in order && x != id ==> Weight(c, x) == Weight(c', x)
    ensures Total(order, c') < Total(order, c)
  {
    if order[0] == id {
      assert id !in order[1..];
      TotalSame(order[1..], c, c');
    } else {
      assert NoDup(order[1..]);
      TotalFalls(order[1..], c, c', id);
    }
  }

  lemma WeightsAfter(plan: Plan, e: Event, x: Id)
    requires LegalStep(plan, e)
    ensures x != e.slice.nodeId ==> Weight(e.after, x) == Weight(e.before, x)
    ensures NotBlocked(ResultOf(plan, e).status) && e.slice.nodeId != "" ==>
              Weight(e.after, e.slice.nodeId) < Weight(e.before, e.slice.nodeId)
  {
    var id := e.slice.nodeId;
    ResultShape(e.world, plan, e.slice, e.before);
    FilterMembers(e.before.failed, Except(id));
    assert id !in Elems(e.before.completed);
  }

  /** The measure falls on exactly the dispatches that are not blocked and whose node id is
      not empty; every other dispatch leaves the context as it was. */
  lemma StepMeasure(plan: Plan, e: Event)
    requires LegalStep(plan, e)
    ensures Total(StableOrder(plan), e.after) < Total(StableOrder(plan), e.before)
            <==> NotBlocked(ResultOf(plan, e).status) && e.slice.nodeId != ""
    ensures !(NotBlocked(ResultOf(plan, e).status) && e.slice.nodeId != "") ==> e.after == e.before
  {
    var order, id := StableOrder(plan), e.slice.nodeId;
    SortableIffAcyclic(plan);
    assert id in Elems(order);
    ResultShape(e.world, plan, e.slice, e.before);
    forall x { WeightsAfter(plan, e, x); }
    if NotBlocked(ResultOf(plan, e).status) && id != "" {
      TotalFalls(order, e.before, e.after, id);
    }
  }

  /** The dispatches that change the context. */
  ghost function Effective(plan: Plan): Event -> bool {
    (e: Event) => NotBlocked(ResultOf(plan, e).status) && e.slice.nodeId != ""
  }

  ghost function EffectiveCount(plan: Plan, trace: seq<Event>): nat {
    |Filter(trace, Effective(plan))|
  }

  ghost predicate RetriesWithin(c: Context) {
    forall id :: id in c.retries ==> 0 <= c.retries[id] <= c.maxRetries
  }

  lemma {:induction false} TotalBound(order: seq<Id>, c: Context)
    requires forall id :: id in c.retries ==> 0 <= c.retries[id]
    ensures Total(order, c) <= |order| * (Max(0, c.maxRetries) + 1)
  {
    if order != [] {
      TotalBound(order[1..], c);
      assert Weight(c, order[0]) <= Max(0, c.maxRetries) + 1;
      assert |order| * (Max(0, c.maxRetries) + 1) ==
             |order[1..]| * (Max(0, c.maxRetries) + 1) + (Max(0, c.maxRetries) + 1);
    }
  }

  lemma {:induction false} ChainMeasure(plan: Plan, c0: Context, trace: seq<Event>, c: Context)
    requires Chain(plan, c0, trace, c)
    ensures EffectiveCount(plan, trace) + Total(StableOrder(plan), c) <= Total(StableOrder(plan), c0)
    ensures c.maxRetries == c0.maxRetries
    ensures RetriesWithin(c0) ==> RetriesWithin(c)
  {
    if trace != [] {
      var last := trace[|trace| - 1];
      ChainMeasure(plan, c0, trace[..|trace| - 1], last.before);
      StepMeasure(plan, last);
      ResultShape(last.world, plan, last.slice, last.before);
    }
  }

  /** Cross-turn termination: over any chain, whatever the dispatcher answers, the effective
      dispatches number at most nodes times (retries + 1), and no count passes the limit. */
  lemma WorkIsBounded(plan: Plan, c0: Context, trace: seq<Event>, c: Context)
    requires Chain(plan, c0, trace, c) && RetriesWithin(c0)
    ensures EffectiveCount(plan, trace) <= |Ids(plan)| * (Max(0, c0.maxRetries) + 1)
    ensures RetriesWithin(c)
  {
    if trace != [] {
      ChainMeasure(plan, c0, trace, c);
      TotalBound(StableOrder(plan), c0);
    }
  }
}
