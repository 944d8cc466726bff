/** Deadlock freedom, and what a run of successes completes. */
module Liveness {
  import opened Sequences
  import opened TierContracts
  import opened PlanGraph
  import opened DagValidator
  import opened ReadyScheduler
  import opened TierDispatcher
  import opened TurnBudget
  import opened OrchestrationLoop
  import opened RunTheory
  import opened OneNodePlan

  ghost predicate SliceForEach(plan: Plan, slices: seq<Slice>) {
    forall id :: id in Ids(plan) ==> SliceFor(slices, id).Some?
  }

  /** In a valid plan every dependency of the j-th node of the stable order is among the
      first j. */
  lemma DependenciesPrecede(plan: Plan, j: nat, d: Id)
    requires Valid(plan) && j < |StableOrder(plan)|
    requires StableOrder(plan)[j] in Ids(plan) && d in LastNode(plan, StableOrder(plan)[j]).deps
    ensures d in StableOrder(plan)[..j]
  {
    SortableIffAcyclic(plan);
    var id := StableOrder(plan)[j];
    LastNodeIn(plan, id);
    assert Edge(plan, d, id);
  }

  /** The first node of the stable order that is not completed is dispatchable unless it has
      failed. */
  lemma FirstOpenIsDispatchable(plan: Plan, slices: seq<Slice>, c: Context, j: nat)
    requires Valid(plan) && SliceForEach(plan, slices) && j < |StableOrder(plan)|
    requires StableOrder(plan)[j] !in c.completed && StableOrder(plan)[j] !in c.failed
    requires forall i :: 0 <= i < j ==> StableOrder(plan)[i] in c.completed
    ensures Dispatchable(plan, slices, c, StableOrder(plan)[j])
  {
    SortableIffAcyclic(plan);
    var order := StableOrder(plan);
    assert order[j] in Elems(order);
    forall d | d in LastNode(plan, order[j]).deps
      ensures d in Elems(c.completed)
    {
      DependenciesPrecede(plan, j, d);
    }
  }

  lemma {:induction false} FirstMissing(order: seq<Id>, completed: seq<Id>, n: nat) returns (j: nat)
    requires n <= |order| && exists i :: n <= i < |order| && order[i] !in completed
    requires forall i :: 0 <= i < n ==> order[i] in completed
    ensures j < |order| && order[j] !in completed && forall i :: 0 <= i < j ==> order[i] in completed
    decreases |order| - n
  {
    if order[n] !in completed { j := n; } else { j := FirstMissing(order, completed, n + 1); }
  }

  /** Deadlock freedom: a valid plan with a slice for each node and no failed node is either
      complete or has a ready slice. */
  lemma NoDeadlock(plan: Plan, slices: seq<Slice>, c: Context)
    requires Valid(plan) && SliceForEach(plan, slices) && c.failed == []
    ensures NextReady(plan, slices, c) == [] <==> Ids(plan) <= Elems(c.completed)
  {
    SortableIffAcyclic(plan);
    var order := StableOrder(plan);
    NextReadyHead(plan, slices, c);
    if !(Ids(plan) <= Elems(c.completed)) {
      var id :| id in Ids(plan) && id !in Elems(c.completed);
      assert id in Elems(order);
      var i :| 0 <= i < |order| && order[i] == id;
      var j := FirstMissing(order, c.completed, 0);
      FirstOpenIsDispatchable(plan, slices, c, j);
    }
  }

  /** On a valid plan with a slice for each node, a turn halts with no_ready_slices only if
      the plan is empty. */
  lemma {:induction false} NeverStarved(t: Turn, c: Context, b: Budget, k: nat)
    requires Valid(t.plan) && SliceForEach(t.plan, t.slices)
    ensures RunLoop(t, c, b, k).stop.halt == NoReadySlices ==> t.plan == []
    decreases b.maxSlices - b.executed
  {
    if StopBefore(t, c, b, k).None? {
      var e := NextEvent(t, c, k);
      RunStep(t, c, b, k, e);
      if StopAfter(t, e, k).None? {
        NeverStarved(t, e.after, BudgetAfter(t, e, b, k), k + 1);
      }
    } else if c.failed == [] {
      NoDeadlock(t.plan, t.slices, c);
      if t.plan != [] { assert t.plan[0].id in Ids(t.plan); }
    }
  }

  // ---------------------------------------------------------- runs of successes

  ghost predicate AlwaysSucceeds(t: Turn) {
    forall k, s, c :: s in t.slices ==> Execute(t.env.world(k, s, c), s, c).status == Success
  }

  ghost predicate SavesWork(t: Turn) {
    forall k :: !SaveFails(t, k)
  }

  predicate Unlimited(b: Budget) {
    b.maxTokens <= 0 && b.maxTime <= 0.0
  }

  lemma HeadIsNth(plan: Plan, slices: seq<Slice>, c: Context, j: nat)
    requires Valid(plan) && SliceForEach(plan, slices) && j < |StableOrder(plan)|
    requires c.completed == StableOrder(plan)[..j] && c.failed == []
    ensures NextReady(plan, slices, c) != []
    ensures var s := NextReady(plan, slices, c)[0];
      && s in slices && s.nodeId == StableOrder(plan)[j] && s.nodeId in Ids(plan)
      && Dispatchable(plan, slices, c, s.nodeId)
  {
    var order := StableOrder(plan);
    SortableIffAcyclic(plan);
    assert order[j] in Elems(order);
    FirstOpenIsDispatchable(plan, slices, c, j);
    ReadyAlongHead(plan, slices, c, order, j);
    SliceForMeaning(slices, order[j]);
  }

  /** With the first `j` nodes of the stable order completed and none failed, the head of the
      ready list is the slice of node `j`, and its success completes exactly the next one. */
  lemma NthEvent(t: Turn, c: Context, k: nat, j: nat)
    requires Valid(t.plan) && SliceForEach(t.plan, t.slices) && AlwaysSucceeds(t) && SavesWork(t)
    requires j < |StableOrder(t.plan)| && StableOrder(t.plan)[j] != ""
    requires c.completed == StableOrder(t.plan)[..j] && c.failed == []
    ensures NextReady(t.plan, t.slices, c) != []
    ensures var e := NextEvent(t, c, k);
      e.after.completed == StableOrder(t.plan)[..j + 1] && e.after.failed == [] && StopAfter(t, e, k).None?
  {
    var order := StableOrder(t.plan);
    SortableIffAcyclic(t.plan);
    HeadIsNth(t.plan, t.slices, c, j);
    SuccessAppends(t, c, k);
    OneLonger(order, j);
  }

  lemma OneLonger<T>(s: seq<T>, j: nat)
    requires j < |s|
    ensures s[..j + 1] == s[..j] + [s[j]]
  {
  }

  lemma SuccessAppends(t: Turn, c: Context, k: nat)
    requires AlwaysSucceeds(t) && SavesWork(t) && c.failed == []
    requires Sortable(t.plan) && NextReady(t.plan, t.slices, c) != []
    requires var s := NextReady(t.plan, t.slices, c)[0];
      s in t.slices && s.nodeId != "" && Dispatchable(t.plan, t.slices, c, s.nodeId)
    ensures var e := NextEvent(t, c, k);
      && e.after.completed == c.completed + [NextReady(t.plan, t.slices, c)[0].nodeId]
      && e.after.failed == [] && StopAfter(t, e, k).None?
  {
    var e := NextEvent(t, c, k);
    GateMeaning(e.slice, t.plan, c);
    assert Execute(e.world, e.slice, c).status == Success;
  }

  /** The loop's outcome when `m` more successes are allowed after the first `j`. */
  ghost predicate FollowsOrder(order: seq<Id>, j: nat, m: nat, o: Outcome)
    requires j <= |order|
  {
    && |o.trace| == Min(m, |order| - j)
    && o.context.completed == order[..j + Min(m, |order| - j)] && o.context.failed == []
    && o.stop.halt == if j + m > |order| then AllCompleted else BudgetHalt(SliceLimit)
  }

  lemma FollowsPrepend(order: seq<Id>, j: nat, m: int, n: int, e: Event, rest: Outcome, o: Outcome)
    requires j < |order| && n == m - 1 >= 0 && o == Prepend(e, rest)
    ensures FollowsOrder(order, j + 1, n, rest) ==> FollowsOrder(order, j, m, o)
  {
  }

  /** A loop of successes that only the slice limit can stop, with the first `j` nodes of the
      stable order completed. */
  ghost predicate OnOrder(t: Turn, c: Context, b: Budget, j: nat) {
    && Valid(t.plan) && t.plan != [] && SliceForEach(t.plan, t.slices)
    && AlwaysSucceeds(t) && SavesWork(t) && "" !in Ids(t.plan)
    && Unlimited(b) && b.executed <= b.maxSlices
    && j <= |StableOrder(t.plan)| && c.completed == StableOrder(t.plan)[..j] && c.failed == []
  }

  lemma NothingMore(t: Turn, c: Context, b: Budget, k: nat, j: nat)
    requires OnOrder(t, c, b, j) && (b.executed == b.maxSlices || j == |StableOrder(t.plan)|)
    ensures FollowsOrder(StableOrder(t.plan), j, b.maxSlices - b.executed, RunLoop(t, c, b, k))
  {
    SortableIffAcyclic(t.plan);
    DoneIff(t.plan, c, j);
    if b.executed < b.maxSlices { NoDeadlock(t.plan, t.slices, c); }
  }

  /** One successful iteration of such a loop. */
  lemma SuccessfulStep(t: Turn, c: Context, b: Budget, k: nat, j: nat) returns (e: Event, b': Budget)
    requires OnOrder(t, c, b, j) && b.executed < b.maxSlices && j < |StableOrder(t.plan)|
    ensures RunLoop(t, c, b, k) == Prepend(e, RunLoop(t, e.after, b', k + 1))
    ensures OnOrder(t, e.after, b', j + 1) && b'.maxSlices == b.maxSlices && b'.executed == b.executed + 1
  {
    SortableIffAcyclic(t.plan);
    assert StableOrder(t.plan)[j] in Elems(StableOrder(t.plan));
    NthEvent(t, c, k, j);
    e := NextEvent(t, c, k);
    RunStep(t, c, b, k, e);
    b' := BudgetAfter(t, e, b, k);
    assert !SaveFails(t, k);
  }

  /** The loop that starts here follows the order. */
  ghost predicate Follows(t: Turn, c: Context, b: Budget, k: nat, j: nat) {
    && j <= |StableOrder(t.plan)| && b.executed <= b.maxSlices
    && FollowsOrder(StableOrder(t.plan), j, b.maxSlices - b.executed, RunLoop(t, c, b, k))
  }

  lemma {:induction false} OrderGoesOn(t: Turn, c: Context, b: Budget, k: nat, j: nat)
      returns (c': Context, b': Budget)
    requires OnOrder(t, c, b, j) && b.executed < b.maxSlices && j < |StableOrder(t.plan)|
    ensures OnOrder(t, c', b', j + 1) && b'.maxSlices - b'.executed == b.maxSlices - b.executed - 1
    ensures Follows(t, c', b', k + 1, j + 1) ==> Follows(t, c, b, k, j)
  {
    var e;
    e, b' := SuccessfulStep(t, c, b, k, j);
    c' := e.after;
    FollowsPrepend(StableOrder(t.plan), j, b.maxSlices - b.executed, b'.maxSlices - b'.executed, e,
                   RunLoop(t, c', b', k + 1), RunLoop(t, c, b, k));
  }

  /** Either the loop ends here as it should, or it goes on to a state from which it does if
      it does from there. */
  lemma {:induction false} OrderStep(t: Turn, c: Context, b: Budget, k: nat, j: nat)
      returns (next: Option<(Context, Budget)>)
    requires OnOrder(t, c, b, j)
    ensures next.None? ==> Follows(t, c, b, k, j)
    ensures next.Some? ==>
              var (c', b') := next.value;
              && OnOrder(t, c', b', j + 1) && b'.maxSlices - b'.executed == b.maxSlices - b.executed - 1
              && (Follows(t, c', b', k + 1, j + 1) ==> Follows(t, c, b, k, j))
  {
    if b.executed == b.maxSlices || j == |StableOrder(t.plan)| {
      NothingMore(t, c, b, k, j);
      next := None;
    } else {
      var c', b' := OrderGoesOn(t, c, b, k, j);
      next := Some((c', b'));
    }
  }

  lemma {:induction false} LoopFollowsOrder(t: Turn, c: Context, b: Budget, k: nat, j: nat)
    requires OnOrder(t, c, b, j)
    ensures Follows(t, c, b, k, j)
    decreases b.maxSlices - b.executed
  {
    var next := OrderStep(t, c, b, k, j);
    if next.Some? { LoopFollowsOrder(t, next.value.0, next.value.1, k + 1, j + 1); }
  }

  /** When every dispatch succeeds and only the slice limit binds, `m` more slices complete
      exactly the next `m` nodes of the stable order, and the turn ends complete or at the
      limit according to whether `m` reaches the end. */
  lemma SuccessesFollowOrder(t: Turn, c: Context, b: Budget, j: nat)
    requires Valid(t.plan) && t.plan != [] && SliceForEach(t.plan, t.slices)
    requires AlwaysSucceeds(t) && SavesWork(t) && "" !in Ids(t.plan)
    requires Unlimited(b) && b.executed <= b.maxSlices
    requires j <= |StableOrder(t.plan)| && c.completed == StableOrder(t.plan)[..j] && c.failed == []
    ensures var order, m, o := StableOrder(t.plan), b.maxSlices - b.executed, RunTurn(t, c, b);
      && |o.trace| == Min(m, |order| - j)
      && o.context.completed == order[..j + Min(m, |order| - j)] && o.context.failed == []
      && o.stop.halt == if j + m >= |order| then AllCompleted else BudgetHalt(SliceLimit)
  {
    LoopFollowsOrder(t, c, b, 0, j);
    FinishedOnOrder(t.plan, j, b.maxSlices - b.executed, RunLoop(t, c, b, 0));
  }

  /** The loop's end becomes the turn's: complete exactly when the order is used up. */
  lemma FinishedOnOrder(plan: Plan, j: nat, m: nat, o: Outcome)
    requires Valid(plan) && plan != [] && j <= |StableOrder(plan)|
    requires FollowsOrder(StableOrder(plan), j, m, o)
    ensures Finish(plan, o).trace == o.trace && Finish(plan, o).context == o.context
    ensures Finish(plan, o).stop.halt == if j + m >= |StableOrder(plan)| then AllCompleted else BudgetHalt(SliceLimit)
  {
    SortableIffAcyclic(plan);
    DoneIff(plan, o.context, j + Min(m, |StableOrder(plan)| - j));
  }

  lemma DoneIff(plan: Plan, c: Context, j: nat)
    requires Sortable(plan) && plan != [] && Topological(plan, StableOrder(plan))
    requires j <= |StableOrder(plan)| && c.completed == StableOrder(plan)[..j]
    ensures AllDone(plan, c) <==> j == |StableOrder(plan)|
    ensures Ids(plan) <= Elems(c.completed) <==> j == |StableOrder(plan)|
  {
    var order := StableOrder(plan);
    assert plan[0].id in Ids(plan);
    if j < |order| {
      assert order[j] in Elems(order);
      assert order[j] !in order[..j];
    } else {
      assert order[..j] == order;
    }
  }

  lemma {:induction false} EmptyIdNeverCompletes(plan: Plan, c0: Context, trace: seq<Event>, c: Context)
    requires Chain(plan, c0, trace, c) && "" !in c0.completed
    ensures "" !in c.completed
  {
    if trace != [] {
      var last := trace[|trace| - 1];
      EmptyIdNeverCompletes(plan, c0, trace[..|trace| - 1], last.before);
      StepShape(plan, last);
    }
  }

  /** Whether a fresh run of successes can ever complete a valid plan: exactly when no node
      has the empty id, which the context update ignores. */
  lemma CompletionIff(t: Turn)
    requires Valid(t.plan) && t.plan != [] && SliceForEach(t.plan, t.slices)
    requires AlwaysSucceeds(t) && SavesWork(t)
    ensures (exists b :: Unlimited(b) && RunTurn(t, EMPTY_CONTEXT, b).stop.halt == AllCompleted)
            <==> "" !in Ids(t.plan)
  {
    if "" !in Ids(t.plan) {
      var b := Budget(0, 0.0, |StableOrder(t.plan)|, 0.0, 0, 0);
      assert EMPTY_CONTEXT.completed == StableOrder(t.plan)[..0];
      SuccessesFollowOrder(t, EMPTY_CONTEXT, b, 0);
      assert RunTurn(t, EMPTY_CONTEXT, b).stop.halt == AllCompleted;
    } else {
      forall b
        ensures RunTurn(t, EMPTY_CONTEXT, b).stop.halt != AllCompleted
      {
        RunLoopIsChain(t, EMPTY_CONTEXT, b, 0);
        var o := RunLoop(t, EMPTY_CONTEXT, b, 0);
        EmptyIdNeverCompletes(t.plan, EMPTY_CONTEXT, o.trace, o.context);
        CompletedHaltMeansDone(t, EMPTY_CONTEXT, b, 0);
      }
    }
  }

  // ------------------------------------------------------------- the empty id

  /** A successful dispatch of the node with the empty id changes nothing. */
  lemma EmptyIdEvent(t: Turn, c: Context, k: nat)
    requires AlwaysSucceeds(t) && SavesWork(t) && Sortable(t.plan) && NextReady(t.plan, t.slices, c) != []
    requires var s := NextReady(t.plan, t.slices, c)[0];
      s in t.slices && s.nodeId == "" && Dispatchable(t.plan, t.slices, c, s.nodeId)
    ensures var e := NextEvent(t, c, k);
      e.after == c && e.slice.nodeId == "" && StopAfter(t, e, k).None?
  {
    var e := NextEvent(t, c, k);
    GateMeaning(e.slice, t.plan, c);
    assert Execute(e.world, e.slice, c).status == Success;
  }

  /** A loop of successes that only the slice limit can stop, over a plan whose node `p` of
      the stable order has the empty id, with the first `j` nodes completed. */
  ghost predicate OnStall(t: Turn, c: Context, b: Budget, j: nat, p: nat) {
    && Valid(t.plan) && SliceForEach(t.plan, t.slices) && AlwaysSucceeds(t) && SavesWork(t)
    && Unlimited(b) && b.executed <= b.maxSlices
    && j <= p < |StableOrder(t.plan)| && StableOrder(t.plan)[p] == ""
    && c.completed == StableOrder(t.plan)[..j] && c.failed == []
  }

  /** Of `m` dispatches the first complete the nodes before `p`, and all others are of the
      empty id. */
  ghost predicate Stalls(order: seq<Id>, j: nat, p: nat, m: int, o: Outcome)
    requires j <= p < |order|
  {
    && |o.trace| == m && o.stop.halt == BudgetHalt(SliceLimit)
    && o.context.completed == order[..j + Min(m, p - j)] && o.context.failed == []
    && forall i :: p - j <= i < m ==> o.trace[i].slice.nodeId == ""
  }

  lemma StallsPrepend(order: seq<Id>, j: nat, j': nat, p: nat, m: int, n: int,
                                         e: Event, rest: Outcome, o: Outcome)
    requires j <= j' <= p < |order| && n == m - 1 >= 0 && o == Prepend(e, rest)
    requires if j == p then j' == j && e.slice.nodeId == "" else j' == j + 1
    ensures Stalls(order, j', p, n, rest) ==> Stalls(order, j, p, m, o)
  {
    assert forall i :: 1 <= i < |o.trace| ==> o.trace[i] == rest.trace[i - 1];
  }

  lemma StallStep(t: Turn, c: Context, b: Budget, k: nat, j: nat, p: nat)
      returns (e: Event, b': Budget, j': nat)
    requires OnStall(t, c, b, j, p) && b.executed < b.maxSlices
    ensures RunLoop(t, c, b, k) == Prepend(e, RunLoop(t, e.after, b', k + 1))
    ensures OnStall(t, e.after, b', j', p) && b'.maxSlices - b'.executed == b.maxSlices - b.executed - 1
    ensures if j == p then j' == j && e.slice.nodeId == "" else j' == j + 1
  {
    var order := StableOrder(t.plan);
    SortableIffAcyclic(t.plan);
    HeadIsNth(t.plan, t.slices, c, j);
    if j < p {
      assert order[j] != order[p];
      NthEvent(t, c, k, j);
      j' := j + 1;
    } else {
      EmptyIdEvent(t, c, k);
      j' := j;
    }
    e := NextEvent(t, c, k);
    RunStep(t, c, b, k, e);
    b' := BudgetAfter(t, e, b, k);
    assert !SaveFails(t, k);
  }

  lemma StallGoesOn(t: Turn, c: Context, b: Budget, k: nat, j: nat, p: nat)
      returns (next: Option<(Context, Budget, nat)>)
    requires OnStall(t, c, b, j, p)
    ensures next.None? ==> Stalls(StableOrder(t.plan), j, p, b.maxSlices - b.executed, RunLoop(t, c, b, k))
    ensures next.Some? ==>
              var (c', b', j') := next.value;
              && OnStall(t, c', b', j', p) && b'.maxSlices - b'.executed == b.maxSlices - b.executed - 1
              && (Stalls(StableOrder(t.plan), j', p, b'.maxSlices - b'.executed, RunLoop(t, c', b', k + 1)) ==>
                    Stalls(StableOrder(t.plan), j, p, b.maxSlices - b.executed, RunLoop(t, c, b, k)))
  {
    if b.executed == b.maxSlices {
      next := None;
    } else {
      var e, b', j' := StallStep(t, c, b, k, j, p);
      StallsPrepend(StableOrder(t.plan), j, j', p, b.maxSlices - b.executed, b'.maxSlices - b'.executed, e,
                    RunLoop(t, e.after, b', k + 1), RunLoop(t, c, b, k));
      next := Some((e.after, b', j'));
    }
  }

  /** A run of successes over a plan with an empty id completes the nodes before it in the
      stable order and then dispatches that node again and again until the slices run out. */
  lemma {:induction false} SuccessesStall(t: Turn, c: Context, b: Budget, k: nat, j: nat, p: nat)
    requires OnStall(t, c, b, j, p)
    ensures Stalls(StableOrder(t.plan), j, p, b.maxSlices - b.executed, RunLoop(t, c, b, k))
    decreases b.maxSlices - b.executed
  {
    var next := StallGoesOn(t, c, b, k, j, p);
    if next.Some? { SuccessesStall(t, next.value.0, next.value.1, k + 1, next.value.2, p); }
  }

  function EmptyIdTurn(): Turn {
    SingleTurn("", ANSWERS, Frozen(), true, true)
  }

  lemma EmptyIdSucceeds()
    ensures AlwaysSucceeds(EmptyIdTurn()) && SavesWork(EmptyIdTurn())
  {
    forall c
      ensures Execute(ANSWERS, SingleSlice(""), c).status == Success
    {
      SingleOutcome("", c);
    }
  }

  /** A failing input: a valid plan with a slice for its node, whose dispatches all succeed
      and whose saves all work, and that no number of slices completes. */
  lemma EmptyIdPlan(b: Budget)
    requires Unlimited(b) && b.executed <= b.maxSlices
    ensures var t := EmptyIdTurn();
      && Valid(t.plan) && t.plan != [] && SliceForEach(t.plan, t.slices)
      && AlwaysSucceeds(t) && SavesWork(t) && "" in Ids(t.plan)
      && Stalls([""], 0, 0, b.maxSlices - b.executed, RunLoop(t, EMPTY_CONTEXT, b, 0))
  {
    SinglePlan("");
    EmptyIdSucceeds();
    assert SliceFor(EmptyIdTurn().slices, "") == Some(SingleSlice(""));
    SuccessesStall(EmptyIdTurn(), EMPTY_CONTEXT, b, 0, 0, 0);
  }

  /** A turn reports all_completed only when it is. */
  lemma {:induction false} CompletedHaltMeansDone(t: Turn, c: Context, b: Budget, k: nat)
    ensures RunLoop(t, c, b, k).stop.halt == AllCompleted ==> AllDone(t.plan, RunLoop(t, c, b, k).context)
    ensures Finish(t.plan, RunLoop(t, c, b, k)).stop.halt == AllCompleted ==>
              AllDone(t.plan, RunLoop(t, c, b, k).context)
    decreases b.maxSlices - b.executed
  {
    if StopBefore(t, c, b, k).None? {
      var e := NextEvent(t, c, k);
      RunStep(t, c, b, k, e);
      if StopAfter(t, e, k).None? {
        CompletedHaltMeansDone(t, e.after, BudgetAfter(t, e, b, k), k + 1);
      }
    }
  }
}
