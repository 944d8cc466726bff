/** How a turn ends: at the first failed save, permanent failure or retry, or for want of work. */
module HaltTheory {
  import opened Sequences
  import opened TierContracts
  import opened PlanGraph
  import opened ReadyScheduler
  import opened TierDispatcher
  import opened TurnBudget
  import opened OrchestrationLoop

  /** The loop goes on after this dispatch, the `k`-th. */
  ghost predicate GoesOn(t: Turn, e: Event, k: nat) {
    (t.persist ==> t.env.saveOk(k)) && ResultOf(t.plan, e).status !in {Failed, RetryScheduled}
  }

  /** The stop that the `k`-th dispatch causes: a failed save comes before its own failure. */
  ghost predicate EndsIn(t: Turn, e: Event, k: nat, stop: Stop) {
    if t.persist && !t.env.saveOk(k) then stop == Stop(PersistFailed, None)
    else if ResultOf(t.plan, e).status == Failed then stop == Stop(PermanentFailure, Some(e.slice.nodeId))
    else ResultOf(t.plan, e).status == RetryScheduled && stop == Stop(RetryHalt, None)
  }

  predicate Complete(plan: Plan, c: Context) {
    plan != [] && forall n :: n in plan ==> n.id in c.completed
  }

  /** The stop of a loop that found nothing ready. */
  predicate EndsIdle(plan: Plan, c: Context, stop: Stop) {
    match stop.halt
    case AllCompleted => Complete(plan, c)
    case PermanentFailure => !Complete(plan, c) && c.failed != [] && stop.failedNode == Some(c.failed[|c.failed| - 1])
    case NoReadySlices => !Complete(plan, c) && c.failed == []
    case _ => false
  }

  /** The stop of a loop that no dispatch ended. */
  ghost predicate EndsBetween(t: Turn, c: Context, stop: Stop) {
    || stop.halt.BudgetHalt? || (stop.halt == SortRaised && Cyclic(t.plan))
    || (NextReady(t.plan, t.slices, c) == [] && EndsIdle(t.plan, c, stop))
  }

  /** Along the trace, which starts with the `k`-th dispatch, every dispatch lets the loop go
      on but the last one if the loop ended by it; the stop is the one that gives. */
  ghost predicate StopsRight(t: Turn, trace: seq<Event>, k: nat, o: Outcome) {
    if trace == [] then !o.endedByDispatch && EndsBetween(t, o.context, o.stop)
    else if |trace| == 1 && o.endedByDispatch then EndsIn(t, trace[0], k, o.stop)
    else GoesOn(t, trace[0], k) && StopsRight(t, trace[1..], k + 1, o)
  }

  lemma {:induction false} StopsAlike(t: Turn, trace: seq<Event>, k: nat, o: Outcome, o': Outcome)
    requires o.endedByDispatch == o'.endedByDispatch && o.context == o'.context && o.stop == o'.stop
    ensures StopsRight(t, trace, k, o) <==> StopsRight(t, trace, k, o')
  {
    if trace != [] { StopsAlike(t, trace[1..], k + 1, o, o'); }
  }

  lemma {:induction false} StopsPrepended(t: Turn, e: Event, o: Outcome, k: nat)
    requires GoesOn(t, e, k) && StopsRight(t, o.trace, k + 1, o)
    ensures StopsRight(t, Prepend(e, o).trace, k, Prepend(e, o))
  {
    assert ([e] + o.trace)[1..] == o.trace;
    StopsAlike(t, o.trace, k + 1, o, Prepend(e, o));
  }

  ghost predicate EndsWell(t: Turn, c: Context, b: Budget, k: nat) {
    StopsRight(t, RunLoop(t, c, b, k).trace, k, RunLoop(t, c, b, k))
  }

  lemma {:induction false} StepGoesOn(t: Turn, c: Context, b: Budget, k: nat)
    requires StopBefore(t, c, b, k).None?
    ensures var e := NextEvent(t, c, k);
      if StopAfter(t, e, k).None? then GoesOn(t, e, k) else EndsIn(t, e, k, StopAfter(t, e, k).value)
  {
    var e := NextEvent(t, c, k);
    ResultShape(e.world, t.plan, e.slice, c);
  }

  lemma {:induction false} StopsAtOnce(t: Turn, c: Context, b: Budget, k: nat)
    requires StopBefore(t, c, b, k).Some?
    ensures EndsWell(t, c, b, k)
  {
    SortableIffAcyclic(t.plan);
    AllDoneIff(t.plan, c);
  }

  lemma AllDoneIff(plan: Plan, c: Context)
    ensures AllDone(plan, c) <==> Complete(plan, c)
  {
    if plan != [] { assert plan[0].id in Ids(plan); }
    if AllDone(plan, c) {
      assert plan != [];
      forall n | n in plan
        ensures n.id in c.completed
      {
        assert n.id in Ids(plan) && n.id in Elems(c.completed);
      }
    }
  }

  lemma {:induction false} StopsSoFar(t: Turn, c: Context, b: Budget, k: nat) returns (next: Option<(Context, Budget)>)
    ensures next.None? ==> EndsWell(t, c, b, k)
    ensures next.Some? ==>
              var (c', b') := next.value;
              && b'.maxSlices == b.maxSlices && b.executed < b'.executed <= b.maxSlices
              && (EndsWell(t, c', b', k + 1) ==> EndsWell(t, c, b, k))
  {
    next := None;
    if StopBefore(t, c, b, k).Some? {
      StopsAtOnce(t, c, b, k);
    } else {
      var e := NextEvent(t, c, k);
      RunStep(t, c, b, k, e);
      StepGoesOn(t, c, b, k);
      if StopAfter(t, e, k).None? {
        var b' := BudgetAfter(t, e, b, k);
        if EndsWell(t, e.after, b', k + 1) {
          StopsPrepended(t, e, RunLoop(t, e.after, b', k + 1), k);
        }
        next := Some((e.after, b'));
      }
    }
  }

  /** A run goes on after every dispatch that is neither failed nor to be retried and whose
      save works, and ends at the first other one for the reason that one gives. A run that
      ends between dispatches does so for its budget or because nothing is ready. */
  lemma {:induction false} RunStopsRight(t: Turn, c: Context, b: Budget, k: nat)
    ensures EndsWell(t, c, b, k)
    decreases b.maxSlices - b.executed
  {
    var next := StopsSoFar(t, c, b, k);
    if next.Some? { RunStopsRight(t, next.value.0, next.value.1, k + 1); }
  }

  /** What a turn reports: all_completed when it has completed the plan and ended for its
      budget or for want of work, and otherwise how its loop ended. */
  lemma {:induction false} TurnReports(t: Turn, c: Context, b: Budget)
    ensures var o, turn := RunLoop(t, c, b, 0), RunTurn(t, c, b);
      && turn.trace == o.trace && turn.context == o.context && turn.budget == o.budget
      && turn.stop.halt ==
         if Complete(t.plan, o.context) && (o.stop.halt.BudgetHalt? || o.stop.halt == NoReadySlices) then AllCompleted
         else o.stop.halt
  {
    AllDoneIff(t.plan, RunLoop(t, c, b, 0).context);
  }
}
