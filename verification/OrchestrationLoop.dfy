/** The orchestration loop: one turn dispatches ready slices under a budget, one at a time,
    saving a checkpoint after each. */
module OrchestrationLoop {
  import opened Sequences
  import opened TierContracts
  import opened PlanGraph
  import opened ReadyScheduler
  import opened TierDispatcher
  import opened TurnBudget
  import opened ExecutionStateStore

  /** What a turn meets outside the loop: the surroundings of its k-th dispatch, the clock at
      each point the code may read it (four in an iteration), and whether the k-th save works. */
  datatype Env = Env(
    world: (nat, Slice, Context) -> World,
    clock: nat -> real,
    saveOk: nat -> bool)

  datatype Turn = Turn(plan: Plan, slices: seq<Slice>, env: Env, persist: bool)

  datatype Halt =
    | BudgetHalt(why: Exhaustion)
    | AllCompleted
    | PermanentFailure
    | NoReadySlices
    | RetryHalt
    | PersistFailed
    | SortRaised

  datatype Event = Event(slice: Slice, before: Context, world: World, after: Context)

  datatype Stop = Stop(halt: Halt, failedNode: Option<Id>)

  /** `endedByDispatch` tells a turn that the result of its last dispatch ended from one that
      stopped before dispatching again. */
  datatype Outcome = Outcome(trace: seq<Event>, context: Context, budget: Budget, stop: Stop, endedByDispatch: bool)

  function TokenEstimate(s: Slice): nat {
    Max(0, s.budgetTokens)
  }

  /** What a dispatch is charged: its reported usage, or its estimate when it reports none. */
  function Charge(s: Slice, tokens: int): nat {
    if Max(0, tokens) > 0 then Max(0, tokens) else TokenEstimate(s)
  }

  predicate AllDone(plan: Plan, c: Context) {
    Ids(plan) != {} && Ids(plan) <= Elems(c.completed)
  }

  function IdleStop(plan: Plan, c: Context): Stop {
    if AllDone(plan, c) then Stop(AllCompleted, None)
    else if c.failed != [] then Stop(PermanentFailure, Some(c.failed[|c.failed| - 1]))
    else Stop(NoReadySlices, None)
  }

  /** Why iteration `k` ends the turn before dispatching, if it does. */
  ghost function StopBefore(t: Turn, c: Context, b: Budget, k: nat): Option<Stop> {
    if !CanExecute(b, t.env.clock(4 * k), 0) then
      Some(Stop(BudgetHalt(ExhaustionReason(b, t.env.clock(4 * k + 1), 0)), None))
    else if !Sortable(t.plan) then Some(Stop(SortRaised, None))
    else if NextReady(t.plan, t.slices, c) == [] then Some(IdleStop(t.plan, c))
    else
      var estimate := TokenEstimate(NextReady(t.plan, t.slices, c)[0]);
      if !CanExecute(b, t.env.clock(4 * k + 2), estimate) then
        Some(Stop(BudgetHalt(ExhaustionReason(b, t.env.clock(4 * k + 3), estimate)), None))
      else None
  }

  /** The k-th dispatch: the head of the ready list, and the context it leads to. */
  ghost function NextEvent(t: Turn, c: Context, k: nat): Event
    requires NextReady(t.plan, t.slices, c) != []
  {
    var s := NextReady(t.plan, t.slices, c)[0];
    var w := t.env.world(k, s, c);
    var r := Dispatch(w, t.plan, s, c);
    Event(s, c, w, Updated(c, s.nodeId, r.status, r.retryable))
  }

  ghost function ResultOf(plan: Plan, e: Event): DispatchResult {
    Dispatch(e.world, plan, e.slice, e.before)
  }

  predicate SaveFails(t: Turn, k: nat) {
    t.persist && !t.env.saveOk(k)
  }

  /** Why the turn ends after the k-th dispatch, if it does. */
  ghost function StopAfter(t: Turn, e: Event, k: nat): Option<Stop> {
    var r := ResultOf(t.plan, e);
    if SaveFails(t, k) then Some(Stop(PersistFailed, None))
    else if r.status == Failed || (r.reason == ExecutionFailed && !r.retryable) then
      Some(Stop(PermanentFailure, Some(e.slice.nodeId)))
    else if r.status == RetryScheduled || r.reason == RetryReason then Some(Stop(RetryHalt, None))
    else None
  }

  ghost function BudgetAfter(t: Turn, e: Event, b: Budget, k: nat): Budget {
    if SaveFails(t, k) then b else Recorded(b, Charge(e.slice, ResultOf(t.plan, e).tokens))
  }

  function Prepend(e: Event, o: Outcome): Outcome {
    o.(trace := [e] + o.trace)
  }

  /** The loop from iteration `k` on. */
  ghost function RunLoop(t: Turn, c: Context, b: Budget, k: nat): Outcome
    decreases b.maxSlices - b.executed
  {
    match StopBefore(t, c, b, k)
    case Some(stop) => Outcome([], c, b, stop, false)
    case None =>
      var e := NextEvent(t, c, k);
      match StopAfter(t, e, k)
      case Some(stop) => Outcome([e], e.after, BudgetAfter(t, e, b, k), stop, true)
      case None => Prepend(e, RunLoop(t, e.after, BudgetAfter(t, e, b, k), k + 1))
  }

  /** Completion overrides a budget or idle halt; nothing overrides the other halts. */
  function Finish(plan: Plan, o: Outcome): Outcome {
    if AllDone(plan, o.context) && (o.stop.halt.BudgetHalt? || o.stop.halt == NoReadySlices) then
      o.(stop := o.stop.(halt := AllCompleted))
    else o
  }

  ghost function RunTurn(t: Turn, c: Context, b: Budget): Outcome {
    Finish(t.plan, RunLoop(t, c, b, 0))
  }

  /** The events whose saves worked: all of the trace's, except for a failed last save. */
  function SavedEvents(o: Outcome): seq<Event> {
    if o.stop.halt == PersistFailed && o.trace != [] then o.trace[..|o.trace| - 1] else o.trace
  }

  function NewCheckpoints(planId: string, firstId: nat, contexts: seq<Context>): Checkpoints {
    seq(|contexts|, i requires 0 <= i < |contexts| =>
      Checkpoint(Normal(planId), firstId + i, contexts[i], "orchestration_loop"))
  }

  function Afters(trace: seq<Event>): seq<Context> {
    seq(|trace|, i requires 0 <= i < |trace| => trace[i].after)
  }

  /** The outcome of a run whose first events are `trace` and whose rest is `o`. */
  function Resume(trace: seq<Event>, o: Outcome): Outcome {
    o.(trace := trace + o.trace)
  }

  lemma ResumeSnoc(trace: seq<Event>, e: Event, o: Outcome)
    ensures Resume(trace, Prepend(e, o)) == Resume(trace + [e], o)
  {
    assert trace + ([e] + o.trace) == trace + [e] + o.trace;
  }

  /** The checks at the head of an iteration: the budget, the ready list, and the budget
      again with the head slice's estimate. */
  method CheckBefore(t: Turn, c: Context, budget: TurnBudget, k: nat) returns (stop: Option<Stop>,
                     current: Option<Slice>)
    ensures stop == StopBefore(t, c, budget.View(), k)
    ensures stop.None? ==> NextReady(t.plan, t.slices, c) != [] && current == Some(NextReady(t.plan, t.slices, c)[0])
  {
    current := None;
    var ok := budget.CanExecuteSlice(t.env.clock(4 * k), 0);
    if !ok {
      var why := budget.BudgetExhaustionReason(t.env.clock(4 * k + 1), 0);
      return Some(Stop(BudgetHalt(why), None)), None;
    }
    var ready := NextReadySlices(t.plan, t.slices, c);
    if ready.Raised? {
      return Some(Stop(SortRaised, None)), None;
    }
    if ready.value == [] {
      return Some(IdleStop(t.plan, c)), None;
    }
    var estimate := TokenEstimate(ready.value[0]);
    ok := budget.CanExecuteSlice(t.env.clock(4 * k + 2), estimate);
    if !ok {
      var why := budget.BudgetExhaustionReason(t.env.clock(4 * k + 3), estimate);
      return Some(Stop(BudgetHalt(why), None)), None;
    }
    return None, Some(ready.value[0]);
  }

  /** The store, which held `cs0`, holds one more checkpoint for each event of `trace`. */
  ghost predicate StoreHolds(store: ExecutionStateStore?, planId: string, limit: int, id0: nat, cs0: Checkpoints,
                             trace: seq<Event>)
    reads store
  {
    store != null ==>
      && store.Valid() && store.retentionLimit == limit && store.nextId == id0 + |trace|
      && store.checkpoints == SaveAll(cs0, limit, NewCheckpoints(planId, id0, Afters(trace)))
  }

  method SaveTo(store: ExecutionStateStore, planId: string, context: Context,
                ghost limit: int, ghost id0: nat, ghost cs0: Checkpoints, ghost trace: seq<Event>, ghost e: Event)
    requires StoreHolds(store, planId, limit, id0, cs0, trace) && e.after == context
    modifies store
    ensures StoreHolds(store, planId, limit, id0, cs0, trace + [e])
  {
    var c := store.SaveCheckpoint(planId, context, "orchestration_loop");
    OneMoreSaved(planId, id0, limit, cs0, trace, e);
  }

  /** Saves the context of the trace's last event, unless the save fails. */
  method SaveAfter(t: Turn, store: ExecutionStateStore?, planId: string, k: nat, context: Context,
                   ghost limit: int, ghost id0: nat, ghost cs0: Checkpoints, ghost trace: seq<Event>, ghost e: Event)
      returns (failed: bool)
    requires t.persist <==> store != null
    requires StoreHolds(store, planId, limit, id0, cs0, trace) && e.after == context
    modifies store
    ensures failed <==> SaveFails(t, k)
    ensures StoreHolds(store, planId, limit, id0, cs0, if failed then trace else trace + [e])
  {
    if store != null {
      if !t.env.saveOk(k) { return true; }
      SaveTo(store, planId, context, limit, id0, cs0, trace, e);
    }
    failed := false;
  }

  /** Unrolls the run by one dispatch. */
  lemma RunStep(t: Turn, c: Context, b: Budget, k: nat, e: Event)
    requires StopBefore(t, c, b, k).None? && e == NextEvent(t, c, k)
    ensures StopAfter(t, e, k).Some? ==>
              RunLoop(t, c, b, k) == Outcome([e], e.after, BudgetAfter(t, e, b, k), StopAfter(t, e, k).value, true)
    ensures StopAfter(t, e, k).None? ==>
              RunLoop(t, c, b, k) == Prepend(e, RunLoop(t, e.after, BudgetAfter(t, e, b, k), k + 1))
              && BudgetAfter(t, e, b, k).maxSlices == b.maxSlices
              && b.executed < BudgetAfter(t, e, b, k).executed <= b.maxSlices
  {
  }

  /** One dispatch of the loop: run the slice, save the context, charge the budget, and
      decide whether the turn ends. */
  method DispatchOne(t: Turn, c: Context, current: Slice, budget: TurnBudget, store: ExecutionStateStore?,
                     planId: string, k: nat, ghost limit: int, ghost id0: nat, ghost cs0: Checkpoints,
                     ghost trace: seq<Event>)
      returns (e: Event, stop: Option<Stop>)
    requires t.persist <==> store != null
    requires StoreHolds(store, planId, limit, id0, cs0, trace)
    requires NextReady(t.plan, t.slices, c) != [] && current == NextReady(t.plan, t.slices, c)[0]
    modifies budget, store
    ensures e == NextEvent(t, c, k) && stop == StopAfter(t, e, k)
    ensures budget.View() == BudgetAfter(t, e, old(budget.View()), k)
    ensures StoreHolds(store, planId, limit, id0, cs0, if SaveFails(t, k) then trace else trace + [e])
  {
    var world := t.env.world(k, current, c);
    var result, after := DispatchWithState(world, t.plan, current, c);
    e := Event(current, c, world, after);
    var failed := SaveAfter(t, store, planId, k, after, limit, id0, cs0, trace, e);
    if failed {
      return e, Some(Stop(PersistFailed, None));
    }
    budget.RecordSlice(Charge(current, result.tokens));
    if result.status == Failed || (result.reason == ExecutionFailed && !result.retryable) {
      return e, Some(Stop(PermanentFailure, Some(current.nodeId)));
    }
    if result.status == RetryScheduled || result.reason == RetryReason {
      return e, Some(Stop(RetryHalt, None));
    }
    stop := None;
  }

  /** One iteration: stop before dispatching, or dispatch and perhaps stop after. */
  method Iterate(t: Turn, c: Context, budget: TurnBudget, store: ExecutionStateStore?, planId: string, k: nat,
                 ghost limit: int, ghost id0: nat, ghost cs0: Checkpoints, ghost trace: seq<Event>)
      returns (e: Option<Event>, stop: Option<Stop>)
    requires t.persist <==> store != null
    requires StoreHolds(store, planId, limit, id0, cs0, trace)
    modifies budget, store
    ensures stop.None? ==>
              && e.Some? && !SaveFails(t, k)
              && RunLoop(t, c, old(budget.View()), k) ==
                 Prepend(e.value, RunLoop(t, e.value.after, budget.View(), k + 1))
              && budget.maxSlices == old(budget.maxSlices) && old(budget.executed) < budget.executed <= budget.maxSlices
    ensures stop.Some? ==>
              RunLoop(t, c, old(budget.View()), k) ==
              if e.None? then Outcome([], c, budget.View(), stop.value, false)
              else Outcome([e.value], e.value.after, budget.View(), stop.value, true)
    ensures stop.Some? ==> (stop.value.halt == PersistFailed <==> e.Some? && SaveFails(t, k))
    ensures StoreHolds(store, planId, limit, id0, cs0, if e.None? || SaveFails(t, k) then trace else trace + [e.value])
  {
    var early, head := CheckBefore(t, c, budget, k);
    if early.Some? {
      return None, early;
    }
    ghost var b := budget.View();
    RunStep(t, c, b, k, NextEvent(t, c, k));
    var event;
    event, stop := DispatchOne(t, c, head.value, budget, store, planId, k, limit, id0, cs0, trace);
    e := Some(event);
  }

  /** The loop as coded, over the mutable budget and store, computes the run above; the store
      ends with one more checkpoint for each dispatch whose save worked. */
  method ExecuteDagUntil(t: Turn, context0: Context, budget: TurnBudget, store: ExecutionStateStore?, planId: string)
      returns (o: Outcome)
    requires t.persist <==> store != null
    requires store != null ==> store.Valid()
    modifies budget, store
    ensures o == RunTurn(t, context0, old(budget.View())) && budget.View() == o.budget
    ensures store != null ==> StoreHolds(store, planId, old(store.retentionLimit), old(store.nextId),
                                         old(store.checkpoints), SavedEvents(o))
  {
    ghost var whole := RunLoop(t, context0, budget.View(), 0);
    ghost var limit := if store == null then 1 else store.retentionLimit;
    ghost var id0 := if store == null then 0 else store.nextId;
    ghost var cs0 := if store == null then [] else store.checkpoints;
    var context, trace: seq<Event>, k := context0, [], 0;
    ResumeNothing(whole);
    while true
      invariant |trace| == k
      invariant whole == Resume(trace, RunLoop(t, context, budget.View(), k))
      invariant StoreHolds(store, planId, limit, id0, cs0, trace)
      decreases budget.maxSlices - budget.executed
    {
      ghost var earlier := trace;
      var e, stop := Iterate(t, context, budget, store, planId, k, limit, id0, cs0, trace);
      if e.Some? {
        context := e.value.after;
        if stop.None? { ResumeSnoc(trace, e.value, RunLoop(t, context, budget.View(), k + 1)); }
        trace, k := trace + [e.value], k + 1;
      }
      if stop.Some? {
        o := Outcome(trace, context, budget.View(), stop.value, e.Some?);
        LastSaved(t, earlier, e, context, budget.View(), stop.value, k);
        break;
      }
    }
    o := Finish(t.plan, o);
  }

  lemma ResumeNothing(o: Outcome)
    ensures Resume([], o) == o
  {
    assert [] + o.trace == o.trace;
  }

  lemma LastSaved(t: Turn, earlier: seq<Event>, e: Option<Event>, c: Context, b: Budget,
                                     stop: Stop, k: nat)
    requires stop.halt == PersistFailed ==> e.Some?
    ensures e.None? ==> earlier + [] == earlier
    ensures var trace := if e.None? then earlier else earlier + [e.value];
      SavedEvents(Finish(t.plan, Outcome(trace, c, b, stop, e.Some?))) ==
      if stop.halt == PersistFailed then earlier else trace
  {
  }

  lemma OneMoreSaved(planId: string, id0: nat, limit: int, cs0: Checkpoints, trace: seq<Event>,
                                        e: Event)
    ensures SaveAll(cs0, limit, NewCheckpoints(planId, id0, Afters(trace + [e]))) ==
            SaveOne(SaveAll(cs0, limit, NewCheckpoints(planId, id0, Afters(trace))), limit,
                    Checkpoint(Normal(planId), id0 + |trace|, e.after, "orchestration_loop"))
  {
    var news, c := NewCheckpoints(planId, id0, Afters(trace)),
                   Checkpoint(Normal(planId), id0 + |trace|, e.after, "orchestration_loop");
    assert NewCheckpoints(planId, id0, Afters(trace + [e])) == news + [c];
    SaveAllSnoc(cs0, limit, news, c);
  }
}
