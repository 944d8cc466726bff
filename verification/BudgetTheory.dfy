/** What a whole turn may spend. */
module BudgetTheory {
  import opened Sequences
  import opened TierContracts
  import opened PlanGraph
  import opened ReadyScheduler
  import opened TurnBudget
  import opened OrchestrationLoop

  /** The tokens a dispatch reports, or if it reports none, what its slice allows itself. */
  ghost function ChargeOf(plan: Plan, e: Event): nat {
    var used := ResultOf(plan, e).tokens;
    if used > 0 then used else Max(0, e.slice.budgetTokens)
  }

  ghost function Charges(plan: Plan, trace: seq<Event>): nat {
    if trace == [] then 0 else ChargeOf(plan, trace[0]) + Charges(plan, trace[1..])
  }

  /** By how much the last charge exceeds what its slice was estimated at. */
  ghost function Overrun(plan: Plan, trace: seq<Event>): nat {
    if trace == [] then 0
    else Max(0, ChargeOf(plan, trace[|trace| - 1]) - Max(0, trace[|trace| - 1].slice.budgetTokens))
  }

  /** Only slices and tokens of a budget move during a turn. */
  predicate SameLimits(b: Budget, b': Budget) {
    b.maxTokens == b'.maxTokens && b.maxTime == b'.maxTime && b.maxSlices == b'.maxSlices && b.startedAt == b'.startedAt
  }

  ghost predicate SpentWithin(plan: Plan, b: Budget, o: Outcome) {
    var saved := SavedEvents(o);
    && |o.trace| <= Max(0, b.maxSlices - b.executed)
    && (o.stop.halt == PersistFailed ==> o.trace != [])
    && SameLimits(b, o.budget)
    && o.budget.executed == b.executed + |saved|
    && o.budget.consumed == b.consumed + Charges(plan, saved)
    && (b.maxTokens > 0 && b.consumed <= b.maxTokens ==> o.budget.consumed <= b.maxTokens + Overrun(plan, saved))
  }

  lemma SavedPrepend(e: Event, o: Outcome)
    requires o.stop.halt == PersistFailed ==> o.trace != []
    ensures SavedEvents(Prepend(e, o)) == [e] + SavedEvents(o)
  {
  }

  lemma SpentOne(plan: Plan, b: Budget, e: Event, now: real, b': Budget, o: Outcome)
    requires CanExecute(b, now, TokenEstimate(e.slice)) && b' == Recorded(b, ChargeOf(plan, e))
    requires SpentWithin(plan, b', o)
    requires b'.maxTokens > 0 && b'.consumed >= b'.maxTokens ==> o.trace == []
    ensures SpentWithin(plan, b, Prepend(e, o))
  {
    SavedPrepend(e, o);
    var rest := SavedEvents(o);
    assert ([e] + rest)[1..] == rest;
    if rest != [] {
      assert ([e] + rest)[|rest|] == rest[|rest| - 1];
    }
  }

  lemma SpentNothing(t: Turn, c: Context, b: Budget, k: nat)
    requires StopBefore(t, c, b, k).Some?
    ensures SpentWithin(t.plan, b, RunLoop(t, c, b, k)) && RunLoop(t, c, b, k).trace == []
  {
  }

  lemma NoTokensLeft(t: Turn, c: Context, b: Budget, k: nat)
    ensures b.maxTokens > 0 && b.consumed >= b.maxTokens ==> RunLoop(t, c, b, k).trace == []
  {
    if b.maxTokens > 0 && b.consumed >= b.maxTokens { SpentNothing(t, c, b, k); }
  }

  lemma SpentLast(plan: Plan, b: Budget, e: Event, now: real, b': Budget, stop: Stop)
    requires CanExecute(b, now, TokenEstimate(e.slice))
    requires b' == if stop.halt == PersistFailed then b else Recorded(b, ChargeOf(plan, e))
    ensures SpentWithin(plan, b, Outcome([e], e.after, b', stop, true))
  {
    assert [e][..0] == [] && [e][1..] == [];
  }

  lemma SpentStop(t: Turn, c: Context, b: Budget, k: nat)
    requires StopBefore(t, c, b, k).None? && StopAfter(t, NextEvent(t, c, k), k).Some?
    ensures SpentWithin(t.plan, b, RunLoop(t, c, b, k))
  {
    var e := NextEvent(t, c, k);
    RunStep(t, c, b, k, e);
    SpentLast(t.plan, b, e, t.env.clock(4 * k + 2), BudgetAfter(t, e, b, k), StopAfter(t, e, k).value);
  }

  lemma SpentStep(t: Turn, c: Context, b: Budget, k: nat, e: Event, b': Budget)
    requires StopBefore(t, c, b, k).None? && e == NextEvent(t, c, k) && b' == BudgetAfter(t, e, b, k)
    requires StopAfter(t, e, k).None? && SpentWithin(t.plan, b', RunLoop(t, e.after, b', k + 1))
    ensures SpentWithin(t.plan, b, RunLoop(t, c, b, k))
  {
    RunStep(t, c, b, k, e);
    NoTokensLeft(t, e.after, b', k + 1);
    SpentOne(t.plan, b, e, t.env.clock(4 * k + 2), b', RunLoop(t, e.after, b', k + 1));
  }

  /** Either the loop stops here within its budget, or it goes on from a state from which it
      stays within its budget if it does from the next. */
  lemma SpentSoFar(t: Turn, c: Context, b: Budget, k: nat) returns (next: Option<(Context, Budget)>)
    ensures next.None? ==> SpentWithin(t.plan, b, RunLoop(t, c, b, k))
    ensures next.Some? ==>
              var (c', b') := next.value;
              && b'.maxSlices == b.maxSlices && b.executed < b'.executed <= b.maxSlices
              && (SpentWithin(t.plan, b', RunLoop(t, c', b', k + 1)) ==> SpentWithin(t.plan, b, RunLoop(t, c, b, k)))
  {
    next := None;
    if StopBefore(t, c, b, k).Some? {
      SpentNothing(t, c, b, k);
    } else {
      var e := NextEvent(t, c, k);
      if StopAfter(t, e, k).Some? {
        SpentStop(t, c, b, k);
      } else {
        var b' := BudgetAfter(t, e, b, k);
        RunStep(t, c, b, k, e);
        next := Some((e.after, b'));
        if SpentWithin(t.plan, b', RunLoop(t, e.after, b', k + 1)) { SpentStep(t, c, b, k, e, b'); }
      }
    }
  }

  /** A turn makes at most as many dispatches as its slice allowance has left, charges each
      saved one exactly once, and with a token limit respected at its start overshoots that
      limit by no more than the last slice's charge exceeded its estimate. */
  lemma {:induction false} TurnStaysInBudget(t: Turn, c: Context, b: Budget, k: nat)
    ensures SpentWithin(t.plan, b, RunLoop(t, c, b, k))
    decreases b.maxSlices - b.executed
  {
    var next := SpentSoFar(t, c, b, k);
    if next.Some? { TurnStaysInBudget(t, next.value.0, next.value.1, k + 1); }
  }

  // ------------------------------------------------- what is afforded, and why not

  /** The budget can pay for the head of the ready list: slices are left, the tokens spent and
      those the head allows itself fit the limit, and at both checks the deadline is ahead. A
      limit that is not positive is none. */
  ghost predicate Affords(t: Turn, c: Context, b: Budget, k: nat)
    requires NextReady(t.plan, t.slices, c) != []
  {
    var head, deadline := NextReady(t.plan, t.slices, c)[0], b.startedAt + b.maxTime;
    && b.executed < b.maxSlices
    && (b.maxTokens <= 0 || (b.consumed < b.maxTokens && b.consumed + Max(0, head.budgetTokens) <= b.maxTokens))
    && (b.maxTime <= 0.0 || (t.env.clock(4 * k) < deadline && t.env.clock(4 * k + 2) < deadline))
  }

  /** Whenever a slice is ready, the run dispatches the head of the list exactly if the budget
      affords it. */
  lemma DispatchIff(t: Turn, c: Context, b: Budget, k: nat)
    requires Sortable(t.plan) && NextReady(t.plan, t.slices, c) != []
    ensures RunLoop(t, c, b, k).trace != [] <==> Affords(t, c, b, k)
    ensures Affords(t, c, b, k) ==> RunLoop(t, c, b, k).trace[0].slice == NextReady(t.plan, t.slices, c)[0]
                                    && RunLoop(t, c, b, k).trace[0].before == c
  {
    if StopBefore(t, c, b, k).None? { RunStep(t, c, b, k, NextEvent(t, c, k)); }
  }

  /** What a budget halt says is so in the state the run ends in: which limit, and by what. */
  ghost predicate NamesLimit(t: Turn, o: Outcome, k: nat) {
    var b, ready, i := o.budget, NextReady(t.plan, t.slices, o.context), k + |o.trace|;
    && (o.stop.halt == BudgetHalt(SliceLimit) <==> !o.endedByDispatch && b.executed >= b.maxSlices)
    && (o.stop.halt == BudgetHalt(TokenBudget) ==>
          && b.executed < b.maxSlices && b.maxTokens > 0
          && (b.consumed >= b.maxTokens
              || (ready != [] && b.consumed + Max(0, ready[0].budgetTokens) > b.maxTokens)))
    && (o.stop.halt == BudgetHalt(TimeBudget) ==>
          && b.executed < b.maxSlices && b.maxTime > 0.0
          && (b.maxTokens > 0 ==> b.consumed < b.maxTokens)
          && (t.env.clock(4 * i + 1) >= b.startedAt + b.maxTime || t.env.clock(4 * i + 3) >= b.startedAt + b.maxTime))
  }

  lemma {:induction false} LimitSoFar(t: Turn, c: Context, b: Budget, k: nat) returns (next: Option<(Context, Budget)>)
    ensures next.None? ==> NamesLimit(t, RunLoop(t, c, b, k), k)
    ensures next.Some? ==>
              var (c', b') := next.value;
              && b'.maxSlices == b.maxSlices && b.executed < b'.executed <= b.maxSlices
              && (NamesLimit(t, RunLoop(t, c', b', k + 1), k + 1) ==> NamesLimit(t, RunLoop(t, c, b, k), k))
  {
    next := None;
    if StopBefore(t, c, b, k).None? {
      var e := NextEvent(t, c, k);
      RunStep(t, c, b, k, e);
      if StopAfter(t, e, k).None? {
        var b' := BudgetAfter(t, e, b, k);
        next := Some((e.after, b'));
        NamesPrepended(t, e, RunLoop(t, e.after, b', k + 1), k);
      }
    }
  }

  lemma NamesPrepended(t: Turn, e: Event, o: Outcome, k: nat)
    ensures NamesLimit(t, o, k + 1) ==> NamesLimit(t, Prepend(e, o), k)
  {
    assert k + |Prepend(e, o).trace| == k + 1 + |o.trace|;
  }

  /** A run halts at the slice limit exactly when the slices are spent and no dispatch ended
      it, for the tokens only when they are spent or the next slice does not fit, and for the
      time only when the deadline has passed and tokens are left. */
  lemma {:induction false} HaltNamesLimit(t: Turn, c: Context, b: Budget, k: nat)
    ensures NamesLimit(t, RunLoop(t, c, b, k), k)
    decreases b.maxSlices - b.executed
  {
    var next := LimitSoFar(t, c, b, k);
    if next.Some? { HaltNamesLimit(t, next.value.0, next.value.1, k + 1); }
  }
}
