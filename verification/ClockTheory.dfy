/** Which clocks make a turn that the budget stops report that budget was available. Each
    iteration reads the clock for a check and, if the check refuses, once more for the reason:
    at points 4k and 4k + 1, and again at 4k + 2 and 4k + 3. */
module ClockTheory {
  import opened Sequences
  import opened TierContracts
  import opened PlanGraph
  import opened ReadyScheduler
  import opened TurnBudget
  import opened OrchestrationLoop
  import opened OneNodePlan

  const NO_LIMIT := BudgetHalt(BudgetAvailable)

  function Deadline(b: Budget): real {
    b.startedAt + b.maxTime
  }

  /** The check reads the deadline as passed, the reason does not. */
  predicate Straddles(deadline: real, check: real, reason: real) {
    reason < deadline <= check
  }

  /** Iteration `k` stops at its first or second check although no limit is found exhausted. */
  ghost predicate NamesNoLimit(t: Turn, c: Context, b: Budget, k: nat) {
    var clock := t.env.clock;
    && b.executed < b.maxSlices && b.maxTime > 0.0 && TokensFit(b, 0)
    && (|| Straddles(Deadline(b), clock(4 * k), clock(4 * k + 1))
        || (&& Sortable(t.plan) && NextReady(t.plan, t.slices, c) != []
            && clock(4 * k) < Deadline(b)
            && TokensFit(b, TokenEstimate(NextReady(t.plan, t.slices, c)[0]))
            && Straddles(Deadline(b), clock(4 * k + 2), clock(4 * k + 3))))
  }

  lemma StopNamesNoLimitIff(t: Turn, c: Context, b: Budget, k: nat)
    ensures StopBefore(t, c, b, k).Some? && StopBefore(t, c, b, k).value.halt == NO_LIMIT <==> NamesNoLimit(t, c, b, k)
  {
  }

  /** Some budget lets an iteration stop without a limit exactly when the clock is set back
      within one of its two pairs of readings; for the second pair a slice must be ready and
      the first check must have read less. */
  lemma SetBackIff(t: Turn, c: Context, k: nat)
    ensures (exists b :: RunLoop(t, c, b, k).stop.halt == NO_LIMIT && RunLoop(t, c, b, k).trace == []
                         && !RunLoop(t, c, b, k).endedByDispatch)
            <==>
            || t.env.clock(4 * k + 1) < t.env.clock(4 * k)
            || (&& Sortable(t.plan) && NextReady(t.plan, t.slices, c) != []
                && t.env.clock(4 * k) < t.env.clock(4 * k + 2)
                && t.env.clock(4 * k + 3) < t.env.clock(4 * k + 2))
  {
    var clock := t.env.clock;
    forall b | RunLoop(t, c, b, k).stop.halt == NO_LIMIT && RunLoop(t, c, b, k).trace == []
               && !RunLoop(t, c, b, k).endedByDispatch
      ensures NamesNoLimit(t, c, b, k)
    {
      StopNamesNoLimitIff(t, c, b, k);
      StopsAtOnce(t, c, b, k);
    }
    if clock(4 * k + 1) < clock(4 * k) {
      StopsThere(t, c, UntilDeadline(clock(4 * k)), k);
    } else if Sortable(t.plan) && NextReady(t.plan, t.slices, c) != []
              && clock(4 * k) < clock(4 * k + 2) && clock(4 * k + 3) < clock(4 * k + 2) {
      StopsThere(t, c, UntilDeadline(clock(4 * k + 2)), k);
    }
  }

  function UntilDeadline(deadline: real): Budget {
    Budget(0, 1.0, 1, deadline - 1.0, 0, 0)
  }

  lemma StopsThere(t: Turn, c: Context, b: Budget, k: nat)
    requires NamesNoLimit(t, c, b, k)
    ensures RunLoop(t, c, b, k).stop.halt == NO_LIMIT && RunLoop(t, c, b, k).trace == []
    ensures !RunLoop(t, c, b, k).endedByDispatch && RunLoop(t, c, b, k).context == c
  {
    StopNamesNoLimitIff(t, c, b, k);
  }

  lemma StopsAtOnce(t: Turn, c: Context, b: Budget, k: nat)
    requires RunLoop(t, c, b, k).trace == []
    ensures StopBefore(t, c, b, k) == Some(RunLoop(t, c, b, k).stop)
  {
  }

  // ------------------------------------------------------------- whole turns

  /** Check `p` (at reading 2p) reads later than every check before it. */
  ghost predicate LatestCheck(clock: nat -> real, p: nat) {
    forall q: nat :: q < p ==> clock(2 * q) < clock(2 * p)
  }

  /** No check that reads later than all before it is followed by an earlier reading. */
  ghost predicate NotSetBack(clock: nat -> real) {
    forall p: nat :: LatestCheck(clock, p) ==> clock(2 * p) <= clock(2 * p + 1)
  }

  ghost predicate ChecksBefore(clock: nat -> real, n: nat, deadline: real) {
    forall q: nat :: q < n ==> clock(2 * q) < deadline
  }

  lemma HonestStop(t: Turn, c: Context, b: Budget, k: nat)
    requires NotSetBack(t.env.clock) && (b.maxTime > 0.0 ==> ChecksBefore(t.env.clock, 2 * k, Deadline(b)))
    ensures !NamesNoLimit(t, c, b, k)
    ensures StopBefore(t, c, b, k).None? && b.maxTime > 0.0 ==>
              ChecksBefore(t.env.clock, 2 * (k + 1), Deadline(b))
  {
    if b.maxTime > 0.0 { HonestIteration(t.env.clock, k, Deadline(b)); }
  }

  lemma HonestIteration(clock: nat -> real, k: nat, deadline: real)
    requires NotSetBack(clock) && ChecksBefore(clock, 2 * k, deadline)
    ensures !Straddles(deadline, clock(4 * k), clock(4 * k + 1))
    ensures clock(4 * k) < deadline ==> !Straddles(deadline, clock(4 * k + 2), clock(4 * k + 3))
    ensures clock(4 * k) < deadline && clock(4 * k + 2) < deadline ==> ChecksBefore(clock, 2 * (k + 1), deadline)
  {
    var p := 2 * k;
    HonestPair(clock, p, deadline);
    if clock(2 * p) < deadline { HonestPair(clock, p + 1, deadline); }
  }

  lemma HonestPair(clock: nat -> real, p: nat, deadline: real)
    requires NotSetBack(clock) && ChecksBefore(clock, p, deadline)
    ensures !Straddles(deadline, clock(2 * p), clock(2 * p + 1))
    ensures clock(2 * p) < deadline ==> ChecksBefore(clock, p + 1, deadline)
  {
    if clock(2 * p) >= deadline { assert LatestCheck(clock, p); }
  }

  /** Either the loop ends here for a named limit or another reason, or it goes on to a state
      from which it does if it does from there. */
  lemma NamedSoFar(t: Turn, c: Context, b: Budget, k: nat) returns (next: Option<(Context, Budget)>)
    ensures next.None? ==> RunLoop(t, c, b, k).stop.halt != NO_LIMIT || NamesNoLimit(t, c, b, k)
    ensures next.Some? ==>
              var (c', b') := next.value;
              && StopBefore(t, c, b, k).None? && b' == b.(executed := b'.executed, consumed := b'.consumed)
              && b.executed < b'.executed <= b.maxSlices
              && RunLoop(t, c, b, k).stop == RunLoop(t, c', b', k + 1).stop
  {
    StopNamesNoLimitIff(t, c, b, k);
    next := None;
    if StopBefore(t, c, b, k).None? {
      var e := NextEvent(t, c, k);
      RunStep(t, c, b, k, e);
      if StopAfter(t, e, k).None? { next := Some((e.after, BudgetAfter(t, e, b, k))); }
    }
  }

  lemma {:induction false} RunNamesLimit(t: Turn, c: Context, b: Budget, k: nat)
    requires NotSetBack(t.env.clock) && (b.maxTime > 0.0 ==> ChecksBefore(t.env.clock, 2 * k, Deadline(b)))
    ensures RunLoop(t, c, b, k).stop.halt != NO_LIMIT
    decreases b.maxSlices - b.executed
  {
    HonestStop(t, c, b, k);
    var next := NamedSoFar(t, c, b, k);
    if next.Some? { RunNamesLimit(t, next.value.0, next.value.1, k + 1); }
  }

  /** The turn whose slice is blocked at every dispatch. */
  function BlockedTurn(clock: nat -> real): Turn {
    SingleTurn("a", OFFERS_NOTHING, clock, true, false)
  }

  ghost predicate StopsUnnamed(clock: nat -> real, b: Budget, k: nat) {
    var o := RunLoop(BlockedTurn(clock), EMPTY_CONTEXT, b, k);
    o.stop.halt == NO_LIMIT && o.context == EMPTY_CONTEXT
  }

  /** A budget whose deadline is check `p`, with slices enough to reach it, `k` of them used. */
  function BlockedBudget(clock: nat -> real, p: nat, k: nat): Budget {
    Budget(0, 1.0, p + 1, clock(2 * p) - 1.0, 0, k)
  }

  lemma {:induction false} Backwards(holds: nat -> bool, n: nat)
    requires holds(n) && forall j: nat :: j < n && holds(j + 1) ==> holds(j)
    ensures holds(0)
  {
    if n > 0 { Backwards(holds, n - 1); }
  }

  ghost function StopsFrom(clock: nat -> real, p: nat): nat -> bool {
    (k: nat) => StopsUnnamed(clock, BlockedBudget(clock, p, k), k)
  }

  /** The blocked turn goes on until check `p` and stops there. */
  lemma {:induction false} BlockedReaches(clock: nat -> real, p: nat)
    requires LatestCheck(clock, p) && clock(2 * p + 1) < clock(2 * p)
    ensures StopsFrom(clock, p)(0)
  {
    BlockedStops(clock, p / 2, p);
    forall j: nat | j < p / 2 && StopsFrom(clock, p)(j + 1)
      ensures StopsFrom(clock, p)(j)
    {
      BlockedStep(clock, j, p);
    }
    Backwards(StopsFrom(clock, p), p / 2);
  }

  lemma EarlierChecks(clock: nat -> real, k: nat, p: nat)
    requires LatestCheck(clock, p) && 2 * k + 1 < p
    ensures clock(4 * k) < clock(2 * p) && clock(4 * k + 2) < clock(2 * p)
  {
    var q := 2 * k;
    assert clock(2 * q) < clock(2 * p) && clock(2 * (q + 1)) < clock(2 * p);
  }

  lemma BlockedStops(clock: nat -> real, k: nat, p: nat)
    requires LatestCheck(clock, p) && clock(2 * p + 1) < clock(2 * p) && 2 * k <= p <= 2 * k + 1
    ensures StopsFrom(clock, p)(k)
  {
    SinglePlan("a");
    SingleReady("a", EMPTY_CONTEXT);
    PairAt(clock, k, p);
    StopsThere(BlockedTurn(clock), EMPTY_CONTEXT, BlockedBudget(clock, p, k), k);
  }

  lemma PairAt(clock: nat -> real, k: nat, p: nat)
    requires LatestCheck(clock, p) && clock(2 * p + 1) < clock(2 * p) && 2 * k <= p <= 2 * k + 1
    ensures if p == 2 * k then Straddles(clock(2 * p), clock(4 * k), clock(4 * k + 1))
            else clock(4 * k) < clock(2 * p) && Straddles(clock(2 * p), clock(4 * k + 2), clock(4 * k + 3))
  {
    assert 2 * (2 * k) == 4 * k && 2 * (2 * k + 1) == 4 * k + 2;
  }

  lemma BlockedStep(clock: nat -> real, k: nat, p: nat)
    requires LatestCheck(clock, p) && 2 * k + 1 < p
    ensures StopsFrom(clock, p)(k + 1) ==> StopsFrom(clock, p)(k)
  {
    var t, b := BlockedTurn(clock), BlockedBudget(clock, p, k);
    EarlierChecks(clock, k, p);
    SinglePlan("a");
    SingleReady("a", EMPTY_CONTEXT);
    SingleOutcome("a", EMPTY_CONTEXT);
    var e := NextEvent(t, EMPTY_CONTEXT, k);
    RunStep(t, EMPTY_CONTEXT, b, k, e);
    assert BudgetAfter(t, e, b, k) == BlockedBudget(clock, p, k + 1);
  }

  /** Exactly under which clocks no turn that the budget stops reports that budget was
      available: those with no check that reads later than all checks before it and later
      than the reading that follows it. */
  lemma BudgetHaltHasCauseIff(clock: nat -> real)
    ensures (forall t: Turn, c, b :: t.env.clock == clock ==> RunTurn(t, c, b).stop.halt != NO_LIMIT)
            <==> NotSetBack(clock)
  {
    if NotSetBack(clock) {
      forall t: Turn, c, b | t.env.clock == clock
        ensures RunTurn(t, c, b).stop.halt != NO_LIMIT
      {
        RunNamesLimit(t, c, b, 0);
      }
    } else {
      var p: nat :| LatestCheck(clock, p) && clock(2 * p + 1) < clock(2 * p);
      var t, b := BlockedTurn(clock), BlockedBudget(clock, p, 0);
      BlockedReaches(clock, p);
      SinglePlan("a");
      assert "a" in Ids(t.plan);
      assert RunTurn(t, EMPTY_CONTEXT, b).stop.halt == NO_LIMIT;
    }
  }

  ghost predicate NonDecreasing(clock: nat -> real) {
    forall i, j :: i <= j ==> clock(i) <= clock(j)
  }

  /** Under a clock that never runs backwards a budget halt names the limit it hit. */
  lemma BudgetHaltHasCause(t: Turn, c: Context, b: Budget)
    requires NonDecreasing(t.env.clock)
    ensures RunTurn(t, c, b).stop.halt != NO_LIMIT
  {
    BudgetHaltHasCauseIff(t.env.clock);
  }

  /** A failing input: a clock set back by ten seconds after the first check. */
  lemma ClockSetBack(t: Turn, c: Context)
    requires t.env.clock == ((i: nat) => if i == 0 then 10.0 else 0.0)
    ensures RunLoop(t, c, Budget(0, 5.0, 1, 0.0, 0, 0), 0).stop.halt == NO_LIMIT
  {
    assert t.env.clock(4 * 0) == 10.0 && t.env.clock(4 * 0 + 1) == 0.0;
  }
}
