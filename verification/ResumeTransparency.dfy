/** Machines that take steps under an allowance. */
module AllowanceMachine {
  import opened Sequences

  /** In a state the machine is idle for a reason, or steps, which may end the run. */
  datatype Move<C, E, S> = Idle(why: S) | Go(event: E, next: C, ends: Option<S>)

  datatype Work<C, E, S> = Work(trace: seq<E>, state: C, stop: S, endedByStep: bool)

  /** At most `n` steps from `c`; `limit` is the reason given when the allowance is spent. */
  function Drive<C, E, S>(move: C -> Move<C, E, S>, limit: S, c: C, n: nat): Work<C, E, S> {
    if n == 0 then Work([], c, limit, false)
    else
      match move(c)
      case Idle(why) => Work([], c, why, false)
      case Go(e, next, Some(why)) => Work([e], next, why, true)
      case Go(e, next, None) => Before(e, Drive(move, limit, next, n - 1))
  }

  function Before<C, E, S>(e: E, w: Work<C, E, S>): Work<C, E, S> {
    w.(trace := [e] + w.trace)
  }

  /** A run that a step ended gives that step's reason and the state it led to. */
  lemma {:induction false} DriveEnds<C, E, S>(move: C -> Move<C, E, S>, limit: S, c: C, n: nat) returns (last: C)
    requires Drive(move, limit, c, n).endedByStep
    ensures move(last).Go? && move(last).ends == Some(Drive(move, limit, c, n).stop)
    ensures move(last).next == Drive(move, limit, c, n).state
    decreases n
  {
    last := c;
    if move(c).ends.None? {
      last := DriveEnds(move, limit, move(c).next, n - 1);
    }
  }

  /** A longer allowance does the work of a shorter one and goes on from there, unless a step
      ended the shorter one. */
  lemma {:induction false} DriveSplits<C, E, S>(move: C -> Move<C, E, S>, limit: S, c: C, a: nat, n: nat)
    requires n >= 1
    ensures var first := Drive(move, limit, c, a);
      var second := Drive(move, limit, first.state, n);
      Drive(move, limit, c, a + n) ==
      if first.endedByStep then first else second.(trace := first.trace + second.trace)
  {
    var whole := Drive(move, limit, c, n);
    assert [] + whole.trace == whole.trace;
    if a > 0 && move(c).Go? && move(c).ends.None? {
      var e, next := move(c).event, move(c).next;
      DriveSplits(move, limit, next, a - 1, n);
      var first := Drive(move, limit, next, a - 1);
      var second := Drive(move, limit, first.state, n);
      assert [e] + (first.trace + second.trace) == ([e] + first.trace) + second.trace;
    }
  }
}

/** Splitting a turn in two does not change the work done. */
module ResumeTransparency {
  import opened Sequences
  import opened TierContracts
  import opened PlanGraph
  import opened ReadyScheduler
  import opened TierDispatcher
  import opened TurnBudget
  import opened OrchestrationLoop
  import opened Liveness
  import opened OneNodePlan
  import opened AllowanceMachine

  /** The dispatcher's answer depends on the slice and the context only. */
  ghost predicate Steady(t: Turn) {
    forall i, j, s, c :: t.env.world(i, s, c) == t.env.world(j, s, c)
  }

  /** What one iteration does when only the slice limit binds. */
  ghost function LoopMove(t: Turn, c: Context): Move<Context, Event, Stop> {
    if !Sortable(t.plan) then Idle(Stop(SortRaised, None))
    else if NextReady(t.plan, t.slices, c) == [] then Idle(IdleStop(t.plan, c))
    else
      var e := NextEvent(t, c, 0);
      Go(e, e.after, StopAfter(t, e, 0))
  }

  const LIMIT := Stop(BudgetHalt(SliceLimit), None)

  ghost function Mover(t: Turn): Context -> Move<Context, Event, Stop> {
    (x: Context) => LoopMove(t, x)
  }

  ghost function LoopWork(t: Turn, c: Context, n: nat): Work<Context, Event, Stop> {
    Drive(Mover(t), LIMIT, c, n)
  }

  ghost predicate SameWork(o: Outcome, w: Work<Context, Event, Stop>) {
    o.trace == w.trace && o.context == w.state && o.stop == w.stop && o.endedByDispatch == w.endedByStep
  }

  lemma MoveOfLoop(t: Turn, c: Context, b: Budget, k: nat)
    requires Steady(t) && SavesWork(t) && Unlimited(b) && b.executed < b.maxSlices
    ensures LoopMove(t, c).Idle? <==> StopBefore(t, c, b, k).Some?
    ensures LoopMove(t, c).Idle? ==> StopBefore(t, c, b, k) == Some(LoopMove(t, c).why)
    ensures LoopMove(t, c).Go? ==> LoopMove(t, c).event == NextEvent(t, c, k)
                                   && LoopMove(t, c).next == LoopMove(t, c).event.after
                                   && LoopMove(t, c).ends == StopAfter(t, NextEvent(t, c, k), k)
                                   && LoopMove(t, c).ends == StopAfter(t, NextEvent(t, c, k), 0)
    ensures LoopMove(t, c).Go? ==> var next := BudgetAfter(t, NextEvent(t, c, k), b, k);
              Unlimited(next) && next.maxSlices == b.maxSlices && next.executed == b.executed + 1
  {
    if LoopMove(t, c).Go? {
      var s := NextReady(t.plan, t.slices, c)[0];
      assert t.env.world(k, s, c) == t.env.world(0, s, c);
    }
    assert !SaveFails(t, k) && !SaveFails(t, 0);
  }

  /** A steady loop without token or time limit is the machine: only the number of slices
      left matters, not the iteration count or the tokens spent so far. */
  lemma {:induction false} LoopIsMachine(t: Turn, c: Context, b: Budget, k: nat)
    requires Steady(t) && SavesWork(t) && Unlimited(b) && b.executed <= b.maxSlices
    ensures SameWork(RunLoop(t, c, b, k), LoopWork(t, c, b.maxSlices - b.executed))
    decreases b.maxSlices - b.executed
  {
    if b.executed < b.maxSlices {
      MoveOfLoop(t, c, b, k);
      if LoopMove(t, c).Go? {
        var e := NextEvent(t, c, k);
        RunStep(t, c, b, k, e);
        if LoopMove(t, c).ends.None? {
          var next := BudgetAfter(t, e, b, k);
          LoopIsMachine(t, e.after, next, k + 1);
        }
      }
    }
  }

  // -------------------------------------------- what a turn ended by a dispatch leaves

  lemma {:induction false} SameReady(plan: Plan, slices: seq<Slice>, c: Context, c': Context, order: seq<Id>)
    requires c.completed == c'.completed && c.failed == c'.failed
    ensures ReadyAlong(plan, slices, c, order) == ReadyAlong(plan, slices, c', order)
  {
    if order != [] { SameReady(plan, slices, c, c', order[1..]); }
  }

  /** A retry leaves its slice ready. A permanent failure that leaves nothing ready is named
      again, in the same words, by the idle loop. */
  lemma EndOfTurn(t: Turn, c: Context)
    requires LoopMove(t, c).Go? && LoopMove(t, c).ends.Some? && SavesWork(t)
    ensures var why, after := LoopMove(t, c).ends.value, LoopMove(t, c).next;
      && why.halt in {RetryHalt, PermanentFailure}
      && (why.halt == RetryHalt ==> NextReady(t.plan, t.slices, after) != [])
      && (NextReady(t.plan, t.slices, after) == [] ==> why == IdleStop(t.plan, after))
  {
    var e := NextEvent(t, c, 0);
    NextReadyHead(t.plan, t.slices, c);
    assert !SaveFails(t, 0);
    ResultShape(e.world, t.plan, e.slice, c);
    if e.after.completed == c.completed && e.after.failed == c.failed {
      SameReady(t.plan, t.slices, c, e.after, StableOrder(t.plan));
    } else {
      assert e.slice.nodeId in Ids(t.plan) && e.slice.nodeId !in Elems(e.after.completed);
    }
  }

  /** The longer work is the first part followed by the second exactly when no step ended the
      first part, or nothing is ready after it. */
  lemma WorkJoinsIff(t: Turn, c: Context, m: nat, n: nat)
    requires n >= 1 && SavesWork(t)
    ensures var first := LoopWork(t, c, m);
      var second, whole := LoopWork(t, first.state, n), LoopWork(t, c, m + n);
      (whole.trace == first.trace + second.trace && whole.state == second.state && whole.stop == second.stop)
      <==> !first.endedByStep || NextReady(t.plan, t.slices, first.state) == []
  {
    DriveSplits(Mover(t), LIMIT, c, m, n);
    var first := LoopWork(t, c, m);
    if first.endedByStep {
      var last := DriveEnds(Mover(t), LIMIT, c, m);
      EndOfTurn(t, last);
      var second := LoopWork(t, first.state, n);
      if NextReady(t.plan, t.slices, first.state) == [] {
        assert first.trace + [] == first.trace;
      } else {
        assert LoopMove(t, first.state).Go?;
        assert |second.trace| >= 1;
      }
    }
  }

  /** Whether the halt reason shows that a dispatch ended the turn with work left over. */
  ghost predicate LeftReady(t: Turn, o: Outcome) {
    o.stop.halt in {RetryHalt, PermanentFailure} && NextReady(t.plan, t.slices, o.context) != []
  }

  lemma LeftReadyIff(t: Turn, c: Context, m: nat, o: Outcome)
    requires SavesWork(t) && SameWork(o, LoopWork(t, c, m))
    ensures LeftReady(t, o) <==> o.endedByDispatch && NextReady(t.plan, t.slices, o.context) != []
    decreases m
  {
    if o.endedByDispatch {
      var last := DriveEnds(Mover(t), LIMIT, c, m);
      EndOfTurn(t, last);
    } else if o.stop.halt in {RetryHalt, PermanentFailure} {
      IdleLeavesNothing(t, c, m);
    }
  }

  lemma {:induction false} IdleLeavesNothing(t: Turn, c: Context, m: nat)
    requires !LoopWork(t, c, m).endedByStep && LoopWork(t, c, m).stop.halt in {RetryHalt, PermanentFailure}
    ensures NextReady(t.plan, t.slices, LoopWork(t, c, m).state) == []
    decreases m
  {
    if m > 0 && LoopMove(t, c).Go? { IdleLeavesNothing(t, LoopMove(t, c).next, m - 1); }
  }

  // ------------------------------------------------------------ two turns or one

  /** `o` is what `o1` followed by `o2` did. */
  ghost predicate Joins(o: Outcome, o1: Outcome, o2: Outcome) {
    o.trace == o1.trace + o2.trace && o.context == o2.context && o.stop == o2.stop
  }

  /** `o` joins the two exactly unless the first left a slice ready; then `o` stops with it. */
  ghost predicate JoinsUnlessLeft(t: Turn, o: Outcome, o1: Outcome, o2: Outcome) {
    && (Joins(o, o1, o2) <==> !LeftReady(t, o1))
    && (LeftReady(t, o1) ==> o.trace == o1.trace && o.context == o1.context && o.stop == o1.stop)
  }

  /** Resume transparency: with no token or time limit and a dispatcher that depends on the
      slice and the context only, a turn of `m` slices followed by a turn of `n` slices from
      its final context dispatches the same slices, and ends in the same context for the same
      reason, as one turn of `m + n` slices, exactly unless the first turn halted for a retry
      or a permanent failure and left a slice ready. In that case the longer turn stops where
      the first did. */
  lemma {:induction false} TurnsComposeIff(t: Turn, c: Context, m: int, n: int, t1: real, t2: real, t3: real)
    requires Steady(t) && SavesWork(t) && m >= 1 && n >= 1
    ensures var o1 := RunTurn(t, c, Fresh(0, 0.0, m, t1));
      var o2, o := RunTurn(t, o1.context, Fresh(0, 0.0, n, t2)), RunTurn(t, c, Fresh(0, 0.0, m + n, t3));
      JoinsUnlessLeft(t, o, o1, o2)
  {
    var b1 := TurnWork(t, c, m, t1);
    var b := TurnWork(t, c, m + n, t3);
    var b2 := TurnWork(t, LoopWork(t, c, m).state, n, t2);
    JoinsFinished(t, c, m, n, b, b1, b2);
  }

  function OutcomeOf(w: Work<Context, Event, Stop>, b: Budget): Outcome {
    Outcome(w.trace, w.state, b, w.stop, w.endedByStep)
  }

  lemma {:induction false} TurnWork(t: Turn, c: Context, m: int, now: real) returns (b: Budget)
    requires Steady(t) && SavesWork(t) && m >= 1
    ensures RunTurn(t, c, Fresh(0, 0.0, m, now)) == Finish(t.plan, OutcomeOf(LoopWork(t, c, m), b))
  {
    b := RunLoop(t, c, Fresh(0, 0.0, m, now), 0).budget;
    LoopIsMachine(t, c, Fresh(0, 0.0, m, now), 0);
  }

  lemma {:induction false} JoinsFinished(t: Turn, c: Context, m: nat, n: nat, b: Budget, b1: Budget, b2: Budget)
    requires n >= 1 && SavesWork(t)
    ensures var w1 := LoopWork(t, c, m);
      JoinsUnlessLeft(t, Finish(t.plan, OutcomeOf(LoopWork(t, c, m + n), b)), Finish(t.plan, OutcomeOf(w1, b1)),
                      Finish(t.plan, OutcomeOf(LoopWork(t, w1.state, n), b2)))
  {
    var w1 := LoopWork(t, c, m);
    var l1, l2 := OutcomeOf(w1, b1), OutcomeOf(LoopWork(t, w1.state, n), b2);
    WorkJoinsIff(t, c, m, n);
    LeftReadyIff(t, c, m, l1);
    DriveSplits(Mover(t), LIMIT, c, m, n);
    if LeftReady(t, l1) {
      assert LoopMove(t, l1.context).Go?;
      assert |l2.trace| >= 1;
    }
  }

  /** A turn whose loop exits at the slice-limit check is continued by the next as by a longer
      turn. */
  lemma LimitExitComposes(t: Turn, c: Context, m: int, n: int, t1: real, t2: real, t3: real)
    requires Steady(t) && SavesWork(t) && m >= 1 && n >= 1
    requires RunLoop(t, c, Fresh(0, 0.0, m, t1), 0).stop.halt == BudgetHalt(SliceLimit)
    ensures var o1 := RunTurn(t, c, Fresh(0, 0.0, m, t1));
      Joins(RunTurn(t, c, Fresh(0, 0.0, m + n, t3)), o1, RunTurn(t, o1.context, Fresh(0, 0.0, n, t2)))
  {
    TurnsComposeIff(t, c, m, n, t1, t2, t3);
  }

  // ------------------------------------------------------------ a failing input

  /** A retry in the first of two turns of one slice: the second turn dispatches the slice
      again, a single turn of two slices does not. */
  lemma RetryDoesNotCompose()
    ensures var t := SingleTurn("a", FALTERS, Frozen(), true, true);
      var o1 := RunTurn(t, EMPTY_CONTEXT, Fresh(0, 0.0, 1, 0.0));
      && Steady(t) && SavesWork(t) && o1.stop.halt == RetryHalt
      && !Joins(RunTurn(t, EMPTY_CONTEXT, Fresh(0, 0.0, 2, 0.0)), o1, RunTurn(t, o1.context, Fresh(0, 0.0, 1, 0.0)))
  {
    var t, b := SingleTurn("a", FALTERS, Frozen(), true, true), Fresh(0, 0.0, 1, 0.0);
    SinglePlan("a");
    SingleReady("a", EMPTY_CONTEXT);
    SingleOutcome("a", EMPTY_CONTEXT);
    var e := NextEvent(t, EMPTY_CONTEXT, 0);
    RunStep(t, EMPTY_CONTEXT, b, 0, e);
    SingleReady("a", e.after);
    TurnsComposeIff(t, EMPTY_CONTEXT, 1, 1, 0.0, 0.0, 0.0);
  }
}
