/** Turn after turn: what any number of turns keeps, and how much work they do. */
module SessionTheory {
  import opened Sequences
  import opened TierContracts
  import opened PlanGraph
  import opened TierDispatcher
  import opened TurnBudget
  import opened OrchestrationLoop
  import opened RunTheory
  import opened OneNodePlan

  datatype TurnInput = TurnInput(turn: Turn, budget: Budget)

  /** The context the next turn starts from: a turn whose save failed is forgotten. */
  ghost function ContextAfter(i: TurnInput, c: Context): Context {
    var o := RunTurn(i.turn, c, i.budget);
    if o.stop.halt == PersistFailed then c else o.context
  }

  ghost function CommittedTrace(i: TurnInput, c: Context): seq<Event> {
    var o := RunTurn(i.turn, c, i.budget);
    if o.stop.halt == PersistFailed then [] else o.trace
  }

  ghost function SessionContext(turns: seq<TurnInput>, c: Context): Context {
    if turns == [] then c else SessionContext(turns[1..], ContextAfter(turns[0], c))
  }

  ghost function SessionTrace(turns: seq<TurnInput>, c: Context): seq<Event> {
    if turns == [] then [] else CommittedTrace(turns[0], c) + SessionTrace(turns[1..], ContextAfter(turns[0], c))
  }

  lemma {:induction false} SessionIsChain(plan: Plan, turns: seq<TurnInput>, c: Context)
    requires forall i :: 0 <= i < |turns| ==> turns[i].turn.plan == plan
    ensures Chain(plan, c, SessionTrace(turns, c), SessionContext(turns, c))
  {
    if turns != [] {
      RunLoopIsChain(turns[0].turn, c, turns[0].budget, 0);
      var c1 := ContextAfter(turns[0], c);
      SessionIsChain(plan, turns[1..], c1);
      ChainJoin(plan, c, CommittedTrace(turns[0], c), c1, SessionTrace(turns[1..], c1), SessionContext(turns, c));
    }
  }

  // ------------------------------------------------- every dispatch really made

  /** What one turn of a session did: all its dispatches, whether its save failed, and the
      contexts it started from and handed on. */
  datatype Made = Made(trace: seq<Event>, lost: bool, before: Context, after: Context)

  ghost function MadeBy(i: TurnInput, c: Context): Made {
    var o := RunTurn(i.turn, c, i.budget);
    Made(o.trace, o.stop.halt == PersistFailed, c, ContextAfter(i, c))
  }

  ghost function Session(turns: seq<TurnInput>, c: Context): seq<Made> {
    if turns == [] then [] else [MadeBy(turns[0], c)] + Session(turns[1..], ContextAfter(turns[0], c))
  }

  /** All dispatches of a session, those of turns that failed to save included. */
  function Dispatches(session: seq<Made>): seq<Event> {
    if session == [] then [] else session[0].trace + Dispatches(session[1..])
  }

  /** How many turns of a session failed to save and were forgotten. */
  function LostTurns(session: seq<Made>): nat {
    if session == [] then 0 else (if session[0].lost then 1 else 0) + LostTurns(session[1..])
  }

  lemma EffectiveConcat(plan: Plan, a: seq<Event>, b: seq<Event>)
    ensures EffectiveCount(plan, a + b) == EffectiveCount(plan, a) + EffectiveCount(plan, b)
  {
    FilterConcat(a, b, Effective(plan));
  }

  lemma EffectiveOne(plan: Plan, e: Event)
    ensures EffectiveCount(plan, [e]) == if Effective(plan)(e) then 1 else 0
  {
    FilterSnoc([], e, Effective(plan));
    assert [] + [e] == [e];
  }

  /** The context with the retries left out of account. */
  function Bare(c: Context): Context {
    c.(retries := map[], maxRetries := 0)
  }

  /** How many nodes are neither completed nor failed. */
  function OpenCount(order: seq<Id>, c: Context): nat {
    Total(order, Bare(c))
  }

  lemma {:induction false} SomeOpen(order: seq<Id>, c: Context, id: Id)
    requires id in order && id !in c.completed && id !in c.failed
    ensures OpenCount(order, c) >= 1
  {
    if order[0] != id { SomeOpen(order[1..], c, id); }
  }

  /** A legal step is of an open node, and a success closes it. */
  lemma StepTakesOpen(plan: Plan, e: Event)
    requires LegalStep(plan, e)
    ensures OpenCount(StableOrder(plan), e.before) >= 1
    ensures ResultOf(plan, e).status == Success && e.slice.nodeId != "" ==>
              OpenCount(StableOrder(plan), e.after) < OpenCount(StableOrder(plan), e.before)
  {
    var order, id := StableOrder(plan), e.slice.nodeId;
    SortableIffAcyclic(plan);
    assert id in Elems(order) && id !in Elems(e.before.completed);
    SomeOpen(order, e.before, id);
    if ResultOf(plan, e).status == Success && id != "" {
      FilterMembers(e.before.failed, Except(id));
      TotalFalls(order, Bare(e.before), Bare(e.after), id);
    }
  }

  /** Either the turn ends here with no more effective dispatches than open nodes, or it goes
      on from a context from which it does so if it does so from there. */
  lemma OpenSoFar(t: Turn, c: Context, b: Budget, k: nat) returns (next: Option<(Context, Budget)>)
    ensures var order := StableOrder(t.plan);
      && (next.None? ==> EffectiveCount(t.plan, RunLoop(t, c, b, k).trace) <= OpenCount(order, c))
      && (next.Some? ==>
            var (c', b') := next.value;
            && b'.maxSlices == b.maxSlices && b.executed < b'.executed <= b.maxSlices
            && (EffectiveCount(t.plan, RunLoop(t, c', b', k + 1).trace) <= OpenCount(order, c') ==>
                  EffectiveCount(t.plan, RunLoop(t, c, b, k).trace) <= OpenCount(order, c)))
  {
    next := None;
    if StopBefore(t, c, b, k).None? {
      var e := NextEvent(t, c, k);
      NextEventLegal(t, c, b, k);
      StepTakesOpen(t.plan, e);
      StepMeasure(t.plan, e);
      RunStep(t, c, b, k, e);
      EffectiveOne(t.plan, e);
      if StopAfter(t, e, k).None? {
        var b' := BudgetAfter(t, e, b, k);
        EffectiveConcat(t.plan, [e], RunLoop(t, e.after, b', k + 1).trace);
        next := Some((e.after, b'));
      }
    }
  }

  lemma {:induction false} TurnTakesOpen(t: Turn, c: Context, b: Budget, k: nat)
    ensures EffectiveCount(t.plan, RunLoop(t, c, b, k).trace) <= OpenCount(StableOrder(t.plan), c)
    decreases b.maxSlices - b.executed
  {
    var next := OpenSoFar(t, c, b, k);
    if next.Some? { TurnTakesOpen(t, next.value.0, next.value.1, k + 1); }
  }

  lemma OpenBound(plan: Plan, c: Context)
    ensures OpenCount(StableOrder(plan), c) <= |Ids(plan)|
  {
    ExtendRunsDry(plan, []);
    PartialSize(plan, StableOrder(plan));
    TotalBound(StableOrder(plan), Bare(c));
  }

  /** A turn that is kept pays for its effective dispatches out of the measure; one that is
      lost makes at most one for each node. */
  ghost predicate Pays(plan: Plan, m: Made) {
    if m.lost then EffectiveCount(plan, m.trace) <= |Ids(plan)| && m.after == m.before
    else EffectiveCount(plan, m.trace) + Total(StableOrder(plan), m.after) <= Total(StableOrder(plan), m.before)
  }

  lemma TurnPays(i: TurnInput, c: Context)
    ensures Pays(i.turn.plan, MadeBy(i, c))
  {
    TurnTakesOpen(i.turn, c, i.budget, 0);
    OpenBound(i.turn.plan, c);
    RunLoopIsChain(i.turn, c, i.budget, 0);
    var o := RunLoop(i.turn, c, i.budget, 0);
    ChainMeasure(i.turn.plan, c, o.trace, o.context);
  }

  ghost predicate Accounted(plan: Plan, session: seq<Made>, c: Context) {
    session == []
    || (session[0].before == c && Pays(plan, session[0]) && Accounted(plan, session[1..], session[0].after))
  }

  lemma {:induction false} SessionAccounted(plan: Plan, turns: seq<TurnInput>, c: Context)
    requires forall i :: 0 <= i < |turns| ==> turns[i].turn.plan == plan
    ensures Accounted(plan, Session(turns, c), c)
  {
    if turns != [] {
      var c1 := ContextAfter(turns[0], c);
      TurnPays(turns[0], c);
      SessionAccounted(plan, turns[1..], c1);
      assert Session(turns, c)[1..] == Session(turns[1..], c1);
    }
  }

  /** The effective dispatches really made number at most what the measure allows, and one
      more for each node in each turn that failed to save. */
  lemma {:induction false} AllDispatchesPaidFor(plan: Plan, session: seq<Made>, c: Context)
    requires Accounted(plan, session, c)
    ensures EffectiveCount(plan, Dispatches(session)) <=
            Total(StableOrder(plan), c) + LostTurns(session) * |Ids(plan)|
  {
    if session != [] {
      AllDispatchesPaidFor(plan, session[1..], session[0].after);
      EffectiveConcat(plan, session[0].trace, Dispatches(session[1..]));
      OneMoreLost(LostTurns(session[1..]), |Ids(plan)|);
    }
  }

  lemma OneMoreLost(lost: nat, n: nat)
    ensures (1 + lost) * n == n + lost * n
  {
  }

  /** A node that had failed before the session is not dispatched, not even by a turn that is
      forgotten. */
  lemma {:induction false} AllDispatchesAvoid(plan: Plan, turns: seq<TurnInput>, c: Context, f: Id)
    requires forall i :: 0 <= i < |turns| ==> turns[i].turn.plan == plan
    requires Sound(plan, c) && f in c.failed
    ensures forall e :: e in Dispatches(Session(turns, c)) ==> e.slice.nodeId != f
  {
    if turns != [] {
      TurnAvoids(turns[0], c, f);
      AllDispatchesAvoid(plan, turns[1..], ContextAfter(turns[0], c), f);
      assert Session(turns, c)[1..] == Session(turns[1..], ContextAfter(turns[0], c));
    }
  }

  lemma TurnAvoids(i: TurnInput, c: Context, f: Id)
    requires Sound(i.turn.plan, c) && f in c.failed
    ensures forall e :: e in MadeBy(i, c).trace ==> e.slice.nodeId != f
    ensures Sound(i.turn.plan, ContextAfter(i, c)) && f in ContextAfter(i, c).failed
  {
    RunLoopIsChain(i.turn, c, i.budget, 0);
    var o := RunLoop(i.turn, c, i.budget, 0);
    FailedNeverDispatched(i.turn.plan, c, o.trace, o.context, f);
    RunIsSafe(i.turn.plan, c, o.trace, o.context);
  }

  /** Any number of turns, whatever their slices, budgets and dispatchers, keep a context
      sound; completed only grows, in dependency order, and never by a dependent of a node
      that had failed. A turn that failed to save is rolled back. */
  lemma SessionIsSafe(plan: Plan, turns: seq<TurnInput>, c0: Context)
    requires forall i :: 0 <= i < |turns| ==> turns[i].turn.plan == plan
    requires Sound(plan, c0)
    ensures var c := SessionContext(turns, c0);
      && Sound(plan, c) && (RetriesWithin(c0) ==> RetriesWithin(c)) && c0.completed <= c.completed
      && InOrderFrom(plan, c.completed, |c0.completed|)
      && (forall f, w :: f in c0.failed && Dependents(plan, w) && w[0] == f ==> w[|w| - 1] !in c.completed)
    ensures forall e :: e in Dispatches(Session(turns, c0)) ==> e.slice.nodeId !in c0.failed
  {
    var c := SessionContext(turns, c0);
    SessionIsChain(plan, turns, c0);
    RunIsSafe(plan, c0, SessionTrace(turns, c0), c);
    ChainMeasure(plan, c0, SessionTrace(turns, c0), c);
    forall f | f in c0.failed
      ensures forall w :: Dependents(plan, w) && w[0] == f ==> w[|w| - 1] !in c.completed
      ensures forall e :: e in Dispatches(Session(turns, c0)) ==> e.slice.nodeId != f
    {
      FailureIsContained(plan, c0, SessionTrace(turns, c0), c, f);
      AllDispatchesAvoid(plan, turns, c0, f);
    }
  }

  /** The effective dispatches that any number of turns make, whatever the dispatcher answers,
      number at most nodes times (retries + 1), plus the nodes once for each turn whose save
      failed: such a turn's dispatches are made, then forgotten. */
  lemma SessionIsBounded(plan: Plan, turns: seq<TurnInput>, c0: Context)
    requires forall i :: 0 <= i < |turns| ==> turns[i].turn.plan == plan
    requires RetriesWithin(c0)
    ensures EffectiveCount(plan, Dispatches(Session(turns, c0))) <=
            |Ids(plan)| * (Max(0, c0.maxRetries) + 1) + LostTurns(Session(turns, c0)) * |Ids(plan)|
  {
    SessionAccounted(plan, turns, c0);
    AllDispatchesPaidFor(plan, Session(turns, c0), c0);
    OrderBound(plan, c0);
  }

  /** No turn is lost when no save fails, so then the first part of the bound holds of all
      dispatches. */
  lemma SavedSessionIsBounded(plan: Plan, turns: seq<TurnInput>, c0: Context)
    requires forall i :: 0 <= i < |turns| ==> turns[i].turn.plan == plan
    requires RetriesWithin(c0) && forall i, k :: 0 <= i < |turns| ==> !SaveFails(turns[i].turn, k)
    ensures EffectiveCount(plan, Dispatches(Session(turns, c0))) <= |Ids(plan)| * (Max(0, c0.maxRetries) + 1)
    ensures Dispatches(Session(turns, c0)) == SessionTrace(turns, c0)
  {
    SavedSessionLosesNothing(turns, c0);
    SessionIsBounded(plan, turns, c0);
  }

  lemma OrderBound(plan: Plan, c: Context)
    requires RetriesWithin(c)
    ensures Total(StableOrder(plan), c) <= |Ids(plan)| * (Max(0, c.maxRetries) + 1)
  {
    ExtendRunsDry(plan, []);
    PartialSize(plan, StableOrder(plan));
    TotalBound(StableOrder(plan), c);
    MoreTimes(|StableOrder(plan)|, |Ids(plan)|, Max(0, c.maxRetries) + 1);
  }

  lemma MoreTimes(a: nat, b: nat, n: nat)
    requires a <= b
    ensures a * n <= b * n
  {
    assert b * n == a * n + (b - a) * n;
  }

  lemma {:induction false} SavedSessionLosesNothing(turns: seq<TurnInput>, c: Context)
    requires forall i, k :: 0 <= i < |turns| ==> !SaveFails(turns[i].turn, k)
    ensures LostTurns(Session(turns, c)) == 0 && Dispatches(Session(turns, c)) == SessionTrace(turns, c)
  {
    if turns != [] {
      SavedTurnIsKept(turns[0].turn, c, turns[0].budget, 0);
      SavedSessionLosesNothing(turns[1..], ContextAfter(turns[0], c));
      assert Session(turns, c)[1..] == Session(turns[1..], ContextAfter(turns[0], c));
    }
  }

  lemma KeptSoFar(t: Turn, c: Context, b: Budget, k: nat) returns (next: Option<(Context, Budget)>)
    requires forall j :: !SaveFails(t, j)
    ensures next.None? ==> RunLoop(t, c, b, k).stop.halt != PersistFailed
    ensures next.Some? ==>
              var (c', b') := next.value;
              && b'.maxSlices == b.maxSlices && b.executed < b'.executed <= b.maxSlices
              && RunLoop(t, c, b, k).stop == RunLoop(t, c', b', k + 1).stop
  {
    next := None;
    if StopBefore(t, c, b, k).None? {
      var e := NextEvent(t, c, k);
      RunStep(t, c, b, k, e);
      if StopAfter(t, e, k).None? { next := Some((e.after, BudgetAfter(t, e, b, k))); }
    }
  }

  lemma {:induction false} SavedTurnIsKept(t: Turn, c: Context, b: Budget, k: nat)
    requires forall j :: !SaveFails(t, j)
    ensures RunLoop(t, c, b, k).stop.halt != PersistFailed
    decreases b.maxSlices - b.executed
  {
    var next := KeptSoFar(t, c, b, k);
    if next.Some? { SavedTurnIsKept(t, next.value.0, next.value.1, k + 1); }
  }

  // ------------------------------------------------------------- a failing input

  function Repeated<T>(x: T, n: nat): seq<T> {
    if n == 0 then [] else [x] + Repeated(x, n - 1)
  }

  /** One turn over a single node whose dispatch fails for good and whose save fails. */
  const LOST_TURN := TurnInput(SingleTurn("a", REFUSES, Frozen(), false, true), Fresh(0, 0.0, 1, 0.0))

  ghost predicate LosesOne(m: Made) {
    && m.lost && m.before == m.after == EMPTY_CONTEXT
    && |m.trace| == 1 && m.trace[0].slice.nodeId == "a" && m.trace[0].after.failed == ["a"]
    && EffectiveCount(Single("a"), m.trace) == 1
  }

  lemma LostTurnOutcome()
    ensures LosesOne(MadeBy(LOST_TURN, EMPTY_CONTEXT))
  {
    SinglePlan("a");
    SingleReady("a", EMPTY_CONTEXT);
    SingleOutcome("a", EMPTY_CONTEXT);
    var e := NextEvent(LOST_TURN.turn, EMPTY_CONTEXT, 0);
    RunStep(LOST_TURN.turn, EMPTY_CONTEXT, LOST_TURN.budget, 0, e);
    EffectiveOne(Single("a"), e);
  }

  ghost predicate Repeats(i: TurnInput, c: Context, n: nat) {
    Session(Repeated(i, n), c) == Repeated(MadeBy(i, c), n)
  }

  lemma {:induction false} RepeatsOnce(i: TurnInput, c: Context, n: nat)
    requires ContextAfter(i, c) == c && Repeats(i, c, n)
    ensures Repeats(i, c, n + 1)
  {
    SessionCons(i, Repeated(i, n), c);
  }

  lemma {:induction false} SessionCons(i: TurnInput, rest: seq<TurnInput>, c: Context)
    ensures Session([i] + rest, c) == [MadeBy(i, c)] + Session(rest, ContextAfter(i, c))
  {
    assert ([i] + rest)[1..] == rest;
  }

  /** A turn that leaves its context alone does the same again. */
  lemma {:induction false} RepeatedSession(i: TurnInput, c: Context, n: nat)
    requires ContextAfter(i, c) == c
    ensures Repeats(i, c, n)
  {
    if n > 0 {
      RepeatedSession(i, c, n - 1);
      RepeatsOnce(i, c, n - 1);
    }
  }

  lemma {:induction false} RepeatedCounts(plan: Plan, m: Made, n: nat)
    requires m.lost && EffectiveCount(plan, m.trace) == 1
    ensures LostTurns(Repeated(m, n)) == n && EffectiveCount(plan, Dispatches(Repeated(m, n))) == n
    ensures forall e :: e in Dispatches(Repeated(m, n)) ==> e in m.trace
  {
    if n > 0 {
      RepeatedCounts(plan, m, n - 1);
      EffectiveConcat(plan, m.trace, Dispatches(Repeated(m, n - 1)));
      assert Repeated(m, n)[1..] == Repeated(m, n - 1);
    }
  }

  ghost predicate LosesAll(session: seq<Made>, n: nat) {
    && LostTurns(session) == n && EffectiveCount(Single("a"), Dispatches(session)) == n
    && forall e :: e in Dispatches(session) ==> e.slice.nodeId == "a" && "a" in e.after.failed
  }

  lemma LosesEachTime(m: Made, n: nat)
    requires LosesOne(m)
    ensures LosesAll(Repeated(m, n), n)
  {
    RepeatedCounts(Single("a"), m, n);
  }

  /** The failing inputs: in `n` turns whose saves fail, the one node of the plan fails for
      good and is dispatched `n` times, as often as the bound allows lost turns. */
  lemma LostTurnsRepeat(n: nat)
    ensures LosesAll(Session(Repeated(LOST_TURN, n), EMPTY_CONTEXT), n) && |Ids(Single("a"))| == 1
  {
    SinglePlan("a");
    LostTurnOutcome();
    RepeatedSession(LOST_TURN, EMPTY_CONTEXT, n);
    LosesEachTime(MadeBy(LOST_TURN, EMPTY_CONTEXT), n);
  }
}
