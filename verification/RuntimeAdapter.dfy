/** The turn boundary: restore the plan's latest checkpoint, run one turn, store the
    checkpoints it saved. */
module RuntimeAdapter {
  import opened Sequences
  import opened TierContracts
  import opened TurnBudget
  import opened ExecutionStateStore
  import opened OrchestrationLoop
  import opened RunTheory
  import opened SessionTheory

  /** The store as the session state carries it; an absent payload is `NEW_SESSION`. */
  datatype StorePayload = StorePayload(limit: int, checkpoints: Checkpoints)

  const NEW_SESSION := StorePayload(10, [])

  /** The plan's latest checkpoint, or else the context the caller supplied, or a fresh one. */
  function Restored(p: StorePayload, planId: string, supplied: Option<Context>): Context {
    match Latest(Surviving(p.checkpoints, Max(1, p.limit), AllPlans(p.checkpoints)), Normal(planId))
    case Some(c) => c.context
    case None => if supplied.Some? then supplied.value else EMPTY_CONTEXT
  }

  /** What one orchestrated call asks for. */
  datatype Request = Request(turn: Turn, supplied: Option<Context>, params: Params, now: real)

  function BudgetOf(r: Request): Budget {
    FreshFor(r.params, r.now)
  }

  /** Runs one turn for the plan. A failed save, or a plan that cannot be sorted, leaves the
      session state as it was. */
  method DomainStep(p: StorePayload, planId: string, r: Request) returns (p': StorePayload, o: Outcome)
    requires r.turn.persist
    ensures o == RunTurn(r.turn, Restored(p, planId, r.supplied), BudgetOf(r))
    ensures p' == NextPayload(p, planId, o)
  {
    var store := new ExecutionStateStore.FromDict(p.limit, p.checkpoints);
    var latest := store.LoadLatestCheckpoint(planId);
    var context := if latest.Some? then latest.value.context
                   else if r.supplied.Some? then r.supplied.value else EMPTY_CONTEXT;
    var budget := new TurnBudget.FromParams(r.params, r.now);
    o := ExecuteDagUntil(r.turn, context, budget, store, planId);
    if o.stop.halt == PersistFailed || o.stop.halt == SortRaised {
      return p, o;
    }
    var limit, checkpoints := store.ToDict();
    p' := StorePayload(limit, checkpoints);
  }

  function NextPayload(p: StorePayload, planId: string, o: Outcome): StorePayload {
    if o.stop.halt == PersistFailed || o.stop.halt == SortRaised then p
    else
      var limit := Max(1, p.limit);
      StorePayload(limit, SaveAll(Surviving(p.checkpoints, limit, AllPlans(p.checkpoints)), limit,
                                  NewCheckpoints(planId, Above(p.checkpoints), Afters(SavedEvents(o)))))
  }

  /** A payload as earlier turns leave it. */
  ghost predicate WellKept(p: StorePayload) {
    p.limit >= 1 && DistinctIds(p.checkpoints) && forall q :: |ForPlan(p.checkpoints, q)| <= p.limit
  }

  lemma WellKeptSurvives(p: StorePayload)
    requires WellKept(p)
    ensures Surviving(p.checkpoints, Max(1, p.limit), AllPlans(p.checkpoints)) == p.checkpoints
  {
    FilterAll(p.checkpoints, Survivors(p.checkpoints, p.limit, AllPlans(p.checkpoints)));
  }

  lemma FreshCheckpoints(cs: Checkpoints, planId: string, contexts: seq<Context>)
    requires DistinctIds(cs)
    ensures DistinctIds(cs + NewCheckpoints(planId, Above(cs), contexts))
  {
    var all := cs + NewCheckpoints(planId, Above(cs), contexts);
    forall i, j | 0 <= i < j < |all|
      ensures all[i].checkpointId != all[j].checkpointId
    {
      if i < |cs| { assert cs[i] in cs; }
    }
  }

  /** The listing of every plan after a turn for `planId`: that plan's grows by the turn's
      checkpoints within the limit, the others stay as they were. */
  lemma TurnListing(p: StorePayload, planId: string, o: Outcome, q: string)
    requires WellKept(p) && !(o.stop.halt == PersistFailed || o.stop.halt == SortRaised)
    ensures var news := NewCheckpoints(planId, Above(p.checkpoints), Afters(SavedEvents(o)));
      ForPlan(NextPayload(p, planId, o).checkpoints, q) ==
      if q == Normal(planId) then Tail(ForPlan(p.checkpoints, q) + news, p.limit) else ForPlan(p.checkpoints, q)
  {
    var news := NewCheckpoints(planId, Above(p.checkpoints), Afters(SavedEvents(o)));
    WellKeptSurvives(p);
    FreshCheckpoints(p.checkpoints, planId, Afters(SavedEvents(o)));
    StoreRefinesHistory(p.checkpoints, p.limit, news, q);
    if q == Normal(planId) {
      FilterAll(news, ByPlan(q));
      assert news == [] ==> ForPlan(p.checkpoints, q) + news == ForPlan(p.checkpoints, q);
    } else {
      FilterNone(news, ByPlan(q));
    }
  }

  lemma {:induction false} SaveAllDistinct(cs: Checkpoints, limit: int, news: Checkpoints)
    requires DistinctIds(cs + news)
    ensures DistinctIds(SaveAll(cs, limit, news))
    decreases |news|
  {
    if news == [] {
      assert cs + news == cs;
    } else {
      assert cs + news == (cs + [news[0]]) + news[1..];
      PruneDistinct(cs + [news[0]], news[0].planId, limit, news[1..]);
      SaveAllDistinct(SaveOne(cs, limit, news[0]), limit, news[1..]);
    }
  }

  lemma KeptWithin(p: StorePayload, planId: string, o: Outcome, q: string)
    requires WellKept(p) && !(o.stop.halt == PersistFailed || o.stop.halt == SortRaised)
    ensures |ForPlan(NextPayload(p, planId, o).checkpoints, q)| <= p.limit
  {
    TurnListing(p, planId, o, q);
  }

  lemma StaysDistinct(p: StorePayload, planId: string, o: Outcome)
    requires WellKept(p) && !(o.stop.halt == PersistFailed || o.stop.halt == SortRaised)
    ensures DistinctIds(NextPayload(p, planId, o).checkpoints)
  {
    WellKeptSurvives(p);
    FreshCheckpoints(p.checkpoints, planId, Afters(SavedEvents(o)));
    SaveAllDistinct(p.checkpoints, p.limit, NewCheckpoints(planId, Above(p.checkpoints), Afters(SavedEvents(o))));
  }

  lemma StaysWellKept(p: StorePayload, planId: string, o: Outcome)
    requires WellKept(p)
    ensures WellKept(NextPayload(p, planId, o))
  {
    if !(o.stop.halt == PersistFailed || o.stop.halt == SortRaised) {
      StaysDistinct(p, planId, o);
      forall q
        ensures |ForPlan(NextPayload(p, planId, o).checkpoints, q)| <= p.limit
      {
        KeptWithin(p, planId, o, q);
      }
    }
  }

  lemma {:induction false} RaisedBeforeDispatch(t: Turn, c: Context, b: Budget, k: nat)
    ensures RunLoop(t, c, b, k).stop.halt == SortRaised ==>
              !PlanGraph.Sortable(t.plan) && RunLoop(t, c, b, k).trace == [] && RunLoop(t, c, b, k).context == c
    decreases b.maxSlices - b.executed
  {
    if StopBefore(t, c, b, k).None? {
      var e := NextEvent(t, c, k);
      RunStep(t, c, b, k, e);
      if StopAfter(t, e, k).None? {
        RaisedBeforeDispatch(t, e.after, BudgetAfter(t, e, b, k), k + 1);
      }
    }
  }

  lemma TailEnd(held: Checkpoints, news: Checkpoints, limit: int)
    requires limit >= 1 && |held| <= limit
    ensures news == [] ==> Tail(held + news, limit) == held
    ensures news != [] ==>
              var kept := Tail(held + news, limit); kept != [] && kept[|kept| - 1] == news[|news| - 1]
  {
  }

  lemma RestoredIsLatest(p: StorePayload, planId: string, supplied: Option<Context>)
    requires WellKept(p)
    ensures Restored(p, planId, supplied) ==
            match Latest(p.checkpoints, Normal(planId))
            case Some(c) => c.context
            case None => if supplied.Some? then supplied.value else EMPTY_CONTEXT
  {
    WellKeptSurvives(p);
  }

  lemma LatestAfter(p: StorePayload, planId: string, o: Outcome)
    requires WellKept(p) && !(o.stop.halt == PersistFailed || o.stop.halt == SortRaised)
    ensures var latest := Latest(NextPayload(p, planId, o).checkpoints, Normal(planId));
      if o.trace == [] then latest == Latest(p.checkpoints, Normal(planId))
      else latest.Some? && latest.value.context == o.trace[|o.trace| - 1].after
  {
    var held := ForPlan(p.checkpoints, Normal(planId));
    var news := NewCheckpoints(planId, Above(p.checkpoints), Afters(o.trace));
    TurnListing(p, planId, o, Normal(planId));
    NewestContext(planId, Above(p.checkpoints), o.trace);
    LatestOfTail(NextPayload(p, planId, o).checkpoints, Normal(planId), held, news, p.limit);
  }

  lemma LatestOfTail(cs: Checkpoints, p: string, held: Checkpoints, news: Checkpoints, limit: int)
    requires limit >= 1 && |held| <= limit && ForPlan(cs, p) == Tail(held + news, limit)
    ensures news == [] ==> ForPlan(cs, p) == held
    ensures news != [] ==> Latest(cs, p) == Some(news[|news| - 1])
  {
    TailEnd(held, news, limit);
  }

  lemma NewestContext(planId: string, firstId: nat, trace: seq<Event>)
    ensures var news := NewCheckpoints(planId, firstId, Afters(trace));
      if trace == [] then news == []
      else news != [] && news[|news| - 1].context == trace[|trace| - 1].after
  {
  }

  lemma RestoredAfter(p: StorePayload, planId: string, o: Outcome, supplied: Option<Context>)
    requires WellKept(p) && WellKept(NextPayload(p, planId, o))
    requires o.trace == [] || o.stop.halt == SortRaised ==> o.context == Restored(p, planId, supplied)
    requires o.trace != [] ==> o.context == o.trace[|o.trace| - 1].after
    ensures Restored(NextPayload(p, planId, o), planId, supplied) ==
            if o.stop.halt == PersistFailed then Restored(p, planId, supplied) else o.context
  {
    if !(o.stop.halt == PersistFailed || o.stop.halt == SortRaised) {
      RestoredIsLatest(p, planId, supplied);
      RestoredIsLatest(NextPayload(p, planId, o), planId, supplied);
      LatestAfter(p, planId, o);
    }
  }

  lemma RestoredElsewhere(p: StorePayload, planId: string, o: Outcome, q: string,
                                             supplied: Option<Context>)
    requires WellKept(p) && WellKept(NextPayload(p, planId, o)) && Normal(q) != Normal(planId)
    ensures Restored(NextPayload(p, planId, o), q, supplied) == Restored(p, q, supplied)
  {
    if !(o.stop.halt == PersistFailed || o.stop.halt == SortRaised) {
      WellKeptSurvives(p);
      WellKeptSurvives(NextPayload(p, planId, o));
      TurnListing(p, planId, o, Normal(q));
    }
  }

  /** The next turn of the plan starts exactly where this one ended, or where this one
      started if its save failed; the other plans are not affected. */
  lemma NextTurnResumes(p: StorePayload, planId: string, r: Request)
    requires WellKept(p)
    ensures var c := Restored(p, planId, r.supplied);
      var o := RunTurn(r.turn, c, BudgetOf(r));
      && WellKept(NextPayload(p, planId, o))
      && Restored(NextPayload(p, planId, o), planId, r.supplied) == ContextAfter(TurnInput(r.turn, BudgetOf(r)), c)
      && forall q, s :: Normal(q) != Normal(planId) ==> Restored(NextPayload(p, planId, o), q, s) == Restored(p, q, s)
  {
    var c := Restored(p, planId, r.supplied);
    var o := RunTurn(r.turn, c, BudgetOf(r));
    StaysWellKept(p, planId, o);
    RaisedBeforeDispatch(r.turn, c, BudgetOf(r), 0);
    RunLoopIsChain(r.turn, c, BudgetOf(r), 0);
    LastContext(r.turn.plan, c, o.trace, o.context);
    RestoredAfter(p, planId, o, r.supplied);
    forall q, s | Normal(q) != Normal(planId) {
      RestoredElsewhere(p, planId, o, q, s);
    }
  }

  lemma LastContext(plan: Plan, c0: Context, trace: seq<Event>, c: Context)
    requires Chain(plan, c0, trace, c)
    ensures c == if trace == [] then c0 else trace[|trace| - 1].after
  {
  }

  // ---------------------------------------------------------- whole sessions

  /** One orchestrated call, for some plan. */
  datatype Call = Call(planId: string, request: Request)

  /** The payload after any interleaving of calls for any plans. */
  ghost function PayloadAfter(p: StorePayload, calls: seq<Call>): StorePayload
    decreases |calls|
  {
    if calls == [] then p
    else
      var r := calls[0].request;
      var o := RunTurn(r.turn, Restored(p, calls[0].planId, r.supplied), BudgetOf(r));
      PayloadAfter(NextPayload(p, calls[0].planId, o), calls[1..])
  }

  /** The context of a plan's latest checkpoint. */
  function Held(p: StorePayload, planId: string): Option<Context> {
    match Latest(p.checkpoints, Normal(planId))
    case Some(c) => Some(c.context)
    case None => None
  }

  function StartOf(held: Option<Context>, supplied: Option<Context>): Context {
    if held.Some? then held.value else if supplied.Some? then supplied.value else EMPTY_CONTEXT
  }

  /** The turn a request runs for a plan that holds `held`. */
  ghost function TurnOf(held: Option<Context>, r: Request): Outcome {
    RunTurn(r.turn, StartOf(held, r.supplied), BudgetOf(r))
  }

  /** Whether a turn saves a checkpoint that stays. */
  predicate Saves(o: Outcome) {
    o.stop.halt != PersistFailed && o.trace != []
  }

  function HeldNext(held: Option<Context>, o: Outcome): Option<Context> {
    if Saves(o) then Some(o.context) else held
  }

  /** What a plan holds after calls of its own, run one after another without a store. */
  ghost function HeldAfter(held: Option<Context>, rs: seq<Request>): Option<Context>
    decreases |rs|
  {
    if rs == [] then held else HeldAfter(HeldNext(held, TurnOf(held, rs[0])), rs[1..])
  }

  /** The requests of the calls for one plan, in order. */
  function RequestsFor(calls: seq<Call>, planId: string): seq<Request> {
    if calls == [] then []
    else
      (if Normal(calls[0].planId) == Normal(planId) then [calls[0].request] else []) + RequestsFor(calls[1..], planId)
  }

  lemma HeldDecidesStart(p: StorePayload, planId: string, supplied: Option<Context>)
    requires WellKept(p)
    ensures Restored(p, planId, supplied) == StartOf(Held(p, planId), supplied)
  {
    RestoredIsLatest(p, planId, supplied);
  }

  /** One call moves what its own plan holds, and no other plan's. */
  lemma HeldAfterCall(p: StorePayload, call: Call, q: string)
    requires WellKept(p)
    ensures var r := call.request;
      var o := RunTurn(r.turn, Restored(p, call.planId, r.supplied), BudgetOf(r));
      && WellKept(NextPayload(p, call.planId, o))
      && Held(NextPayload(p, call.planId, o), q) ==
         if Normal(call.planId) == Normal(q) then HeldAfter(Held(p, q), [r]) else Held(p, q)
  {
    var r := call.request;
    var c := Restored(p, call.planId, r.supplied);
    var o := RunTurn(r.turn, c, BudgetOf(r));
    StaysWellKept(p, call.planId, o);
    TurnEnd(r.turn, c, BudgetOf(r));
    HeldMoves(p, call.planId, o, q);
    if Normal(call.planId) == Normal(q) {
      HeldDecidesStart(p, call.planId, r.supplied);
      HeldAfterOne(Held(p, q), r);
    }
  }

  lemma HeldAfterOne(held: Option<Context>, r: Request)
    ensures HeldAfter(held, [r]) == HeldNext(held, TurnOf(held, r))
  {
    assert [r][1..] == [];
  }

  /** A turn ends in the context of its last dispatch; one that cannot be sorted has none. */
  lemma TurnEnd(t: Turn, c: Context, b: Budget)
    ensures EndsInLast(RunTurn(t, c, b), c)
  {
    RaisedBeforeDispatch(t, c, b, 0);
    RunLoopIsChain(t, c, b, 0);
    FinishedEnd(t.plan, c, RunLoop(t, c, b, 0));
  }

  ghost predicate EndsInLast(o: Outcome, c: Context) {
    && (o.stop.halt == SortRaised ==> o.trace == [])
    && o.context == if o.trace == [] then c else o.trace[|o.trace| - 1].after
  }

  lemma FinishedEnd(plan: Plan, c: Context, l: Outcome)
    requires Chain(plan, c, l.trace, l.context) && (l.stop.halt == SortRaised ==> l.trace == [])
    ensures EndsInLast(Finish(plan, l), c)
  {
    LastContext(plan, c, l.trace, l.context);
  }

  lemma HeldMoves(p: StorePayload, planId: string, o: Outcome, q: string)
    requires WellKept(p) && (o.stop.halt == SortRaised ==> o.trace == [])
    requires o.trace != [] ==> o.context == o.trace[|o.trace| - 1].after
    ensures Held(NextPayload(p, planId, o), q) ==
            if Normal(planId) == Normal(q) then HeldNext(Held(p, q), o) else Held(p, q)
  {
    if !(o.stop.halt == PersistFailed || o.stop.halt == SortRaised) {
      if Normal(planId) == Normal(q) {
        LatestAfter(p, planId, o);
      } else {
        TurnListing(p, planId, o, Normal(q));
      }
    }
  }

  /** Any interleaving of calls for any plans through the serialised store leaves each plan
      what its own calls, one after another and without a store, would leave it. */
  lemma {:induction false} StoreSeparatesPlans(p: StorePayload, calls: seq<Call>, q: string)
    requires WellKept(p)
    ensures Held(PayloadAfter(p, calls), q) == HeldAfter(Held(p, q), RequestsFor(calls, q))
    ensures WellKept(PayloadAfter(p, calls))
    decreases |calls|
  {
    if calls != [] {
      var r := calls[0].request;
      var next := NextPayload(p, calls[0].planId,
                              RunTurn(r.turn, Restored(p, calls[0].planId, r.supplied), BudgetOf(r)));
      HeldAfterCall(p, calls[0], q);
      StoreSeparatesPlans(next, calls[1..], q);
      if Normal(calls[0].planId) == Normal(q) {
        HeldAfterMore(Held(p, q), r, RequestsFor(calls[1..], q));
      } else {
        assert [] + RequestsFor(calls[1..], q) == RequestsFor(calls[1..], q);
      }
    }
  }

  lemma HeldAfterMore(held: Option<Context>, r: Request, rs: seq<Request>)
    ensures HeldAfter(held, [r] + rs) == HeldAfter(HeldAfter(held, [r]), rs)
  {
    assert ([r] + rs)[1..] == rs && [r][1..] == [];
  }

  function Inputs(rs: seq<Request>): seq<TurnInput> {
    if rs == [] then [] else [TurnInput(rs[0].turn, BudgetOf(rs[0]))] + Inputs(rs[1..])
  }

  /** A plan that holds a context hands it from turn to turn: what the calls supply does not
      matter. */
  lemma {:induction false} HeldIsSession(c: Context, rs: seq<Request>)
    ensures HeldAfter(Some(c), rs) == Some(SessionContext(Inputs(rs), c))
    decreases |rs|
  {
    if rs != [] {
      var i := TurnInput(rs[0].turn, BudgetOf(rs[0]));
      IdleTurnKeeps(i, c);
      HeldIsSession(ContextAfter(i, c), rs[1..]);
      assert Inputs(rs)[1..] == Inputs(rs[1..]);
    }
  }

  lemma IdleTurnKeeps(i: TurnInput, c: Context)
    ensures RunTurn(i.turn, c, i.budget).trace == [] ==> ContextAfter(i, c) == c
  {
    RunLoopIsChain(i.turn, c, i.budget, 0);
    LastContext(i.turn.plan, c, RunLoop(i.turn, c, i.budget, 0).trace, RunLoop(i.turn, c, i.budget, 0).context);
  }

  /** Any interleaving of calls runs, for a plan that has a checkpoint, the same session as
      handing its context straight from turn to turn. */
  lemma StoreCarriesSession(p: StorePayload, calls: seq<Call>, q: string, supplied: Option<Context>)
    requires WellKept(p) && Held(p, q).Some?
    ensures Restored(PayloadAfter(p, calls), q, supplied) ==
            SessionContext(Inputs(RequestsFor(calls, q)), Held(p, q).value)
  {
    StoreSeparatesPlans(p, calls, q);
    HeldIsSession(Held(p, q).value, RequestsFor(calls, q));
    HeldDecidesStart(PayloadAfter(p, calls), q, supplied);
  }

  /** For a plan without a checkpoint, as in a new session, the first call that saves decides:
      those before it leave nothing, and from it on the session runs from the context it
      supplied. */
  lemma FirstSaverDecides(r: Request, rs: seq<Request>)
    ensures HeldAfter(None, [r] + rs) ==
            if Saves(TurnOf(None, r)) then
              Some(SessionContext(Inputs([r] + rs), if r.supplied.Some? then r.supplied.value else EMPTY_CONTEXT))
            else HeldAfter(None, rs)
  {
    assert ([r] + rs)[1..] == rs;
    if Saves(TurnOf(None, r)) {
      HeldIsSession(TurnOf(None, r).context, rs);
      assert Inputs([r] + rs)[1..] == Inputs(rs);
    }
  }

  lemma NewSessionIsCarried(calls: seq<Call>, q: string)
    ensures Held(PayloadAfter(NEW_SESSION, calls), q) == HeldAfter(None, RequestsFor(calls, q))
  {
    StoreSeparatesPlans(NEW_SESSION, calls, q);
  }
}
