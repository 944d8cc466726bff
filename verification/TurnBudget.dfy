/** The token, time and slice allowance of one turn. */
module TurnBudget {
  import opened Sequences

  datatype Budget = Budget(
    maxTokens: int,
    maxTime: real,
    maxSlices: int,
    startedAt: real,
    consumed: int,
    executed: int)

  datatype Exhaustion = SliceLimit | TokenBudget | TimeBudget | BudgetAvailable

  function MaxReal(a: real, b: real): real {
    if a < b then b else a
  }

  /** `None` when the turn has no time limit. */
  function Remaining(b: Budget, now: real): Option<real> {
    if b.maxTime <= 0.0 then None
    else Some(MaxReal(0.0, b.maxTime - MaxReal(0.0, now - b.startedAt)))
  }

  predicate TokensFit(b: Budget, next: int) {
    b.maxTokens > 0 ==> b.consumed < b.maxTokens && (next > 0 ==> b.consumed + next <= b.maxTokens)
  }

  predicate TimeLeft(b: Budget, now: real) {
    b.maxTime > 0.0 ==> now < b.startedAt + b.maxTime
  }

  predicate CanExecute(b: Budget, now: real, next: int) {
    b.executed < b.maxSlices && TokensFit(b, next) && TimeLeft(b, now)
  }

  /** The first limit in the order slices, tokens, time that is exhausted. */
  function ExhaustionReason(b: Budget, now: real, next: int): Exhaustion {
    if b.executed >= b.maxSlices then SliceLimit
    else if !TokensFit(b, next) then TokenBudget
    else if !TimeLeft(b, now) then TimeBudget
    else BudgetAvailable
  }

  function Recorded(b: Budget, tokens: int): Budget {
    b.(executed := b.executed + 1, consumed := b.consumed + Max(0, tokens))
  }

  class TurnBudget {
    var maxTokens: int
    var maxTime: real
    var maxSlices: int
    var startedAt: real
    var consumed: int
    var executed: int

    /** The serialised budget. */
    function View(): Budget
      reads this
    {
      Budget(maxTokens, maxTime, maxSlices, startedAt, consumed, executed)
    }

    constructor FromDict(b: Budget)
      ensures View() == Budget(Max(0, b.maxTokens), MaxReal(0.0, b.maxTime), Max(1, b.maxSlices),
                               b.startedAt, Max(0, b.consumed), Max(0, b.executed))
    {
      maxTokens, maxTime, maxSlices := Max(0, b.maxTokens), MaxReal(0.0, b.maxTime), Max(1, b.maxSlices);
      startedAt, consumed, executed := b.startedAt, Max(0, b.consumed), Max(0, b.executed);
    }

    /** A new turn's budget: a nested limit if there is one, or else the outer one, or else
        the default. */
    constructor FromParams(p: Params, now: real)
      ensures View() == FreshFor(p, now)
      ensures startedAt == now && consumed == 0 && executed == 0
      ensures p.nested.Some? && p.nested.value.tokens.Some? ==> maxTokens == Max(0, p.nested.value.tokens.value)
      ensures p.nested.Some? && p.nested.value.time.Some? ==> maxTime == MaxReal(0.0, p.nested.value.time.value)
      ensures p.nested.Some? && p.nested.value.slices.Some? ==> maxSlices == Max(1, p.nested.value.slices.value)
      ensures p.nested.None? || p.nested.value.tokens.None? ==>
                maxTokens == if p.outer.tokens.Some? then Max(0, p.outer.tokens.value) else 0
      ensures p.nested.None? || p.nested.value.time.None? ==>
                maxTime == if p.outer.time.Some? then MaxReal(0.0, p.outer.time.value) else 0.0
      ensures p.nested.None? || p.nested.value.slices.None? ==>
                maxSlices == if p.outer.slices.Some? then Max(1, p.outer.slices.value) else 1
    {
      var nested := if p.nested.Some? then p.nested.value else NO_LIMITS;
      maxTokens := Max(0, Pick(nested.tokens, p.outer.tokens, 0));
      maxTime := MaxReal(0.0, Pick(nested.time, p.outer.time, 0.0));
      maxSlices := Max(1, Pick(nested.slices, p.outer.slices, 1));
      startedAt, consumed, executed := now, 0, 0;
    }

    method TimeRemaining(now: real) returns (r: Option<real>)
      ensures r == Remaining(View(), now)
      ensures r.Some? && r.value <= 0.0 <==> !TimeLeft(View(), now)
      ensures maxTime <= 0.0 ==> r == None
      ensures maxTime > 0.0 && startedAt <= now <= startedAt + maxTime ==> r == Some(startedAt + maxTime - now)
      ensures maxTime > 0.0 && now < startedAt ==> r == Some(maxTime)
      ensures maxTime > 0.0 && now > startedAt + maxTime ==> r == Some(0.0)
    {
      if maxTime <= 0.0 { return None; }
      var elapsed := MaxReal(0.0, now - startedAt);
      r := Some(MaxReal(0.0, maxTime - elapsed));
    }

    method CanExecuteSlice(now: real, nextTokens: int) returns (ok: bool)
      ensures ok == CanExecute(View(), now, nextTokens)
    {
      if executed >= maxSlices { return false; }
      if maxTokens > 0 && consumed >= maxTokens { return false; }
      var next := Max(0, nextTokens);
      if maxTokens > 0 && next > 0 && consumed + next > maxTokens { return false; }
      var remaining := TimeRemaining(now);
      if remaining.Some? && remaining.value <= 0.0 { return false; }
      ok := true;
    }

    method BudgetExhaustionReason(now: real, nextTokens: int) returns (r: Exhaustion)
      ensures r == ExhaustionReason(View(), now, nextTokens)
    {
      if executed >= maxSlices { return SliceLimit; }
      var projected := Max(0, nextTokens);
      if maxTokens > 0 && projected > 0 && consumed + projected > maxTokens { return TokenBudget; }
      if maxTokens > 0 && consumed >= maxTokens { return TokenBudget; }
      var remaining := TimeRemaining(now);
      if remaining.Some? && remaining.value <= 0.0 { return TimeBudget; }
      r := BudgetAvailable;
    }

    method RecordSlice(tokens: int)
      modifies this
      ensures View() == Recorded(old(View()), tokens)
    {
      executed := executed + 1;
      consumed := consumed + Max(0, tokens);
    }
  }

  /** The limits a caller names, at the top level and under a nested key. */
  datatype Limits = Limits(tokens: Option<int>, time: Option<real>, slices: Option<int>)

  datatype Params = Params(nested: Option<Limits>, outer: Limits)

  const NO_LIMITS := Limits(None, None, None)

  function Pick<T>(first: Option<T>, second: Option<T>, otherwise: T): T {
    if first.Some? then first.value else if second.Some? then second.value else otherwise
  }

  function FreshFor(p: Params, now: real): Budget {
    var nested := if p.nested.Some? then p.nested.value else NO_LIMITS;
    Fresh(Pick(nested.tokens, p.outer.tokens, 0), Pick(nested.time, p.outer.time, 0.0),
          Pick(nested.slices, p.outer.slices, 1), now)
  }

  function Fresh(tokens: int, time: real, slices: int, now: real): Budget {
    Budget(Max(0, tokens), MaxReal(0.0, time), Max(1, slices), now, 0, 0)
  }

  /** The refusal and its reason agree at one instant, and the reason stays a refusal when
      the clock is read again later. */
  lemma RefusalHasReason(b: Budget, now: real, later: real, next: int)
    requires now <= later
    ensures ExhaustionReason(b, now, next) == BudgetAvailable <==> CanExecute(b, now, next)
    ensures !CanExecute(b, now, next) ==> ExhaustionReason(b, later, next) != BudgetAvailable
  {
  }
}
