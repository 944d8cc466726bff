/** One tier-3 dispatch: the readiness gate, the SLM and tool paths, the retry decision, and
    the update of the execution context. The foreign calls are the fields of a `World`. */
module TierDispatcher {
  import opened Sequences
  import opened TierContracts
  import opened PlanGraph
  import opened ReadyScheduler
  import opened RetryPolicy

  /** What the surroundings answer during one dispatch. `slmError` is the message of the
      exception the SLM call raises, if it does; `toolError` is the error text of each call of
      a tool, empty when the call reports none. */
  datatype World = World(
    slmAvailable: bool,
    slmError: Option<string>,
    providerAllowed: bool,
    toolError: (nat, string) -> string,
    tokens: int)

  datatype Status = NoStatus | Success | RetryScheduled | Failed | Blocked

  datatype Reason =
    | NoReason | InvalidPlan | SliceNotReady | RetryReason
    | SlmFailed | ProviderDisabled | ExecutionFailed

  datatype DispatchResult = DispatchResult(
    dispatched: bool,
    reason: Reason,
    status: Status,
    retryable: bool,
    retryAfter: real,
    allowed: seq<string>,
    denied: seq<string>,
    tokens: int)

  const REGISTRY := [
    "adapter/ca/read-file/v1",
    "adapter/ca/write-file/v1",
    "adapter/ca/run-tests/v1",
    "adapter/ca/stage-patch/v1"]

  function RegistryFilter(wanted: bool): string -> bool {
    (t: string) => (t in REGISTRY) == wanted
  }

  /** The registered tools, or with `wanted` false the unregistered ones, in listing order. */
  function Registered(tools: seq<string>, wanted: bool): seq<string> {
    Filter(tools, RegistryFilter(wanted))
  }

  /** The first error text any of the calls reports, or the empty string. */
  function FirstFailure(w: World, tools: seq<string>): string {
    if tools == [] then ""
    else
      var earlier := FirstFailure(w, tools[..|tools| - 1]);
      if earlier != "" then earlier else w.toolError(|tools| - 1, tools[|tools| - 1])
  }

  ghost predicate CallsSucceed(w: World, tools: seq<string>) {
    forall i :: 0 <= i < |tools| ==> w.toolError(i, tools[i]) == ""
  }

  /** The result both failing paths build: retry when the policy allows, fail otherwise. */
  function FailureResult(error: string, s: Slice, c: Context, otherwise: Reason, allowed: seq<string>,
                         denied: seq<string>, tokens: int): DispatchResult {
    var attempt := RetryCount(c, s.nodeId);
    if ShouldRetry(ClassifyFailure(error), attempt, c.maxRetries) then
      DispatchResult(false, RetryReason, RetryScheduled, true,
                     NextBackoff(attempt, c.baseBackoff, c.maxBackoff), allowed, denied, tokens)
    else
      DispatchResult(false, otherwise, Failed, false, 0.0, allowed, denied, tokens)
  }

  function Execute(w: World, s: Slice, c: Context): DispatchResult {
    if s.modelClass == "slm" && w.slmAvailable then
      match w.slmError
      case None => DispatchResult(true, NoReason, Success, false, 0.0, s.allowedTools, [], w.tokens)
      case Some(error) => FailureResult(error, s, c, SlmFailed, s.allowedTools, [], w.tokens)
    else if !w.providerAllowed then
      DispatchResult(false, ProviderDisabled, Failed, false, 0.0, s.allowedTools, [], w.tokens)
    else
      var allowed, denied := Registered(s.allowedTools, true), Registered(s.allowedTools, false);
      if allowed == [] then
        DispatchResult(false, NoReason, Blocked, false, 0.0, allowed, denied, w.tokens)
      else if FirstFailure(w, allowed) != "" then
        FailureResult(FirstFailure(w, allowed), s, c, ExecutionFailed, allowed, denied, w.tokens)
      else
        DispatchResult(true, NoReason, Success, false, 0.0, allowed, denied, w.tokens)
  }

  ghost function Dispatch(w: World, plan: Plan, s: Slice, c: Context): DispatchResult {
    if s.nodeId in Ids(plan) && !Sortable(plan) then
      DispatchResult(false, InvalidPlan, NoStatus, false, 0.0, [], [], w.tokens)
    else if SliceErrors(s, plan, c) != [] then
      DispatchResult(false, SliceNotReady, Blocked, false, 0.0, s.allowedTools, [], w.tokens)
    else Execute(w, s, c)
  }

  method FilterTools(tools: seq<string>) returns (allowed: seq<string>, denied: seq<string>)
    ensures allowed == Registered(tools, true) && denied == Registered(tools, false)
  {
    allowed, denied := [], [];
    for i := 0 to |tools|
      invariant allowed == Registered(tools[..i], true) && denied == Registered(tools[..i], false)
    {
      assert tools[..i + 1][..i] == tools[..i];
      if tools[i] !in REGISTRY {
        denied := denied + [tools[i]];
      } else {
        allowed := allowed + [tools[i]];
      }
    }
    assert tools[..|tools|] == tools;
  }

  /** The whole tier-3 path with a plan in the payload. */
  method DispatchToTier3(w: World, plan: Plan, s: Slice, c: Context) returns (r: DispatchResult)
    ensures r == Dispatch(w, plan, s, c)
  {
    var errors := ValidateSliceReady(s, plan, c);
    if errors.Raised? {
      return DispatchResult(false, InvalidPlan, NoStatus, false, 0.0, [], [], w.tokens);
    }
    if errors.value != [] {
      return DispatchResult(false, SliceNotReady, Blocked, false, 0.0, s.allowedTools, [], w.tokens);
    }
    if s.modelClass == "slm" && w.slmAvailable {
      if w.slmError.None? {
        return DispatchResult(true, NoReason, Success, false, 0.0, s.allowedTools, [], w.tokens);
      }
      return FailureResult(w.slmError.value, s, c, SlmFailed, s.allowedTools, [], w.tokens);
    }
    if !w.providerAllowed {
      return DispatchResult(false, ProviderDisabled, Failed, false, 0.0, s.allowedTools, [], w.tokens);
    }
    var allowed, denied := FilterTools(s.allowedTools);
    if allowed == [] {
      return DispatchResult(false, NoReason, Blocked, false, 0.0, allowed, denied, w.tokens);
    }
    var firstFailure := "";
    for i := 0 to |allowed|
      invariant firstFailure == FirstFailure(w, allowed[..i])
    {
      assert allowed[..i + 1][..i] == allowed[..i];
      var error := w.toolError(i, allowed[i]);
      if firstFailure == "" {
        firstFailure := error;
      }
    }
    assert allowed[..|allowed|] == allowed;
    if firstFailure != "" {
      return FailureResult(firstFailure, s, c, ExecutionFailed, allowed, denied, w.tokens);
    }
    r := DispatchResult(true, NoReason, Success, false, 0.0, allowed, denied, w.tokens);
  }

  /** What every result looks like: a retry only below the limit, a retryable flag exactly on
      scheduled retries, and the dispatched flag exactly on success. */
  lemma ResultShape(w: World, plan: Plan, s: Slice, c: Context)
    ensures var r := Dispatch(w, plan, s, c);
      && (r.retryable <==> r.status == RetryScheduled)
      && (r.dispatched <==> r.status == Success)
      && (r.status == RetryScheduled ==> RetryCount(c, s.nodeId) < c.maxRetries)
      && (r.reason == ExecutionFailed ==> r.status == Failed)
      && (r.reason == RetryReason <==> r.status == RetryScheduled)
  {
  }

  lemma {:induction false} FirstFailureMeaning(w: World, tools: seq<string>)
    ensures FirstFailure(w, tools) == "" <==> CallsSucceed(w, tools)
    ensures FirstFailure(w, tools) != "" ==>
              exists i :: 0 <= i < |tools| && FirstFailure(w, tools) == w.toolError(i, tools[i])
                          && CallsSucceed(w, tools[..i])
  {
    if tools != [] {
      var front := tools[..|tools| - 1];
      FirstFailureMeaning(w, front);
      assert tools == front + [tools[|tools| - 1]];
      if FirstFailure(w, front) == "" {
        assert tools[..|front|] == front;
      } else {
        var i :| 0 <= i < |front| && FirstFailure(w, front) == w.toolError(i, front[i]) && CallsSucceed(w, front[..i]);
        assert tools[..i] == front[..i] && tools[i] == front[i];
      }
    }
  }

  /** On the tool path a slice succeeds exactly when it names a registered tool and none of
      the calls of the registered ones reports an error; without one it is blocked. */
  lemma ToolPathOutcome(w: World, s: Slice, c: Context)
    requires w.providerAllowed && !(s.modelClass == "slm" && w.slmAvailable)
    ensures var names := set t | t in s.allowedTools && t in REGISTRY;
      && (Execute(w, s, c).status == Success <==>
            names != {} && CallsSucceed(w, Registered(s.allowedTools, true)))
      && (Execute(w, s, c).status == Blocked <==> names == {})
      && Elems(Registered(s.allowedTools, true)) == names
  {
    var allowed := Registered(s.allowedTools, true);
    FirstFailureMeaning(w, allowed);
    FilterMembers(s.allowedTools, RegistryFilter(true));
    var names := set t | t in s.allowedTools && t in REGISTRY;
    assert forall t :: t in allowed <==> t in names;
    assert allowed != [] ==> allowed[0] in names;
  }

  /** On the tool path the result lists the registered tools as allowed and all others as
      denied, losing none. */
  lemma {:induction false} ToolLists(w: World, s: Slice, c: Context)
    requires w.providerAllowed && !(s.modelClass == "slm" && w.slmAvailable)
    ensures var r := Execute(w, s, c);
      var known := {"adapter/ca/read-file/v1", "adapter/ca/write-file/v1",
                    "adapter/ca/run-tests/v1", "adapter/ca/stage-patch/v1"};
      && (forall t :: t in r.allowed <==> t in s.allowedTools && t in known)
      && (forall t :: t in r.denied <==> t in s.allowedTools && t !in known)
      && |r.allowed| + |r.denied| == |s.allowedTools|
  {
    FilterMembers(s.allowedTools, RegistryFilter(true));
    FilterMembers(s.allowedTools, RegistryFilter(false));
    RegisteredParts(s.allowedTools);
  }

  lemma {:induction false} RegisteredParts(tools: seq<string>)
    ensures |Registered(tools, true)| + |Registered(tools, false)| == |tools|
  {
    if tools != [] {
      var front := tools[..|tools| - 1];
      RegisteredParts(front);
      assert tools == front + [tools[|tools| - 1]];
      FilterSnoc(front, tools[|tools| - 1], RegistryFilter(true));
      FilterSnoc(front, tools[|tools| - 1], RegistryFilter(false));
    }
  }

  /** The slice fails with this text: the local model raises it, or on the tool path it is
      the first a call of a registered tool reports. */
  ghost predicate FailsWith(w: World, s: Slice, text: string) {
    if s.modelClass == "slm" && w.slmAvailable then w.slmError == Some(text)
    else w.providerAllowed && text != "" && exists i: nat :: FirstReport(w, Registered(s.allowedTools, true), i, text)
  }

  ghost predicate FirstReport(w: World, tools: seq<string>, i: nat, text: string) {
    i < |tools| && w.toolError(i, tools[i]) == text && CallsSucceed(w, tools[..i])
  }

  /** What becomes of a failure: a retry exactly below the retry limit and for a text that may
      pass, after the policy's delay; otherwise the node fails for good. */
  lemma {:induction false} FailureOutcome(w: World, s: Slice, c: Context, text: string)
    requires FailsWith(w, s, text)
    ensures var r, count := Execute(w, s, c), if s.nodeId in c.retries then c.retries[s.nodeId] else 0;
      if count < c.maxRetries && MayPass(text) then
        r.status == RetryScheduled && r.retryable && r.reason == RetryReason
        && r.retryAfter == NextBackoff(count, c.baseBackoff, c.maxBackoff)
      else
        r.status == Failed && !r.retryable && r.retryAfter == 0.0
        && r.reason == if s.modelClass == "slm" && w.slmAvailable then SlmFailed else ExecutionFailed
  {
    RetriedIff(text, RetryCount(c, s.nodeId), c.maxRetries);
    if !(s.modelClass == "slm" && w.slmAvailable) {
      var tools := Registered(s.allowedTools, true);
      var i: nat :| FirstReport(w, tools, i, text);
      ReportIsFirst(w, tools, i, text);
    }
  }

  lemma {:induction false} ReportIsFirst(w: World, tools: seq<string>, i: nat, text: string)
    requires text != "" && FirstReport(w, tools, i, text)
    ensures FirstFailure(w, tools) == text
  {
    FirstFailureMeaning(w, tools);
    assert !CallsSucceed(w, tools);
    var j :| 0 <= j < |tools| && FirstFailure(w, tools) == w.toolError(j, tools[j]) && CallsSucceed(w, tools[..j]);
    assert forall m :: 0 <= m < i ==> tools[..i][m] == tools[m];
    assert forall m :: 0 <= m < j ==> tools[..j][m] == tools[m];
  }

  /** The two outcomes that are settled without a tool: an answer of the local model, and a
      provider the local policy does not allow. */
  lemma {:induction false} SettledOutcome(w: World, s: Slice, c: Context)
    ensures s.modelClass == "slm" && w.slmAvailable && w.slmError.None? ==> Execute(w, s, c).status == Success
    ensures !(s.modelClass == "slm" && w.slmAvailable) && !w.providerAllowed ==>
              var r := Execute(w, s, c);
              r.status == Failed && !r.retryable && r.reason == ProviderDisabled
    ensures Execute(w, s, c).tokens == w.tokens
  {
  }

  // ------------------------------------------------------ context update

  function Except(id: Id): Id -> bool {
    (x: Id) => x != id
  }

  function Appended(s: seq<Id>, id: Id): seq<Id> {
    if id in s then s else s + [id]
  }

  /** The context after a result for `id`; an empty id and any other status leave it alone. */
  function Updated(c: Context, id: Id, status: Status, retryable: bool): Context {
    if id == "" then c
    else if status == Success then
      c.(completed := Appended(c.completed, id), failed := Filter(c.failed, Except(id)), retries := c.retries - {id})
    else if status == RetryScheduled || retryable then
      c.(retries := c.retries[id := RetryCount(c, id) + 1])
    else if status == Failed then c.(failed := Appended(c.failed, id))
    else c
  }

  /** What the update does, status by status. */
  lemma {:induction false} UpdateMeaning(c: Context, id: Id, status: Status, retryable: bool)
    ensures var u := Updated(c, id, status, retryable);
      && u.maxRetries == c.maxRetries && u.baseBackoff == c.baseBackoff && u.maxBackoff == c.maxBackoff
      && (id != "" && status == Success ==>
            && u.completed == (if id in c.completed then c.completed else c.completed + [id])
            && id !in u.failed && (forall x :: x in u.failed <==> x in c.failed && x != id)
            && id !in u.retries && (forall x :: x in u.retries <==> x in c.retries && x != id)
            && forall x :: x in u.retries ==> u.retries[x] == c.retries[x])
      && (id != "" && status != Success && (status == RetryScheduled || retryable) ==>
            && u.completed == c.completed && u.failed == c.failed
            && u.retries.Keys == c.retries.Keys + {id}
            && u.retries[id] == (if id in c.retries then c.retries[id] else 0) + 1
            && forall x :: x in c.retries && x != id ==> u.retries[x] == c.retries[x])
      && (id != "" && status == Failed && !retryable ==>
            && u.completed == c.completed && u.retries == c.retries
            && u.failed == if id in c.failed then c.failed else c.failed + [id])
      && (id == "" || (status !in {Success, RetryScheduled, Failed} && !retryable) ==> u == c)
  {
    FilterMembers(c.failed, Except(id));
  }

  class ExecutionContext {
    var completed: seq<Id>
    var failed: seq<Id>
    var retries: map<Id, int>
    var maxRetries: int
    var baseBackoff: real
    var maxBackoff: real

    ghost function View(): Context
      reads this
    {
      Context(completed, failed, retries, maxRetries, baseBackoff, maxBackoff)
    }

    constructor FromDict(c: Context)
      ensures View() == c
    {
      completed, failed, retries := c.completed, c.failed, c.retries;
      maxRetries, baseBackoff, maxBackoff := c.maxRetries, c.baseBackoff, c.maxBackoff;
    }

    method ToDict() returns (c: Context)
      ensures c == View()
    {
      c := Context(completed, failed, retries, maxRetries, baseBackoff, maxBackoff);
    }

    method UpdateForResult(id: Id, status: Status, retryable: bool)
      modifies this
      ensures View() == Updated(old(View()), id, status, retryable)
    {
      if id == "" { return; }
      var done, bad, counts := completed, failed, retries;
      if status == Success {
        if id !in done {
          done := done + [id];
        }
        var kept: seq<Id> := [];
        for i := 0 to |bad|
          invariant kept == Filter(bad[..i], Except(id))
        {
          assert bad[..i + 1][..i] == bad[..i];
          if bad[i] != id { kept := kept + [bad[i]]; }
        }
        assert bad[..|bad|] == bad;
        bad := kept;
        counts := counts - {id};
      } else if status == RetryScheduled || retryable {
        counts := counts[id := (if id in counts then counts[id] else 0) + 1];
      } else if status == Failed {
        if id !in bad {
          bad := bad + [id];
        }
      }
      completed, failed, retries := done, bad, counts;
    }
  }

  /** Dispatches on a copy of the context and returns the updated copy. */
  method DispatchWithState(w: World, plan: Plan, s: Slice, c: Context) returns (r: DispatchResult, after: Context)
    ensures r == Dispatch(w, plan, s, c)
    ensures after == Updated(c, s.nodeId, r.status, r.retryable)
  {
    r := DispatchToTier3(w, plan, s, c);
    var current := new ExecutionContext.FromDict(c);
    current.UpdateForResult(s.nodeId, r.status, r.retryable);
    after := current.ToDict();
  }
}
