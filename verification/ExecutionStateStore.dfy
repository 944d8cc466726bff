/** The retention-limited checkpoint store. A checkpoint's uuid is a number no other
    checkpoint has; timestamps are not modelled. */
module ExecutionStateStore {
  import opened Sequences
  import opened TierContracts

  datatype Checkpoint = Checkpoint(planId: string, checkpointId: nat, context: Context, source: string)

  type Checkpoints = seq<Checkpoint>

  function Normal(planId: string): string {
    if planId == "" then "default" else planId
  }

  function ByPlan(p: string): Checkpoint -> bool {
    (c: Checkpoint) => c.planId == p
  }

  function ForPlan(cs: Checkpoints, p: string): Checkpoints {
    Filter(cs, ByPlan(p))
  }

  function IdSet(cs: Checkpoints): set<nat> {
    set c | c in cs :: c.checkpointId
  }

  /** The slice from `-limit` to the end: the last `limit` items for a positive limit,
      everything for zero, and all but the first `-limit` for a negative one. */
  function Tail(cs: Checkpoints, limit: int): Checkpoints {
    cs[Dropped(|cs|, limit)..]
  }

  function Dropped(n: nat, limit: int): (k: nat)
    ensures k <= n
  {
    if limit == 0 then 0
    else if limit > 0 then (if n <= limit then 0 else n - limit)
    else if n <= -limit then n else -limit
  }

  function KeptBy(p: string, ids: set<nat>): Checkpoint -> bool {
    (c: Checkpoint) => c.planId != p || c.checkpointId in ids
  }

  /** Drops the oldest checkpoints of one plan when it holds more than the limit. */
  function Prune(cs: Checkpoints, p: string, limit: int): Checkpoints {
    var mine := ForPlan(cs, p);
    if |mine| <= limit then cs else Filter(cs, KeptBy(p, IdSet(Tail(mine, limit))))
  }

  function SaveOne(cs: Checkpoints, limit: int, c: Checkpoint): Checkpoints {
    Prune(cs + [c], c.planId, limit)
  }

  /** The store's contents after saving `news` in order. */
  function SaveAll(cs: Checkpoints, limit: int, news: Checkpoints): Checkpoints
    decreases |news|
  {
    if news == [] then cs
    else SaveAll(SaveOne(cs, limit, news[0]), limit, news[1..])
  }

  ghost predicate DistinctIds(cs: Checkpoints) {
    forall i, j :: 0 <= i < j < |cs| ==> cs[i].checkpointId != cs[j].checkpointId
  }

  function Latest(cs: Checkpoints, p: string): Option<Checkpoint> {
    var mine := ForPlan(cs, p);
    if mine == [] then None else Some(mine[|mine| - 1])
  }

  function AllPlans(cs: Checkpoints): set<string> {
    set c | c in cs :: Normal(c.planId)
  }

  /** Whether `c` survives pruning the plans in `pruned` of the payload `all`. */
  function Survivors(all: Checkpoints, limit: int, pruned: set<string>): Checkpoint -> bool {
    (c: Checkpoint) =>
      || c.planId !in pruned
      || |ForPlan(all, c.planId)| <= limit
      || c.checkpointId in IdSet(Tail(ForPlan(all, c.planId), limit))
  }

  /** The payload with each plan in `pruned` cut down to its retained tail. */
  function Surviving(cs: Checkpoints, limit: int, pruned: set<string>): Checkpoints {
    Filter(cs, Survivors(cs, limit, pruned))
  }

  /** A uuid no checkpoint of the payload has. */
  function Above(cs: Checkpoints): (n: nat)
    ensures forall c :: c in cs ==> c.checkpointId < n
  {
    if cs == [] then 0
    else
      assert cs == [cs[0]] + cs[1..];
      Max(cs[0].checkpointId + 1, Above(cs[1..]))
  }

  // ------------------------------------------------------------- the class

  class ExecutionStateStore {
    var checkpoints: Checkpoints
    var retentionLimit: int
    /** The uuid the next checkpoint will get. */
    var nextId: nat

    ghost predicate Valid()
      reads this
    {
      forall c :: c in checkpoints ==> c.checkpointId < nextId
    }

    constructor (limit: int)
      ensures Valid() && checkpoints == [] && retentionLimit == limit && nextId == 0
    {
      checkpoints, retentionLimit, nextId := [], limit, 0;
    }

    /** Rebuilds a store from a payload, pruning its plans in whatever order a set yields. */
    constructor FromDict(limit: int, cs: Checkpoints)
      ensures (retentionLimit, checkpoints) == DictTrip(limit, cs) && nextId == Above(cs)
      ensures Valid()
    {
      checkpoints, retentionLimit, nextId := cs, Max(1, limit), Above(cs);
      new;
      PruneAllPlans();
      FilterMembers(cs, Survivors(cs, retentionLimit, AllPlans(cs)));
    }

    method PruneAllPlans()
      requires retentionLimit > 0
      modifies this`checkpoints
      ensures checkpoints == Surviving(old(checkpoints), retentionLimit, AllPlans(old(checkpoints)))
    {
      ghost var cs, pruned: set<string> := checkpoints, {};
      var pending := set c | c in checkpoints :: c.planId;
      SurvivingStart(cs, retentionLimit);
      while pending != {}
        invariant checkpoints == Surviving(cs, retentionLimit, pruned)
        invariant pruned <= AllPlans(cs) && forall p :: p in pending ==> Normal(p) in AllPlans(cs)
        invariant forall c :: c in cs ==> c.planId in pending || Normal(c.planId) in pruned
      {
        var p :| p in pending;
        PruneOnePlan(cs, retentionLimit, pruned, Normal(p));
        PruneForPlan(p);
        pending, pruned := pending - {p}, pruned + {Normal(p)};
      }
      assert pruned == AllPlans(cs);
    }

    method PruneForPlan(planId: string)
      modifies this`checkpoints
      ensures checkpoints == Prune(old(checkpoints), Normal(planId), retentionLimit)
    {
      var normalized := Normal(planId);
      var mine := ListFor(normalized);
      if |mine| <= retentionLimit { return; }
      var keep := IdSet(Tail(mine, retentionLimit));
      var kept: Checkpoints := [];
      for i := 0 to |checkpoints|
        invariant checkpoints == old(checkpoints)
        invariant kept == Filter(checkpoints[..i], KeptBy(normalized, keep))
      {
        assert checkpoints[..i + 1][..i] == checkpoints[..i];
        var c := checkpoints[i];
        if c.planId != normalized || c.checkpointId in keep { kept := kept + [c]; }
      }
      assert checkpoints[..|checkpoints|] == checkpoints;
      checkpoints := kept;
    }

    method ListFor(p: string) returns (mine: Checkpoints)
      ensures mine == ForPlan(checkpoints, p)
    {
      mine := [];
      for i := 0 to |checkpoints|
        invariant mine == ForPlan(checkpoints[..i], p)
      {
        assert checkpoints[..i + 1][..i] == checkpoints[..i];
        if checkpoints[i].planId == p { mine := mine + [checkpoints[i]]; }
      }
      assert checkpoints[..|checkpoints|] == checkpoints;
    }

    method SaveCheckpoint(planId: string, context: Context, source: string) returns (c: Checkpoint)
      requires Valid()
      modifies this
      ensures c == Checkpoint(Normal(planId), old(nextId), context, if source == "" then "runtime" else source)
      ensures c.planId == if planId == "" then "default" else planId
      ensures checkpoints == SaveOne(old(checkpoints), retentionLimit, c)
      ensures Valid() && retentionLimit == old(retentionLimit) && nextId == old(nextId) + 1
    {
      c := Checkpoint(Normal(planId), nextId, context, if source == "" then "runtime" else source);
      nextId := nextId + 1;
      checkpoints := checkpoints + [c];
      FilterMembers(checkpoints, KeptBy(c.planId, IdSet(Tail(ForPlan(checkpoints, c.planId), retentionLimit))));
      PruneForPlan(c.planId);
    }

    method LoadLatestCheckpoint(planId: string) returns (r: Option<Checkpoint>)
      ensures r == Latest(checkpoints, Normal(planId))
    {
      var matches := ListFor(Normal(planId));
      r := if matches == [] then None else Some(matches[|matches| - 1]);
    }

    /** All checkpoints, or those of one plan. */
    method ListCheckpoints(planId: Option<string>) returns (cs: Checkpoints)
      ensures cs == if planId.None? then checkpoints else ForPlan(checkpoints, Normal(planId.value))
    {
      if planId.None? { return checkpoints; }
      cs := ListFor(Normal(planId.value));
    }

    method ToDict() returns (limit: int, cs: Checkpoints)
      ensures limit == retentionLimit && cs == checkpoints
    {
      limit := retentionLimit;
      cs := ListCheckpoints(None);
    }
  }

  // --------------------------------------------------------------- pruning

  lemma RemovalDistinct(a: Checkpoints, x: Checkpoint, b: Checkpoints)
    requires DistinctIds(a + ([x] + b))
    ensures DistinctIds(a + b)
  {
    var big, small := a + ([x] + b), a + b;
    forall i, j | 0 <= i < j < |small|
      ensures small[i].checkpointId != small[j].checkpointId
    {
      var i', j' := if i < |a| then i else i + 1, if j < |a| then j else j + 1;
      assert big[i'] == small[i] && big[j'] == small[j];
    }
  }

  lemma {:induction false} FilterDistinct(a: Checkpoints, b: Checkpoints, keep: Checkpoint -> bool)
    requires DistinctIds(a + b)
    ensures DistinctIds(Filter(a, keep) + b)
  {
    if a == [] {
      assert a + b == b;
    } else {
      var front, last := a[..|a| - 1], a[|a| - 1];
      assert a + b == front + ([last] + b);
      if keep(last) {
        FilterDistinct(front, [last] + b, keep);
        assert Filter(a, keep) + b == Filter(front, keep) + ([last] + b);
      } else {
        RemovalDistinct(front, last, b);
        FilterDistinct(front, b, keep);
      }
    }
  }

  lemma PruneDistinct(cs: Checkpoints, p: string, limit: int, b: Checkpoints)
    requires DistinctIds(cs + b)
    ensures DistinctIds(Prune(cs, p, limit) + b)
  {
    FilterDistinct(cs, b, KeptBy(p, IdSet(Tail(ForPlan(cs, p), limit))));
  }

  /** Keeping the ids of a suffix keeps exactly that suffix when ids are distinct. */
  lemma KeepSuffix(cs: Checkpoints, p: string, k: nat)
    requires DistinctIds(cs) && k <= |cs|
    requires forall c :: c in cs ==> c.planId == p
    ensures Filter(cs, KeptBy(p, IdSet(cs[k..]))) == cs[k..]
  {
    var keep := KeptBy(p, IdSet(cs[k..]));
    assert cs == cs[..k] + cs[k..];
    FilterConcat(cs[..k], cs[k..], keep);
    FilterAll(cs[k..], keep);
    forall c | c in cs[..k]
      ensures !keep(c)
    {
      assert c in cs;
    }
    FilterNone(cs[..k], keep);
  }

  /** Pruning a plan leaves its retained tail and does not touch any other plan. */
  lemma PruneListing(cs: Checkpoints, p: string, limit: int, q: string)
    requires DistinctIds(cs)
    ensures ForPlan(Prune(cs, p, limit), q) ==
            if q != p || |ForPlan(cs, p)| <= limit then ForPlan(cs, q) else Tail(ForPlan(cs, p), limit)
  {
    var mine := ForPlan(cs, p);
    var keep := KeptBy(p, IdSet(Tail(mine, limit)));
    if q != p {
      FilterTwice(cs, keep, ByPlan(q), ByPlan(q));
    } else {
      var both := (c: Checkpoint) => keep(c) && c.planId == p;
      FilterTwice(cs, keep, ByPlan(p), both);
      FilterTwice(cs, ByPlan(p), keep, both);
      assert cs + [] == cs && mine + [] == mine;
      FilterDistinct(cs, [], ByPlan(p));
      FilterMembers(cs, ByPlan(p));
      KeepSuffix(mine, p, Dropped(|mine|, limit));
    }
  }

  /** What a plan's listing becomes when `news` is saved on top of `held`. */
  function Retained(held: Checkpoints, news: Checkpoints, limit: int): Checkpoints {
    if news == [] then held
    else if limit >= 0 then Tail(held + news, limit)
    else []
  }

  lemma TailTwice(s: Checkpoints, b: Checkpoints, limit: nat)
    ensures Tail(Tail(s, limit) + b, limit) == Tail(s + b, limit)
  {
  }

  lemma RetainedTwice(held: Checkpoints, a: Checkpoints, b: Checkpoints, limit: int)
    requires limit > 0 ==> |held| <= limit
    ensures Retained(Retained(held, a, limit), b, limit) == Retained(held, a + b, limit)
  {
    if a == [] {
      assert a + b == b;
    } else if b == [] {
      assert a + b == a;
    } else {
      assert held + (a + b) == held + a + b;
      if limit >= 0 { TailTwice(held + a, b, limit); }
    }
  }

  lemma SaveOneListing(cs: Checkpoints, limit: int, c: Checkpoint, p: string)
    requires DistinctIds(cs + [c])
    requires limit > 0 ==> |ForPlan(cs, p)| <= limit
    requires limit < 0 ==> ForPlan(cs, p) == []
    ensures ForPlan(SaveOne(cs, limit, c), p) == Retained(ForPlan(cs, p), ForPlan([c], p), limit)
  {
    FilterSnoc(cs, c, ByPlan(p));
    FilterSnoc([], c, ByPlan(p));
    assert [] + [c] == [c];
    PruneListing(cs + [c], c.planId, limit, p);
  }

  /** After any interleaving of saves across plans, each plan's listing is the retained part
      of its own full history: for a positive limit the last `limit` checkpoints, for zero
      all of them, for a negative limit none once something has been saved. */
  lemma {:induction false} StoreRefinesHistory(cs: Checkpoints, limit: int, news: Checkpoints, p: string)
    requires DistinctIds(cs + news)
    requires limit > 0 ==> |ForPlan(cs, p)| <= limit
    requires limit < 0 ==> ForPlan(cs, p) == []
    ensures ForPlan(SaveAll(cs, limit, news), p) == Retained(ForPlan(cs, p), ForPlan(news, p), limit)
    decreases |news|
  {
    if news != [] {
      var c, rest := news[0], news[1..];
      assert news == [c] + rest && cs + news == cs + [c] + rest;
      assert DistinctIds(cs + [c]) by {
        assert forall i :: 0 <= i < |cs + [c]| ==> (cs + [c])[i] == (cs + news)[i];
      }
      SaveOneListing(cs, limit, c, p);
      PruneDistinct(cs + [c], c.planId, limit, rest);
      StoreRefinesHistory(SaveOne(cs, limit, c), limit, rest, p);
      FilterConcat([c], rest, ByPlan(p));
      RetainedTwice(ForPlan(cs, p), ForPlan([c], p), ForPlan(rest, p), limit);
    }
  }

  /** `kept` is the last `n` of `mine`. */
  predicate AreLast(kept: Checkpoints, mine: Checkpoints, n: int) {
    |kept| == n <= |mine| && kept == mine[|mine| - n..]
  }

  /** How much of a listing of `n` checkpoints stays. */
  function HowMany(n: nat, limit: int): nat {
    if limit > 0 then Min(limit, n) else if limit == 0 then n else 0
  }

  /** In plain terms: what is kept of a plan's history is its end, the last `limit`
      checkpoints for a positive limit, the whole for zero and nothing for a negative one. */
  lemma {:induction false} ListingAfterSaves(limit: int, news: Checkpoints, p: string)
    requires DistinctIds(news)
    ensures AreLast(ForPlan(SaveAll([], limit, news), p), ForPlan(news, p), HowMany(|ForPlan(news, p)|, limit))
  {
    assert [] + news == news;
    RetainedEnd(ForPlan(news, p), limit);
    StoreRefinesHistory([], limit, news, p);
  }

  lemma RetainedEnd(mine: Checkpoints, limit: int)
    ensures AreLast(Retained([], mine, limit), mine, HowMany(|mine|, limit))
  {
    assert [] + mine == mine;
  }

  /** Restoring a payload leaves each plan the last `max(1, limit)` of its checkpoints;
      checkpoints under the empty id are left alone. */
  lemma ListingAfterTrip(limit: int, cs: Checkpoints, p: string)
    requires DistinctIds(cs)
    ensures var mine := ForPlan(cs, p);
      AreLast(ForPlan(DictTrip(limit, cs).1, p), mine,
              if p == "" then |mine| else HowMany(|mine|, if limit < 1 then 1 else limit))
  {
    var n, all := Max(1, limit), AllPlans(cs);
    var mine, keep := ForPlan(cs, p), Survivors(cs, n, all);
    FiltersSwap(cs, keep, ByPlan(p));
    FilterMembers(cs, ByPlan(p));
    if p == "" || |mine| <= n {
      assert p == "" ==> p !in all;
      FilterAll(mine, keep);
    } else {
      assert mine[0] in mine && Normal(p) == p && p in all;
      assert cs + [] == cs && mine + [] == mine;
      FilterDistinct(cs, [], ByPlan(p));
      TripCutsTail(mine, p, n, keep);
    }
  }

  lemma TripCutsTail(mine: Checkpoints, p: string, n: nat, keep: Checkpoint -> bool)
    requires 1 <= n <= |mine| && DistinctIds(mine) && forall c :: c in mine ==> c.planId == p
    requires forall c :: c in mine ==> (keep(c) <==> c.checkpointId in IdSet(mine[|mine| - n..]))
    ensures Filter(mine, keep) == mine[|mine| - n..]
  {
    var k := |mine| - n;
    KeepSuffix(mine, p, k);
    FilterTwice(mine, keep, KeptBy(p, IdSet(mine[k..])), keep);
    FilterTwice(mine, KeptBy(p, IdSet(mine[k..])), keep, keep);
    FilterAll(mine[k..], keep);
  }

  /** The latest checkpoint is the last one saved for the plan, exactly when the limit is not
      negative. */
  lemma {:induction false} LatestIsLastSaved(limit: int, news: Checkpoints, p: string)
    requires DistinctIds(news) && ForPlan(news, p) != []
    ensures Latest(SaveAll([], limit, news), p) == Some(ForPlan(news, p)[|ForPlan(news, p)| - 1]) <==> limit >= 0
  {
    assert [] + news == news;
    StoreRefinesHistory([], limit, news, p);
    RetainedLast(ForPlan(news, p), limit);
  }

  lemma RetainedLast(mine: Checkpoints, limit: int)
    requires mine != []
    ensures var kept := Retained([], mine, limit);
      if limit >= 0 then kept != [] && kept[|kept| - 1] == mine[|mine| - 1] else kept == []
  {
    assert [] + mine == mine;
  }

  lemma {:induction false} SaveAllSnoc(cs: Checkpoints, limit: int, news: Checkpoints, c: Checkpoint)
    ensures SaveAll(cs, limit, news + [c]) == SaveOne(SaveAll(cs, limit, news), limit, c)
    decreases |news|
  {
    if news == [] {
      assert news + [c] == [c];
    } else {
      assert (news + [c])[1..] == news[1..] + [c];
      SaveAllSnoc(SaveOne(cs, limit, news[0]), limit, news[1..], c);
    }
  }

  // --------------------------------------------------- the from_dict trip

  lemma SurvivingStart(cs: Checkpoints, limit: int)
    ensures Surviving(cs, limit, {}) == cs
  {
    FilterAll(cs, Survivors(cs, limit, {}));
  }

  /** Pruning one more plan of the partly pruned payload. */
  lemma PruneOnePlan(cs: Checkpoints, limit: int, pruned: set<string>, p: string)
    requires limit > 0
    ensures Prune(Surviving(cs, limit, pruned), p, limit) == Surviving(cs, limit, pruned + {p})
  {
    var now, mine := Surviving(cs, limit, pruned), ForPlan(cs, p);
    var old', new' := Survivors(cs, limit, pruned), Survivors(cs, limit, pruned + {p});
    SurvivingListing(cs, limit, pruned, p);
    if |mine| <= limit {
      FilterTwice(cs, old', new', new');
      FilterMembers(cs, old');
      FilterAll(now, new');
      assert ForPlan(now, p) == mine;
    } else {
      var ids := IdSet(Tail(mine, limit));
      FilterTwice(cs, old', KeptBy(p, ids), new');
      if |ForPlan(now, p)| <= limit {
        assert ForPlan(now, p) == Tail(mine, limit);
        FilterMembers(now, ByPlan(p));
        FilterAll(now, KeptBy(p, ids));
      }
    }
  }

  /** The listing of a plan in the partly pruned store: untouched within the limit, and
      otherwise still ending in the tail to retain. */
  lemma SurvivingListing(cs: Checkpoints, limit: int, pruned: set<string>, p: string)
    requires limit > 0
    ensures var mine, now := ForPlan(cs, p), ForPlan(Surviving(cs, limit, pruned), p);
      if |mine| <= limit then now == mine else |now| >= limit && Tail(now, limit) == Tail(mine, limit)
  {
    var mine, keep := ForPlan(cs, p), Survivors(cs, limit, pruned);
    FiltersSwap(cs, keep, ByPlan(p));
    FilterMembers(cs, ByPlan(p));
    var k := Dropped(|mine|, limit);
    forall c | c in mine[k..]
      ensures keep(c)
    {
      assert c in mine;
    }
    FilterKeepsTail(mine, k, keep);
  }

  lemma FiltersSwap(cs: Checkpoints, f: Checkpoint -> bool, g: Checkpoint -> bool)
    ensures Filter(Filter(cs, f), g) == Filter(Filter(cs, g), f)
  {
    var both := (c: Checkpoint) => f(c) && g(c);
    FilterTwice(cs, f, g, both);
    FilterTwice(cs, g, f, both);
  }

  lemma FilterKeepsTail(cs: Checkpoints, k: nat, keep: Checkpoint -> bool)
    requires k <= |cs| && forall c :: c in cs[k..] ==> keep(c)
    ensures Filter(cs, keep) == Filter(cs[..k], keep) + cs[k..]
  {
    assert cs == cs[..k] + cs[k..];
    FilterConcat(cs[..k], cs[k..], keep);
    FilterAll(cs[k..], keep);
  }

  /** What a to_dict/from_dict trip makes of a store's limit and checkpoints. */
  function DictTrip(limit: int, cs: Checkpoints): (int, Checkpoints) {
    (Max(1, limit), Surviving(cs, Max(1, limit), AllPlans(cs)))
  }

  /** A store that saving produced comes back unchanged from the trip exactly when its limit
      is positive. */
  lemma DictTripIsIdentityIff(limit: int, news: Checkpoints)
    requires DistinctIds(news)
    ensures var cs := SaveAll([], limit, news); DictTrip(limit, cs) == (limit, cs) <==> limit >= 1
  {
    if limit >= 1 { SavedSurvives(limit, news); }
  }

  lemma SavedSurvives(limit: int, news: Checkpoints)
    requires limit >= 1 && DistinctIds(news)
    ensures var cs := SaveAll([], limit, news); Surviving(cs, limit, AllPlans(cs)) == cs
  {
    var cs := SaveAll([], limit, news);
    assert [] + news == news;
    forall c | c in cs
      ensures Survivors(cs, limit, AllPlans(cs))(c)
    {
      StoreRefinesHistory([], limit, news, c.planId);
    }
    FilterAll(cs, Survivors(cs, limit, AllPlans(cs)));
  }
}
