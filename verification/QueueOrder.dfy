/** The order in which a first-in first-out worklist yields the nodes of a plan. */
module QueueOrder {
  import opened Sequences
  import opened TierContracts
  import opened PlanGraph
  import opened KahnWorklist

  /** All in-plan dependencies of `x` are among the first `n` of `order`. */
  ghost predicate ReleasedBy(plan: Plan, order: seq<Id>, x: Id, n: nat)
    requires n <= |order|
  {
    forall a :: Edge(plan, a, x) ==> a in order[..n]
  }

  /** The dependencies of `x` are complete no later than those of `y`. */
  ghost predicate NoLater(plan: Plan, order: seq<Id>, x: Id, y: Id) {
    forall n: nat :: n <= |order| && ReleasedBy(plan, order, y, n) ==> ReleasedBy(plan, order, x, n)
  }

  /** `x` may stand before `y`: its dependencies are complete earlier, or at the same time and
      a plan without repeated ids lists it first. */
  ghost predicate Precedes(plan: Plan, order: seq<Id>, x: Id, y: Id) {
    && NoLater(plan, order, x, y)
    && (UniqueIds(plan) && NoLater(plan, order, y, x) ==> Position(plan, x) <= Position(plan, y))
  }

  /** With `done` taken, the ids taken and then those queued stand in order. */
  ghost predicate Queued(plan: Plan, done: seq<Id>, queue: seq<Id>) {
    var all := done + queue;
    forall i, j :: 0 <= i < j < |all| ==> Precedes(plan, done, all[i], all[j])
  }

  /** The nodes come in the order in which their dependencies are complete; among those
      complete at the same time, in the order in which the plan lists them. */
  ghost predicate FirstReleasedFirst(plan: Plan, order: seq<Id>) {
    Queued(plan, order, [])
  }

  // ------------------------------------------------------------- the worklist

  lemma QueuedAtStart(plan: Plan, edges: seq<(Id, Id)>, indeg: map<Id, int>, queue: seq<Id>)
    requires WorklistFits(plan, edges, [], indeg, queue) && InListing(plan, queue)
    ensures Queued(plan, [], queue)
  {
    assert [] + queue == queue;
    forall i, j | 0 <= i < j < |queue|
      ensures Precedes(plan, [], queue[i], queue[j])
    {
      assert queue[i] in queue && queue[i] in Available(plan, Elems<Id>([]));
    }
  }

  /** Everything taken or queued is released by what was taken. */
  lemma AllReleased(plan: Plan, edges: seq<(Id, Id)>, done: seq<Id>, indeg: map<Id, int>,
                                       queue: seq<Id>, x: Id)
    requires WorklistFits(plan, edges, done, indeg, queue) && (x in done || x in queue)
    ensures ReleasedBy(plan, done, x, |done|)
  {
    assert done[..|done|] == done;
    forall a | Edge(plan, a, x)
      ensures a in done
    {
      if x in queue {
        assert x in Available(plan, Elems(done)) && a in Elems(done);
      } else {
        var i :| 0 <= i < |done| && done[i] == x;
        assert a in done[..i];
      }
    }
  }

  lemma ReleasedLonger(plan: Plan, done: seq<Id>, cur: Id, x: Id, n: nat)
    requires n <= |done|
    ensures ReleasedBy(plan, done + [cur], x, n) <==> ReleasedBy(plan, done, x, n)
    ensures ReleasedBy(plan, done, x, |done|) ==> ReleasedBy(plan, done + [cur], x, |done| + 1)
  {
    assert (done + [cur])[..n] == done[..n] && done[..|done|] == done;
    assert (done + [cur])[..|done| + 1] == done + [cur];
  }

  /** Ids that were in order stay in order when one more is taken. */
  lemma OldPair(plan: Plan, done: seq<Id>, cur: Id, x: Id, y: Id)
    requires Precedes(plan, done, x, y) && ReleasedBy(plan, done, x, |done|)
    ensures Precedes(plan, done + [cur], x, y)
  {
    forall n: nat | n <= |done|
      ensures ReleasedBy(plan, done + [cur], x, n) <==> ReleasedBy(plan, done, x, n)
      ensures ReleasedBy(plan, done + [cur], y, n) <==> ReleasedBy(plan, done, y, n)
    {
      ReleasedLonger(plan, done, cur, x, n);
      ReleasedLonger(plan, done, cur, y, n);
    }
    ReleasedLonger(plan, done, cur, x, |done|);
  }

  /** What `cur` releases is released by `cur` and not before. */
  lemma NewlyReleased(plan: Plan, done: seq<Id>, cur: Id, y: Id, n: nat)
    requires Edge(plan, cur, y) && cur !in done && n <= |done|
    ensures !ReleasedBy(plan, done + [cur], y, n)
  {
    assert (done + [cur])[..n] == done[..n];
  }

  lemma OldThenNew(plan: Plan, done: seq<Id>, cur: Id, x: Id, y: Id)
    requires ReleasedBy(plan, done, x, |done|) && Edge(plan, cur, y) && cur !in done
    ensures Precedes(plan, done + [cur], x, y)
  {
    ReleasedLonger(plan, done, cur, x, |done|);
    forall n: nat | n <= |done|
      ensures !ReleasedBy(plan, done + [cur], y, n)
    {
      NewlyReleased(plan, done, cur, y, n);
    }
    assert ReleasedBy(plan, done + [cur], x, |done|);
  }

  lemma NewPair(plan: Plan, done: seq<Id>, cur: Id, x: Id, y: Id)
    requires Edge(plan, cur, x) && Edge(plan, cur, y) && cur !in done
    requires ReleasedBy(plan, done + [cur], x, |done| + 1)
    requires UniqueIds(plan) ==> Position(plan, x) <= Position(plan, y)
    ensures Precedes(plan, done + [cur], x, y)
  {
    forall n: nat | n <= |done|
      ensures !ReleasedBy(plan, done + [cur], y, n)
    {
      NewlyReleased(plan, done, cur, y, n);
    }
  }

  /** Taking the head of the queue and queueing what it releases, in listing order, keeps all
      ids in order. */
  lemma QueuedStep(plan: Plan, edges: seq<(Id, Id)>, done: seq<Id>, indeg0: map<Id, int>,
                                      queue0: seq<Id>, indeg: map<Id, int>, newly: seq<Id>)
    requires WorklistFits(plan, edges, done, indeg0, queue0) && queue0 != [] && Queued(plan, done, queue0)
    requires WorklistFits(plan, edges, done + [queue0[0]], indeg, queue0[1..] + newly)
    requires forall y :: y in newly ==> Edge(plan, queue0[0], y)
    requires UniqueIds(plan) ==> InListing(plan, newly)
    ensures Queued(plan, done + [queue0[0]], queue0[1..] + newly)
  {
    var cur, held := queue0[0], done + queue0;
    var all := done + [cur] + (queue0[1..] + newly);
    assert all == held + newly;
    assert cur in queue0 && cur in Available(plan, Elems(done)) && cur !in Elems(done);
    forall x | x in held
      ensures ReleasedBy(plan, done, x, |done|)
    {
      AllReleased(plan, edges, done, indeg0, queue0, x);
    }
    forall y | y in newly
      ensures ReleasedBy(plan, done + [cur], y, |done| + 1)
    {
      assert y in queue0[1..] + newly;
      AllReleased(plan, edges, done + [cur], indeg, queue0[1..] + newly, y);
    }
    forall i, j | 0 <= i < j < |all|
      ensures Precedes(plan, done + [cur], all[i], all[j])
    {
      PairInOrder(plan, done, cur, held, newly, i, j);
    }
  }

  lemma PairInOrder(plan: Plan, done: seq<Id>, cur: Id, held: seq<Id>, newly: seq<Id>, i: nat, j: nat)
    requires i < j < |held + newly| && cur !in done
    requires j < |held| ==> Precedes(plan, done, held[i], held[j])
    requires forall x :: x in held ==> ReleasedBy(plan, done, x, |done|)
    requires forall y :: y in newly ==> Edge(plan, cur, y) && ReleasedBy(plan, done + [cur], y, |done| + 1)
    requires UniqueIds(plan) ==> InListing(plan, newly)
    ensures Precedes(plan, done + [cur], (held + newly)[i], (held + newly)[j])
  {
    if j < |held| {
      OldPair(plan, done, cur, held[i], held[j]);
    } else if i < |held| {
      OldThenNew(plan, done, cur, held[i], newly[j - |held|]);
    } else {
      NewPair(plan, done, cur, newly[i - |held|], newly[j - |held|]);
    }
  }

  /** The step as the worklist takes it. */
  lemma PoppedInOrder(plan: Plan, edges: seq<(Id, Id)>, done: seq<Id>, indeg0: map<Id, int>,
                                         queue0: seq<Id>, indeg: map<Id, int>, queue: seq<Id>)
    requires WorklistFits(plan, edges, done, indeg0, queue0) && queue0 != [] && Queued(plan, done, queue0)
    requires WorklistFits(plan, edges, done + [queue0[0]], indeg, queue)
    requires UniqueIds(plan) ==> EdgesListed(plan, edges)
    requires QueuedBehind(plan, Children(edges, queue0[0]), queue0[1..], queue)
    ensures Queued(plan, done + [queue0[0]], queue)
  {
    var cur, newly := queue0[0], queue[|queue0| - 1..];
    forall y | y in newly
      ensures Edge(plan, cur, y)
    {
      ChildrenAreEdges(edges, cur, y);
    }
    if UniqueIds(plan) { ChildrenListed(plan, edges, cur); }
    assert queue == queue0[1..] + newly;
    QueuedStep(plan, edges, done, indeg0, queue0, indeg, newly);
  }

  // ------------------------------------------------------------- uniqueness

  lemma ReleasedAlike(plan: Plan, s: seq<Id>, t: seq<Id>, k: nat, x: Id, n: nat)
    requires n <= k <= |s| && k <= |t| && s[..k] == t[..k]
    ensures ReleasedBy(plan, s, x, n) <==> ReleasedBy(plan, t, x, n)
  {
    assert s[..n] == s[..k][..n] && t[..n] == t[..k][..n];
  }

  /** What one order says of ids released within a common beginning, the other says too. */
  lemma NoLaterAlike(plan: Plan, s: seq<Id>, t: seq<Id>, k: nat, x: Id, y: Id)
    requires k <= |s| && k <= |t| && s[..k] == t[..k]
    requires NoLater(plan, t, x, y) && ReleasedBy(plan, s, x, k)
    ensures NoLater(plan, s, x, y)
  {
    forall n: nat | n <= |s| && ReleasedBy(plan, s, y, n)
      ensures ReleasedBy(plan, s, x, n)
    {
      if n <= k {
        ReleasedAlike(plan, s, t, k, x, n);
        ReleasedAlike(plan, s, t, k, y, n);
      } else {
        assert s[..k] == s[..n][..k];
      }
    }
  }

  lemma LaterIn(plan: Plan, s: seq<Id>, t: seq<Id>, k: nat) returns (j: nat)
    requires Topological(plan, s) && Topological(plan, t) && k < |s| && k < |t| && s[..k] == t[..k] && s[k] != t[k]
    ensures k < j < |s| && s[j] == t[k]
  {
    assert t[k] in Elems(s);
    j :| 0 <= j < |s| && s[j] == t[k];
    forall i | 0 <= i < k
      ensures s[i] == t[i]
    {
      assert s[..k][i] == t[..k][i];
    }
  }

  lemma PrecedesLater(plan: Plan, s: seq<Id>, i: nat, j: nat)
    requires FirstReleasedFirst(plan, s) && i < j < |s|
    ensures Precedes(plan, s, s[i], s[j])
  {
    assert s + [] == s;
  }

  /** Where two such orders have agreed for `k` ids they agree on the next. */
  lemma NextAgrees(plan: Plan, s: seq<Id>, t: seq<Id>, k: nat)
    requires UniqueIds(plan) && Topological(plan, s) && Topological(plan, t)
    requires FirstReleasedFirst(plan, s) && FirstReleasedFirst(plan, t)
    requires k < |s| && k < |t| && s[..k] == t[..k]
    ensures s[k] == t[k]
  {
    var x, y := s[k], t[k];
    if x != y {
      var j := LaterIn(plan, s, t, k);
      var i := LaterIn(plan, t, s, k);
      PrecedesLater(plan, s, k, j);
      PrecedesLater(plan, t, k, i);
      ReleasedAlike(plan, s, t, k, x, k);
      ReleasedAlike(plan, s, t, k, y, k);
      NoLaterAlike(plan, s, t, k, y, x);
      NoLaterAlike(plan, t, s, k, x, y);
      assert x in Elems(s) && y in Elems(t);
      IdAtPosition(plan, x);
      IdAtPosition(plan, y);
    }
  }

  /** A plan without repeated ids has one such topological order. */
  lemma FirstReleasedIsUnique(plan: Plan, s: seq<Id>, t: seq<Id>)
    requires UniqueIds(plan) && Topological(plan, s) && Topological(plan, t)
    requires FirstReleasedFirst(plan, s) && FirstReleasedFirst(plan, t)
    ensures s == t
  {
    PartialSize(plan, s);
    PartialSize(plan, t);
    AgreeUpTo(plan, s, t, |s|);
    assert s[..|s|] == s && t[..|s|] == t;
  }

  lemma {:induction false} AgreeUpTo(plan: Plan, s: seq<Id>, t: seq<Id>, k: nat)
    requires UniqueIds(plan) && Topological(plan, s) && Topological(plan, t)
    requires FirstReleasedFirst(plan, s) && FirstReleasedFirst(plan, t)
    requires k <= |s| == |t|
    ensures s[..k] == t[..k]
  {
    if k > 0 {
      AgreeUpTo(plan, s, t, k - 1);
      NextAgrees(plan, s, t, k - 1);
      assert s[..k] == s[..k - 1] + [s[k - 1]] && t[..k] == t[..k - 1] + [t[k - 1]];
    }
  }
}
