/** The dependency graph of a plan: topological orders, cycles, and the order obtained by
    always taking the least available id. */
module PlanGraph {
  import opened Sequences
  import opened StringOrder
  import opened TierContracts

  /** `a` must come before `b`: some node called `b` depends on `a`, and `a` is in the plan. */
  ghost predicate Edge(plan: Plan, a: Id, b: Id) {
    a in Ids(plan) && exists n :: n in plan && n.id == b && a in n.deps
  }

  /** The node kept for `id` lists `d`, whether or not `d` is in the plan. */
  ghost predicate DependsOn(plan: Plan, id: Id, d: Id) {
    id in Ids(plan) && d in LastNode(plan, id).deps
  }

  /** A path of dependents: each element depends on the one before it. */
  ghost predicate Dependents(plan: Plan, w: seq<Id>) {
    w != [] && forall i :: 0 <= i < |w| - 1 ==> DependsOn(plan, w[i + 1], w[i])
  }

  ghost predicate DepsEarlier(plan: Plan, order: seq<Id>) {
    forall i, a :: 0 <= i < |order| && Edge(plan, a, order[i]) ==> a in order[..i]
  }

  /** A repetition-free list of plan ids, each after its in-plan dependencies. */
  ghost predicate Partial(plan: Plan, order: seq<Id>) {
    NoDup(order) && Elems(order) <= Ids(plan) && DepsEarlier(plan, order)
  }

  ghost predicate Topological(plan: Plan, order: seq<Id>) {
    Partial(plan, order) && Elems(order) == Ids(plan)
  }

  ghost predicate Walk(plan: Plan, w: seq<Id>) {
    forall i :: 0 <= i < |w| - 1 ==> Edge(plan, w[i], w[i + 1])
  }

  ghost predicate ClosedWalk(plan: Plan, w: seq<Id>) {
    |w| >= 2 && w[0] == w[|w| - 1] && Walk(plan, w)
  }

  ghost predicate Cyclic(plan: Plan) {
    exists w :: ClosedWalk(plan, w)
  }

  /** The ids not yet done whose in-plan dependencies are all done. */
  ghost function Available(plan: Plan, done: set<Id>): set<Id> {
    set c | c in Ids(plan) && c !in done && forall a :: Edge(plan, a, c) ==> a in done
  }

  // ------------------------------------------------------- cycles and orders

  lemma PartialSnoc(plan: Plan, done: seq<Id>, c: Id)
    requires Partial(plan, done) && c in Available(plan, Elems(done))
    ensures Partial(plan, done + [c])
    ensures Elems(done + [c]) == Elems(done) + {c}
  {
    NoDupSnoc(done, c);
    ElemsSnoc(done, c);
    var next := done + [c];
    forall i, a | 0 <= i < |next| && Edge(plan, a, next[i])
      ensures a in next[..i]
    {
      if i < |done| {
        assert next[..i] == done[..i];
      } else {
        assert next[..i] == done && a in Elems(done);
      }
    }
  }

  lemma PartialSize(plan: Plan, done: seq<Id>)
    requires Partial(plan, done)
    ensures |done| <= |Ids(plan)|
    ensures |done| == |Ids(plan)| <==> Topological(plan, done)
  {
    NoDupSize(done);
    SubsetSize(Elems(done), Ids(plan));
  }

  /** Along a walk the positions in a topological order strictly increase. */
  lemma {:induction false} WalkClimbs(plan: Plan, order: seq<Id>, w: seq<Id>)
    requires Topological(plan, order) && |w| >= 2 && Walk(plan, w)
    ensures exists i, j :: 0 <= i < j < |order| && order[i] == w[0] && order[j] == w[|w| - 1]
  {
    var z := w[|w| - 1];
    assert Edge(plan, w[|w| - 2], w[|w| - 1]);
    assert z in Ids(plan);
    assert z in Elems(order);
    var j :| 0 <= j < |order| && order[j] == z;
    assert w[|w| - 2] in order[..j];
    var m :| 0 <= m < j && order[m] == w[|w| - 2];
    if |w| > 2 {
      WalkClimbs(plan, order, w[..|w| - 1]);
      var i, m' :| 0 <= i < m' < |order| && order[i] == w[0] && order[m'] == w[|w| - 2];
      assert m == m';
    }
  }

  lemma SortedMeansAcyclic(plan: Plan, order: seq<Id>)
    requires Topological(plan, order)
    ensures !Cyclic(plan)
  {
    forall w | |w| >= 2 && Walk(plan, w)
      ensures w[0] != w[|w| - 1]
    {
      WalkClimbs(plan, order, w);
    }
  }

  ghost predicate Stuck(plan: Plan, done: set<Id>) {
    Available(plan, done) == {}
  }

  /** A walk of `n` edges ending in `c`, outside `done`, when nothing outside is available. */
  lemma {:induction false} BackwardWalk(plan: Plan, done: set<Id>, c: Id, n: nat) returns (w: seq<Id>)
    requires Stuck(plan, done) && c in Ids(plan) && c !in done
    ensures |w| == n + 1 && w[n] == c && Walk(plan, w) && Elems(w) <= Ids(plan)
    decreases n
  {
    if n == 0 {
      w := [c];
    } else {
      assert c !in Available(plan, done);
      var a :| Edge(plan, a, c) && a !in done;
      var v := BackwardWalk(plan, done, a, n - 1);
      w := v + [c];
      forall i | 0 <= i < |w| - 1
        ensures Edge(plan, w[i], w[i + 1])
      {
        if i < |v| - 1 { assert Edge(plan, v[i], v[i + 1]); }
      }
      ElemsSnoc(v, c);
    }
  }

  /** If no id is available although some are left, the plan has a cycle. */
  lemma StuckMeansCyclic(plan: Plan, done: set<Id>, c: Id)
    requires Stuck(plan, done) && c in Ids(plan) && c !in done
    ensures Cyclic(plan)
  {
    var w := BackwardWalk(plan, done, c, |Ids(plan)|);
    Pigeonhole(w, Ids(plan));
    var i, j :| 0 <= i < j < |w| && w[i] == w[j];
    var loop := w[i..j + 1];
    forall k | 0 <= k < |loop| - 1
      ensures Edge(plan, loop[k], loop[k + 1])
    {
      assert Edge(plan, w[i + k], w[i + k + 1]);
    }
    assert ClosedWalk(plan, loop);
  }

  /** When Kahn's worklist runs dry, the list is complete exactly if the plan is acyclic. */
  lemma DryMeansSortedOrCyclic(plan: Plan, done: seq<Id>)
    requires Partial(plan, done) && Stuck(plan, Elems(done))
    ensures |done| == |Ids(plan)| <==> !Cyclic(plan)
    ensures |done| == |Ids(plan)| <==> Topological(plan, done)
  {
    PartialSize(plan, done);
    if Topological(plan, done) {
      SortedMeansAcyclic(plan, done);
    } else {
      var c :| c in Ids(plan) && c !in Elems(done);
      StuckMeansCyclic(plan, Elems(done), c);
    }
  }

  // ------------------------------------------------------ the least-id order

  ghost predicate IsLeast(x: Id, s: set<Id>) {
    x in s && forall y :: y in s ==> Leq(x, y)
  }

  lemma {:induction false} LeastExists(s: set<Id>) returns (x: Id)
    requires s != {}
    ensures IsLeast(x, s)
  {
    LeqTotalOrder();
    x :| x in s;
    if s != {x} {
      var y := LeastExists(s - {x});
      if !Leq(x, y) { x := y; }
    }
  }

  ghost function Least(s: set<Id>): (x: Id)
    requires s != {}
    ensures IsLeast(x, s)
  {
    assert exists x :: IsLeast(x, s) by { var x := LeastExists(s); }
    var x :| IsLeast(x, s);
    x
  }

  /** Keep taking the least available id for as long as there is one. */
  ghost function Extend(plan: Plan, done: seq<Id>): seq<Id>
    decreases Ids(plan) - Elems(done)
  {
    var avail := Available(plan, Elems(done));
    if avail == {} then done
    else
      ElemsSnoc(done, Least(avail));
      Extend(plan, done + [Least(avail)])
  }

  ghost function StableOrder(plan: Plan): seq<Id> {
    Extend(plan, [])
  }

  ghost predicate Sortable(plan: Plan) {
    |StableOrder(plan)| == |Ids(plan)|
  }

  lemma {:induction false} ExtendRunsDry(plan: Plan, done: seq<Id>)
    requires Partial(plan, done)
    ensures Partial(plan, Extend(plan, done)) && Stuck(plan, Elems(Extend(plan, done)))
    ensures done <= Extend(plan, done)
    decreases Ids(plan) - Elems(done)
  {
    var avail := Available(plan, Elems(done));
    if avail != {} {
      PartialSnoc(plan, done, Least(avail));
      ExtendRunsDry(plan, done + [Least(avail)]);
    }
  }

  /** Cycle completeness: the sort covers the plan exactly when there is no cycle. */
  lemma SortableIffAcyclic(plan: Plan)
    ensures Sortable(plan) <==> !Cyclic(plan)
    ensures Sortable(plan) ==> Topological(plan, StableOrder(plan))
  {
    ExtendRunsDry(plan, []);
    DryMeansSortedOrCyclic(plan, StableOrder(plan));
  }

  lemma NextIsAvailable(plan: Plan, done: seq<Id>, order: seq<Id>)
    requires Partial(plan, done) && Topological(plan, order) && done <= order && |done| < |order|
    ensures order[|done|] in Available(plan, Elems(done)) && done + [order[|done|]] <= order
  {
    var k := |done|;
    assert order[..k] == done && order[..k + 1] == done + [order[k]];
    forall a | Edge(plan, a, order[k])
      ensures a in Elems(done)
    {
      assert a in order[..k];
    }
    assert order[k] in Elems(order);
  }

  lemma {:induction false} ExtendIsLeast(plan: Plan, done: seq<Id>, order: seq<Id>)
    requires Partial(plan, done) && Topological(plan, order) && done <= order
    ensures LexLeq(Extend(plan, done), order)
    decreases Ids(plan) - Elems(done)
  {
    var avail := Available(plan, Elems(done));
    var k := |done|;
    if avail != {} {
      PartialSnoc(plan, done, Least(avail));
      ExtendRunsDry(plan, done + [Least(avail)]);
      assert Least(avail) in Elems(order) && Least(avail) !in done;
      assert |order| == k ==> order == done;
      NextIsAvailable(plan, done, order);
      if Least(avail) == order[k] {
        ExtendIsLeast(plan, done + [order[k]], order);
      } else {
        assert Less(Least(avail), order[k]);
        assert LexLessAt(Extend(plan, done), order, k) by {
          assert Extend(plan, done)[..k] == done;
        }
      }
    }
  }

  /** The stable order is the lexicographically least topological order, and the only one
      with that property. */
  lemma StableOrderIsLeast(plan: Plan, order: seq<Id>)
    requires Topological(plan, order)
    ensures Sortable(plan) && Topological(plan, StableOrder(plan))
    ensures LexLeq(StableOrder(plan), order)
    ensures LexLeq(order, StableOrder(plan)) ==> order == StableOrder(plan)
  {
    SortedMeansAcyclic(plan, order);
    SortableIffAcyclic(plan);
    ExtendIsLeast(plan, [], order);
    if LexLeq(order, StableOrder(plan)) {
      LexLeqAntisymmetric(order, StableOrder(plan));
    }
  }

  // ------------------------------------------------- independence of listing

  /** A plan with the order of its nodes, and of each node's dependencies, forgotten. */
  function Unordered(plan: Plan): multiset<(Id, multiset<Id>)> {
    if plan == [] then multiset{}
    else multiset{(plan[0].id, multiset(plan[0].deps))} + Unordered(plan[1..])
  }

  lemma {:induction false} UnorderedMember(plan: Plan, n: Node)
    requires n in plan
    ensures (n.id, multiset(n.deps)) in Unordered(plan)
  {
    if plan[0] != n { UnorderedMember(plan[1..], n); }
  }

  lemma {:induction false} MemberOfUnordered(plan: Plan, key: (Id, multiset<Id>)) returns (n: Node)
    requires key in Unordered(plan)
    ensures n in plan && n.id == key.0 && multiset(n.deps) == key.1
  {
    if key == (plan[0].id, multiset(plan[0].deps)) {
      n := plan[0];
    } else {
      n := MemberOfUnordered(plan[1..], key);
    }
  }

  lemma ShuffledGraph(p: Plan, q: Plan)
    requires Unordered(p) == Unordered(q)
    ensures Ids(p) <= Ids(q)
    ensures forall a, b :: Edge(p, a, b) ==> Edge(q, a, b)
  {
    forall n | n in p
      ensures n.id in Ids(q)
      ensures forall a :: a in n.deps ==> exists m :: m in q && m.id == n.id && a in m.deps
    {
      UnorderedMember(p, n);
      var m := MemberOfUnordered(q, (n.id, multiset(n.deps)));
      forall a | a in n.deps
        ensures a in m.deps
      {
        assert a in multiset(n.deps);
      }
    }
  }

  lemma {:induction false} ExtendSameGraph(p: Plan, q: Plan, done: seq<Id>)
    requires Ids(p) == Ids(q) && forall a, b :: Edge(p, a, b) <==> Edge(q, a, b)
    ensures Extend(p, done) == Extend(q, done)
    decreases Ids(p) - Elems(done)
  {
    var avail := Available(p, Elems(done));
    assert avail == Available(q, Elems(done));
    if avail != {} {
      ElemsSnoc(done, Least(avail));
      ExtendSameGraph(p, q, done + [Least(avail)]);
    }
  }

  /** Permuting the node list or any dependency list does not change the stable order. */
  lemma StableOrderIgnoresListing(p: Plan, q: Plan)
    requires Unordered(p) == Unordered(q)
    ensures StableOrder(p) == StableOrder(q)
    ensures Sortable(p) <==> Sortable(q)
  {
    ShuffledGraph(p, q);
    ShuffledGraph(q, p);
    ExtendSameGraph(p, q, []);
  }
}
