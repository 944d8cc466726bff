/** Sequences without repetition, membership, counting, and insertion sort under an
    arbitrary total order. */
module Sequences {

  datatype Option<+T> = None | Some(value: T)

  /** The outcome of a call that may raise. */
  datatype Result<+T> = Ok(value: T) | Raised

  function Max(a: int, b: int): int {
    if a < b then b else a
  }

  function Min(a: int, b: int): int {
    if a < b then a else b
  }

  function Elems<T>(s: seq<T>): set<T> {
    set x | x in s
  }

  ghost predicate NoDup<T>(s: seq<T>) {
    forall i, j :: 0 <= i < j < |s| ==> s[i] != s[j]
  }

  lemma ElemsSnoc<T>(s: seq<T>, x: T)
    ensures Elems(s + [x]) == Elems(s) + {x}
  {
  }

  lemma NoDupSnoc<T>(s: seq<T>, x: T)
    requires NoDup(s) && x !in s
    ensures NoDup(s + [x])
  {
  }

  /** A sequence without repetition is as long as its set of elements is large. */
  lemma {:induction false} NoDupSize<T>(s: seq<T>)
    requires NoDup(s)
    ensures |Elems(s)| == |s|
  {
    if s != [] {
      var front := s[..|s| - 1];
      assert s == front + [s[|s| - 1]];
      NoDupSize(front);
      ElemsSnoc(front, s[|s| - 1]);
    }
  }

  lemma SubsetSize<T>(a: set<T>, b: set<T>)
    requires a <= b
    ensures |a| <= |b|
    ensures |a| == |b| ==> a == b
  {
    assert b == a + (b - a);
    assert |b| == |a| + |b - a|;
  }

  /** A sequence longer than the set its elements come from repeats an element. */
  lemma Pigeonhole<T>(s: seq<T>, bound: set<T>)
    requires Elems(s) <= bound && |s| > |bound|
    ensures exists i, j :: 0 <= i < j < |s| && s[i] == s[j]
  {
    if NoDup(s) {
      NoDupSize(s);
      SubsetSize(Elems(s), bound);
      assert false;
    }
  }

  lemma Regroup<T>(a: seq<T>, b: seq<T>)
    requires b != []
    ensures a + b[..|b| - 1] + [b[|b| - 1]] == a + b
  {
  }

  /** Moving what comes next from the part still to do to the part done. */
  lemma MoveOver<T>(done: seq<T>, next: seq<T>, left: seq<T>)
    ensures done + (next + left) == done + next + left
  {
  }

  // -------------------------------------------------------------- filtering

  function Filter<T>(s: seq<T>, keep: T -> bool): seq<T> {
    if s == [] then []
    else
      var front, last := Filter(s[..|s| - 1], keep), s[|s| - 1];
      if keep(last) then front + [last] else front
  }

  lemma FilterSnoc<T>(s: seq<T>, x: T, keep: T -> bool)
    ensures Filter(s + [x], keep) == if keep(x) then Filter(s, keep) + [x] else Filter(s, keep)
  {
    assert (s + [x])[..|s|] == s;
  }

  lemma {:induction false} FilterMembers<T>(s: seq<T>, keep: T -> bool)
    ensures forall x :: x in Filter(s, keep) <==> x in s && keep(x)
  {
    if s != [] {
      FilterMembers(s[..|s| - 1], keep);
      assert s == s[..|s| - 1] + [s[|s| - 1]];
    }
  }

  lemma {:induction false} FilterConcat<T>(a: seq<T>, b: seq<T>, keep: T -> bool)
    ensures Filter(a + b, keep) == Filter(a, keep) + Filter(b, keep)
  {
    if b == [] {
      assert a + b == a;
    } else {
      assert (a + b)[..|a + b| - 1] == a + b[..|b| - 1];
      FilterConcat(a, b[..|b| - 1], keep);
    }
  }

  lemma {:induction false} FilterAll<T>(s: seq<T>, keep: T -> bool)
    requires forall x :: x in s ==> keep(x)
    ensures Filter(s, keep) == s
  {
    if s != [] {
      assert s == s[..|s| - 1] + [s[|s| - 1]];
      FilterAll(s[..|s| - 1], keep);
    }
  }

  lemma {:induction false} FilterNone<T>(s: seq<T>, keep: T -> bool)
    requires forall x :: x in s ==> !keep(x)
    ensures Filter(s, keep) == []
  {
    if s != [] {
      assert s == s[..|s| - 1] + [s[|s| - 1]];
      FilterNone(s[..|s| - 1], keep);
    }
  }

  lemma {:induction false} FilterTwice<T>(s: seq<T>, f: T -> bool, g: T -> bool, both: T -> bool)
    requires forall x :: x in s ==> (both(x) <==> f(x) && g(x))
    ensures Filter(Filter(s, f), g) == Filter(s, both)
  {
    if s != [] {
      var front, last := s[..|s| - 1], s[|s| - 1];
      assert s == front + [last];
      FilterTwice(front, f, g, both);
      FilterSnoc(Filter(front, f), last, g);
    }
  }

  /** The positions `idx`, in increasing order, are those of the elements to keep, and `kept`
      holds these elements. */
  ghost predicate KeptAt<T>(idx: seq<nat>, s: seq<T>, kept: seq<T>, keep: T -> bool) {
    && |idx| == |kept|
    && (forall i, j :: 0 <= i < j < |idx| ==> idx[i] < idx[j])
    && (forall i :: 0 <= i < |idx| ==> idx[i] < |s| && kept[i] == s[idx[i]])
    && forall k: nat :: k < |s| ==> (k in idx <==> keep(s[k]))
  }

  lemma {:induction false} KeptAtSnoc<T>(idx: seq<nat>, s: seq<T>, kept: seq<T>, keep: T -> bool, x: T)
    requires KeptAt(idx, s, kept, keep)
    ensures keep(x) ==> KeptAt(idx + [|s|], s + [x], kept + [x], keep)
    ensures !keep(x) ==> KeptAt(idx, s + [x], kept, keep)
  {
    assert forall k: nat :: k < |s| ==> (s + [x])[k] == s[k];
    if keep(x) {
      assert forall k: nat :: k in idx + [|s|] <==> k in idx || k == |s|;
    } else {
      assert |s| !in idx;
    }
  }

  lemma {:induction false} FilterKeeps<T>(s: seq<T>, keep: T -> bool) returns (idx: seq<nat>)
    ensures KeptAt(idx, s, Filter(s, keep), keep)
  {
    idx := [];
    if s != [] {
      var front, last := s[..|s| - 1], s[|s| - 1];
      idx := FilterKeeps(front, keep);
      assert s == front + [last];
      KeptAtSnoc(idx, front, Filter(front, keep), keep, last);
      if keep(last) { idx := idx + [|front|]; }
    }
  }

  // ---------------------------------------------------- repetitions dropped

  /** The elements in the order in which they first occur. */
  function FirstSeen<T(==)>(s: seq<T>): seq<T> {
    if s == [] then []
    else
      var front, last := FirstSeen(s[..|s| - 1]), s[|s| - 1];
      if last in front then front else front + [last]
  }

  lemma FirstSeenSnoc<T>(s: seq<T>, x: T)
    ensures FirstSeen(s + [x]) == if x in FirstSeen(s) then FirstSeen(s) else FirstSeen(s) + [x]
  {
    assert (s + [x])[..|s|] == s;
  }

  /** Some beginning of the list holds `x` but not yet `y`. */
  ghost predicate SeenBefore<T>(s: seq<T>, x: T, y: T) {
    exists n: nat :: n <= |s| && x in s[..n] && y !in s[..n]
  }

  lemma {:induction false} FirstSeenMeaning<T>(s: seq<T>)
    ensures NoDup(FirstSeen(s)) && Elems(FirstSeen(s)) == Elems(s)
    ensures forall i, j :: 0 <= i < j < |FirstSeen(s)| ==> SeenBefore(s, FirstSeen(s)[i], FirstSeen(s)[j])
  {
    if s != [] {
      var front, x := s[..|s| - 1], s[|s| - 1];
      FirstSeenMeaning(front);
      assert s == front + [x];
      ElemsSnoc(front, x);
      var seen := FirstSeen(front);
      forall i, j | 0 <= i < j < |FirstSeen(s)|
        ensures SeenBefore(s, FirstSeen(s)[i], FirstSeen(s)[j])
      {
        if j < |seen| {
          var n: nat :| n <= |front| && seen[i] in front[..n] && seen[j] !in front[..n];
          assert s[..n] == front[..n];
        } else {
          assert seen[i] in Elems(front) && x !in Elems(seen) && s[..|front|] == front;
        }
      }
    }
  }

  // ---------------------------------------------------------------- sorting

  ghost predicate TotalOrder<T(!new)>(leq: (T, T) -> bool) {
    && (forall x, y :: leq(x, y) || leq(y, x))
    && (forall x, y :: leq(x, y) && leq(y, x) ==> x == y)
    && (forall x, y, z :: leq(x, y) && leq(y, z) ==> leq(x, z))
  }

  ghost predicate SortedBy<T>(s: seq<T>, leq: (T, T) -> bool) {
    forall i, j :: 0 <= i < j < |s| ==> leq(s[i], s[j])
  }

  function Insert<T>(x: T, s: seq<T>, leq: (T, T) -> bool): seq<T> {
    if s == [] || leq(x, s[0]) then [x] + s
    else [s[0]] + Insert(x, s[1..], leq)
  }

  /** The list sorted by `leq`; for a total order this is what a library sort returns. */
  function Sort<T>(s: seq<T>, leq: (T, T) -> bool): seq<T> {
    if s == [] then [] else Insert(s[0], Sort(s[1..], leq), leq)
  }

  lemma {:induction false} InsertAdds<T>(x: T, s: seq<T>, leq: (T, T) -> bool)
    ensures multiset(Insert(x, s, leq)) == multiset(s) + multiset{x}
    ensures forall y :: y in Insert(x, s, leq) ==> y == x || y in s
  {
    if s != [] && !leq(x, s[0]) {
      InsertAdds(x, s[1..], leq);
      assert s == [s[0]] + s[1..];
    }
  }

  lemma SortedCons<T(!new)>(x: T, s: seq<T>, leq: (T, T) -> bool)
    requires SortedBy(s, leq) && forall y :: y in s ==> leq(x, y)
    ensures SortedBy([x] + s, leq)
  {
  }

  lemma {:induction false} InsertSorts<T(!new)>(x: T, s: seq<T>, leq: (T, T) -> bool)
    requires TotalOrder(leq) && SortedBy(s, leq)
    ensures SortedBy(Insert(x, s, leq), leq)
  {
    if s == [] || leq(x, s[0]) {
      forall y | y in s
        ensures leq(x, y)
      {
        var j :| 0 <= j < |s| && s[j] == y;
        assert leq(s[0], s[0]);
      }
      SortedCons(x, s, leq);
    } else {
      InsertSorts(x, s[1..], leq);
      InsertAdds(x, s[1..], leq);
      SortedCons(s[0], Insert(x, s[1..], leq), leq);
    }
  }

  lemma {:induction false} SortSorts<T(!new)>(s: seq<T>, leq: (T, T) -> bool)
    requires TotalOrder(leq)
    ensures SortedBy(Sort(s, leq), leq)
    ensures multiset(Sort(s, leq)) == multiset(s)
  {
    if s != [] {
      SortSorts(s[1..], leq);
      InsertSorts(s[0], Sort(s[1..], leq), leq);
      InsertAdds(s[0], Sort(s[1..], leq), leq);
      assert s == [s[0]] + s[1..];
    }
  }

  lemma FirstIsLeast<T(!new)>(s: seq<T>, x: T, leq: (T, T) -> bool)
    requires TotalOrder(leq) && SortedBy(s, leq) && x in s
    ensures leq(s[0], x)
  {
    var i :| 0 <= i < |s| && s[i] == x;
    assert leq(x, x);
  }

  lemma TailMultiset<T>(s: seq<T>)
    requires s != []
    ensures multiset(s[1..]) == multiset(s) - multiset{s[0]}
  {
    assert s == [s[0]] + s[1..];
  }

  /** Sorting forgets the input order: two sorted lists with the same elements are equal. */
  lemma {:induction false} SortedUnique<T(!new)>(s: seq<T>, t: seq<T>, leq: (T, T) -> bool)
    requires TotalOrder(leq) && SortedBy(s, leq) && SortedBy(t, leq)
    requires multiset(s) == multiset(t)
    ensures s == t
  {
    assert |s| == |multiset(s)| == |multiset(t)| == |t|;
    if s != [] {
      assert s[0] in multiset(t) && t[0] in multiset(s);
      FirstIsLeast(s, t[0], leq);
      FirstIsLeast(t, s[0], leq);
      TailMultiset(s);
      TailMultiset(t);
      SortedUnique(s[1..], t[1..], leq);
    }
  }
}
