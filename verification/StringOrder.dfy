/** The order on strings used by list sorting: code point by code point, a proper prefix
    first; and the order it induces on lists of strings. */
module StringOrder {
  import opened Sequences

  predicate Less(a: string, b: string) {
    if b == [] then false
    else if a == [] then true
    else a[0] < b[0] || (a[0] == b[0] && Less(a[1..], b[1..]))
  }

  predicate Leq(a: string, b: string) {
    a == b || Less(a, b)
  }

  lemma {:induction false} LessTrichotomy(a: string, b: string)
    ensures Less(a, b) || a == b || Less(b, a)
    ensures !(Less(a, b) && Less(b, a))
    ensures a == b ==> !Less(a, b)
  {
    if a != [] && b != [] {
      LessTrichotomy(a[1..], b[1..]);
      assert a == [a[0]] + a[1..] && b == [b[0]] + b[1..];
    }
  }

  /** The two agree before position `k`, and there `a` has the smaller character. */
  ghost predicate SmallerAt(a: string, b: string, k: nat) {
    k < |a| && k < |b| && a[..k] == b[..k] && a[k] < b[k]
  }

  lemma SmallerAtTail(a: string, b: string, k: nat)
    requires a != "" && b != "" && a[0] == b[0]
    ensures SmallerAt(a, b, k + 1) <==> SmallerAt(a[1..], b[1..], k)
  {
    if k < |a[1..]| && k < |b[1..]| {
      assert a[..k + 1] == [a[0]] + a[1..][..k] && b[..k + 1] == [b[0]] + b[1..][..k];
      assert a[1..][..k] == a[..k + 1][1..] && b[1..][..k] == b[..k + 1][1..];
    }
  }

  /** `a` is smaller exactly when it is a proper beginning of `b` or has the smaller character
      at the first place where they differ. */
  lemma {:induction false} LessIff(a: string, b: string)
    ensures Less(a, b) <==> (a <= b && a != b) || exists k: nat :: SmallerAt(a, b, k)
  {
    if a != "" && b != "" && a[0] == b[0] {
      LessIff(a[1..], b[1..]);
      assert a == [a[0]] + a[1..] && b == [b[0]] + b[1..];
      forall k: nat
        ensures SmallerAt(a, b, k + 1) <==> SmallerAt(a[1..], b[1..], k)
      {
        SmallerAtTail(a, b, k);
      }
      assert forall k: nat :: SmallerAt(a, b, k) ==> SmallerAt(a[1..], b[1..], k - 1);
    } else if a != "" && b != "" {
      assert a[..0] == b[..0];
      assert SmallerAt(a, b, 0) <==> a[0] < b[0];
      assert forall k: nat :: k > 0 && SmallerAt(a, b, k) ==> a[..k][0] == b[..k][0];
    }
  }

  lemma {:induction false} LessTransitive(a: string, b: string, c: string)
    requires Less(a, b) && Less(b, c)
    ensures Less(a, c)
  {
    if a != [] && a[0] == b[0] == c[0] {
      LessTransitive(a[1..], b[1..], c[1..]);
    }
  }

  lemma LeqTotalOrder()
    ensures TotalOrder(Leq)
  {
    forall x: string, y: string
      ensures Leq(x, y) || Leq(y, x)
      ensures Leq(x, y) && Leq(y, x) ==> x == y
    {
      LessTrichotomy(x, y);
    }
    forall x: string, y: string, z: string | Leq(x, y) && Leq(y, z)
      ensures Leq(x, z)
    {
      if Less(x, y) && Less(y, z) { LessTransitive(x, y, z); }
    }
  }

  /** Lexicographic order on lists: equal, or smaller at the first difference, or a prefix. */
  ghost predicate LexLeq(s: seq<string>, t: seq<string>) {
    || s <= t
    || exists k: nat :: LexLessAt(s, t, k)
  }

  ghost predicate LexLessAt(s: seq<string>, t: seq<string>, k: nat) {
    k < |s| && k < |t| && s[..k] == t[..k] && Less(s[k], t[k])
  }

  lemma LexLessOneWay(s: seq<string>, t: seq<string>, k: nat)
    requires LexLessAt(s, t, k)
    ensures !LexLeq(t, s)
  {
    LessTrichotomy(s[k], t[k]);
    forall j: nat | j < |s| && j < |t| && t[..j] == s[..j]
      ensures !Less(t[j], s[j])
    {
      LessTrichotomy(t[j], s[j]);
      assert j < k ==> s[..k][j] == s[j] && t[..k][j] == t[j];
    }
  }

  lemma LexLeqAntisymmetric(s: seq<string>, t: seq<string>)
    requires LexLeq(s, t) && LexLeq(t, s)
    ensures s == t
  {
    forall k: nat
      ensures !LexLessAt(s, t, k) && !LexLessAt(t, s, k)
    {
      if LexLessAt(s, t, k) {
        LexLessOneWay(s, t, k);
      } else if LexLessAt(t, s, k) {
        LexLessOneWay(t, s, k);
      }
    }
  }
}
