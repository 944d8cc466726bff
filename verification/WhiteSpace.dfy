/** White space, and stripping it from either end of a text. Only the ASCII characters count. */
module WhiteSpace {

  predicate IsSpace(c: char) {
    c == ' ' || '\U{9}' <= c <= '\U{D}' || '\U{1C}' <= c <= '\U{1F}'
  }

  predicate Blank(s: string) {
    forall i :: 0 <= i < |s| ==> IsSpace(s[i])
  }

  function TrimLeft(s: string): (r: string)
    ensures |r| <= |s| && (r == "" || !IsSpace(r[0]))
  {
    if s != "" && IsSpace(s[0]) then TrimLeft(s[1..]) else s
  }

  function TrimRight(s: string): string {
    if s != "" && IsSpace(s[|s| - 1]) then TrimRight(s[..|s| - 1]) else s
  }

  function Trim(s: string): string {
    TrimRight(TrimLeft(s))
  }

  lemma {:induction false} TrimLeftParts(s: string) returns (w: string)
    ensures s == w + TrimLeft(s) && Blank(w)
    ensures TrimLeft(s) == "" || !IsSpace(TrimLeft(s)[0])
  {
    if s != "" && IsSpace(s[0]) {
      w := TrimLeftParts(s[1..]);
      w := [s[0]] + w;
    } else {
      w := "";
    }
  }

  lemma {:induction false} TrimRightParts(s: string) returns (w: string)
    ensures s == TrimRight(s) + w && Blank(w)
    ensures TrimRight(s) == "" || !IsSpace(TrimRight(s)[|TrimRight(s)| - 1])
  {
    if s != "" && IsSpace(s[|s| - 1]) {
      var u := TrimRightParts(s[..|s| - 1]);
      w := u + [s[|s| - 1]];
      assert s == s[..|s| - 1] + [s[|s| - 1]];
    } else {
      w := "";
    }
  }

  lemma {:induction false} TrimLeftConcat(a: string, b: string)
    ensures TrimLeft(a + b) == if Blank(a) then TrimLeft(b) else TrimLeft(a) + b
  {
    if a == "" {
      assert a + b == b;
    } else {
      assert (a + b)[1..] == a[1..] + b;
      TrimLeftConcat(a[1..], b);
      assert Blank(a) <==> IsSpace(a[0]) && Blank(a[1..]);
    }
  }

  lemma {:induction false} TrimRightConcat(a: string, b: string)
    ensures TrimRight(a + b) == if Blank(b) then TrimRight(a) else a + TrimRight(b)
  {
    if b == "" {
      assert a + b == a;
    } else {
      var front := b[..|b| - 1];
      assert (a + b)[..|a + b| - 1] == a + front;
      TrimRightConcat(a, front);
      assert b == front + [b[|b| - 1]];
      assert Blank(b) <==> Blank(front) && IsSpace(b[|b| - 1]);
    }
  }

  lemma BlankTrims(s: string)
    ensures TrimLeft(s) == "" <==> Blank(s)
    ensures TrimRight(s) == "" <==> Blank(s)
    ensures forall c :: c in TrimLeft(s) ==> c in s
    ensures forall c :: c in TrimRight(s) ==> c in s
  {
    var w := TrimLeftParts(s);
    var u := TrimRightParts(s);
    if TrimLeft(s) != "" { assert TrimLeft(s)[0] == s[|w|]; }
    if TrimRight(s) != "" { assert TrimRight(s)[|TrimRight(s)| - 1] == s[|TrimRight(s)| - 1]; }
  }

  lemma BlankConcat(a: string, b: string)
    ensures Blank(a + b) <==> Blank(a) && Blank(b)
  {
    assert forall i :: 0 <= i < |a| ==> (a + b)[i] == a[i];
    assert forall i :: 0 <= i < |b| ==> (a + b)[|a| + i] == b[i];
  }
}
