/** Splitting text into words, joining them back, and the clean form of a text. */
module Words {
  import opened Sequences
  import opened WhiteSpace

  function FirstWord(s: string): (w: string)
    ensures w <= s && (s != "" && !IsSpace(s[0]) ==> w != "")
    ensures forall c :: c in w ==> !IsSpace(c)
    ensures |w| < |s| ==> IsSpace(s[|w|])
  {
    if s == "" || IsSpace(s[0]) then "" else [s[0]] + FirstWord(s[1..])
  }

  /** The maximal runs of characters that are not white space. */
  function SplitText(s: string): seq<string>
    decreases |s|
  {
    var t := TrimLeft(s);
    if t == "" then [] else [FirstWord(t)] + SplitText(t[|FirstWord(t)|..])
  }

  function Join(words: seq<string>): string {
    if words == [] then "" else if |words| == 1 then words[0] else words[0] + " " + Join(words[1..])
  }

  function NotNul(): char -> bool {
    (c: char) => c != '\0'
  }

  /** Every run of white space becomes one space. */
  function Collapse(s: string): string
    decreases |s|
  {
    if s == "" then ""
    else if IsSpace(s[0]) then " " + Collapse(TrimLeft(s))
    else [s[0]] + Collapse(s[1..])
  }

  /** A text without null characters, its white space collapsed and its ends stripped. */
  function CleanText(s: string): string {
    Trim(Collapse(Filter(s, NotNul())))
  }

  function RoughTokens(s: string): nat {
    |SplitText(Trim(s))|
  }

  predicate IsWord(w: string) {
    w != "" && forall c :: c in w ==> !IsSpace(c)
  }

  predicate AllWords(words: seq<string>) {
    forall w :: w in words ==> IsWord(w)
  }

  lemma {:induction false} SplitTextIntoWords(s: string)
    ensures AllWords(SplitText(s))
    decreases |s|
  {
    var t := TrimLeft(s);
    if t != "" { SplitTextIntoWords(t[|FirstWord(t)|..]); }
  }

  lemma {:induction false} FirstWordConcat(w: string, b: string)
    requires forall c :: c in w ==> !IsSpace(c)
    requires b == "" || IsSpace(b[0])
    ensures FirstWord(w + b) == w
  {
    if w == "" {
      assert w + b == b;
    } else {
      assert (w + b)[1..] == w[1..] + b;
      FirstWordConcat(w[1..], b);
    }
  }

  lemma SplitWordAnd(w: string, b: string)
    requires IsWord(w) && (b == "" || IsSpace(b[0]))
    ensures SplitText(w + b) == [w] + SplitText(b)
  {
    FirstWordConcat(w, b);
    assert (w + b)[0] == w[0] && w[0] in w;
    assert (w + b)[|w|..] == b;
  }

  lemma SplitSpaceAnd(s: string)
    ensures SplitText(" " + s) == SplitText(s)
  {
    assert (" " + s)[1..] == s;
  }

  lemma SplitJoined(w: string, s: string)
    requires IsWord(w)
    ensures SplitText(w + " " + s) == [w] + SplitText(s)
  {
    assert w + " " + s == w + (" " + s);
    SplitWordAnd(w, " " + s);
    SplitSpaceAnd(s);
  }

  /** Joining words with single spaces and splitting again gives the words back. */
  lemma {:induction false} SplitOfJoin(words: seq<string>)
    requires AllWords(words)
    ensures SplitText(Join(words)) == words
  {
    if |words| == 1 {
      SplitWordAnd(words[0], "");
      assert words[0] + "" == words[0] && words == [words[0]];
    } else if words != [] {
      SplitOfJoin(words[1..]);
      SplitJoined(words[0], Join(words[1..]));
      assert words == [words[0]] + words[1..];
    }
  }

  lemma {:induction false} FirstWordTrailing(s: string, w: string)
    requires Blank(w)
    ensures FirstWord(s + w) == FirstWord(s)
  {
    if s == "" {
      assert s + w == w;
    } else if !IsSpace(s[0]) {
      assert (s + w)[1..] == s[1..] + w;
      FirstWordTrailing(s[1..], w);
    }
  }

  lemma {:induction false} SplitTrailing(s: string, w: string)
    requires Blank(w)
    ensures SplitText(s + w) == SplitText(s)
    decreases |s|
  {
    var t := TrimLeft(s);
    TrimLeftConcat(s, w);
    BlankTrims(s);
    BlankTrims(w);
    if t != "" {
      FirstWordTrailing(t, w);
      var k := |FirstWord(t)|;
      assert (t + w)[k..] == t[k..] + w;
      SplitTrailing(t[k..], w);
    }
  }

  /** The rough token count of a text is the number of its words. */
  lemma RoughTokensAreWords(s: string)
    ensures RoughTokens(s) == |SplitText(s)|
  {
    var w := TrimRightParts(TrimLeft(s));
    SplitTrailing(Trim(s), w);
    assert TrimLeft(TrimLeft(s)) == TrimLeft(s);
  }

  // ------------------------------------------------------------- cleaning

  lemma {:induction false} CollapseConcat(w: string, b: string)
    requires forall c :: c in w ==> !IsSpace(c)
    ensures Collapse(w + b) == w + Collapse(b)
  {
    if w == "" {
      assert w + b == b;
    } else {
      assert (w + b)[1..] == w[1..] + b;
      CollapseConcat(w[1..], b);
      assert w == [w[0]] + w[1..];
    }
  }

  /** Text that starts with a word, collapsed and stripped at the end, is its words joined. */
  lemma {:induction false} CollapseJoins(s: string)
    requires s == "" || !IsSpace(s[0])
    ensures TrimRight(Collapse(s)) == Join(SplitText(s))
    ensures s != "" ==> Collapse(s) != "" && !IsSpace(Collapse(s)[0])
    decreases |s|
  {
    if s != "" {
      var w := FirstWord(s);
      var rest := s[|w|..];
      assert s == w + rest;
      SplitWordAnd(w, rest);
      CollapseConcat(w, rest);
      CollapseRest(w, rest);
    }
  }

  lemma {:induction false} CollapseRest(w: string, rest: string)
    requires IsWord(w) && (rest == "" || IsSpace(rest[0]))
    ensures TrimRight(w + Collapse(rest)) == Join([w] + SplitText(rest))
    decreases |rest|, 1
  {
    WordTrims(w);
    if rest == "" {
      assert w + "" == w;
    } else {
      CollapseJoins(TrimLeft(rest));
      TrimSpaced(w, Collapse(TrimLeft(rest)));
      JoinOne(w, SplitText(rest));
    }
  }

  lemma JoinOne(w: string, words: seq<string>)
    ensures Join([w] + words) == if words == [] then w else w + " " + Join(words)
  {
    assert ([w] + words)[1..] == words;
  }

  lemma {:induction false} TrimSpaced(w: string, s: string)
    requires IsWord(w) && (s == "" || !IsSpace(s[0]))
    ensures TrimRight(w + (" " + s)) == if s == "" then w else w + " " + TrimRight(s)
  {
    WordTrims(w);
    TrimRightConcat(w + " ", s);
    TrimRightConcat(w, " ");
    assert w + (" " + s) == w + " " + s;
    assert Blank(" ");
  }

  lemma WordTrims(w: string)
    requires IsWord(w)
    ensures TrimRight(w) == w
  {
    assert w[|w| - 1] in w;
  }

  /** Cleaning a text is joining its words with single spaces. */
  lemma CleanTextJoins(s: string)
    ensures CleanText(s) == Join(SplitText(Filter(s, NotNul())))
    ensures SplitText(CleanText(s)) == SplitText(Filter(s, NotNul()))
  {
    var t := Filter(s, NotNul());
    SplitTextIntoWords(t);
    SplitOfJoin(SplitText(t));
    CollapseJoins(TrimLeft(t));
    CollapseTrimmed(t);
  }

  lemma CollapseTrimmed(t: string)
    ensures TrimLeft(Collapse(t)) == Collapse(TrimLeft(t))
    ensures SplitText(t) == SplitText(TrimLeft(t))
  {
    var u := TrimLeft(t);
    CollapseJoins(u);
    if t != "" && IsSpace(t[0]) {
      assert (" " + Collapse(u))[1..] == Collapse(u);
    }
  }

  lemma {:induction false} CollapseChars(s: string)
    ensures forall c :: c in Collapse(s) ==> c == ' ' || c in s
    decreases |s|
  {
    if s != "" && IsSpace(s[0]) {
      CollapseChars(TrimLeft(s));
      BlankTrims(s);
    } else if s != "" {
      CollapseChars(s[1..]);
      assert s == [s[0]] + s[1..];
    }
  }

  lemma CleanHasNoNul(s: string)
    ensures '\0' !in CleanText(s)
  {
    var t := Filter(s, NotNul());
    FilterMembers(s, NotNul());
    CollapseChars(t);
    BlankTrims(Collapse(t));
    BlankTrims(TrimLeft(Collapse(t)));
  }

  /** A clean text has as many tokens as words, and cleaning it again changes nothing. */
  lemma CleanTextTwice(s: string)
    ensures RoughTokens(CleanText(s)) == |SplitText(CleanText(s))|
    ensures CleanText(CleanText(s)) == CleanText(s)
  {
    CleanTextJoins(s);
    SplitTextIntoWords(Filter(s, NotNul()));
    JoinTrims(SplitText(Filter(s, NotNul())));
    CleanHasNoNul(s);
    FilterAll(CleanText(s), NotNul());
    CleanTextJoins(CleanText(s));
  }

  lemma {:induction false} JoinTrims(words: seq<string>)
    requires AllWords(words)
    ensures words != [] ==> Join(words) != "" && !IsSpace(Join(words)[0])
    ensures TrimRight(Join(words)) == Join(words) && Trim(Join(words)) == Join(words)
  {
    if words != [] {
      assert IsWord(words[0]) by { assert words[0] in words; }
      assert words[0][0] in words[0];
      WordTrims(words[0]);
    }
    if |words| > 1 {
      JoinTrims(words[1..]);
      TrimRightConcat(words[0] + " ", Join(words[1..]));
    }
  }
}
