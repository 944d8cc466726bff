/** Failure classification, the retry decision and the backoff delay. */
module RetryPolicy {
  import opened Sequences

  datatype FailureClass = Transient | RateLimit | Auth | Validation | ToolError | Unknown

  function Lower(s: string): string {
    seq(|s|, i requires 0 <= i < |s| => if 'A' <= s[i] <= 'Z' then s[i] - 'A' + 'a' else s[i])
  }

  predicate Contains(s: string, part: string) {
    exists i :: 0 <= i <= |s| && part <= s[i..]
  }

  predicate ContainsAny(s: string, parts: seq<string>) {
    exists part :: part in parts && Contains(s, part)
  }

  function ClassifyFailure(error: string): FailureClass {
    var message := Lower(error);
    if message == "" then Unknown
    else if ContainsAny(message, ["timeout", "temporar", "connection"]) then Transient
    else if ContainsAny(message, ["rate limit", "429"]) then RateLimit
    else if ContainsAny(message, ["unauthorized", "forbidden", "permission"]) then Auth
    else if ContainsAny(message, ["invalid", "validation", "schema"]) then Validation
    else ToolError
  }

  predicate ShouldRetry(failure: FailureClass, attempt: int, maxRetries: int) {
    if attempt >= maxRetries then false
    else failure in {Transient, RateLimit, Unknown}
  }

  function Power2(n: nat): real {
    if n == 0 then 1.0 else 2.0 * Power2(n - 1)
  }

  function NextBackoff(attempt: int, base: real, cap: real): real {
    var backoff := base * Power2(Max(0, attempt));
    if cap < backoff then cap else backoff
  }

  // ------------------------------------------------------ which failures pass

  /** The same letter, the first in either case. */
  predicate SameLetter(c: char, lower: char) {
    c == lower || ('A' <= c <= 'Z' && c as int + 32 == lower as int)
  }

  /** The text holds the word, in whatever case. */
  ghost predicate Mentions(text: string, word: string) {
    exists i: nat :: MentionsAt(text, word, i)
  }

  ghost predicate MentionsAt(text: string, word: string, i: nat) {
    i + |word| <= |text| && forall k :: 0 <= k < |word| ==> SameLetter(text[i + k], word[k])
  }

  /** A text says so little, or so much, that the failure may pass. */
  ghost predicate MayPass(text: string) {
    text == "" || exists word :: word in PASSING && Mentions(text, word)
  }

  const PASSING := ["timeout", "temporar", "connection", "rate limit", "429"]

  predicate NoCapitals(word: string) {
    forall k :: 0 <= k < |word| ==> !('A' <= word[k] <= 'Z')
  }

  lemma MentionsIff(text: string, word: string)
    requires NoCapitals(word)
    ensures Mentions(text, word) <==> Contains(Lower(text), word)
  {
    var low := Lower(text);
    if i: nat :| MentionsAt(text, word, i) {
      assert low[i..][..|word|] == word;
    }
    if i :| 0 <= i <= |low| && word <= low[i..] {
      assert forall k :: 0 <= k < |word| ==> word[k] == low[i..][k] == low[i + k];
      assert MentionsAt(text, word, i);
    }
  }

  ghost predicate MentionsAny(text: string, words: seq<string>) {
    exists word :: word in words && Mentions(text, word)
  }

  lemma MentionsAnyIff(text: string, words: seq<string>)
    requires forall word :: word in words ==> NoCapitals(word) && word != ""
    ensures MentionsAny(text, words) <==> ContainsAny(Lower(text), words)
    ensures text == "" ==> !MentionsAny(text, words)
  {
    forall word | word in words
      ensures Mentions(text, word) <==> Contains(Lower(text), word)
      ensures text == "" ==> !Mentions(text, word)
    {
      MentionsIff(text, word);
    }
  }

  /** What each class of failure stands for: the first group of words of which the text holds
      one, in whatever case. */
  lemma ClassMeaning(text: string)
    ensures var f := ClassifyFailure(text);
      var transient, limited := MentionsAny(text, TRANSIENT), MentionsAny(text, LIMITED);
      var denied, malformed := MentionsAny(text, DENIED), MentionsAny(text, MALFORMED);
      && (f == Unknown <==> text == "")
      && (f == Transient <==> transient)
      && (f == RateLimit <==> !transient && limited)
      && (f == Auth <==> !transient && !limited && denied)
      && (f == Validation <==> !transient && !limited && !denied && malformed)
      && (f == ToolError <==> text != "" && !transient && !limited && !denied && !malformed)
  {
    MentionsAnyIff(text, TRANSIENT);
    MentionsAnyIff(text, LIMITED);
    MentionsAnyIff(text, DENIED);
    MentionsAnyIff(text, MALFORMED);
    assert Lower(text) == "" <==> text == "";
  }

  const TRANSIENT := ["timeout", "temporar", "connection"]
  const LIMITED := ["rate limit", "429"]
  const DENIED := ["unauthorized", "forbidden", "permission"]
  const MALFORMED := ["invalid", "validation", "schema"]

  /** A failure is worth a retry exactly below the limit and for a text that may pass. */
  lemma RetriedIff(text: string, attempt: int, maxRetries: int)
    ensures ShouldRetry(ClassifyFailure(text), attempt, maxRetries) <==> attempt < maxRetries && MayPass(text)
  {
    forall word | word in PASSING
      ensures Mentions(text, word) <==> Contains(Lower(text), word)
    {
      MentionsIff(text, word);
    }
    PassingWords(Lower(text));
    assert Lower(text) == "" <==> text == "";
  }

  lemma PassingWords(low: string)
    ensures (exists word :: word in PASSING && Contains(low, word)) <==>
            ContainsAny(low, ["timeout", "temporar", "connection"]) || ContainsAny(low, ["rate limit", "429"])
  {
    assert PASSING == ["timeout", "temporar", "connection"] + ["rate limit", "429"];
  }

  // ---------------------------------------------------------------- the delay

  /** The first delay is the base, or the cap if that is less. */
  lemma FirstBackoff(attempt: int, base: real, cap: real)
    requires attempt <= 0
    ensures NextBackoff(attempt, base, cap) == if cap < base then cap else base
  {
  }

  /** The delay never exceeds the cap, and doubles for as long as it stays below the cap. */
  lemma BackoffGrowsToCap(attempt: int, base: real, cap: real)
    ensures NextBackoff(attempt, base, cap) <= cap
    ensures attempt >= 0 && NextBackoff(attempt, base, cap) < cap && NextBackoff(attempt + 1, base, cap) < cap ==>
              NextBackoff(attempt + 1, base, cap) == 2.0 * NextBackoff(attempt, base, cap)
  {
    var n := Max(0, attempt);
    assert base * (2.0 * Power2(n)) == 2.0 * (base * Power2(n));
  }

  /** The delay never shrinks from one attempt to the next exactly when its base is not
      negative; a context read from a payload may carry a negative one. */
  lemma BackoffNeverShrinksIff(base: real, cap: real)
    ensures (forall attempt: int :: NextBackoff(attempt, base, cap) <= NextBackoff(attempt + 1, base, cap))
            <==> base >= 0.0
  {
    if base >= 0.0 {
      forall attempt: int
        ensures NextBackoff(attempt, base, cap) <= NextBackoff(attempt + 1, base, cap)
      {
        DoublingGrows(attempt, base);
      }
    } else {
      var n := if cap < 0.0 then (cap / base).Floor + 1 else 0;
      BelowCap(n, base, cap);
      assert NextBackoff(n + 1, base, cap) < NextBackoff(n, base, cap);
    }
  }

  lemma DoublingGrows(attempt: int, base: real)
    requires base >= 0.0
    ensures base * Power2(Max(0, attempt)) <= base * Power2(Max(0, attempt + 1))
  {
    var n := Max(0, attempt);
    Power2AtLeast(n);
    assert base * Power2(n) >= 0.0;
    assert base * (2.0 * Power2(n)) == 2.0 * (base * Power2(n));
  }

  /** A negative base falls below any cap after enough attempts, and goes on falling. */
  lemma BelowCap(n: nat, base: real, cap: real)
    requires base < 0.0 && n as real >= cap / base
    ensures base * Power2(n + 1) < cap && base * Power2(n + 1) < base * Power2(n)
  {
    Power2AtLeast(n);
    var p := Power2(n);
    assert base * p < 0.0;
    assert base * (2.0 * p) == 2.0 * (base * p);
    assert base * (cap / base) == cap;
    assert base * (p - cap / base) < 0.0;
    assert base * (p - cap / base) == base * p - base * (cap / base);
  }

  lemma {:induction false} Power2AtLeast(n: nat)
    ensures Power2(n) >= 1.0 && Power2(n) >= n as real + 1.0
  {
    if n > 0 { Power2AtLeast(n - 1); }
  }
}
