/** Staging text for a prompt: overlapping chunks of words, and a budgeted selection of the
    best chunks. Scoring is an arbitrary function of the clean text. */
module ContextStaging {
  import opened Sequences
  import opened Words
  import StringOrder

  // ------------------------------------------------------------- chunking

  function Step(size: int, overlap: int): (step: nat)
    ensures step >= 1
  {
    Max(1, size - overlap)
  }

  /** The chunks of a list of words: up to `size` words each, starting `step` words apart,
      until one reaches the end. */
  function Chunks(words: seq<string>, size: nat, step: nat): seq<seq<string>>
    requires size >= 1 && step >= 1
  {
    if words == [] then []
    else if |words| <= size then [words]
    else [words[..size]] + Chunks(words[Min(step, |words|)..], size, step)
  }

  function JoinAll(chunks: seq<seq<string>>): (texts: seq<string>)
    ensures |texts| == |chunks| && forall k :: 0 <= k < |chunks| ==> texts[k] == Join(chunks[k])
  {
    seq(|chunks|, k requires 0 <= k < |chunks| => Join(chunks[k]))
  }

  /** Splits text into overlapping chunks of words; the size is only checked when there is a
      word. */
  method SplitWords(text: string, size: int, overlap: int) returns (r: Result<seq<string>>)
    ensures var words := SplitText(CleanText(text));
      && (r.Raised? <==> words != [] && size <= 0)
      && (r.Ok? && words == [] ==> r.value == [])
      && (r.Ok? && words != [] ==> r.value == JoinAll(Chunks(words, size, Max(1, size - overlap))))
  {
    var words := SplitText(CleanText(text));
    if words == [] { return Ok([]); }
    if size <= 0 { return Raised; }
    var texts := ChunkLoop(words, size, Step(size, overlap));
    r := Ok(texts);
  }

  method ChunkLoop(words: seq<string>, size: nat, step: nat) returns (texts: seq<string>)
    requires size >= 1 && step >= 1
    ensures texts == JoinAll(Chunks(words, size, step))
  {
    var i := 0;
    texts := [];
    ghost var done: seq<seq<string>> := [];
    while i < |words|
      invariant texts == JoinAll(done)
      invariant done + Chunks(words[Min(i, |words|)..], size, step) == Chunks(words, size, step)
      decreases |words| - i
    {
      var chunk := words[i..Min(i + size, |words|)];
      NextChunk(words, i, size, step);
      JoinAllSnoc(done, chunk);
      ghost var left := Chunks(words[Min(i + step, |words|)..], size, step);
      MoveOver(done, [chunk], if i + size >= |words| then [] else left);
      texts := texts + [Join(chunk)];
      done := done + [chunk];
      if i + size >= |words| { break; }
      i := i + step;
    }
    assert done == Chunks(words, size, step);
  }

  lemma NextChunk(words: seq<string>, i: nat, size: nat, step: nat)
    requires i < |words| && size >= 1 && step >= 1
    ensures var chunk := words[i..Min(i + size, |words|)];
      Chunks(words[i..], size, step) == [chunk] + if i + size >= |words| then []
                                                  else Chunks(words[Min(i + step, |words|)..], size, step)
  {
    var left := words[i..];
    if |left| > size {
      assert left[..size] == words[i..i + size];
      assert left[Min(step, |left|)..] == words[Min(i + step, |words|)..];
    } else {
      assert left == words[i..Min(i + size, |words|)];
    }
  }

  lemma JoinAllSnoc(chunks: seq<seq<string>>, chunk: seq<string>)
    ensures JoinAll(chunks + [chunk]) == JoinAll(chunks) + [Join(chunk)]
  {
  }

  function CeilDiv(n: nat, d: nat): nat
    requires d >= 1
  {
    (n + d - 1) / d
  }

  lemma FewerMultiples(p: int, q: int, d: nat)
    requires p * d < q * d
    ensures p < q
  {
  }

  lemma QuotientIs(x: nat, d: nat, q: nat)
    requires q * d <= x < (q + 1) * d
    ensures x / d == q
  {
    var p := x / d;
    assert x == p * d + x % d && (p + 1) * d == p * d + d;
    FewerMultiples(p, q + 1, d);
    FewerMultiples(q, p + 1, d);
  }

  lemma QuotientPlus(x: nat, d: nat)
    requires d >= 1
    ensures (x + d) / d == x / d + 1
  {
    var q := x / d;
    assert x == q * d + x % d;
    assert (q + 1) * d == q * d + d && (q + 2) * d == q * d + d + d;
    QuotientIs(x + d, d, q + 1);
  }

  lemma CeilDivStep(n: nat, d: nat)
    requires n >= 1 && d >= 1
    ensures CeilDiv(n, d) == 1 + CeilDiv(Max(0, n - d), d)
  {
    if n < d {
      QuotientIs(d - 1, d, 0);
      QuotientIs(n + d - 1, d, 1);
    } else {
      QuotientPlus(n - 1, d);
    }
  }

  /** One chunk, and one more for every step still needed until the end is covered, or
      stepped over. */
  lemma {:induction false} ChunkCount(words: seq<string>, size: nat, step: nat)
    requires words != [] && size >= 1 && step >= 1
    ensures |Chunks(words, size, step)| == 1 + CeilDiv(Max(0, |words| - Max(size, step)), step)
  {
    if |words| > size && |words| > step {
      ChunkCount(words[step..], size, step);
      CeilDivStep(|words| - Max(size, step), step);
    } else {
      assert CeilDiv(0, step) == 0;
    }
  }

  lemma {:induction false} ChunkStarts(words: seq<string>, size: nat, step: nat, k: nat)
    requires size >= 1 && step >= 1 && k < |Chunks(words, size, step)|
    ensures k * step < |words|
  {
    if k == 0 {
      assert k * step == 0;
    } else {
      ChunkStarts(words[Min(step, |words|)..], size, step, k - 1);
      assert (k - 1) * step + step == k * step;
    }
  }

  /** Chunk `k` starts `k` steps into the words. */
  lemma ChunkAt(words: seq<string>, size: nat, step: nat, k: nat)
    requires size >= 1 && step >= 1 && k < |Chunks(words, size, step)|
    ensures k * step < |words|
    ensures Chunks(words, size, step)[k] == words[k * step..Min(k * step + size, |words|)]
  {
    ChunkStarts(words, size, step, k);
    ChunkAtIndex(words, size, step, k, k * step);
  }

  lemma ChunkInRest(words: seq<string>, size: nat, step: nat, k: nat)
    requires size >= 1 && step >= 1 && 1 <= k < |Chunks(words, size, step)|
    ensures var rest := Chunks(words[Min(step, |words|)..], size, step);
      k - 1 < |rest| && Chunks(words, size, step)[k] == rest[k - 1]
  {
  }

  lemma {:induction false} ChunkAtIndex(words: seq<string>, size: nat, step: nat, k: nat, i: nat)
    requires size >= 1 && step >= 1 && k < |Chunks(words, size, step)| && i == k * step < |words|
    ensures Chunks(words, size, step)[k] == words[i..Min(i + size, |words|)]
  {
    if k == 0 {
      assert i == 0;
      FirstChunk(words, size, step);
    } else {
      StepBack(k, step, i);
      ChunkInRest(words, size, step, k);
      ChunkAtIndex(words[Min(step, |words|)..], size, step, k - 1, i - step);
      Shift(words, step, i - step, size);
    }
  }

  lemma FirstChunk(words: seq<string>, size: nat, step: nat)
    requires size >= 1 && step >= 1 && words != []
    ensures Chunks(words, size, step)[0] == words[0..Min(size, |words|)]
  {
  }

  lemma StepBack(k: nat, step: nat, i: nat)
    requires k >= 1 && i == k * step
    ensures i - step == (k - 1) * step >= 0
  {
    assert (k - 1) * step + step == k * step;
  }

  lemma Shift(words: seq<string>, step: nat, i: nat, size: nat)
    requires step + i <= |words|
    ensures words[step..][i..Min(i + size, |words| - step)] == words[i + step..Min(i + step + size, |words|)]
  {
  }

  // -------------------------------------------------------- undoing chunks

  /** The first chunk, then every later chunk without its first `drop` words. */
  function Undo(chunks: seq<seq<string>>, drop: nat): seq<string> {
    if chunks == [] then [] else chunks[0] + UndoRest(chunks[1..], drop)
  }

  function UndoRest(chunks: seq<seq<string>>, drop: nat): seq<string> {
    if chunks == [] then [] else chunks[0][Min(drop, |chunks[0]|)..] + UndoRest(chunks[1..], drop)
  }

  lemma ChunksTail(words: seq<string>, size: nat, step: nat)
    requires 1 <= step <= size && words != []
    ensures Chunks(words, size, step) != []
    ensures var chunks := Chunks(words, size, step);
      if |words| <= size then chunks[0] == words && chunks[1..] == []
      else chunks[0] == words[..size] && chunks[1..] == Chunks(words[step..], size, step)
  {
  }

  lemma Overlapping(words: seq<string>, size: nat, step: nat)
    requires 1 <= step <= size < |words|
    ensures var drop := size - step;
      && words[step..][drop..] == words[size..]
      && words[..size] + words[size..] == words
      && words[..size][drop..] + words[size..] == words[drop..]
  {
  }

  lemma {:induction false} UndoRestChunks(words: seq<string>, size: nat, step: nat)
    requires 1 <= step <= size && |words| > size - step
    ensures UndoRest(Chunks(words, size, step), size - step) == words[size - step..]
  {
    ChunksTail(words, size, step);
    if |words| > size {
      UndoRestChunks(words[step..], size, step);
      Overlapping(words, size, step);
    }
  }

  lemma UndoChunks(words: seq<string>, size: nat, step: nat)
    requires 1 <= step <= size
    ensures Undo(Chunks(words, size, step), size - step) == words
  {
    if words != [] { ChunksTail(words, size, step); }
    if |words| > size {
      UndoRestChunks(words[step..], size, step);
      Overlapping(words, size, step);
    }
  }

  /** With a gap between the chunks, nothing is repeated and the words in the gaps are lost. */
  lemma {:induction false} GapsLoseWords(words: seq<string>, size: nat, step: nat)
    requires 1 <= size < step
    ensures |UndoRest(Chunks(words, size, step), 0)| <= |words|
    ensures |words| > size ==> |UndoRest(Chunks(words, size, step), 0)| < |words|
  {
    if |words| > size {
      GapsLoseWords(words[Min(step, |words|)..], size, step);
      var chunks := Chunks(words, size, step);
      assert chunks[1..] == Chunks(words[Min(step, |words|)..], size, step);
      assert chunks[0][0..] == chunks[0];
    } else if words != [] {
      assert [words][1..] == [];
    }
  }

  /** Dropping the repeated words and concatenating gives the words back exactly when the
      overlap is not negative or one chunk holds them all. */
  lemma ChunksUndoneIff(words: seq<string>, size: nat, overlap: int)
    requires size >= 1
    ensures var step := Step(size, overlap);
      Undo(Chunks(words, size, step), Max(0, size - step)) == words <==> overlap >= 0 || |words| <= size
  {
    var step := Step(size, overlap);
    var chunks := Chunks(words, size, step);
    if overlap >= 0 {
      UndoChunks(words, size, step);
    } else if words != [] {
      GapsLoseWords(words, size, step);
      assert chunks[0][0..] == chunks[0];
      if |words| <= size { assert chunks[1..] == []; }
    }
  }

  /** Each chunk after the first starts with the last words of the one before it and brings
      at least one new word. */
  lemma LaterChunkIsNew(words: seq<string>, size: nat, overlap: nat, k: nat)
    requires size >= 1 && 1 <= k < |Chunks(words, size, Step(size, overlap))|
    ensures var chunks, drop := Chunks(words, size, Step(size, overlap)), size - Step(size, overlap);
      && |chunks[k - 1]| == size && drop < |chunks[k]| <= size
      && chunks[k][..drop] == chunks[k - 1][Step(size, overlap)..]
  {
    var step := Step(size, overlap);
    ChunkAt(words, size, step, k - 1);
    ChunkAt(words, size, step, k);
    assert (k - 1) * step + step == k * step;
    NotLastIsFull(words, size, step, k - 1);
    Shared(words, (k - 1) * step, size, step);
  }

  lemma Shared(words: seq<string>, i: nat, size: nat, step: nat)
    requires 1 <= step <= size && i + size < |words|
    ensures var next := words[i + step..Min(i + step + size, |words|)];
      size - step < |next| && next[..size - step] == words[i..i + size][step..]
  {
  }

  lemma {:induction false} NotLastIsFull(words: seq<string>, size: nat, step: nat, k: nat)
    requires size >= 1 && step >= 1 && k + 1 < |Chunks(words, size, step)|
    ensures k * step + size < |words|
  {
    if k > 0 {
      NotLastIsFull(words[Min(step, |words|)..], size, step, k - 1);
      assert (k - 1) * step + step == k * step;
    }
  }

  function SplitAll(texts: seq<string>): (chunks: seq<seq<string>>)
    ensures |chunks| == |texts| && forall k :: 0 <= k < |texts| ==> chunks[k] == SplitText(texts[k])
  {
    seq(|texts|, k requires 0 <= k < |texts| => SplitText(texts[k]))
  }

  lemma ChunksHoldWords(words: seq<string>, size: nat, step: nat)
    requires size >= 1 && step >= 1 && AllWords(words)
    ensures SplitAll(JoinAll(Chunks(words, size, step))) == Chunks(words, size, step)
  {
    var chunks := Chunks(words, size, step);
    forall k | 0 <= k < |chunks|
      ensures SplitText(Join(chunks[k])) == chunks[k]
    {
      ChunkAt(words, size, step, k);
      SplitOfJoin(chunks[k]);
    }
  }

  /** From the chunk texts alone, and the two sizes, the clean text comes back. */
  lemma TextFromChunks(text: string, size: nat, overlap: nat)
    requires size >= 1
    ensures var step := Step(size, overlap);
      Join(Undo(SplitAll(JoinAll(Chunks(SplitText(CleanText(text)), size, step))), size - step)) == CleanText(text)
  {
    var words := SplitText(CleanText(text));
    CleanTextJoins(text);
    SplitTextIntoWords(CleanText(text));
    ChunksHoldWords(words, size, Step(size, overlap));
    UndoChunks(words, size, Step(size, overlap));
  }

  // ------------------------------------------------------------- selection

  datatype Chunk = Chunk(text: string, path: string)

  datatype Limits = Limits(budget: int, topK: int, perPath: int)

  /** Best score first, then by path, then by text. */
  predicate Ranked(score: string -> nat, a: Chunk, b: Chunk) {
    || score(a.text) > score(b.text)
    || (score(a.text) == score(b.text)
        && (if a.path == b.path then StringOrder.Leq(a.text, b.text) else StringOrder.Leq(a.path, b.path)))
  }

  function ByRank(score: string -> nat): (Chunk, Chunk) -> bool {
    (a, b) => Ranked(score, a, b)
  }

  function Tokens(chunks: seq<Chunk>): nat {
    if chunks == [] then 0 else Tokens(chunks[..|chunks| - 1]) + RoughTokens(chunks[|chunks| - 1].text)
  }

  function OnPath(path: string): Chunk -> bool {
    (c: Chunk) => c.path == path
  }

  function PathCount(chunks: seq<Chunk>, path: string): nat {
    |Filter(chunks, OnPath(path))|
  }

  /** Adding the chunk to those chosen would break one of the limits. */
  predicate Blocked(chosen: seq<Chunk>, c: Chunk, lim: Limits) {
    || |chosen| >= lim.topK
    || Tokens(chosen) + RoughTokens(c.text) > lim.budget
    || PathCount(chosen, c.path) >= lim.perPath
  }

  predicate WithinLimits(chosen: seq<Chunk>, lim: Limits) {
    && |chosen| <= Max(0, lim.topK)
    && Tokens(chosen) <= Max(0, lim.budget)
    && forall c :: c in chosen ==> PathCount(chosen, c.path) <= lim.perPath
  }

  /** What a pass over the ranked chunks adds to those already chosen. */
  function Choose(ranked: seq<Chunk>, chosen: seq<Chunk>, lim: Limits): seq<Chunk>
    decreases |ranked|
  {
    if ranked == [] then chosen
    else Choose(ranked[1..], if Blocked(chosen, ranked[0], lim) then chosen else chosen + [ranked[0]], lim)
  }

  function CleanChunk(c: Chunk): Chunk {
    Chunk(CleanText(c.text), c.path)
  }

  function CleanAll(chunks: seq<Chunk>): seq<Chunk> {
    if chunks == [] then []
    else CleanAll(chunks[..|chunks| - 1]) + [CleanChunk(chunks[|chunks| - 1])]
  }

  function Stage(chunks: seq<Chunk>, score: string -> nat, lim: Limits): seq<Chunk> {
    Choose(Sort(CleanAll(chunks), ByRank(score)), [], lim)
  }

  lemma {:induction false} ChooseFull(ranked: seq<Chunk>, chosen: seq<Chunk>, lim: Limits)
    requires |chosen| >= lim.topK
    ensures Choose(ranked, chosen, lim) == chosen
    decreases |ranked|
  {
    if ranked != [] { ChooseFull(ranked[1..], chosen, lim); }
  }

  lemma TokensSnoc(chosen: seq<Chunk>, c: Chunk)
    ensures Tokens(chosen + [c]) == Tokens(chosen) + RoughTokens(c.text)
  {
    assert (chosen + [c])[..|chosen|] == chosen;
  }

  lemma PathCountSnoc(chosen: seq<Chunk>, c: Chunk, path: string)
    ensures PathCount(chosen + [c], path) == PathCount(chosen, path) + if c.path == path then 1 else 0
  {
    FilterSnoc(chosen, c, OnPath(path));
  }

  ghost predicate Counts(perPath: map<string, nat>, chosen: seq<Chunk>) {
    forall path :: PathCount(chosen, path) == if path in perPath then perPath[path] else 0
  }

  /** The loop over the ranked chunks, with its running totals. */
  method ChooseLoop(ranked: seq<Chunk>, lim: Limits) returns (selected: seq<Chunk>)
    ensures selected == Choose(ranked, [], lim)
  {
    selected := [];
    var used: nat, perPath: map<string, nat> := 0, map[];
    for i := 0 to |ranked|
      invariant Choose(ranked[i..], selected, lim) == Choose(ranked, [], lim)
      invariant used == Tokens(selected) && Counts(perPath, selected)
    {
      var item := ranked[i];
      assert ranked[i..][1..] == ranked[i + 1..];
      if |selected| >= lim.topK {
        ChooseFull(ranked[i..], selected, lim);
        break;
      }
      var count := if item.path in perPath then perPath[item.path] else 0;
      if used + RoughTokens(item.text) > lim.budget || count >= lim.perPath {
        continue;
      }
      TokensSnoc(selected, item);
      CountOneMore(perPath, selected, item);
      selected := selected + [item];
      used := used + RoughTokens(item.text);
      perPath := perPath[item.path := count + 1];
    }
  }

  lemma CountOneMore(perPath: map<string, nat>, chosen: seq<Chunk>, c: Chunk)
    requires Counts(perPath, chosen)
    ensures Counts(perPath[c.path := PathCount(chosen, c.path) + 1], chosen + [c])
  {
    forall path
      ensures PathCount(chosen + [c], path) == PathCount(chosen, path) + if c.path == path then 1 else 0
    {
      PathCountSnoc(chosen, c, path);
    }
  }

  method StageContext(chunks: seq<Chunk>, score: string -> nat, lim: Limits) returns (selected: seq<Chunk>)
    ensures selected == Stage(chunks, score, lim)
  {
    var scored: seq<Chunk> := [];
    for i := 0 to |chunks|
      invariant scored == CleanAll(chunks[..i])
    {
      assert chunks[..i + 1][..i] == chunks[..i];
      scored := scored + [CleanChunk(chunks[i])];
    }
    assert chunks[..|chunks|] == chunks;
    selected := ChooseLoop(Sort(scored, ByRank(score)), lim);
  }

  // ------------------------------------------------- what is selected

  lemma RankTotalOrder(score: string -> nat)
    ensures TotalOrder(ByRank(score))
  {
    StringOrder.LeqTotalOrder();
  }

  lemma {:induction false} CleanAllConcat(a: seq<Chunk>, b: seq<Chunk>)
    ensures CleanAll(a + b) == CleanAll(a) + CleanAll(b)
  {
    if b == [] {
      assert a + b == a;
    } else {
      assert (a + b)[..|a + b| - 1] == a + b[..|b| - 1];
      CleanAllConcat(a, b[..|b| - 1]);
    }
  }

  lemma {:induction false} CleanAllAt(chunks: seq<Chunk>, i: nat)
    requires i < |chunks|
    ensures |CleanAll(chunks)| == |chunks|
    ensures CleanAll(chunks)[i] == Chunk(CleanText(chunks[i].text), chunks[i].path)
    decreases |chunks|
  {
    var front := chunks[..|chunks| - 1];
    if front != [] { CleanAllAt(front, if i < |front| then i else 0); }
  }

  lemma CleanAllOne(c: Chunk)
    ensures CleanAll([c]) == [CleanChunk(c)]
  {
    assert [c][..0] == [];
  }

  lemma Without<T>(a: seq<T>, b: seq<T>) returns (i: nat)
    requires a != [] && multiset(a) == multiset(b)
    ensures i < |b| && b[i] == a[|a| - 1]
    ensures multiset(a[..|a| - 1]) == multiset(b[..i] + b[i + 1..])
  {
    var x := a[|a| - 1];
    assert a == a[..|a| - 1] + [x];
    assert multiset(a) == multiset(a[..|a| - 1]) + multiset{x};
    assert x in multiset(b);
    i :| i < |b| && b[i] == x;
    var l, r := b[..i], b[i + 1..];
    assert b == l + [x] + r;
    assert multiset(l + r) == multiset(b) - multiset{x};
    assert multiset(a[..|a| - 1]) == multiset(a) - multiset{x};
  }

  lemma CleanAllWithout(b: seq<Chunk>, i: nat)
    requires i < |b|
    ensures multiset(CleanAll(b)) == multiset(CleanAll(b[..i] + b[i + 1..])) + multiset{CleanChunk(b[i])}
  {
    var l, r := b[..i], b[i + 1..];
    assert b == l + [b[i]] + r;
    CleanAllConcat(l, r);
    CleanAllConcat(l, [b[i]]);
    CleanAllConcat(l + [b[i]], r);
    CleanAllOne(b[i]);
    WithMiddle(CleanAll(l), CleanChunk(b[i]), CleanAll(r));
  }

  lemma WithMiddle<T>(l: seq<T>, x: T, r: seq<T>)
    ensures multiset(l + [x] + r) == multiset(l + r) + multiset{x}
  {
  }

  lemma {:induction false} CleanAllPermuted(a: seq<Chunk>, b: seq<Chunk>)
    requires multiset(a) == multiset(b)
    ensures multiset(CleanAll(a)) == multiset(CleanAll(b))
    decreases |a|
  {
    assert |a| == |multiset(a)| == |multiset(b)| == |b|;
    if a != [] {
      var i := Without(a, b);
      CleanAllPermuted(a[..|a| - 1], b[..i] + b[i + 1..]);
      CleanAllWithout(b, i);
      CleanAllWithout(a, |a| - 1);
      assert a[..|a| - 1] + a[|a| - 1 + 1..] == a[..|a| - 1];
    }
  }

  /** The selection does not depend on the order of the input chunks. */
  lemma OrderDoesNotMatter(a: seq<Chunk>, b: seq<Chunk>, score: string -> nat, lim: Limits)
    requires multiset(a) == multiset(b)
    ensures Stage(a, score, lim) == Stage(b, score, lim)
  {
    RankTotalOrder(score);
    CleanAllPermuted(a, b);
    SortSorts(CleanAll(a), ByRank(score));
    SortSorts(CleanAll(b), ByRank(score));
    SortedUnique(Sort(CleanAll(a), ByRank(score)), Sort(CleanAll(b), ByRank(score)), ByRank(score));
  }

  /** In rank order, and no chosen chunk was blocked by those before it. */
  ghost predicate Admissible(chosen: seq<Chunk>, leq: (Chunk, Chunk) -> bool, lim: Limits) {
    SortedBy(chosen, leq) && forall j: nat :: j < |chosen| ==> AdmittedAt(chosen, j, lim)
  }

  predicate AdmittedAt(chosen: seq<Chunk>, j: nat, lim: Limits)
    requires j < |chosen|
  {
    !Blocked(chosen[..j], chosen[j], lim)
  }

  ghost predicate Before(chosen: seq<Chunk>, ranked: seq<Chunk>, leq: (Chunk, Chunk) -> bool) {
    forall c, r :: c in chosen && r in ranked ==> leq(c, r)
  }

  lemma AdmissibleSnoc(chosen: seq<Chunk>, c: Chunk, leq: (Chunk, Chunk) -> bool, lim: Limits)
    requires Admissible(chosen, leq, lim) && !Blocked(chosen, c, lim)
    requires forall d :: d in chosen ==> leq(d, c)
    ensures Admissible(chosen + [c], leq, lim)
  {
    forall j: nat | j < |chosen + [c]|
      ensures AdmittedAt(chosen + [c], j, lim)
    {
      if j < |chosen| { assert AdmittedAt(chosen, j, lim); }
      assert (chosen + [c])[..j] == if j < |chosen| then chosen[..j] else chosen;
    }
  }

  lemma BeforeStep(chosen: seq<Chunk>, ranked: seq<Chunk>, leq: (Chunk, Chunk) -> bool)
    requires ranked != [] && SortedBy(ranked, leq) && Before(chosen, ranked, leq)
    ensures SortedBy(ranked[1..], leq)
    ensures Before(chosen, ranked[1..], leq) && Before(chosen + [ranked[0]], ranked[1..], leq)
    ensures forall d :: d in chosen ==> leq(d, ranked[0])
  {
    forall r | r in ranked[1..]
      ensures leq(ranked[0], r)
    {
      var i :| 0 <= i < |ranked[1..]| && ranked[1..][i] == r;
      assert ranked[i + 1] == r;
    }
  }

  lemma {:induction false} ChooseAdmits(ranked: seq<Chunk>, chosen: seq<Chunk>, leq: (Chunk, Chunk) -> bool,
                                        lim: Limits)
    requires SortedBy(ranked, leq) && Before(chosen, ranked, leq) && Admissible(chosen, leq, lim)
    ensures var out := Choose(ranked, chosen, lim); chosen <= out && Admissible(out, leq, lim)
    ensures multiset(Choose(ranked, chosen, lim)) <= multiset(chosen) + multiset(ranked)
    decreases |ranked|
  {
    if ranked != [] {
      var c, rest := ranked[0], ranked[1..];
      assert ranked == [c] + rest;
      BeforeStep(chosen, ranked, leq);
      if Blocked(chosen, c, lim) {
        ChooseAdmits(rest, chosen, leq, lim);
      } else {
        AdmissibleSnoc(chosen, c, leq, lim);
        ChooseAdmits(rest, chosen + [c], leq, lim);
      }
    }
  }

  /** Some of the chosen chunks, none ranked after `x`, leave no room for `x`. */
  ghost predicate BlockedByBetter(out: seq<Chunk>, x: Chunk, leq: (Chunk, Chunk) -> bool, lim: Limits) {
    exists n: nat :: BlockedByFirst(out, n, x, leq, lim)
  }

  ghost predicate BlockedByFirst(out: seq<Chunk>, n: nat, x: Chunk, leq: (Chunk, Chunk) -> bool, lim: Limits) {
    n <= |out| && Blocked(out[..n], x, lim) && forall j :: 0 <= j < n ==> leq(out[j], x)
  }

  lemma BlockedHere(ranked: seq<Chunk>, chosen: seq<Chunk>, leq: (Chunk, Chunk) -> bool, lim: Limits)
    requires SortedBy(ranked, leq) && Before(chosen, ranked, leq) && Admissible(chosen, leq, lim)
    requires ranked != [] && Blocked(chosen, ranked[0], lim)
    ensures BlockedByBetter(Choose(ranked, chosen, lim), ranked[0], leq, lim)
  {
    ChooseAdmits(ranked, chosen, leq, lim);
    var out := Choose(ranked, chosen, lim);
    assert out[..|chosen|] == chosen;
    forall j | 0 <= j < |chosen|
      ensures leq(out[j], ranked[0])
    {
      assert out[j] == chosen[j] && chosen[j] in chosen;
    }
    assert BlockedByFirst(out, |chosen|, ranked[0], leq, lim);
  }

  lemma {:induction false} SkippedIsBlocked(ranked: seq<Chunk>, chosen: seq<Chunk>, leq: (Chunk, Chunk) -> bool,
                                            lim: Limits, x: Chunk)
    requires SortedBy(ranked, leq) && Before(chosen, ranked, leq) && Admissible(chosen, leq, lim)
    requires multiset(Choose(ranked, chosen, lim))[x] < multiset(chosen)[x] + multiset(ranked)[x]
    ensures BlockedByBetter(Choose(ranked, chosen, lim), x, leq, lim)
    decreases |ranked|
  {
    if ranked != [] {
      var c, rest := ranked[0], ranked[1..];
      assert ranked == [c] + rest;
      BeforeStep(chosen, ranked, leq);
      if !Blocked(chosen, c, lim) {
        AdmissibleSnoc(chosen, c, leq, lim);
        SkippedIsBlocked(rest, chosen + [c], leq, lim, x);
      } else if c == x {
        BlockedHere(ranked, chosen, leq, lim);
      } else {
        SkippedIsBlocked(rest, chosen, leq, lim, x);
      }
    }
  }

  lemma {:induction false} BlockedStays(out: seq<Chunk>, n: nat, x: Chunk, lim: Limits)
    requires n <= |out| && Blocked(out[..n], x, lim)
    ensures Blocked(out, x, lim)
    decreases |out|
  {
    if n == |out| {
      assert out[..n] == out;
    } else {
      var front := out[..|out| - 1];
      assert front[..n] == out[..n] && out == front + [out[|out| - 1]];
      BlockedStays(front, n, x, lim);
      TokensSnoc(front, out[|out| - 1]);
      PathCountSnoc(front, out[|out| - 1], x.path);
    }
  }

  lemma {:induction false} AdmissibleWithin(chosen: seq<Chunk>, leq: (Chunk, Chunk) -> bool, lim: Limits)
    requires Admissible(chosen, leq, lim)
    ensures WithinLimits(chosen, lim)
  {
    if chosen != [] {
      var front, c := chosen[..|chosen| - 1], chosen[|chosen| - 1];
      assert chosen == front + [c];
      AdmissibleFront(chosen, leq, lim);
      AdmissibleWithin(front, leq, lim);
      WithinSnoc(front, c, lim);
    }
  }

  lemma AdmissibleFront(chosen: seq<Chunk>, leq: (Chunk, Chunk) -> bool, lim: Limits)
    requires Admissible(chosen, leq, lim) && chosen != []
    ensures Admissible(chosen[..|chosen| - 1], leq, lim)
    ensures !Blocked(chosen[..|chosen| - 1], chosen[|chosen| - 1], lim)
  {
    var front := chosen[..|chosen| - 1];
    assert AdmittedAt(chosen, |front|, lim);
    forall j: nat | j < |front|
      ensures AdmittedAt(front, j, lim)
    {
      assert AdmittedAt(chosen, j, lim) && front[..j] == chosen[..j];
    }
  }

  lemma WithinSnoc(front: seq<Chunk>, c: Chunk, lim: Limits)
    requires WithinLimits(front, lim) && !Blocked(front, c, lim)
    ensures WithinLimits(front + [c], lim)
  {
    TokensSnoc(front, c);
    forall d | d in front + [c]
      ensures PathCount(front + [c], d.path) <= lim.perPath
    {
      PathCountSnoc(front, c, d.path);
    }
  }

  /** The selection comes from the clean input, in rank order, within all three limits, no
      chunk of it blocked by the ones before. */
  lemma SelectionIsAdmissible(chunks: seq<Chunk>, score: string -> nat, lim: Limits)
    ensures var out := Stage(chunks, score, lim);
      && multiset(out) <= multiset(CleanAll(chunks))
      && Admissible(out, ByRank(score), lim)
      && WithinLimits(out, lim)
  {
    RankTotalOrder(score);
    SortSorts(CleanAll(chunks), ByRank(score));
    ChooseAdmits(Sort(CleanAll(chunks), ByRank(score)), [], ByRank(score), lim);
    AdmissibleWithin(Stage(chunks, score, lim), ByRank(score), lim);
  }

  /** The selection is maximal and greedy: a copy of a chunk left out would break a limit, and
      would do so already beside chosen chunks that do not rank after it. */
  lemma LeftOutIsBlocked(chunks: seq<Chunk>, score: string -> nat, lim: Limits, x: Chunk)
    requires multiset(Stage(chunks, score, lim))[x] < multiset(CleanAll(chunks))[x]
    ensures Blocked(Stage(chunks, score, lim), x, lim)
    ensures BlockedByBetter(Stage(chunks, score, lim), x, ByRank(score), lim)
  {
    var out := Stage(chunks, score, lim);
    RankTotalOrder(score);
    SortSorts(CleanAll(chunks), ByRank(score));
    SkippedIsBlocked(Sort(CleanAll(chunks), ByRank(score)), [], ByRank(score), lim, x);
    var n: nat :| BlockedByFirst(out, n, x, ByRank(score), lim);
    BlockedStays(out, n, x, lim);
  }

  // ------------------------------------------- the selection and the scores

  /** The word counts of the texts in total. */
  lemma {:induction false} TokensAreWords(a: seq<Chunk>, b: seq<Chunk>)
    ensures Tokens(a + b) == Tokens(a) + Tokens(b)
    ensures |b| == 1 ==> Tokens(b) == |SplitText(b[0].text)|
  {
    if b == [] {
      assert a + b == a;
    } else {
      var front, last := b[..|b| - 1], b[|b| - 1];
      assert a + b == a + front + [last] && b == front + [last];
      TokensAreWords(a, front);
      TokensSnoc(a + front, last);
      RoughTokensAreWords(last.text);
    }
  }

  /** The places of the chunks that come from the path. */
  ghost function PlacesOf(chunks: seq<Chunk>, path: string): set<int> {
    set i | 0 <= i < |chunks| && chunks[i].path == path
  }

  lemma PlacesSnoc(chunks: seq<Chunk>, c: Chunk, path: string)
    ensures PlacesOf(chunks + [c], path)
         == if c.path == path then PlacesOf(chunks, path) + {|chunks|} else PlacesOf(chunks, path)
  {
  }

  lemma {:induction false} PathCountMeaning(chunks: seq<Chunk>, path: string)
    ensures PathCount(chunks, path) == |PlacesOf(chunks, path)|
  {
    if chunks != [] {
      var front, last := chunks[..|chunks| - 1], chunks[|chunks| - 1];
      assert chunks == front + [last];
      PathCountMeaning(front, path);
      PlacesSnoc(front, last, path);
      PathCountSnoc(front, last, path);
    }
  }

  /** Scores never rise along the selection; of equal scores the smaller path comes first, and
      on one path the smaller text. */
  lemma ScoresNeverRise(chunks: seq<Chunk>, score: string -> nat, lim: Limits, i: nat, j: nat)
    requires i < j < |Stage(chunks, score, lim)|
    ensures var a, b := Stage(chunks, score, lim)[i], Stage(chunks, score, lim)[j];
      && score(a.text) >= score(b.text)
      && (score(a.text) == score(b.text) ==> a.path == b.path || StringOrder.Less(a.path, b.path))
      && (score(a.text) == score(b.text) && a.path == b.path ==> a.text == b.text || StringOrder.Less(a.text, b.text))
  {
    SelectionIsAdmissible(chunks, score, lim);
    assert ByRank(score)(Stage(chunks, score, lim)[i], Stage(chunks, score, lim)[j]);
  }

  /** The first `n` chosen chunks all score at least as high as `x` and leave no room for it:
      they are as many as may be chosen, `x` would exceed the token budget beside them, or its
      path is used up. */
  ghost predicate NoRoomAfter(out: seq<Chunk>, n: nat, x: Chunk, score: string -> nat, lim: Limits) {
    && n <= |out|
    && (forall j :: 0 <= j < n ==> score(out[j].text) >= score(x.text))
    && (|| n >= lim.topK
        || Tokens(out[..n]) + |SplitText(x.text)| > lim.budget
        || |PlacesOf(out[..n], x.path)| >= lim.perPath)
  }

  /** A chunk is left out only for chunks that score at least as high. */
  lemma LeftOutIsNoBetter(chunks: seq<Chunk>, score: string -> nat, lim: Limits, x: Chunk) returns (n: nat)
    requires multiset(Stage(chunks, score, lim))[x] < multiset(CleanAll(chunks))[x]
    ensures NoRoomAfter(Stage(chunks, score, lim), n, x, score, lim)
  {
    var out := Stage(chunks, score, lim);
    LeftOutIsBlocked(chunks, score, lim, x);
    n :| BlockedByFirst(out, n, x, ByRank(score), lim);
    forall j | 0 <= j < n
      ensures score(out[j].text) >= score(x.text)
    {
      assert ByRank(score)(out[j], x);
    }
    RoughTokensAreWords(x.text);
    PathCountMeaning(out[..n], x.path);
  }

  /** With room for a chunk at all, the first one selected scores highest among the input
      chunks that fit the token budget. */
  lemma FirstIsBest(chunks: seq<Chunk>, score: string -> nat, lim: Limits, c: Chunk)
    requires c in chunks && lim.topK >= 1 && lim.perPath >= 1
    requires |SplitText(CleanText(c.text))| <= lim.budget
    ensures var out := Stage(chunks, score, lim);
      && out != [] && score(out[0].text) >= score(CleanText(c.text))
      && |SplitText(out[0].text)| <= lim.budget
  {
    var out, x := Stage(chunks, score, lim), Chunk(CleanText(c.text), c.path);
    var i :| 0 <= i < |chunks| && chunks[i] == c;
    CleanAllAt(chunks, i);
    if x in out {
      var j :| 0 <= j < |out| && out[j] == x;
      if j > 0 { ScoresNeverRise(chunks, score, lim, 0, j); }
    } else {
      var n := LeftOutIsNoBetter(chunks, score, lim, x);
      PathCountMeaning([], x.path);
      assert n > 0;
    }
    SelectionIsAdmissible(chunks, score, lim);
    assert AdmittedAt(out, 0, lim) && out[..0] == [];
    RoughTokensAreWords(out[0].text);
  }
}
