/**
 * `process_document_chunks`: embed every chunk of an uploaded document in
 * order and build the six parallel columns the vector index receives.
 */
module Ingest {
  import opened Wrappers
  import opened PyStr
  import opened Embedding

  /** The widths of the index's text fields. */
  const MaxContentLength := 65535
  const MaxTitleLength := 512
  const MaxSourceLength := 512

  /** The six lists handed to `collection.insert`, one entry per chunk in each. */
  datatype Columns = Columns(embeddings: seq<Vector>, contents: seq<string>, titles: seq<string>,
                             sources: seq<string>, chunkIndices: seq<int>, timestamps: seq<int>)

  /**
   * How the job ends: the index was not connected (nothing is done); an
   * embedding failed (the exception is logged and nothing is inserted); or
   * the columns are inserted.
   */
  datatype Ingestion = IndexUnavailable | Abandoned | Inserted(columns: Columns)

  /** What the embedding calls for `texts`, made in order and stopping at the first failure, leave behind. */
  datatype Run = Run(vectors: seq<Vector>, failed: bool, cache: Cache, calls: seq<string>)

  /**
   * One turn of the loop after the calls `before`: nothing more once a call
   * has failed; otherwise one call for `text` at time `now`.
   */
  function Step(link: CacheLink, digest: string -> string, provider: string -> ProviderReply<Vector>,
                before: Run, text: string, now: int): (after: Run)
    ensures before.failed ==> after == before
    ensures !before.failed ==> |after.vectors| <= |before.vectors| + 1
    ensures after.calls == before.calls || after.calls == before.calls + [text]
    ensures !before.failed && !after.failed ==> |after.vectors| == |before.vectors| + 1
  {
    if before.failed then before
    else
      var o := EmbedOutcome(link, before.cache, CacheKey(digest, text), now, provider(text));
      Run(if o.result.Success? then before.vectors + [o.result.value] else before.vectors,
          o.result.Failure?, o.cache, before.calls + if o.called then [text] else [])
  }

  /** A turn after a failure-free run makes exactly the call `EmbedOutcome` describes. */
  lemma StepIsOutcome(link: CacheLink, digest: string -> string, provider: string -> ProviderReply<Vector>,
                      before: Run, text: string, now: int)
    requires !before.failed
    ensures var o := EmbedOutcome(link, before.cache, CacheKey(digest, text), now, provider(text));
      var after := Step(link, digest, provider, before, text, now);
      && (after.failed <==> o.result.Failure?) && after.cache == o.cache
      && after.calls == before.calls + (if o.called then [text] else [])
      && (o.result.Success? ==> after.vectors == before.vectors + [o.result.value])
  {
  }

  /**
   * A call that ended as `EmbedOutcome` says, made after the failure-free
   * run `before` whose calls follow `calls0`, is the turn `Step` describes.
   */
  lemma TurnIsStep(link: CacheLink, digest: string -> string, provider: string -> ProviderReply<Vector>,
                   before: Run, text: string, now: int,
                   r: Result<Vector>, cache: Cache, calls0: seq<string>, callsBefore: seq<string>, callsAfter: seq<string>)
    requires !before.failed && callsBefore == calls0 + before.calls
    requires var o := EmbedOutcome(link, before.cache, CacheKey(digest, text), now, provider(text));
      r == o.result && cache == o.cache && callsAfter == callsBefore + (if o.called then [text] else [])
    ensures var after := Step(link, digest, provider, before, text, now);
      && (after.failed <==> r.Failure?) && cache == after.cache && callsAfter == calls0 + after.calls
      && (r.Success? ==> after.vectors == before.vectors + [r.value])
  {
  }

  /**
   * The embedding calls of the loop for `texts`, starting from `cache`, with
   * a cache client exactly when `hasClient`; the `i`-th call is made at time
   * `clock(i)`, and the cache server answers it exactly when `answers(i)`.
   */
  function EmbedRun(hasClient: bool, digest: string -> string, provider: string -> ProviderReply<Vector>,
                    cache: Cache, texts: seq<string>, clock: nat -> int, answers: nat -> bool): (run: Run)
    ensures !run.failed ==> |run.vectors| == |texts|
    ensures |run.vectors| <= |texts| && |run.calls| <= |texts|
  {
    if texts == [] then Run([], false, cache, [])
    else Step(LinkAt(hasClient, answers(|texts| - 1)), digest, provider,
              EmbedRun(hasClient, digest, provider, cache, texts[..|texts| - 1], clock, answers),
              texts[|texts| - 1], clock(|texts| - 1))
  }

  /** The calls stop at the first failure: once a prefix of `texts` fails, the later texts change nothing. */
  lemma {:induction false} RunStopsAtFailure(hasClient: bool, digest: string -> string, provider: string -> ProviderReply<Vector>,
                                             cache: Cache, texts: seq<string>, clock: nat -> int, answers: nat -> bool, n: nat)
    requires n <= |texts|
    requires EmbedRun(hasClient, digest, provider, cache, texts[..n], clock, answers).failed
    ensures EmbedRun(hasClient, digest, provider, cache, texts, clock, answers) == EmbedRun(hasClient, digest, provider, cache, texts[..n], clock, answers)
    decreases |texts| - n
  {
    if n < |texts| {
      assert texts[..|texts| - 1][..n] == texts[..n];
      RunStopsAtFailure(hasClient, digest, provider, cache, texts[..|texts| - 1], clock, answers, n);
    } else {
      assert texts[..n] == texts;
    }
  }

  /**
   * A cache client whose server does not answer when the first chunk is
   * embedded fails that call, before the provider is asked: no vector, no
   * call, no change, whatever the server does later.
   */
  lemma {:induction false} UnreachableEmbedsNothing(digest: string -> string, provider: string -> ProviderReply<Vector>,
                                                    cache: Cache, texts: seq<string>, clock: nat -> int, answers: nat -> bool)
    requires texts != [] && !answers(0)
    ensures var run := EmbedRun(true, digest, provider, cache, texts, clock, answers);
      run.failed && run.vectors == [] && run.calls == [] && run.cache == cache
  {
    if |texts| > 1 {
      UnreachableEmbedsNothing(digest, provider, cache, texts[..|texts| - 1], clock, answers);
    }
  }

  /** The provider answers with status 200 and a vector. */
  predicate Answers(reply: ProviderReply<Vector>) {
    reply.Replied? && reply.code == Ok && reply.payload.Some?
  }

  /** Without a cache client, a turn the provider answers appends its vector and records the call. */
  lemma NoClientStep(digest: string -> string, provider: string -> ProviderReply<Vector>, before: Run, text: string, now: int)
    requires !before.failed && Answers(provider(text))
    ensures Step(NoClient, digest, provider, before, text, now) ==
      Run(before.vectors + [provider(text).payload.value], false, before.cache, before.calls + [text])
  {
  }

  /** `run` sent every text of `texts`, in order, and kept for each the vector the provider answered. */
  predicate AskedForEach(provider: string -> ProviderReply<Vector>, texts: seq<string>, run: Run) {
    && run.calls == texts && |run.vectors| == |texts|
    && forall i :: 0 <= i < |texts| ==> provider(texts[i]) == Replied(Ok, Some(run.vectors[i]))
  }

  /** Appending a text the provider answered with `v` to a run that asked for each text keeps that property. */
  lemma AskedSnoc(provider: string -> ProviderReply<Vector>, texts: seq<string>, before: Run, v: Vector, cache: Cache)
    requires texts != []
    requires AskedForEach(provider, texts[..|texts| - 1], before)
    requires provider(texts[|texts| - 1]) == Replied(Ok, Some(v))
    ensures AskedForEach(provider, texts, Run(before.vectors + [v], false, cache, before.calls + [texts[|texts| - 1]]))
  {
    assert texts[..|texts| - 1] + [texts[|texts| - 1]] == texts;
  }

  /**
   * Without a cache client, when the provider answers every chunk, each
   * chunk is sent once, in order, and its vector is the provider's answer.
   */
  lemma {:induction false} NoClientAsksForEachText(digest: string -> string, provider: string -> ProviderReply<Vector>,
                                                   cache: Cache, texts: seq<string>, clock: nat -> int, answers: nat -> bool)
    requires forall i :: 0 <= i < |texts| ==> Answers(provider(texts[i]))
    ensures var run := EmbedRun(false, digest, provider, cache, texts, clock, answers);
      !run.failed && run.cache == cache && AskedForEach(provider, texts, run)
  {
    if texts != [] {
      var n := |texts| - 1;
      var prefix := texts[..n];
      assert forall i :: 0 <= i < n ==> prefix[i] == texts[i];
      NoClientAsksForEachText(digest, provider, cache, prefix, clock, answers);
      var before := EmbedRun(false, digest, provider, cache, prefix, clock, answers);
      assert Answers(provider(texts[n]));
      NoClientStep(digest, provider, before, texts[n], clock(n));
      AskedSnoc(provider, texts, before, provider(texts[n]).payload.value, cache);
    }
  }

  /**
   * `v` is what a call for `text` at time `now` may return when it finds
   * `cache`: the unexpired entry under the text's key, or the vector the
   * provider answered with, status 200.
   */
  predicate CachedOrAnswered(digest: string -> string, provider: string -> ProviderReply<Vector>,
                             cache: Cache, text: string, now: int, v: Vector) {
    || (IsHit(cache, CacheKey(digest, text), now) && v == cache[CacheKey(digest, text)].value)
    || provider(text) == Replied(Ok, Some(v))
  }

  /** Each vector is explained by the cache the earlier turns left behind, or by the provider. */
  predicate VectorsExplained(hasClient: bool, digest: string -> string, provider: string -> ProviderReply<Vector>,
                             cache: Cache, texts: seq<string>, clock: nat -> int, answers: nat -> bool, vectors: seq<Vector>) {
    && |vectors| == |texts|
    && forall i :: 0 <= i < |texts| ==>
         CachedOrAnswered(digest, provider, EmbedRun(hasClient, digest, provider, cache, texts[..i], clock, answers).cache,
                          texts[i], clock(i), vectors[i])
  }

  /** One more explained vector, for the last text, extends an explanation of the vectors before it. */
  lemma ExplainedSnoc(hasClient: bool, digest: string -> string, provider: string -> ProviderReply<Vector>,
                      cache: Cache, texts: seq<string>, clock: nat -> int, answers: nat -> bool, vectors: seq<Vector>, v: Vector)
    requires texts != []
    requires VectorsExplained(hasClient, digest, provider, cache, texts[..|texts| - 1], clock, answers, vectors)
    requires CachedOrAnswered(digest, provider, EmbedRun(hasClient, digest, provider, cache, texts[..|texts| - 1], clock, answers).cache,
                              texts[|texts| - 1], clock(|texts| - 1), v)
    ensures VectorsExplained(hasClient, digest, provider, cache, texts, clock, answers, vectors + [v])
  {
    var n := |texts| - 1;
    forall i | 0 <= i < |texts|
      ensures CachedOrAnswered(digest, provider, EmbedRun(hasClient, digest, provider, cache, texts[..i], clock, answers).cache,
                               texts[i], clock(i), (vectors + [v])[i])
    {
      if i < n {
        assert texts[..n][..i] == texts[..i];
        assert texts[..n][i] == texts[i];
      }
    }
  }

  /**
   * In a run without failure, the vector kept for text `i` is either the
   * unexpired entry under that text's key in the cache the first `i` turns
   * left behind, or the vector the provider answered for that text.
   */
  lemma {:induction false} VectorsComeFromCacheOrProvider(hasClient: bool, digest: string -> string, provider: string -> ProviderReply<Vector>,
                                                          cache: Cache, texts: seq<string>, clock: nat -> int, answers: nat -> bool)
    ensures var run := EmbedRun(hasClient, digest, provider, cache, texts, clock, answers);
      !run.failed ==> VectorsExplained(hasClient, digest, provider, cache, texts, clock, answers, run.vectors)
  {
    var run := EmbedRun(hasClient, digest, provider, cache, texts, clock, answers);
    if texts != [] && !run.failed {
      var n := |texts| - 1;
      var before := EmbedRun(hasClient, digest, provider, cache, texts[..n], clock, answers);
      VectorsComeFromCacheOrProvider(hasClient, digest, provider, cache, texts[..n], clock, answers);
      StepIsOutcome(LinkAt(hasClient, answers(n)), digest, provider, before, texts[n], clock(n));
      var v := run.vectors[n];
      assert run.vectors == before.vectors + [v];
      ExplainedSnoc(hasClient, digest, provider, cache, texts, clock, answers, before.vectors, v);
    }
  }

  /** The provider is only ever sent chunks of the document, and each at most once per chunk. */
  lemma {:induction false} CallsAreChunks(hasClient: bool, digest: string -> string, provider: string -> ProviderReply<Vector>,
                                          cache: Cache, texts: seq<string>, clock: nat -> int, answers: nat -> bool)
    ensures var run := EmbedRun(hasClient, digest, provider, cache, texts, clock, answers);
      multiset(run.calls) <= multiset(texts)
  {
    if texts != [] {
      var prefix := texts[..|texts| - 1];
      CallsAreChunks(hasClient, digest, provider, cache, prefix, clock, answers);
      MultisetSnoc(texts);
    }
  }

  lemma MultisetSnoc(texts: seq<string>)
    requires texts != []
    ensures multiset(texts) == multiset(texts[..|texts| - 1]) + multiset{texts[|texts| - 1]}
  {
    assert texts[..|texts| - 1] + [texts[|texts| - 1]] == texts;
  }

  /** One more text: the run for `texts[..i + 1]` is the run for `texts[..i]` followed by one call for `texts[i]`. */
  lemma RunSnoc(hasClient: bool, digest: string -> string, provider: string -> ProviderReply<Vector>,
                cache: Cache, texts: seq<string>, clock: nat -> int, answers: nat -> bool, i: nat)
    requires i < |texts|
    ensures EmbedRun(hasClient, digest, provider, cache, texts[..i + 1], clock, answers) ==
      Step(LinkAt(hasClient, answers(i)), digest, provider, EmbedRun(hasClient, digest, provider, cache, texts[..i], clock, answers),
           texts[i], clock(i))
  {
    assert texts[..i + 1][..i] == texts[..i];
  }

  /** Every entry of `column` is `value`. */
  predicate AllAre<T(==)>(column: seq<T>, value: T) {
    forall i :: 0 <= i < |column| ==> column[i] == value
  }

  /** Row `i` of every column describes chunk `i`, with the index's field widths applied. */
  predicate RowsMatch(columns: Columns, chunks: seq<string>, title: string, source: string, clock: nat -> int) {
    && |columns.embeddings| == |chunks| && |columns.contents| == |chunks| && |columns.titles| == |chunks|
    && |columns.sources| == |chunks| && |columns.chunkIndices| == |chunks| && |columns.timestamps| == |chunks|
    && (forall i :: 0 <= i < |chunks| ==> columns.contents[i] == Take(chunks[i], MaxContentLength))
    && AllAre(columns.titles, Take(title, MaxTitleLength))
    && AllAre(columns.sources, Take(source, MaxSourceLength))
    && (forall i :: 0 <= i < |chunks| ==> columns.chunkIndices[i] == i)
    && (forall i :: 0 <= i < |chunks| ==> columns.timestamps[i] == clock(i))
  }

  /** Appending chunk `i`'s row to columns that describe the first `i` chunks describes the first `i + 1`. */
  lemma RowsSnoc(columns: Columns, chunks: seq<string>, title: string, source: string, clock: nat -> int, i: nat, v: Vector)
    requires i < |chunks|
    requires RowsMatch(columns, chunks[..i], title, source, clock)
    ensures RowsMatch(Columns(columns.embeddings + [v], columns.contents + [Take(chunks[i], MaxContentLength)],
                              columns.titles + [Take(title, MaxTitleLength)], columns.sources + [Take(source, MaxSourceLength)],
                              columns.chunkIndices + [i], columns.timestamps + [clock(i)]),
                      chunks[..i + 1], title, source, clock)
  {
  }

  /**
   * `process_document_chunks(chunks, doc_id, title, source, user_id)`.
   * `indexConnected` is `milvus_connected`; `clock(i)` is the time read in
   * the `i`-th turn, and `answers(i)` whether the cache server answers then. The insert, the flush and the metadata row are not
   * part of this model.
   */
  method ProcessDocumentChunks(g: Gateway, indexConnected: bool, chunks: seq<string>,
                               title: string, source: string, clock: nat -> int, answers: nat -> bool)
    returns (outcome: Ingestion)
    modifies g
    ensures !indexConnected ==> outcome == IndexUnavailable && g.cache == old(g.cache) && g.calls == old(g.calls)
    ensures indexConnected ==>
      var run := EmbedRun(g.hasClient, g.digest, g.provider, old(g.cache), chunks, clock, answers);
      && g.cache == run.cache && g.calls == old(g.calls) + run.calls
      && (run.failed <==> outcome == Abandoned)
      && (!run.failed ==> outcome.Inserted? && outcome.columns.embeddings == run.vectors
                          && RowsMatch(outcome.columns, chunks, title, source, clock))
  {
    if !indexConnected {
      return IndexUnavailable;
    }
    ghost var cache0, calls0 := g.cache, g.calls;
    ghost var run := EmbedRun(g.hasClient, g.digest, g.provider, cache0, [], clock, answers);
    var embeddings: seq<Vector> := [];
    var contents: seq<string> := [];
    var titles: seq<string> := [];
    var sources: seq<string> := [];
    var chunkIndices: seq<int> := [];
    var timestamps: seq<int> := [];
    for i := 0 to |chunks|
      invariant run == EmbedRun(g.hasClient, g.digest, g.provider, cache0, chunks[..i], clock, answers)
      invariant !run.failed && embeddings == run.vectors && g.cache == run.cache && g.calls == calls0 + run.calls
      invariant RowsMatch(Columns(embeddings, contents, titles, sources, chunkIndices, timestamps),
                          chunks[..i], title, source, clock)
    {
      RunSnoc(g.hasClient, g.digest, g.provider, cache0, chunks, clock, answers, i);
      ghost var calls1 := g.calls;
      var embedding := g.Embed(chunks[i], clock(i), answers(i));
      TurnIsStep(LinkAt(g.hasClient, answers(i)), g.digest, g.provider, run, chunks[i], clock(i),
                 embedding, g.cache, calls0, calls1, g.calls);
      run := EmbedRun(g.hasClient, g.digest, g.provider, cache0, chunks[..i + 1], clock, answers);
      if embedding.Failure? {
        RunStopsAtFailure(g.hasClient, g.digest, g.provider, cache0, chunks, clock, answers, i + 1);
        return Abandoned;
      }
      RowsSnoc(Columns(embeddings, contents, titles, sources, chunkIndices, timestamps),
               chunks, title, source, clock, i, embedding.value);
      embeddings := embeddings + [embedding.value];
      contents := contents + [Take(chunks[i], MaxContentLength)];
      titles := titles + [Take(title, MaxTitleLength)];
      sources := sources + [Take(source, MaxSourceLength)];
      chunkIndices := chunkIndices + [i];
      timestamps := timestamps + [clock(i)];
    }
    assert chunks[..|chunks|] == chunks;
    outcome := Inserted(Columns(embeddings, contents, titles, sources, chunkIndices, timestamps));
  }
}
