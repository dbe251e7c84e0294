/**
 * The context block of the `chat` endpoint: each retrieved document becomes
 * `"[title]:\ncontent"`, the entries are joined with a blank line, and the
 * result is cut to 6000 characters followed by `"..."` when it is longer.
 */
module Retrieval {

  /** A hit of the vector index, as `search_similar_documents` returns it (its float score left out). */
  datatype Doc = Doc(content: string, title: string, source: string, chunkIndex: int)

  const MaxContextLength := 6000
  const Ellipsis := "..."
  const Separator := "\n\n"

  /** `f"[{doc['title']}]:\n{doc['content']}"` */
  function Entry(d: Doc): (e: string)
    ensures |e| == |d.title| + |d.content| + 4
    ensures e[0] == '[' && e[1..|d.title| + 1] == d.title && e[|d.title| + 1..|d.title| + 4] == "]:\n"
    ensures e[|d.title| + 4..] == d.content
  {
    "[" + d.title + "]:\n" + d.content
  }

  /** The entries of `docs`, in the order the index returned them. */
  function Entries(docs: seq<Doc>): (es: seq<string>)
    ensures |es| == |docs|
    ensures forall i :: 0 <= i < |docs| ==> es[i] == Entry(docs[i])
  {
    seq(|docs|, i requires 0 <= i < |docs| => Entry(docs[i]))
  }

  /** `sep.join(xs)`; `JoinLength` and `JoinAt` state what it holds. */
  function Join(sep: string, xs: seq<string>): string
  {
    if |xs| == 0 then ""
    else if |xs| == 1 then xs[0]
    else Join(sep, xs[..|xs| - 1]) + sep + xs[|xs| - 1]
  }

  /** The total length of `xs`. */
  function TotalLength(xs: seq<string>): nat
  {
    if xs == [] then 0 else TotalLength(xs[..|xs| - 1]) + |xs[|xs| - 1]|
  }

  /** A join is as long as its parts plus one separator between each two of them. */
  lemma {:induction false} JoinLength(sep: string, xs: seq<string>)
    requires xs != []
    ensures |Join(sep, xs)| == TotalLength(xs) + (|xs| - 1) * |sep|
  {
    if |xs| > 1 {
      JoinLength(sep, xs[..|xs| - 1]);
    } else {
      assert xs[..0] == [];
    }
  }

  /** Where the `i`-th part starts in `sep.join(xs)`: after the first `i` parts and `i` separators. */
  function Offset(sep: string, xs: seq<string>, i: nat): nat
    requires i <= |xs|
  {
    if i == 0 then 0 else |Join(sep, xs[..i])| + |sep|
  }

  /** Joining more parts only appends: the join of a prefix of `xs` is a prefix of the join of `xs`. */
  lemma {:induction false} JoinPrefix(sep: string, xs: seq<string>, i: nat)
    requires 0 < i <= |xs|
    ensures |Join(sep, xs[..i])| <= |Join(sep, xs)|
    ensures Join(sep, xs)[..|Join(sep, xs[..i])|] == Join(sep, xs[..i])
    decreases |xs| - i
  {
    if i < |xs| {
      assert xs[..|xs| - 1][..i] == xs[..i];
      JoinPrefix(sep, xs[..|xs| - 1], i);
      assert |xs| > 1;
    } else {
      assert xs[..i] == xs;
    }
  }

  /** The join of the first `i + 1` parts ends with the `i`-th part, at its offset. */
  lemma JoinUpTo(sep: string, xs: seq<string>, i: nat)
    requires i < |xs|
    ensures |Join(sep, xs[..i + 1])| == Offset(sep, xs, i) + |xs[i]|
    ensures Join(sep, xs[..i + 1])[Offset(sep, xs, i)..] == xs[i]
    ensures i > 0 ==> Join(sep, xs[..i + 1])[Offset(sep, xs, i) - |sep|..Offset(sep, xs, i)] == sep
  {
    assert xs[..i + 1][..i] == xs[..i];
  }

  /**
   * Each part appears intact at its offset, preceded by a separator unless
   * it is the first: the join keeps every part, in order.
   */
  lemma JoinAt(sep: string, xs: seq<string>, i: nat)
    requires i < |xs|
    ensures Offset(sep, xs, i) + |xs[i]| <= |Join(sep, xs)|
    ensures Join(sep, xs)[Offset(sep, xs, i)..Offset(sep, xs, i) + |xs[i]|] == xs[i]
    ensures i > 0 ==> Join(sep, xs)[Offset(sep, xs, i) - |sep|..Offset(sep, xs, i)] == sep
  {
    JoinUpTo(sep, xs, i);
    JoinPrefix(sep, xs, i + 1);
    var upto := Join(sep, xs[..i + 1]);
    var at := Offset(sep, xs, i);
    SliceOfPrefix(Join(sep, xs), upto, at, |upto|);
    if i > 0 {
      SliceOfPrefix(Join(sep, xs), upto, at - |sep|, at);
    }
  }

  /** A slice that lies within a prefix of `s` is the same slice of that prefix. */
  lemma SliceOfPrefix(s: string, prefix: string, lo: nat, hi: nat)
    requires |prefix| <= |s| && s[..|prefix|] == prefix && lo <= hi <= |prefix|
    ensures s[lo..hi] == prefix[lo..hi]
  {
    assert forall k :: lo <= k < hi ==> s[k] == s[..|prefix|][k];
  }

  /** The context the chat prompt receives for the documents `docs`. */
  function AssembleContext(docs: seq<Doc>): (context: string)
    ensures |context| <= MaxContextLength + |Ellipsis|
    ensures var joined := Join(Separator, Entries(docs));
      && (|joined| <= MaxContextLength ==> context == joined)
      && (|joined| > MaxContextLength ==>
            |context| == MaxContextLength + |Ellipsis|
            && context[..MaxContextLength] == joined[..MaxContextLength]
            && context[MaxContextLength..] == Ellipsis)
  {
    var joined := Join(Separator, Entries(docs));
    if |joined| > MaxContextLength then joined[..MaxContextLength] + Ellipsis else joined
  }

  /** No retrieved document gives an empty context. */
  lemma NoDocsNoContext()
    ensures AssembleContext([]) == ""
  {
  }

  /**
   * Every document whose entry ends within the first 6000 characters of the
   * joined text reaches the prompt intact, at its place in retrieval order.
   */
  lemma ContextHoldsEntry(docs: seq<Doc>, i: nat)
    requires i < |docs|
    requires Offset(Separator, Entries(docs), i) + |Entry(docs[i])| <= MaxContextLength
    ensures var at := Offset(Separator, Entries(docs), i);
      && at + |Entry(docs[i])| <= |AssembleContext(docs)|
      && AssembleContext(docs)[at..at + |Entry(docs[i])|] == Entry(docs[i])
  {
    var es := Entries(docs);
    var at := Offset(Separator, es, i);
    JoinAt(Separator, es, i);
    var joined := Join(Separator, es);
    if |joined| > MaxContextLength {
      var context := AssembleContext(docs);
      assert context[..MaxContextLength] == joined[..MaxContextLength];
      assert context[at..at + |es[i]|] == joined[at..at + |es[i]|];
    }
  }

  /** Entries keep the index's order: an earlier document ends, and a separator follows, before a later one starts. */
  lemma ContextKeepsOrder(docs: seq<Doc>, i: nat, j: nat)
    requires i < j < |docs|
    ensures Offset(Separator, Entries(docs), i) + |Entry(docs[i])| + |Separator| <= Offset(Separator, Entries(docs), j)
  {
    var es := Entries(docs);
    JoinUpTo(Separator, es, i);
    JoinPrefix(Separator, es[..j], i + 1);
    assert es[..j][..i + 1] == es[..i + 1];
  }

  /** Only an over-long context is changed, and then it ends with the marker: at most 6003 characters, not 6000. */
  lemma TruncatedEndsWithMarker(docs: seq<Doc>)
    ensures var context := AssembleContext(docs);
      context != Join(Separator, Entries(docs)) ==>
        |context| == MaxContextLength + |Ellipsis| && context[|context| - 3..] == Ellipsis
  {
  }
}
