/**
 * The context retriever, `buscar_pdf`: the `content` fields of the first three
 * search hits joined by newlines, with a fixed message when the search fails.
 * The search service itself is not modelled; its answer is an input.
 */
module ContextRetriever {
  import opened Text

  /**
   * The `content` field of one hit: absent (`x.get` then yields `""`),
   * present but null, or a string.
   */
  datatype Content = Missing | Null | Present(text: string)

  /** What the search call produced: the hits in ranking order, or a failure raised while searching. */
  datatype SearchOutcome = Hits(docs: seq<Content>) | Unavailable

  const SearchUnavailable := "Não foi possível buscar no Azure Search."

  /** At most this many snippets reach the prompt. */
  const MaxSnippets := 3

  /** `x.get("content", "")` for a hit whose content is not null. */
  function Snippet(c: Content): string
    requires !c.Null?
  {
    if c.Missing? then "" else c.text
  }

  /** The hits that `docs[:3]` keeps. */
  function Kept(docs: seq<Content>): (kept: seq<Content>)
    ensures |kept| == if |docs| < MaxSnippets then |docs| else MaxSnippets
    ensures forall k :: 0 <= k < |kept| ==> kept[k] == docs[k]
  {
    if |docs| < MaxSnippets then docs else docs[..MaxSnippets]
  }

  /**
   * `buscar_pdf`: joins the kept snippets with newlines. A null content among
   * them makes the join raise, and like a failed search that is answered
   * with the fixed message.
   */
  function BuscarPdf(search: SearchOutcome): string
  {
    match search
    case Unavailable => SearchUnavailable
    case Hits(docs) =>
      var kept := Kept(docs);
      if exists k :: 0 <= k < |kept| && kept[k].Null? then SearchUnavailable
      else Join("\n", seq(|kept|, k requires 0 <= k < |kept| => Snippet(kept[k])))
  }

  /** Hits after the third never influence the context. */
  lemma TailIgnored(docs: seq<Content>, more: seq<Content>)
    requires |docs| >= MaxSnippets
    ensures BuscarPdf(Hits(docs + more)) == BuscarPdf(Hits(docs))
  {
    assert Kept(docs + more) == Kept(docs);
  }

  /**
   * With no null content among the first three hits, and no newline inside
   * any of their snippets, the context splits back into exactly the first
   * min(3, n) snippets (a missing content reads as the empty one).
   */
  lemma {:induction false} KeptSnippetsRecovered(docs: seq<Content>)
    requires |docs| > 0
    requires forall k :: 0 <= k < |docs| && k < MaxSnippets ==> !docs[k].Null? && '\n' !in Snippet(docs[k])
    ensures var n := if |docs| < MaxSnippets then |docs| else MaxSnippets;
            var lines := Split(BuscarPdf(Hits(docs)), '\n');
            |lines| == n && forall k :: 0 <= k < n ==> lines[k] == Snippet(docs[k])
  {
    var kept := Kept(docs);
    var parts := seq(|kept|, k requires 0 <= k < |kept| => Snippet(kept[k]));
    assert BuscarPdf(Hits(docs)) == Join("\n", parts);
    SplitJoin(parts, '\n');
  }

  /** No hits at all give the empty context, which the agent then replaces. */
  lemma NoHitsGiveEmpty()
    ensures BuscarPdf(Hits([])) == ""
  {
  }
}
