/**
 * The agent, `agente_rag_semantico`: routes a question either to the canned
 * reasoning answer (when it mentions one of the trigger words) or to the
 * structured prompt built from the matched concept, its relations, the sales
 * placeholder and the retrieved PDF context. The prompt is where the model
 * stops: sending it to the completion service is an external step.
 */
module Agent {
  import opened Wrappers
  import opened Text
  import opened KnowledgeGraph
  import opened ConceptMatcher
  import opened RelationResolver
  import opened ContextRetriever

  /** The lower-cased question asks for the reasoning demonstration. */
  predicate AsksForReasoning(perguntaLower: string)
  {
    Contains(perguntaLower, "inferiu") || Contains(perguntaLower, "inferidas") || Contains(perguntaLower, "reasoning")
  }

  /** The one concept whose children the reasoning branch lists. */
  const CategoriaProdutos := "https://contoso.com/vendas/Categoria_Produtos"

  // ---------------------------------------------------------------------------
  // The reasoning branch
  // ---------------------------------------------------------------------------

  const ReasoningHeader := "\n### 🧠 Conceitos inferidos automaticamente pelo Reasoner (OWL-RL)\n\nO reasoner inferiu que a categoria **Produtos** possui:\n\n"
  const ReasoningFooter := "\n\nAs inferências vêm das relações SKOS (narrower/broader).\n"

  function Bullet(uri: string): string
  {
    "- `" + uri + "`"
  }

  function Bullets(uris: seq<string>): seq<string>
  {
    seq(|uris|, k requires 0 <= k < |uris| => Bullet(uris[k]))
  }

  /** The canned answer listing the inferred children, one bullet line each. */
  function ReasoningAnswer(children: seq<string>): string
  {
    ReasoningHeader + Join("\n", Bullets(children)) + ReasoningFooter
  }

  /** The narrower children of `Categoria_Produtos`, as the reasoning query returns them. */
  function InferredOf(g: Graph): seq<string>
  {
    Objects(g, CategoriaProdutos, Narrower)
  }

  /** The reasoning branch's loop: collects `str(row.child)` for each narrower child. */
  method InferredChildren(g: Graph) returns (inferidos: seq<string>)
    ensures inferidos == InferredOf(g)
    ensures forall c :: c in inferidos <==> Triple(CategoriaProdutos, Narrower, c) in g
  {
    inferidos := [];
    var i := 0;
    while i < |g|
      invariant 0 <= i <= |g|
      invariant inferidos == Objects(g[..i], CategoriaProdutos, Narrower)
    {
      var t := g[i];
      if t.subj == CategoriaProdutos && t.pred == Narrower {
        inferidos := inferidos + [t.obj];
      }
      assert g[..i + 1][..i] == g[..i];
      i := i + 1;
    }
    assert g[..|g|] == g;
  }

  /**
   * The canned answer is its fixed header, then exactly one "- `uri`" line per
   * child in order, then its fixed footer (for children free of newlines).
   */
  lemma ReasoningListsChildren(children: seq<string>)
    requires |children| > 0
    requires forall k :: 0 <= k < |children| ==> '\n' !in children[k]
    ensures var a := ReasoningAnswer(children);
            && ReasoningHeader <= a
            && |ReasoningHeader| + |ReasoningFooter| <= |a|
            && a[|a| - |ReasoningFooter|..] == ReasoningFooter
            && Split(a[|ReasoningHeader|..|a| - |ReasoningFooter|], '\n') == Bullets(children)
  {
    var lista := Join("\n", Bullets(children));
    var a := ReasoningAnswer(children);
    assert a == ReasoningHeader + lista + ReasoningFooter;
    assert a[|ReasoningHeader|..|a| - |ReasoningFooter|] == lista;
    forall k | 0 <= k < |children|
      ensures '\n' !in Bullets(children)[k]
    {
      assert Bullets(children)[k] == "- `" + children[k] + "`";
    }
    SplitJoin(Bullets(children), '\n');
  }

  /** The concepts of some relation rows, in order. */
  function ConceptsIn(rels: seq<Relation>): seq<string>
  {
    seq(|rels|, k requires 0 <= k < |rels| => rels[k].concept)
  }

  /**
   * The reasoning query is the resolver's `narrower` branch: the inferred
   * children are exactly the concepts of the `narrower` rows the relation
   * resolver reports for `Categoria_Produtos`, in the same order.
   */
  lemma {:induction false} InferredAreNarrowerRelations(g: Graph)
    ensures InferredOf(g) == ConceptsIn(Edges(g, CategoriaProdutos, "narrower"))
  {
    if g != [] {
      var init := g[..|g| - 1];
      var last := g[|g| - 1];
      InferredAreNarrowerRelations(init);
      var pre := Edges(init, CategoriaProdutos, "narrower");
      if last.subj == CategoriaProdutos && last.pred == Narrower {
        assert Edges(g, CategoriaProdutos, "narrower") == pre + [Relation("narrower", last.obj)];
        assert ConceptsIn(pre + [Relation("narrower", last.obj)]) == ConceptsIn(pre) + [last.obj];
      } else {
        assert Edges(g, CategoriaProdutos, "narrower") == pre;
      }
    }
  }

  /**
   * A graph without repeated triples (an RDF graph is a set) gives a list of
   * inferred children without repeats.
   */
  lemma InferredDistinct(g: Graph)
    requires NoRepeats(g)
    ensures NoRepeats(InferredOf(g))
  {
    InferredAreNarrowerRelations(g);
    EdgesDistinct(g, CategoriaProdutos, "narrower");
    var rels := Edges(g, CategoriaProdutos, "narrower");
    var kids := InferredOf(g);
    forall i, j | 0 <= i < j < |kids|
      ensures kids[i] != kids[j]
    {
      assert rels[i] == Relation("narrower", kids[i]) && rels[j] == Relation("narrower", kids[j]);
    }
  }

  // ---------------------------------------------------------------------------
  // The prompt
  // ---------------------------------------------------------------------------

  const NoConcept := "❌ Nenhum conceito SKOS encontrado."
  const NoneMark := "—"
  const NoRelated := "Nenhum conceito relacionado encontrado."
  const NoSales := "Nenhuma venda inferida."
  const NoSnippet := "Nenhum trecho relevante encontrado."

  function FoundConcept(uri: string): string
  {
    "✔ Conceito encontrado: `" + uri + "`"
  }

  function RelationLine(r: Relation): string
  {
    "- `" + r.tipo + "` → `" + r.concept + "`"
  }

  function RelationLines(rels: seq<Relation>): seq<string>
  {
    seq(|rels|, k requires 0 <= k < |rels| => RelationLine(rels[k]))
  }

  function SaleLines(vendas: seq<string>): seq<string>
  {
    if vendas == [] then [] else ["- Produto " + vendas[0]] + SaleLines(vendas[1..])
  }

  /** The five values interpolated into the prompt. */
  datatype Sections = Sections(pergunta: string, conceito: string, relacionados: string, vendas: string, pdf: string)

  const PromptHead := "\nVocê é um agente semântico com SKOS/OWL + Reasoning + RAG.\n\n### Pergunta:\n"
  const ConceptHeader := "\n\n## 🔎 1. Conceito SKOS identificado\n"
  const RelationsHeader := "\n\n## 🧭 2. Conceitos relacionados (broader / narrower / related)\n"
  const SalesHeader := "\n\n## 📊 3. Vendas inferidas\n"
  const PdfHeader := "\n\n## 📘 4. Contexto do PDF\n"
  const PromptTail := "\n\nExplique de forma clara, estruturada e estratégica.\n"

  /** The prompt f-string, as its fixed text alternating with the five interpolated values. */
  function PromptPieces(s: Sections): seq<string>
  {
    [PromptHead, s.pergunta, ConceptHeader, s.conceito, RelationsHeader, s.relacionados,
     SalesHeader, s.vendas, PdfHeader, s.pdf, PromptTail]
  }

  function Render(s: Sections): string
  {
    Concat(PromptPieces(s))
  }

  /** `if not conceito`: Python treats both None and the empty string as no concept. */
  predicate Matched(c: Option<string>)
  {
    c.Some? && c.value != ""
  }

  function RelationsSection(rels: seq<Relation>): string
  {
    if |rels| > 0 then Join("\n", RelationLines(rels)) else NoRelated
  }

  function SalesSection(vendas: seq<string>): string
  {
    if |vendas| > 0 then Join("\n", SaleLines(vendas)) else NoSales
  }

  function PdfSection(context: string): string
  {
    if context == "" then NoSnippet else context
  }

  /** The sections the prompt is built from, branch by branch. */
  function PromptSections(g: Graph, pergunta: string, search: SearchOutcome): Sections
  {
    var c := ConceptOf(g, pergunta);
    Sections(
      pergunta,
      if Matched(c) then FoundConcept(c.value) else NoConcept,
      if Matched(c) then RelationsSection(RelationsOf(g, c.value)) else NoneMark,
      if Matched(c) then SalesSection(SalesOf(c.value)) else NoneMark,
      PdfSection(BuscarPdf(search)))
  }

  /** Where a question ends up: the canned answer, or the prompt for the completion service. */
  datatype Reply = Reasoning(answer: string) | Prompt(prompt: string)

  function Route(g: Graph, pergunta: string, search: SearchOutcome): Reply
  {
    if AsksForReasoning(Lower(pergunta)) then Reasoning(ReasoningAnswer(InferredOf(g)))
    else Prompt(Render(PromptSections(g, pergunta, search)))
  }

  /**
   * `agente_rag_semantico` up to the completion call: checks for the trigger
   * words, then fills in the concept, relation, sales and PDF sections step
   * by step and renders the prompt.
   */
  method AgenteRagSemantico(g: Graph, pergunta: string, search: SearchOutcome) returns (reply: Reply)
    ensures reply.Reasoning? <==> AsksForReasoning(Lower(pergunta))
    ensures reply == Route(g, pergunta, search)
  {
    var perguntaLower := Lower(pergunta);
    if Contains(perguntaLower, "inferiu") || Contains(perguntaLower, "inferidas") || Contains(perguntaLower, "reasoning") {
      var inferidos := InferredChildren(g);
      var lista := Join("\n", Bullets(inferidos));
      return Reasoning(ReasoningHeader + lista + ReasoningFooter);
    }

    var conceito := FindConcept(g, pergunta);
    var conceitoInfo, relacionadosInfo, vendasInfo;
    if conceito.None? || conceito.value == "" {
      conceitoInfo := NoConcept;
      relacionadosInfo := NoneMark;
      vendasInfo := NoneMark;
    } else {
      conceitoInfo := FoundConcept(conceito.value);
      var relacionados := RelatedConcepts(g, conceito.value);
      if |relacionados| > 0 {
        relacionadosInfo := Join("\n", RelationLines(relacionados));
      } else {
        relacionadosInfo := NoRelated;
      }
      var vendas := SalesOf(conceito.value);
      if |vendas| > 0 {
        vendasInfo := Join("\n", SaleLines(vendas));
      } else {
        vendasInfo := NoSales;
      }
    }

    var pdfContext := BuscarPdf(search);
    if pdfContext == "" {
      pdfContext := NoSnippet;
    }

    reply := Prompt(Render(Sections(pergunta, conceitoInfo, relacionadosInfo, vendasInfo, pdfContext)));
  }

  // ---------------------------------------------------------------------------
  // Properties of the routing and of the sections
  // ---------------------------------------------------------------------------

  /**
   * A trigger word routes around the matcher: the reply is the canned answer,
   * it lists exactly the narrower children of `Categoria_Produtos` in graph
   * order, and neither the labels in the graph nor the search results matter.
   */
  lemma ReasoningBypassesMatcher(g: Graph, pergunta: string, search: SearchOutcome, g': Graph, search': SearchOutcome)
    requires AsksForReasoning(Lower(pergunta))
    requires InferredOf(g) == InferredOf(g')
    ensures Route(g, pergunta, search) == Route(g', pergunta, search') == Reasoning(ReasoningAnswer(InferredOf(g)))
    ensures forall c :: c in InferredOf(g) <==> Triple(CategoriaProdutos, Narrower, c) in g
  {
  }

  /** The concept section reports no concept exactly when the matcher found none. */
  lemma ConceptSectionIff(g: Graph, pergunta: string, search: SearchOutcome)
    ensures var s := PromptSections(g, pergunta, search);
            var c := ConceptOf(g, pergunta);
            && (s.conceito == NoConcept <==> !Matched(c))
            && (Matched(c) ==> s.conceito == FoundConcept(c.value))
  {
    var c := ConceptOf(g, pergunta);
    if Matched(c) {
      assert FoundConcept(c.value)[0] != NoConcept[0];
    }
  }

  /** Relations and sales both show the "—" mark exactly when no concept was matched. */
  lemma NoConceptMarksIff(g: Graph, pergunta: string, search: SearchOutcome)
    ensures var s := PromptSections(g, pergunta, search);
            var c := ConceptOf(g, pergunta);
            && (s.relacionados == NoneMark <==> !Matched(c))
            && (s.vendas == NoneMark <==> !Matched(c))
  {
  }

  /**
   * For a matched concept, the relations section says there are none exactly
   * when the resolver returns no row; otherwise it holds one
   * "- `tipo` → `concept`" line per row, in order (for concepts free of
   * newlines).
   */
  lemma RelationsSectionLines(rels: seq<Relation>)
    requires forall k :: 0 <= k < |rels| ==> '\n' !in rels[k].tipo && '\n' !in rels[k].concept
    ensures RelationsSection(rels) == NoRelated <==> rels == []
    ensures rels != [] ==> Split(RelationsSection(rels), '\n') == RelationLines(rels)
  {
    if rels != [] {
      var lines := RelationLines(rels);
      forall k | 0 <= k < |lines|
        ensures '\n' !in lines[k]
      {
        assert lines[k] == "- `" + rels[k].tipo + "` → `" + rels[k].concept + "`";
      }
      SplitJoin(lines, '\n');
      JoinStartsWithFirst("\n", lines);
      assert lines[0][0] == '-';
      assert Join("\n", lines)[0] != NoRelated[0];
    }
  }

  /** A matched concept's relations section is built from the resolver's rows for it. */
  lemma MatchedSections(g: Graph, pergunta: string, search: SearchOutcome)
    requires Matched(ConceptOf(g, pergunta))
    ensures var s := PromptSections(g, pergunta, search);
            var uri := ConceptOf(g, pergunta).value;
            && s.relacionados == RelationsSection(RelationsOf(g, uri))
            && (RelationsOf(g, uri) == [] <==> s.relacionados == NoRelated)
            && s.vendas == NoSales
  {
    var uri := ConceptOf(g, pergunta).value;
    var rels := RelationsOf(g, uri);
    if rels != [] {
      var lines := RelationLines(rels);
      JoinStartsWithFirst("\n", lines);
      assert lines[0][0] == '-';
      assert Join("\n", lines)[0] != NoRelated[0];
    }
  }

  /** An empty PDF context is replaced by the placeholder; any other is kept as is. */
  lemma PdfSectionChoice(g: Graph, pergunta: string, search: SearchOutcome)
    ensures var s := PromptSections(g, pergunta, search);
            && (BuscarPdf(search) == "" ==> s.pdf == NoSnippet)
            && (BuscarPdf(search) != "" ==> s.pdf == BuscarPdf(search))
            && s.pdf != ""
  {
  }

  /**
   * The prompt carries the question, then the concept, relations, sales and
   * PDF sections, each right after its own header, without overlap and in
   * that fixed order.
   */
  lemma PromptLayout(s: Sections)
    ensures var pieces := PromptPieces(s);
            && pieces[1] == s.pergunta && pieces[3] == s.conceito && pieces[5] == s.relacionados
            && pieces[7] == s.vendas && pieces[9] == s.pdf
            && (forall j :: 0 <= j < |pieces| ==> Holds(Render(s), Offset(pieces, j), pieces[j]))
            && (forall j :: 0 <= j < |pieces| ==> Offset(pieces, j + 1) == Offset(pieces, j) + |pieces[j]|)
            && (forall j, j' :: 0 <= j < j' < |pieces| ==> Offset(pieces, j) + |pieces[j]| <= Offset(pieces, j'))
  {
    ConcatLayout(PromptPieces(s));
  }
}
