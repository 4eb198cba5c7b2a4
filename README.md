# Agente Semântico Contoso — a Dafny model of the agent's core

The agent answers a natural-language question (in Portuguese) with a
structured prompt for a language model. It combines three sources: a SKOS
concept graph, an Azure Cognitive Search index of PDF text, and the question
itself. This project models the domain logic in `agente.py` and proves
properties about it:

- **Concept matcher** (`encontrar_conceito_na_frase`). It scans the graph's
  `skos:prefLabel` triples in iteration order. It returns the subject of the
  first triple whose lower-cased label occurs in the lower-cased question.
- **Relation resolver** (`conceitos_relacionados`). It returns the
  `(tipo, concept)` pairs for the `skos:broader`, `skos:narrower` and
  `skos:related` edges leaving a concept. The sales placeholder
  `vendas_semanticas` is modelled beside it.
- **Context retriever** (`buscar_pdf`). It joins the `content` of the first
  three search hits with newlines.
- **Agent** (`agente_rag_semantico`). If the question contains a trigger word,
  it returns the canned reasoning answer. Otherwise it fills in the concept,
  relations, sales and PDF sections and renders the prompt.

Files and modules:

- `text.dfy`
  - `Wrappers`: `Option`.
  - `Text`: ASCII `Lower`, the substring test `Contains`, `Join`, `Split` and
    f-string layout via `Concat`.
- `graph.dfy`, `KnowledgeGraph`: triples, the SKOS predicate names, and
  `Objects`, the one-pattern query.
- `matcher.dfy`, `ConceptMatcher`: the concept matcher.
- `relations.dfy`, `RelationResolver`: the relation resolver and the sales
  placeholder.
- `retriever.dfy`, `ContextRetriever`: `buscar_pdf`.
- `agent.dfy`, `Agent`: the routing, the reasoning branch and the prompt
  sections.

Modelling choices:

- The graph is passed in as a value: the sequence of its triples in the order
  the store yields them. Each RDF term is its string form, `str(term)`.
- Each SPARQL triple pattern is modelled as a filter over that sequence, in graph order. The relations query's UNION gives the broader, then the narrower, then the related rows.
- The search service's answer is an input, `SearchOutcome`. It is either the
  list of hits or a failure.
- Each hit's `content` field is `Missing`, `Null` or `Present`.
- The function stops at the assembled prompt. A `Reply` is either
  `Reasoning(answer)`, the canned text returned without the language model,
  or `Prompt(prompt)`, the text that would be sent to the completion service.

Source behaviour worth noting:

- The trigger words are `inferiu`, `inferidas` and `reasoning`. They are
  checked on the lower-cased question.
- With zero hits, `buscar_pdf` returns the empty string. The agent then puts
  "Nenhum trecho relevante encontrado." in the PDF section. A failed search
  gives "Não foi possível buscar no Azure Search.", and the agent keeps that
  text.
- `if not conceito` treats an empty concept string like no match. The model
  keeps this (`Agent.Matched`).
- A label matching the question does not make its concept the answer if an
  earlier label also matches. The guaranteed case is in
  `LabelOfSoleCandidateResolves`.

## Model

| member | source | states |
|---|---|---|
| Text.Lower | agente.py:41 | `lower()` keeps the length and lowers each ASCII letter of the text, leaving every other character as is |
| Text.LowerIdempotent | agente.py:41-45 | lowering an already lowered text changes nothing |
| Text.ContainsIff | agente.py:48 | the substring test `label in frase_lower` holds exactly when the label occurs at some position of the sentence (the empty label occurs everywhere) |
| Text.SplitJoin | agente.py:91 | splitting a newline-join on the newline gives back the joined parts, when no part contains a newline |
| Text.ConcatLayout | agente.py:177-196 | in a text laid out piece by piece, each piece sits at its offset, each piece starts right where the one before it ends, and the pieces follow one another without overlap |
| KnowledgeGraph.Objects | agente.py:108-115 | the one-pattern query `<s> <p> ?o` yields, in graph order, exactly the objects of the triples `(s, p, o)` in the graph |
| ConceptMatcher.ConceptOf | agente.py:40-51 | the result is nothing exactly when no `prefLabel` label, lowered, occurs in the lowered question; otherwise it is the subject of the first matching triple in iteration order |
| ConceptMatcher.FindConcept | agente.py:40-51 | the loop with early return gives the subject of the first matching `prefLabel` triple, or None when there is none, and agrees with `ConceptOf` |
| ConceptMatcher.FirstMatchWins | agente.py:44-49 | the first matching triple decides the result, whatever triples follow it |
| ConceptMatcher.LabelOfSoleCandidateResolves | agente.py:44-49 | if a label of concept C occurs in the question and every matching label belongs to C, the question resolves to C |
| ConceptMatcher.MatchIgnoresCase | agente.py:41-45 | a question and its lower-cased form resolve to the same concept |
| ConceptMatcher.PrefLabels | agente.py:44 | the store's pattern `(None, prefLabel, None)` keeps exactly the `prefLabel` triples |
| ConceptMatcher.OnlyPrefLabelsMatter | agente.py:44-51 | triples with any predicate other than `skos:prefLabel` never affect the result |
| ConceptMatcher.ConceptOfAppend | agente.py:44-49 | triples yielded earlier win: later triples are consulted only when no earlier label matches |
| RelationResolver.Edges | agente.py:61-65 | one UNION branch yields, in graph order, a pair tagged with its kind for exactly the triples `(uri, skos:<kind>, concept)` of the graph |
| RelationResolver.RelationsOf | agente.py:58-67 | a pair is among the query's rows exactly when its `tipo` is broader, narrower or related and the graph holds `(uri, skos:<tipo>, concept)` |
| RelationResolver.RelationsGrouped | agente.py:60-66 | the rows come grouped by UNION branch: all broader rows, then all narrower rows, then all related rows |
| RelationResolver.EdgesDistinct | agente.py:61-65 | in a graph without repeated triples, one branch yields no repeated pair |
| RelationResolver.RelationsOfDistinct | agente.py:69-73 | in a graph without repeated triples, the query yields no repeated pair |
| RelationResolver.RelatedConcepts | agente.py:57-74 | the loops append exactly the query's rows, branch by branch: every returned pair has a valid `tipo` and matches a graph triple, and every such triple is returned |
| RelationResolver.SalesOf | agente.py:80-81 | the sales placeholder infers no sales for any concept |
| ContextRetriever.Kept | agente.py:91 | `docs[:3]` keeps the first min(3, n) hits unchanged |
| ContextRetriever.TailIgnored | agente.py:90-91 | hits after the third never influence the retrieved context |
| ContextRetriever.KeptSnippetsRecovered | agente.py:87-93 | with no null content among the first three hits, the context splits back into exactly the first min(3, n) snippets, a missing content reading as "" |
| ContextRetriever.NoHitsGiveEmpty | agente.py:90-91 | no hits give the empty context |
| Agent.InferredChildren | agente.py:107-115 | the reasoning loop collects exactly the narrower children of `Categoria_Produtos`, in graph order |
| Agent.ReasoningListsChildren | agente.py:117-127 | the canned answer is its fixed header, then one "- `uri`" line per child in order, then its fixed footer |
| Agent.InferredAreNarrowerRelations | agente.py:108-115 | the reasoning query's children are exactly the concepts of the resolver's `narrower` branch for `Categoria_Produtos`, in the same order |
| Agent.InferredDistinct | agente.py:108-115 | in a graph without repeated triples, the reasoning branch lists no child twice |
| Agent.AgenteRagSemantico | agente.py:99-196 | the reply is the canned answer exactly when the lowered question contains a trigger word; otherwise it is the prompt rendered from the concept, relation, sales and PDF sections |
| Agent.ReasoningBypassesMatcher | agente.py:106-127 | with a trigger word, the reply is the canned answer listing the narrower children of `Categoria_Produtos`; labels and search results play no part |
| Agent.ConceptSectionIff | agente.py:132-139 | the concept section says no concept was found exactly when the matcher found none; otherwise it names the matched URI |
| Agent.NoConceptMarksIff | agente.py:134-137 | the relations and sales sections are "—" exactly when no concept was matched |
| Agent.RelationsSectionLines | agente.py:144-150 | the relations section is "Nenhum conceito relacionado encontrado." exactly when there are no rows; otherwise it is one "- `tipo` → `concept`" line per row, in order |
| Agent.MatchedSections | agente.py:138-160 | for a matched concept, the relations section comes from the resolver's rows for it, and the sales section is "Nenhuma venda inferida." |
| Agent.PdfSectionChoice | agente.py:167-170 | an empty PDF context is replaced by "Nenhum trecho relevante encontrado."; any other context is kept; the section is never empty |
| Agent.PromptLayout | agente.py:177-196 | the prompt holds the question, then the concept, relations, sales and PDF sections, each starting right where its own header ends, in that fixed order |

## Left out

- `api.py`, the FastAPI endpoint that forwards the question and wraps the answer in JSON, is HTTP plumbing and is not part of this model.
- The Azure OpenAI client and the `chat.completions.create` call (agente.py:14-18, 201-207) are a network call to a foreign SDK. The model stops at the prompt that call would receive.
- The Azure Cognitive Search client and `search_client.search` (agente.py:21-25, 89) are network I/O. Their answer is the input `SearchOutcome`. A non-string `content` other than null is not distinguished from null; both make the join raise.
- Loading `.env` and the environment variables (agente.py:11, 15-24, 202) is configuration.
- Turtle parsing of `data/knowledge_graph.ttl` (agente.py:30-31) is file I/O. The graph is an input sequence of triples.
- RDF term kinds (URI, literal with language tag or datatype, blank node) are reduced to their string forms.
- RelationResolver.RelationsOf: when the matched concept is a blank node, the source splices its id into the query as `<id>`, which rdflib reads as an IRI that never equals the blank node, so the query returns no rows and the section reads "Nenhum conceito relacionado encontrado." (agente.py:49, 61, 150). The model compares string forms only, so it reports that blank node's edges instead.
- rdflib's graph is a set, but the model's sequence may repeat triples. For a graph without repeats, `RelationsOfDistinct` shows the relations query repeats no row and `InferredDistinct` shows the reasoning branch repeats no child.
- rdflib's SPARQL engine (agente.py:69, 114) is not modelled as such. Each triple pattern is read as a filter over the triples in graph order. The relations query's UNION is read as its three branches evaluated one after the other. The model uses one iteration order of the store for every pattern.
- The error branch of the relations query (agente.py:151-152) is not modelled. It can be reached only when the concept's URI text breaks the spliced SPARQL query. rdflib may then fail, with a message from its parser, or run a different query. The model's query always succeeds.
- The error branches for sales and PDF (agente.py:161-162, 171-172) cannot be reached: `vendas_semanticas` always returns `[]`, and `buscar_pdf` catches every exception itself. The model therefore has no such branches.
- Text.Lower: lowers ASCII letters only, whereas Python's `str.lower` also lowers other Unicode letters (É, Ç, …).
- Agent.RelationsSectionLines: states the one-line-per-row layout only for rows whose text has no newline, since with newlines inside a concept the lines cannot be told apart.
- Agent.ReasoningListsChildren: states the one-line-per-child layout only for a non-empty list of children free of newlines, for the same reason.
- ContextRetriever.KeptSnippetsRecovered: states the split-back property only for snippets free of newlines. `TailIgnored` covers the truncation for any snippets.
