/**
 * The concept store: the SKOS graph loaded once at start-up and only read
 * afterwards. The model receives it as the sequence of its triples in the
 * order the store yields them; every RDF term is represented by its string
 * form (`str(term)`), which is what the agent works with.
 */
module KnowledgeGraph {

  datatype Triple = Triple(subj: string, pred: string, obj: string)

  type Graph = seq<Triple>

  const Skos := "http://www.w3.org/2004/02/skos/core#"
  const PrefLabel := Skos + "prefLabel"
  const Broader := Skos + "broader"
  const Narrower := Skos + "narrower"
  const Related := Skos + "related"

  /** No element occurs twice: an RDF graph is a set of triples. */
  predicate NoRepeats<T(==)>(s: seq<T>)
  {
    forall i, j :: 0 <= i < j < |s| ==> s[i] != s[j]
  }

  /**
   * The objects of the triples `(s, p, ?o)`, in graph order: the answer to the
   * one-pattern SPARQL query `SELECT ?o WHERE { <s> <p> ?o }`.
   */
  function Objects(g: Graph, s: string, p: string): (r: seq<string>)
    ensures |r| <= |g|
    ensures forall o :: o in r <==> Triple(s, p, o) in g
  {
    if g == [] then []
    else
      var last := g[|g| - 1];
      assert g == g[..|g| - 1] + [last];
      Objects(g[..|g| - 1], s, p) + (if last.subj == s && last.pred == p then [last.obj] else [])
  }
}
