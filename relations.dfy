/**
 * The relation resolver, `conceitos_relacionados`: the `skos:broader`,
 * `skos:narrower` and `skos:related` edges leaving one concept, each reported
 * as a (tipo, concept) pair. The query is a UNION of three branches, one per
 * kind, evaluated one after the other; each branch yields its edges in the
 * store's order. `vendas_semanticas`, the sales placeholder consulted beside
 * it, lives here too.
 */
module RelationResolver {
  import opened KnowledgeGraph

  /** One result row: `{"tipo": ..., "concept": ...}`. */
  datatype Relation = Relation(tipo: string, concept: string)

  /** The UNION's branches, in query order, by the `tipo` each one binds. */
  const Kinds: seq<string> := ["broader", "narrower", "related"]

  /**
   * The rows of the branch for `kind`: one pair per triple
   * `(uri, skos:<kind>, concept)`, in graph order.
   */
  function Edges(g: Graph, uri: string, kind: string): (r: seq<Relation>)
    ensures |r| <= |g|
    ensures forall k :: 0 <= k < |r| ==> r[k].tipo == kind
    ensures forall c :: Relation(kind, c) in r <==> Triple(uri, Skos + kind, c) in g
  {
    if g == [] then []
    else
      var last := g[|g| - 1];
      assert g == g[..|g| - 1] + [last];
      Edges(g[..|g| - 1], uri, kind) +
      (if last.subj == uri && last.pred == Skos + kind then [Relation(kind, last.obj)] else [])
  }

  /** The rows of the first `n` branches, branch after branch. */
  function FirstBranches(g: Graph, uri: string, n: nat): seq<Relation>
    requires n <= |Kinds|
  {
    if n == 0 then [] else FirstBranches(g, uri, n - 1) + Edges(g, uri, Kinds[n - 1])
  }

  /**
   * The rows of the whole query for `uri`: its three branches' rows, one
   * branch after the other. A pair is among them exactly when its `tipo` is
   * one of the three kinds and the graph holds `(uri, skos:<tipo>, concept)`.
   */
  function RelationsOf(g: Graph, uri: string): (r: seq<Relation>)
    ensures forall rel :: rel in r <==> rel.tipo in Kinds && Triple(uri, Skos + rel.tipo, rel.concept) in g
  {
    var b, n, l := Edges(g, uri, "broader"), Edges(g, uri, "narrower"), Edges(g, uri, "related");
    assert forall rel :: rel in b ==> rel == Relation("broader", rel.concept);
    assert forall rel :: rel in n ==> rel == Relation("narrower", rel.concept);
    assert forall rel :: rel in l ==> rel == Relation("related", rel.concept);
    b + n + l
  }

  /** Where a kind's branch stands in the query. */
  function KindRank(tipo: string): int
  {
    if tipo == "broader" then 0 else if tipo == "narrower" then 1 else 2
  }

  /** The rows come grouped by kind: every broader row, then every narrower one, then every related one. */
  lemma RelationsGrouped(g: Graph, uri: string)
    ensures var r := RelationsOf(g, uri);
            forall i, j :: 0 <= i < j < |r| ==> KindRank(r[i].tipo) <= KindRank(r[j].tipo)
  {
  }

  /** A graph without repeated triples yields no repeated row within a branch. */
  lemma {:induction false} EdgesDistinct(g: Graph, uri: string, kind: string)
    requires NoRepeats(g)
    ensures NoRepeats(Edges(g, uri, kind))
  {
    if g != [] {
      var init := g[..|g| - 1];
      var last := g[|g| - 1];
      EdgesDistinct(init, uri, kind);
      var pre := Edges(init, uri, kind);
      if last.subj == uri && last.pred == Skos + kind {
        var r := pre + [Relation(kind, last.obj)];
        assert Edges(g, uri, kind) == r;
        assert last !in init;
        assert Relation(kind, last.obj) !in pre;
        forall i, j | 0 <= i < j < |r|
          ensures r[i] != r[j]
        {
          assert r[i] == pre[i];
          if j < |pre| {
            assert r[j] == pre[j];
          } else {
            assert r[i] in pre && r[j] == Relation(kind, last.obj);
          }
        }
      } else {
        assert Edges(g, uri, kind) == pre;
      }
    }
  }

  /** A graph without repeated triples (an RDF graph is a set) yields no repeated row. */
  lemma RelationsOfDistinct(g: Graph, uri: string)
    requires NoRepeats(g)
    ensures NoRepeats(RelationsOf(g, uri))
  {
    EdgesDistinct(g, uri, "broader");
    EdgesDistinct(g, uri, "narrower");
    EdgesDistinct(g, uri, "related");
    var b, n, l := Edges(g, uri, "broader"), Edges(g, uri, "narrower"), Edges(g, uri, "related");
    var r := RelationsOf(g, uri);
    forall i, j | 0 <= i < j < |r|
      ensures r[i] != r[j]
    {
      if i < |b| && j < |b| {
        assert r[i] == b[i] && r[j] == b[j];
      } else if |b| <= i < |b| + |n| && |b| <= j < |b| + |n| {
        assert r[i] == n[i - |b|] && r[j] == n[j - |b|];
      } else if |b| + |n| <= i && |b| + |n| <= j {
        assert r[i] == l[i - |b| - |n|] && r[j] == l[j - |b| - |n|];
      } else {
        assert r[i].tipo != r[j].tipo;
      }
    }
  }

  /**
   * `conceitos_relacionados` over the query's evaluation: for each branch in
   * turn, walks the triples and appends one (tipo, concept) pair per edge.
   */
  method RelatedConcepts(g: Graph, uri: string) returns (results: seq<Relation>)
    ensures results == RelationsOf(g, uri)
    ensures forall rel :: rel in results <==> rel.tipo in Kinds && Triple(uri, Skos + rel.tipo, rel.concept) in g
  {
    results := [];
    for n := 0 to |Kinds|
      invariant results == FirstBranches(g, uri, n)
    {
      var kind := Kinds[n];
      ghost var before := results;
      var i := 0;
      while i < |g|
        invariant 0 <= i <= |g|
        invariant results == before + Edges(g[..i], uri, kind)
      {
        var t := g[i];
        if t.subj == uri && t.pred == Skos + kind {
          results := results + [Relation(kind, t.obj)];
        }
        assert g[..i + 1][..i] == g[..i];
        i := i + 1;
      }
      assert g[..|g|] == g;
    }
    assert FirstBranches(g, uri, 1) == Edges(g, uri, "broader");
  }

  /** `vendas_semanticas`: the sales inference is a placeholder that infers nothing. */
  function SalesOf(uri: string): (vendas: seq<string>)
    ensures |vendas| == 0
  {
    []
  }
}
