/**
 * The concept matcher, `encontrar_conceito_na_frase`: a first-match-wins scan
 * over the graph's `skos:prefLabel` triples for a label that, lower-cased,
 * occurs in the lower-cased question.
 */
module ConceptMatcher {
  import opened Wrappers
  import opened Text
  import opened KnowledgeGraph

  /** Triple `t` selects its subject for the lower-cased sentence. */
  predicate LabelMatches(t: Triple, sentenceLower: string)
  {
    t.pred == PrefLabel && Contains(sentenceLower, Lower(t.obj))
  }

  /** Position `k` holds the first triple of `g` that matches. */
  predicate IsFirstMatch(g: Graph, sentenceLower: string, k: int)
  {
    0 <= k < |g| && LabelMatches(g[k], sentenceLower) &&
    forall j :: 0 <= j < k ==> !LabelMatches(g[j], sentenceLower)
  }

  /**
   * The concept the question names: the subject of the first matching
   * `prefLabel` triple in iteration order, or nothing when no label occurs.
   */
  function ConceptOf(g: Graph, frase: string): (r: Option<string>)
    ensures r.None? <==> forall k :: 0 <= k < |g| ==> !LabelMatches(g[k], Lower(frase))
    ensures r.Some? ==> exists k :: IsFirstMatch(g, Lower(frase), k) && r.value == g[k].subj
  {
    if g == [] then None
    else if LabelMatches(g[0], Lower(frase)) then
      assert IsFirstMatch(g, Lower(frase), 0);
      Some(g[0].subj)
    else
      var r := ConceptOf(g[1..], frase);
      assert forall k :: 1 <= k < |g| ==> g[k] == g[1..][k - 1];
      assert r.Some? ==> exists k :: IsFirstMatch(g[1..], Lower(frase), k) && r.value == g[1..][k].subj;
      assert forall k :: IsFirstMatch(g[1..], Lower(frase), k) ==> IsFirstMatch(g, Lower(frase), k + 1);
      r
  }

  /**
   * `encontrar_conceito_na_frase`: scans the triples in order and returns at
   * the first `prefLabel` whose lowered label occurs in the lowered sentence.
   */
  method FindConcept(g: Graph, frase: string) returns (r: Option<string>)
    ensures r.None? <==> forall k :: 0 <= k < |g| ==> !LabelMatches(g[k], Lower(frase))
    ensures r.Some? ==> exists k :: IsFirstMatch(g, Lower(frase), k) && r.value == g[k].subj
    ensures r == ConceptOf(g, frase)
  {
    var fraseLower := Lower(frase);
    var i := 0;
    while i < |g|
      invariant 0 <= i <= |g|
      invariant forall j :: 0 <= j < i ==> !LabelMatches(g[j], fraseLower)
    {
      var t := g[i];
      if t.pred == PrefLabel {
        var labelLower := Lower(t.obj);
        if Contains(fraseLower, labelLower) {
          assert IsFirstMatch(g, fraseLower, i);
          FirstMatchWins(g, frase, i);
          return Some(t.subj);
        }
      }
      i := i + 1;
    }
    return None;
  }

  /** The first matching triple decides the result, whatever follows it. */
  lemma FirstMatchWins(g: Graph, frase: string, k: int)
    requires IsFirstMatch(g, Lower(frase), k)
    ensures ConceptOf(g, frase) == Some(g[k].subj)
  {
  }

  /**
   * When a label of concept `c` occurs in the question and every matching
   * label belongs to `c`, the question resolves to `c`.
   */
  lemma LabelOfSoleCandidateResolves(g: Graph, frase: string, k: int, c: string)
    requires 0 <= k < |g| && LabelMatches(g[k], Lower(frase)) && g[k].subj == c
    requires forall j :: 0 <= j < |g| && LabelMatches(g[j], Lower(frase)) ==> g[j].subj == c
    ensures ConceptOf(g, frase) == Some(c)
  {
  }

  /** Matching ignores case: a question and its lower-cased form name the same concept. */
  lemma {:induction false} MatchIgnoresCase(g: Graph, frase: string)
    ensures ConceptOf(g, frase) == ConceptOf(g, Lower(frase))
  {
    LowerIdempotent(frase);
    if g != [] {
      MatchIgnoresCase(g[1..], frase);
    }
  }

  /** The `prefLabel` triples of `g`, in order. */
  function PrefLabels(g: Graph): (r: Graph)
    ensures forall t :: t in r <==> t in g && t.pred == PrefLabel
  {
    if g == [] then []
    else
      assert forall t :: t in g <==> t == g[0] || t in g[1..];
      (if g[0].pred == PrefLabel then [g[0]] else []) + PrefLabels(g[1..])
  }

  /** Triples with any predicate other than `skos:prefLabel` never affect the result. */
  lemma {:induction false} OnlyPrefLabelsMatter(g: Graph, frase: string)
    ensures ConceptOf(g, frase) == ConceptOf(PrefLabels(g), frase)
  {
    if g != [] {
      OnlyPrefLabelsMatter(g[1..], frase);
      var rest := PrefLabels(g[1..]);
      if g[0].pred == PrefLabel {
        var p := [g[0]] + rest;
        assert PrefLabels(g) == p;
        assert p[0] == g[0] && p[1..] == rest;
      } else {
        assert PrefLabels(g) == rest;
        assert !LabelMatches(g[0], Lower(frase));
      }
    }
  }

  /**
   * Iteration order decides: the triples of `g1`, yielded first, win over
   * those of `g2`, which are consulted only when nothing in `g1` matches.
   */
  lemma {:induction false} ConceptOfAppend(g1: Graph, g2: Graph, frase: string)
    ensures ConceptOf(g1 + g2, frase) == if ConceptOf(g1, frase).Some? then ConceptOf(g1, frase) else ConceptOf(g2, frase)
  {
    if g1 == [] {
      assert g1 + g2 == g2;
    } else {
      assert (g1 + g2)[0] == g1[0] && (g1 + g2)[1..] == g1[1..] + g2;
      ConceptOfAppend(g1[1..], g2, frase);
    }
  }
}
