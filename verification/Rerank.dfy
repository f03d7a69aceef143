/**
  Reranking: score every document against the query, sort by descending score, number the ranks,
  and cut off at `top_k`.
*/
module Rerank {
  import opened CosineSimilarity
  import opened StableSorting

  datatype Scored = Scored(docId: string, score: real, rank: int)
  datatype Outcome = Ranked(results: seq<Scored>) | CountMismatch

  /** Descending score. */
  predicate Before(a: Scored, b: Scored) { a.score >= b.score }

  function Scores(query: Vector, ids: seq<string>, docs: seq<Vector>, sqrt: real -> real): (r: seq<Scored>)
    requires |ids| == |docs|
    ensures |r| == |ids|
    ensures forall i {:trigger r[i]} | 0 <= i < |ids| :: r[i] == Scored(ids[i], Cosine(query, docs[i], sqrt), 0)
  {
    seq(|ids|, i requires 0 <= i < |ids| => Scored(ids[i], Cosine(query, docs[i], sqrt), 0))
  }

  function Numbered(s: seq<Scored>): (r: seq<Scored>)
    ensures |r| == |s| && forall i {:trigger r[i]} | 0 <= i < |s| :: r[i] == s[i].(rank := i + 1)
  {
    seq(|s|, i requires 0 <= i < |s| => s[i].(rank := i + 1))
  }

  /** How many results come back: `top_k` of them, or all if it is not positive. */
  function Limit(n: nat, topK: int): nat { if topK > 0 && topK < n then topK else n }

  function Results(query: Vector, ids: seq<string>, docs: seq<Vector>, topK: int, sqrt: real -> real): seq<Scored>
    requires |ids| == |docs|
  {
    var sorted := StableSort(Scores(query, ids, docs, sqrt), Before);
    SortKeepsElements(Scores(query, ids, docs, sqrt), Before);
    Numbered(sorted)[..Limit(|ids|, topK)]
  }

  /** `vectors` are the embeddings of the query and of the documents, in that order. */
  method RerankDocuments(ids: seq<string>, vectors: seq<Vector>, topK: int, sqrt: real -> real)
    returns (outcome: Outcome)
    ensures outcome.Ranked? <==> |vectors| == |ids| + 1
    ensures outcome.Ranked? ==> outcome.results == Results(vectors[0], ids, vectors[1..], topK, sqrt)
  {
    if |vectors| != |ids| + 1 { return CountMismatch; }
    var scored := Scores(vectors[0], ids, vectors[1..], sqrt);
    var results := StableSort(scored, Before);
    SortKeepsElements(scored, Before);
    ghost var sorted := results;
    for i := 0 to |results|
      invariant |results| == |sorted|
      invariant forall k | 0 <= k < i :: results[k] == sorted[k].(rank := k + 1)
      invariant forall k | i <= k < |results| :: results[k] == sorted[k]
    {
      results := results[i := results[i].(rank := i + 1)];
    }
    assert results == Numbered(sorted);
    if topK > 0 && topK < |results| { results := results[..topK]; }
    outcome := Ranked(results);
  }

  lemma {:induction false} BeforeIsTotal()
    ensures IsTotalPreorder(Before)
  {}

  /**
    The results are the first of all documents in descending order of score, documents of equal
    score in their original order; ranks count from one; every score lies between -1 and 1; and no
    document left out scores higher than one that came back.
  */
  lemma {:induction false} ResultsAreTheBest(query: Vector, ids: seq<string>, docs: seq<Vector>, topK: int, sqrt: real -> real)
    returns (sorted: seq<Scored>)
    requires |ids| == |docs| && IsRoot(sqrt)
    ensures IsStableSort(Scores(query, ids, docs, sqrt), sorted, Before) && |sorted| == |ids|
    ensures var r := Results(query, ids, docs, topK, sqrt);
      && |r| == Limit(|ids|, topK)
      && (forall i | 0 <= i < |r| :: r[i].rank == i + 1 && r[i].(rank := 0) == sorted[i] && -1.0 <= r[i].score <= 1.0)
      && (forall i, j | 0 <= i < |r| <= j < |sorted| :: r[i].score >= sorted[j].score)
  {
    var scored := Scores(query, ids, docs, sqrt);
    sorted := StableSort(scored, Before);
    BeforeIsTotal();
    SortIsStable(scored, Before);
    SortKeepsElements(scored, Before);
    forall i | 0 <= i < |sorted| ensures sorted[i].rank == 0 && -1.0 <= sorted[i].score <= 1.0 {
      SameElements(sorted, scored, sorted[i]);
      var k :| 0 <= k < |scored| && scored[k] == sorted[i];
      CosineInRange(query, docs[k], sqrt);
    }
    var r := Results(query, ids, docs, topK, sqrt);
    forall i, j | 0 <= i < |r| <= j < |sorted| ensures r[i].score >= sorted[j].score {
      assert Before(sorted[i], sorted[j]);
    }
  }

  /** Nothing else of the sorting routine matters: any other stable sort gives the same results. */
  lemma {:induction false} ResultsAreDetermined(query: Vector, ids: seq<string>, docs: seq<Vector>, topK: int, sqrt: real -> real,
                             sorted: seq<Scored>)
    requires |ids| == |docs| && IsStableSort(Scores(query, ids, docs, sqrt), sorted, Before)
    ensures |sorted| == |ids|
    ensures Results(query, ids, docs, topK, sqrt) == Numbered(sorted)[..Limit(|ids|, topK)]
  {
    var scored := Scores(query, ids, docs, sqrt);
    BeforeIsTotal();
    SortIsStable(scored, Before);
    SortKeepsElements(scored, Before);
    StableSortIsUnique(sorted, StableSort(scored, Before), Before);
  }

  /** A smaller `top_k` returns a prefix of what a larger one returns. */
  lemma {:induction false} FewerAreAPrefix(query: Vector, ids: seq<string>, docs: seq<Vector>, few: int, many: int, sqrt: real -> real)
    requires |ids| == |docs| && 0 < few <= many
    ensures Results(query, ids, docs, few, sqrt) <= Results(query, ids, docs, many, sqrt)
  {
    SortKeepsElements(Scores(query, ids, docs, sqrt), Before);
  }
}
