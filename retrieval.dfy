/**
  What `find_relevant_chunks` returns, as a function of the stored chunks
  and embeddings, the embedding service's reply to the query (None when the
  call fails) and `top_k`.

  With no embeddings the result is empty. When the query cannot be embedded
  the first `top_k` chunks are returned unranked. Otherwise each stored
  embedding is scored against the query in index order, the pairs are
  sorted by score, highest first and ties by ascending index, and the
  chunks at the first `top_k` positions are returned. Two errors can
  escape: `np.dot` raises ValueError when a stored embedding and the query
  differ in length, and `self.chunks[i]` raises IndexError when an
  embedding has no chunk at its index (the chunks were rebuilt smaller
  after the embeddings were computed).
 */
module Retrieval {
  import opened Prelude
  import opened Similarity
  import opened Ranking

  /** `find_relevant_chunks`' default `top_k`. */
  const DefaultTopK: int := 3

  /** The list `similarities`: `(i, cosine_similarity(query, embs[i]))` for each i, in order. */
  function Scores(query: seq<real>, embs: seq<seq<real>>, ratio: Ratio): (r: Outcome<seq<Scored>>)
    ensures r.Ok? <==> forall k :: 0 <= k < |embs| ==> |embs[k]| == |query|
    ensures r.Raised? ==> r.error == ValueError
    ensures r.Ok? ==> |r.value| == |embs|
    ensures r.Ok? ==> forall k :: 0 <= k < |embs| ==> r.value[k] == Scored(k, Cosine(query, embs[k], ratio).value)
  {
    if embs == [] then Ok([])
    else
      var n := |embs| - 1;
      match Scores(query, embs[..n], ratio)
      case Raised(e) => Raised(e)
      case Ok(prev) =>
        match Cosine(query, embs[n], ratio)
        case Raised(e) => Raised(e)
        case Ok(s) => Ok(prev + [Scored(n, s)])
  }

  /** `[chunks[i] for i, _ in top]`. */
  function SelectChunks(chunks: seq<string>, top: seq<Scored>): (r: Outcome<seq<string>>)
    ensures r.Ok? <==> forall k :: 0 <= k < |top| ==> top[k].index < |chunks|
    ensures r.Raised? ==> r.error == IndexError
    ensures r.Ok? ==> |r.value| == |top| && forall k :: 0 <= k < |top| ==> r.value[k] == chunks[top[k].index]
  {
    if top == [] then Ok([])
    else
      var n := |top| - 1;
      match SelectChunks(chunks, top[..n])
      case Raised(e) => Raised(e)
      case Ok(prev) =>
        if top[n].index < |chunks| then Ok(prev + [chunks[top[n].index]]) else Raised(IndexError)
  }

  /** `find_relevant_chunks(query, top_k)`, `query` being the service's reply for the query text. */
  function Retrieve(chunks: seq<string>, embeddings: seq<seq<real>>, query: Option<seq<real>>,
                    topK: int, ratio: Ratio): (r: Outcome<seq<string>>)
    ensures embeddings == [] ==> r == Ok([])
    ensures embeddings != [] && query.None? ==> r == Ok(Prefix(chunks, topK))
    ensures embeddings != [] && query.Some? && (exists k :: 0 <= k < |embeddings| && |embeddings[k]| != |query.value|)
      ==> r == Raised(ValueError)
  {
    if embeddings == [] then Ok([])
    else match query
      case None => Ok(Prefix(chunks, topK))
      case Some(q) =>
        match Scores(q, embeddings, ratio)
        case Raised(e) => Raised(e)
        case Ok(sims) => SelectChunks(chunks, Prefix(SortByScore(sims), topK))
  }

  /** The pairs in the order the sort leaves them, when every embedding matches the query's length. */
  function RankOrder(q: seq<real>, embeddings: seq<seq<real>>, ratio: Ratio): seq<Scored>
    requires forall k :: 0 <= k < |embeddings| ==> |embeddings[k]| == |q|
  {
    SortByScore(Scores(q, embeddings, ratio).value)
  }

  // ---------------------------------------------------------------------
  // Properties

  /**
    The ranking holds every stored index with its score, each once, in
    non-increasing score order with ties by ascending index.
   */
  lemma RankOrderMeaning(q: seq<real>, embeddings: seq<seq<real>>, ratio: Ratio)
    requires forall k :: 0 <= k < |embeddings| ==> |embeddings[k]| == |q|
    ensures multiset(RankOrder(q, embeddings, ratio)) == multiset(Scores(q, embeddings, ratio).value)
    ensures Ranked(RankOrder(q, embeddings, ratio))
    ensures |RankOrder(q, embeddings, ratio)| == |embeddings|
    ensures forall k :: 0 <= k < |embeddings| ==>
      RankOrder(q, embeddings, ratio)[k].index < |embeddings| &&
      RankOrder(q, embeddings, ratio)[k].score == Cosine(q, embeddings[RankOrder(q, embeddings, ratio)[k].index], ratio).value
    ensures forall i :: 0 <= i < |embeddings| ==>
      Scored(i, Cosine(q, embeddings[i], ratio).value) in RankOrder(q, embeddings, ratio)
  {
    var sims := Scores(q, embeddings, ratio).value;
    var ranking := RankOrder(q, embeddings, ratio);
    SortByScoreMeaning(sims, ranking);
    assert |ranking| == |sims| by { assert |multiset(ranking)| == |multiset(sims)|; }
    forall k | 0 <= k < |embeddings|
      ensures ranking[k].index < |embeddings|
      ensures ranking[k].score == Cosine(q, embeddings[ranking[k].index], ratio).value
    {
      assert ranking[k] in multiset(sims);
      var j :| 0 <= j < |sims| && sims[j] == ranking[k];
    }
    forall i | 0 <= i < |embeddings|
      ensures Scored(i, Cosine(q, embeddings[i], ratio).value) in ranking
    {
      assert sims[i] in multiset(ranking);
    }
  }

  /**
    With a chunk for every embedding the call succeeds and returns the
    chunks at the first `top_k` positions of the ranking: min(top_k, n) of
    them for a non-negative `top_k`.
   */
  lemma RetrieveRanked(chunks: seq<string>, embeddings: seq<seq<real>>, q: seq<real>, topK: int, ratio: Ratio)
    requires embeddings != [] && |embeddings| <= |chunks|
    requires forall k :: 0 <= k < |embeddings| ==> |embeddings[k]| == |q|
    ensures Retrieve(chunks, embeddings, Some(q), topK, ratio).Ok?
    ensures |Retrieve(chunks, embeddings, Some(q), topK, ratio).value| == PrefixLen(topK, |embeddings|)
    ensures forall k :: 0 <= k < PrefixLen(topK, |embeddings|) ==>
      Retrieve(chunks, embeddings, Some(q), topK, ratio).value[k] == chunks[RankOrder(q, embeddings, ratio)[k].index]
  {
    var sims := Scores(q, embeddings, ratio).value;
    var ranking := RankOrder(q, embeddings, ratio);
    RankOrderMeaning(q, embeddings, ratio);
    var top := Prefix(ranking, topK);
    assert Scores(q, embeddings, ratio) == Ok(sims);
    assert Retrieve(chunks, embeddings, Some(q), topK, ratio) == SelectChunks(chunks, top);
    forall k | 0 <= k < |top| ensures top[k].index < |chunks| {
      assert top[k] == ranking[k];
    }
  }

  /**
    When every pair scores the same, for instance when every stored vector
    is the 768-long zero fallback, the ranking keeps index order and the
    result is the first `top_k` embedded chunks.
   */
  lemma {:induction false} EqualScoresKeepOrder(chunks: seq<string>, embeddings: seq<seq<real>>, q: seq<real>,
                                                topK: int, ratio: Ratio, c: real)
    requires embeddings != [] && |embeddings| <= |chunks|
    requires forall k :: 0 <= k < |embeddings| ==> |embeddings[k]| == |q|
    requires forall k :: 0 <= k < |embeddings| ==> Cosine(q, embeddings[k], ratio) == Ok(c)
    ensures Retrieve(chunks, embeddings, Some(q), topK, ratio) == Ok(Prefix(chunks[..|embeddings|], topK))
  {
    var sims := Scores(q, embeddings, ratio).value;
    SortEqualScores(sims, c);
    var top := Prefix(sims, topK);
    var r := Retrieve(chunks, embeddings, Some(q), topK, ratio);
    assert r == SelectChunks(chunks, top);
    assert r.value == Prefix(chunks[..|embeddings|], topK);
  }

  /** A query of 768 components against stored fallback vectors only: the first `top_k` embedded chunks. */
  lemma AllFallbackKeepsOrder(chunks: seq<string>, embeddings: seq<seq<real>>, q: seq<real>, topK: int, ratio: Ratio)
    requires embeddings != [] && |embeddings| <= |chunks| && |q| == FallbackDim
    requires forall k :: 0 <= k < |embeddings| ==> embeddings[k] == ZeroVector(FallbackDim)
    ensures Retrieve(chunks, embeddings, Some(q), topK, ratio) == Ok(Prefix(chunks[..|embeddings|], topK))
  {
    FallbackScoresZero(q, ratio);
    EqualScoresKeepOrder(chunks, embeddings, q, topK, ratio, 0.0);
  }

  /**
    Embeddings that outnumber the chunks make the result raise IndexError
    as soon as all of them are selected.
   */
  lemma StaleEmbeddingsRaise(chunks: seq<string>, embeddings: seq<seq<real>>, q: seq<real>, topK: int, ratio: Ratio)
    requires |embeddings| > |chunks| && topK >= |embeddings|
    requires forall k :: 0 <= k < |embeddings| ==> |embeddings[k]| == |q|
    ensures Retrieve(chunks, embeddings, Some(q), topK, ratio) == Raised(IndexError)
  {
    var sims := Scores(q, embeddings, ratio).value;
    var ranking := SortByScore(sims);
    assert |ranking| == |sims| by { assert |multiset(ranking)| == |multiset(sims)|; }
    assert Prefix(ranking, topK) == ranking;
    var last := |chunks|;
    assert sims[last] in multiset(ranking);
    var k :| 0 <= k < |ranking| && ranking[k] == sims[last];
    assert ranking[k].index >= |chunks|;
  }
}
