/**
  `cosine_similarity` and the fallback vector of `generate_embeddings`.

  Vectors are sequences of reals. The ratio dot(a, b) / (|a| * |b|) is
  floating point over numpy and is not modelled: it is the parameter
  `ratio`. What is modelled is the order of the numpy calls and the rule
  that decides when the ratio is not used: `np.dot` raises ValueError on
  vectors of different length before any norm is looked at, and a vector of
  norm zero scores 0.
 */
module Similarity {
  import opened Prelude

  /** The length of the fallback vector `[0] * 768`. */
  const FallbackDim: nat := 768

  /** dot(a, b) / (|a| * |b|) for vectors of equal length and non-zero norm. */
  type Ratio = (seq<real>, seq<real>) -> real

  /** `[0] * n`. */
  function ZeroVector(n: nat): (v: seq<real>)
    ensures |v| == n
    ensures forall i :: 0 <= i < n ==> v[i] == 0.0
  {
    if n == 0 then [] else ZeroVector(n - 1) + [0.0]
  }

  /** What `generate_embeddings` stores for a chunk: the service's vector, or the fallback when the call failed. */
  function StoredEmbedding(reply: Option<seq<real>>): seq<real>
  {
    match reply
    case Some(v) => v
    case None => ZeroVector(FallbackDim)
  }

  /**
    `np.linalg.norm(v) == 0`. A Euclidean norm is zero exactly when every
    component is zero, which is how it is stated here.
   */
  predicate ZeroNorm(v: seq<real>)
  {
    forall i :: 0 <= i < |v| ==> v[i] == 0.0
  }

  /** `cosine_similarity(a, b)`. */
  function Cosine(a: seq<real>, b: seq<real>, ratio: Ratio): (r: Outcome<real>)
    ensures r.Raised? <==> |a| != |b|
    ensures r.Raised? ==> r.error == ValueError
    ensures |a| == |b| && (ZeroNorm(a) || ZeroNorm(b)) ==> r == Ok(0.0)
  {
    if |a| != |b| then Raised(ValueError)
    else if ZeroNorm(a) || ZeroNorm(b) then Ok(0.0)
    else Ok(ratio(a, b))
  }

  /**
    The fallback vector scores 0 against any vector of its own length, in
    either position, whatever the ratio; against a vector of another length
    it makes `np.dot` raise.
   */
  lemma FallbackScoresZero(q: seq<real>, ratio: Ratio)
    ensures |q| == FallbackDim ==> Cosine(q, ZeroVector(FallbackDim), ratio) == Ok(0.0)
    ensures |q| == FallbackDim ==> Cosine(ZeroVector(FallbackDim), q, ratio) == Ok(0.0)
    ensures |q| != FallbackDim ==> Cosine(q, ZeroVector(FallbackDim), ratio) == Raised(ValueError)
  {
  }
}
