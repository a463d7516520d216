/**
  Shared vocabulary: optional values, the Python exceptions that the parser
  can raise, and Python's prefix slice `s[:k]`, which also accepts a
  negative `k`.
 */
module Prelude {

  datatype Option<+T> = None | Some(value: T)

  /** The exceptions that escape from the modelled operations. */
  datatype PyError =
    | StopIteration   // `next(reader)` on a file without a header record
    | ValueError      // `range` with step 0, `np.dot` on vectors of different length
    | IndexError      // `self.chunks[i]` for an index past the end

  /** A computation that either returns a value or raises. */
  datatype Outcome<+T> = Ok(value: T) | Raised(error: PyError)

  /** The length of the Python slice `s[:k]` when `|s| == n`. */
  function PrefixLen(k: int, n: nat): (m: nat)
    ensures m <= n
    ensures 0 <= k ==> m == (if k <= n then k else n)
    ensures k < 0 ==> m == (if -k <= n then n + k else 0)
  {
    if 0 <= k then (if k <= n then k else n)
    else if -k <= n then n + k
    else 0
  }

  /** Python's `s[:k]`. */
  function Prefix<T>(s: seq<T>, k: int): (r: seq<T>)
    ensures |r| == PrefixLen(k, |s|)
    ensures r <= s
  {
    s[..PrefixLen(k, |s|)]
  }

  function Min(a: int, b: int): int
  {
    if a <= b then a else b
  }
}
