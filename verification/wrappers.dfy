/** Optional values and results with an error, used wherever the extractor
    returns None or raises. */
module Wrappers {
  datatype Option<+T> = None | Some(value: T)

  datatype Result<+T, +E> = Ok(value: T) | Err(error: E)

  // Small helpers on numbers and sequences shared by the other modules.

  function Min(a: nat, b: nat): nat {
    if a < b then a else b
  }

  /** `n` copies of `x`. */
  function Repeat<T>(x: T, n: nat): (s: seq<T>)
    ensures |s| == n
    ensures forall i :: 0 <= i < n ==> s[i] == x
  {
    seq(n, _ => x)
  }

  /** Concatenation regroups; stated once so that long proofs can name the
      step. */
  lemma AppendAssoc<T>(a: seq<T>, b: seq<T>, c: seq<T>)
    ensures a + (b + c) == (a + b) + c
  {
  }

  /** A sequence is its prefix up to `k` followed by the rest. */
  lemma SplitAt<T>(s: seq<T>, k: nat)
    requires k <= |s|
    ensures s[..k] + s[k..] == s
  {
  }

  /** Five pieces regrouped around a middle three. */
  lemma Regroup<T>(p: seq<T>, a: seq<T>, g: seq<T>, b: seq<T>, q: seq<T>)
    ensures (p + a) + (g + (b + q)) == p + ((a + (g + b)) + q)
  {
  }
}
