/** Sequence vocabulary used to state the loader's ordering properties. */
module Seqs {

  /** `a` is `b` with some elements deleted: every element of `a` occurs in `b`, in the same order. */
  predicate IsSubsequence<T(==)>(a: seq<T>, b: seq<T>)
    decreases |b|
  {
    a == [] || (b != [] && ((a[0] == b[0] && IsSubsequence(a[1..], b[1..])) || IsSubsequence(a, b[1..])))
  }

  /** How many times `x` occurs in `s`. */
  function Count<T(==)>(s: seq<T>, x: T): nat {
    if s == [] then 0 else (if s[0] == x then 1 else 0) + Count(s[1..], x)
  }

  /** `s` concatenated with itself `n` times. */
  function RepeatSeq<T>(s: seq<T>, n: nat): seq<T> {
    if n == 0 then [] else s + RepeatSeq(s, n - 1)
  }
}
