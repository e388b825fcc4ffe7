/** Facts about concatenation and slicing that the proofs elsewhere call on
    directly, so that the solver need not rediscover them in a crowded context. */
module Seqs {

  /** Concatenation regroups freely. */
  lemma AppendAssoc<T>(a: seq<T>, b: seq<T>, c: seq<T>)
    ensures a + b + c == a + (b + c)
  {
  }

  /** A sequence is the part before position i, the element there, and the rest. */
  lemma SplitAt<T>(xs: seq<T>, i: nat)
    requires i < |xs|
    ensures xs == xs[..i] + [xs[i]] + xs[i + 1..]
  {
  }

  /** The two halves of a concatenation come back out by slicing. */
  lemma AppendSlices<T>(p: seq<T>, s: seq<T>)
    ensures (p + s)[..|p|] == p && (p + s)[|p|..] == s
  {
  }

}
