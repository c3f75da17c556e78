/** Small facts about sequences, stated once so that long concatenations and slices
    can be rewritten one step at a time. */
module Seqs {

  lemma Associative<T>(a: seq<T>, b: seq<T>, c: seq<T>)
    ensures (a + b) + c == a + (b + c)
  {
  }

  /** Taking one more element of `s` appends it. */
  lemma SliceStep<T>(s: seq<T>, p: nat)
    requires p < |s|
    ensures s[..p] + [s[p]] == s[..p + 1]
  {
  }

  /** Dropping the last element of `a + b`, for a non-empty `b`, drops it from `b`. */
  lemma DropLast<T>(a: seq<T>, b: seq<T>)
    requires b != []
    ensures (a + b)[..|a + b| - 1] == a + b[..|b| - 1]
    ensures (a + b)[|a + b| - 1] == b[|b| - 1]
  {
  }
}
