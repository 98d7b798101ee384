/** Facts about sequences that the proofs of several modules share. */
module Seqs {

  /** Concatenation regroups freely; stated once so that proofs need not rediscover it element by element. */
  lemma AppendAssoc<T>(a: seq<T>, b: seq<T>, c: seq<T>)
    ensures a + (b + c) == (a + b) + c
  {
  }
}
