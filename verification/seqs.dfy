/** Small facts about sequences that the proofs elsewhere cite by name,
    rather than leaving the solver to rediscover them in a large context. */
module Seqs {

  /** Concatenation regroups. */
  lemma Assoc<T>(x: seq<T>, y: seq<T>, z: seq<T>)
    ensures x + y + z == x + (y + z)
  {
  }

  /** A non-empty sequence is its head before its tail. */
  lemma HeadTail<T>(s: seq<T>)
    requires |s| > 0
    ensures [s[0]] + s[1..] == s
  {
  }
}
