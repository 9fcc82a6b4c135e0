/** Facts about sequence prefixes that the list-building loops use. */
module Sequences {

  /** A prefix grows by the next element. */
  lemma TakeOneMore<T>(s: seq<T>, j: nat)
    requires j < |s|
    ensures s[..j + 1] == s[..j] + [s[j]]
  {
  }
}
