/** Small facts about sequences and their multisets, kept apart so that the
    proofs using them need no sequence extensionality of their own. */
module SeqFacts {

  /** A non-empty sequence is its head followed by its tail. */
  lemma HeadMultiset<T>(s: seq<T>)
    requires s != []
    ensures multiset(s) == multiset{s[0]} + multiset(s[1..])
  {
    assert s == [s[0]] + s[1..];
  }

  /** A non-empty sequence is its front followed by its last element. */
  lemma LastMultiset<T>(s: seq<T>)
    requires s != []
    ensures multiset(s) == multiset(s[..|s| - 1]) + multiset{s[|s| - 1]}
  {
    assert s == s[..|s| - 1] + [s[|s| - 1]];
  }
}
