/** Two facts about lists that the order-keeping proofs call on explicitly. */
module Lists {
  /** An element is in a non-empty list exactly when it is in all but the last entry, or is the last. */
  lemma InSnoc<T>(s: seq<T>, q: T)
    requires s != []
    ensures q in s <==> q in s[..|s| - 1] || q == s[|s| - 1]
  {
    assert s == s[..|s| - 1] + [s[|s| - 1]];
  }

  /** Concatenation is associative. */
  lemma AppendAssoc<T>(x: seq<T>, y: seq<T>, z: seq<T>)
    ensures (x + y) + z == x + (y + z)
  {
  }
}
