/** Facts about sequences that several back ends call on. */
module Sequences {

  /**
   * Concatenation is associative. Calling this at one append keeps the
   * extensional proof out of the caller's larger context.
   */
  lemma AppendAssoc<T>(a: seq<T>, b: seq<T>, c: seq<T>)
    ensures (a + b) + c == a + (b + c)
  {
  }
}
