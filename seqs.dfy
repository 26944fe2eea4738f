/** Facts about sequences that the loop proofs use. */
module Seqs {

  /**
   * Appending is associative. The solver finds this slowly inside larger
   * proofs, so they call this lemma at the step that needs it.
   */
  lemma AppendAssociative<T>(a: seq<T>, b: seq<T>, c: seq<T>)
    ensures (a + b) + c == a + (b + c)
  {
  }
}
