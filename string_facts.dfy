/** Proof helpers about strings, used by the writer's and the properties' proofs. */
module StringFacts {

  /** Regrouping a concatenation (Dafny otherwise proves it element by element). */
  lemma Assoc(a: string, b: string, c: string)
    ensures a + b + c == a + (b + c)
  {
  }
}
