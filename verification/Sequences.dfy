/** Facts about sequences of any kind that the solver does not find on its own. */
module Sequences {

  lemma Assoc<T>(a: seq<T>, b: seq<T>, c: seq<T>)
    ensures a + b + c == a + (b + c)
    ensures b == [] ==> a + (b + c) == a + c
    ensures c == [] ==> a + b + c == a + b
  {
  }
}
