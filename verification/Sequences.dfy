/** Equalities between sequences that the verifier has to be pointed to. */
module Sequences {
  lemma Assoc<T>(a: seq<T>, b: seq<T>, c: seq<T>)
    ensures a + b + c == a + (b + c)
  {
  }

  lemma Empty<T>(a: seq<T>)
    ensures a + [] == a && [] + a == a
  {
  }

  // Dropping twice is dropping once.
  lemma DropDrop<T>(s: seq<T>, i: nat, j: nat)
    requires i + j <= |s|
    ensures s[i..][j..] == s[i + j..]
  {
  }
}
