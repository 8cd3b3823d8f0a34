/** Sequence identities that proofs elsewhere appeal to by name. */
module Sequences {

  lemma AppendAssociates<T>(x: seq<T>, y: seq<T>, z: seq<T>)
    ensures x + y + z == x + (y + z)
  {
  }

  lemma AppendNothing<T>(x: seq<T>)
    ensures x + [] == x
  {
  }

  lemma NothingInFront<T>(x: seq<T>)
    ensures [] + x == x
  {
  }

  lemma UpdateAppended<T>(x: seq<T>, last: T, other: T)
    ensures (x + [last])[|x| := other] == x + [other]
  {
  }

  lemma TailOfAppend<T>(x: seq<T>, y: seq<T>)
    requires x != []
    ensures (x + y)[0] == x[0] && (x + y)[1..] == x[1..] + y
  {
  }

  lemma InitOfAppend<T>(x: seq<T>, last: T)
    ensures (x + [last])[..|x|] == x && (x + [last])[|x|] == last
  {
  }
}
