/** The two-sided index used for transaction pairs and dialog pairs: a left and a right map
    that are each other's inverse. Inserting a pair whose left or right key is already taken
    leaves the index as it was, without any error. */
module Bimaps {

  datatype Bimap<A(==), B(==)> = Bimap(left: map<A, B>, right: map<B, A>) {

    ghost predicate Ok() {
      && (forall a :: a in left ==> left[a] in right && right[left[a]] == a)
      && (forall b :: b in right ==> right[b] in left && left[right[b]] == b)
    }

    predicate CanInsert(a: A, b: B) {
      a !in left && b !in right
    }

    function Insert(a: A, b: B): Bimap<A, B> {
      if CanInsert(a, b) then Bimap(left[a := b], right[b := a]) else this
    }

    function EraseLeft(a: A): Bimap<A, B> {
      if a in left then Bimap(left - {a}, right - {left[a]}) else this
    }

    function EraseRight(b: B): Bimap<A, B> {
      if b in right then Bimap(left - {right[b]}, right - {b}) else this
    }

    /** Inserting and erasing keep both sides each other's inverse; an insert takes effect exactly
        when both keys are free, and an erase removes that pair and no other. */
    lemma OperationsKeepInverse(a: A, b: B)
      requires Ok()
      ensures Insert(a, b).Ok() && EraseLeft(a).Ok() && EraseRight(b).Ok()
      ensures a in Insert(a, b).left && Insert(a, b).left[a] == b <==> CanInsert(a, b) || (a in left && left[a] == b)
      ensures a !in EraseLeft(a).left && b !in EraseRight(b).right
      ensures forall x :: x in left && x != a ==> x in EraseLeft(a).left && EraseLeft(a).left[x] == left[x]
      ensures forall y :: y in right && y != b ==> y in EraseRight(b).right && EraseRight(b).right[y] == right[y]
    {
    }

    /** Erasing a pair and inserting its left key with a new right key. */
    lemma RepairKeepsInverse(b: B, c: B)
      requires Ok() && b in right && c !in right
      ensures Bimap(left[right[b] := c], right[c := right[b]] - {b}).Ok()
    {
    }
  }
}
