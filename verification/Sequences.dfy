/** Sequences without repetition. */
module Sequences {

  function Elements<T(==)>(q: seq<T>): set<T> { set x | x in q }

  predicate Distinct<T(==)>(q: seq<T>) {
    forall i, j | 0 <= i < j < |q| :: q[i] != q[j]
  }

  lemma {:induction false} SizeOfDistinct<T>(q: seq<T>)
    requires Distinct(q)
    ensures |Elements(q)| == |q|
  {
    if q != [] {
      SizeOfDistinct(q[1..]);
      assert Elements(q) == {q[0]} + Elements(q[1..]);
      assert q[0] !in q[1..];
    }
  }

  /** A set with one more element, if that counts. */
  lemma OneMoreIn(all: set<int>, front: set<int>, n: int, counts: bool)
    requires n !in front && forall i :: i in all <==> (i in front || (i == n && counts))
    ensures |all| == |front| + (if counts then 1 else 0)
  {
    var more := if counts then {n} else {};
    forall i
      ensures i in all <==> i in front + more
    {
    }
    assert all == front + more;
  }
}
