/** Lists as sets of members, and the sizes of finite sets. */
module Collections {

  function Members<T>(order: seq<T>): set<T> {
    set x | x in order
  }

  predicate Distinct<T(==)>(order: seq<T>) {
    forall i, j :: 0 <= i < j < |order| ==> order[i] != order[j]
  }

  lemma {:induction false} DistinctSize<T>(order: seq<T>)
    requires Distinct(order)
    ensures |Members(order)| == |order|
  {
    if order != [] {
      var rest, last := order[..|order| - 1], order[|order| - 1];
      DistinctSize(rest);
      assert Members(order) == Members(rest) + {last};
    }
  }

  lemma MembersConcat<T>(a: seq<T>, b: seq<T>)
    ensures Members(a + b) == Members(a) + Members(b)
  {
  }

  lemma DistinctConcat<T>(a: seq<T>, b: seq<T>)
    requires Distinct(a) && Distinct(b) && Members(a) !! Members(b)
    ensures Distinct(a + b)
  {
    forall i, j | 0 <= i < j < |a + b|
      ensures (a + b)[i] != (a + b)[j]
    {
      if i < |a| <= j {
        assert a[i] in Members(a) && b[j - |a|] in Members(b);
      }
    }
  }

  /** The last of a distinct list is not among the others. */
  lemma MembersSnoc<T>(order: seq<T>)
    requires order != [] && Distinct(order)
    ensures order[|order| - 1] !in Members(order[..|order| - 1])
    ensures Members(order) == Members(order[..|order| - 1]) + {order[|order| - 1]}
  {
  }

  lemma SubsetSize<T>(a: set<T>, b: set<T>)
    requires a <= b
    ensures |a| <= |b|
  {
    assert b == a + (b - a);
  }

  lemma WholeSubset<T>(a: set<T>, b: set<T>)
    requires a <= b && |a| == |b|
    ensures a == b
  {
    assert |b - a| == |b| - |a|;
  }

  lemma NothingLeft<T>(a: set<T>, b: set<T>)
    requires a <= b && b - a == {}
    ensures a == b
  {
    assert forall x :: x in b ==> x in a || x in b - a;
  }
}
