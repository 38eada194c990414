/** Finite sets, as far as the iteration over a std::map needs them. */
module Sets {

  lemma HasMember<T>(s: set<T>)
    requires s != {}
    ensures exists x :: x in s
  {
    assert (forall x :: x !in s) ==> s == {};
  }

  /** An iterator's next element. */
  method Pick<T(==)>(s: set<T>) returns (x: T)
    requires s != {}
    ensures x in s
  {
    HasMember(s);
    x :| x in s;
  }

  /** An iterator's next element, where elements are kept in order. */
  method PickLeast(s: set<int>) returns (x: int)
    requires s != {}
    ensures x in s && forall y :: y in s ==> x <= y
  {
    x := Pick(s);
    var todo := s;
    while todo != {}
      invariant x in s && todo <= s && forall y :: y in s && y !in todo ==> x <= y
      decreases todo
    {
      var y := Pick(todo);
      if y < x { x := y; }
      todo := todo - {y};
    }
    assert todo == {};
  }

  lemma SubsetSize<T>(s: set<T>, t: set<T>)
    requires s <= t
    ensures |s| <= |t|
  {
    assert t == s + (t - s);
    assert |t| == |s| + |t - s|;
  }
}
