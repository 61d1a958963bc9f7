/** Heaps as multisets: a top entry is any entry with the least key. */
module Heaps {

  ghost predicate Least<T(!new)>(heap: multiset<T>, x: T, key: T -> real) {
    x in heap && forall y :: y in heap ==> key(x) <= key(y)
  }

  lemma SomeMember<T>(heap: multiset<T>)
    ensures heap != multiset{} ==> exists x :: x in heap
  {
    if forall x :: x !in heap {
      assert heap == multiset{};
    }
  }

  method Top<T(==, !new)>(heap: multiset<T>, key: T -> real) returns (top: T)
    requires heap != multiset{}
    ensures Least(heap, top, key)
  {
    SomeMember(heap);
    top :| top in heap;
    var rest := heap;
    while rest != multiset{}
      invariant rest <= heap && top in heap
      invariant forall x :: x in heap ==> x in rest || key(top) <= key(x)
      decreases rest
    {
      SomeMember(rest);
      var x :| x in rest;
      if key(x) < key(top) {
        top := x;
      }
      rest := rest[x := 0];
    }
  }
}
