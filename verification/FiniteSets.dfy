// Sizes and least elements of finite sets.
module FiniteSets {
  method Smallest(s: set<nat>) returns (m: nat)
    requires s != {}
    ensures m in s && forall x :: x in s ==> m <= x
  {
    m :| m in s;
    var rest := s - {m};
    while rest != {}
      invariant rest <= s && m in s && forall x :: x in s && x !in rest ==> m <= x
      decreases |rest|
    {
      var x :| x in rest;
      if x < m { m := x; }
      rest := rest - {x};
    }
  }

  lemma {:induction false} SubsetSize<T>(small: set<T>, large: set<T>)
    requires small <= large
    ensures |small| <= |large|
    decreases |small|
  {
    if x :| x in small {
      SubsetSize(small - {x}, large - {x});
    }
  }

  lemma {:induction false} DisjointSizes<T>(a: set<T>, b: set<T>)
    requires forall x :: x in a ==> x !in b
    ensures |a + b| == |a| + |b|
  {
    assert a * b == {};
  }
}
