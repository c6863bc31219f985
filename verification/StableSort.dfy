// Python's sort by descending key: stable, the earlier of two equal elements staying first.
module StableSort {
  /** `x` goes before the first element whose key is no larger than its own. */
  function Insert<T>(key: T -> int, x: T, xs: seq<T>): seq<T> {
    if xs == [] || key(xs[0]) <= key(x) then [x] + xs else [xs[0]] + Insert(key, x, xs[1..])
  }

  function Descend<T>(key: T -> int, xs: seq<T>): seq<T> {
    if xs == [] then [] else Insert(key, xs[0], Descend(key, xs[1..]))
  }

  ghost predicate Descending<T>(key: T -> int, xs: seq<T>) {
    forall j, k :: 0 <= j < k < |xs| ==> key(xs[k]) <= key(xs[j])
  }

  ghost predicate Same<T(!new)>(xs: seq<T>, ys: seq<T>) { forall x :: x in xs <==> x in ys }

  lemma {:induction false} InsertSorts<T(!new)>(key: T -> int, x: T, xs: seq<T>)
    requires Descending(key, xs)
    ensures Descending(key, Insert(key, x, xs)) && |Insert(key, x, xs)| == |xs| + 1
    ensures forall y :: y in Insert(key, x, xs) <==> y == x || y in xs
  {
    if xs != [] && key(xs[0]) > key(x) {
      InsertSorts(key, x, xs[1..]);
      var rest := Insert(key, x, xs[1..]);
      assert xs == [xs[0]] + xs[1..];
      forall k | 0 <= k < |rest|
        ensures key(rest[k]) <= key(xs[0])
      {
        assert rest[k] in rest;
      }
    }
  }

  lemma {:induction false} DescendSorts<T(!new)>(key: T -> int, xs: seq<T>)
    ensures Descending(key, Descend(key, xs)) && Same(Descend(key, xs), xs) && |Descend(key, xs)| == |xs|
  {
    if xs != [] {
      DescendSorts(key, xs[1..]);
      InsertSorts(key, xs[0], Descend(key, xs[1..]));
      assert xs == [xs[0]] + xs[1..];
    }
  }

  /** Elements of one key stand in this order. */
  ghost predicate Stably<T>(key: T -> int, order: (T, T) -> bool, xs: seq<T>) {
    forall j, k :: 0 <= j < k < |xs| && key(xs[j]) == key(xs[k]) ==> order(xs[j], xs[k])
  }

  lemma {:induction false} InsertStably<T(!new)>(key: T -> int, order: (T, T) -> bool, x: T, xs: seq<T>)
    requires Descending(key, xs) && Stably(key, order, xs) && forall y :: y in xs ==> order(x, y)
    ensures Stably(key, order, Insert(key, x, xs))
  {
    if xs != [] && key(xs[0]) > key(x) {
      var rest := Insert(key, x, xs[1..]);
      assert xs == [xs[0]] + xs[1..];
      InsertSorts(key, x, xs[1..]);
      InsertStably(key, order, x, xs[1..]);
      forall k | 0 <= k < |rest| && key(xs[0]) == key(rest[k])
        ensures order(xs[0], rest[k])
      {
        assert rest[k] in rest;
        var j :| 0 <= j < |xs| - 1 && xs[1..][j] == rest[k];
        assert xs[j + 1] == rest[k];
      }
    }
  }

  /** Sorting by key keeps the order of the elements that share a key. */
  lemma {:induction false} DescendStably<T(!new)>(key: T -> int, order: (T, T) -> bool, xs: seq<T>)
    requires forall j, k :: 0 <= j < k < |xs| ==> order(xs[j], xs[k])
    ensures Stably(key, order, Descend(key, xs))
  {
    if xs != [] {
      assert forall j :: 0 <= j < |xs| - 1 ==> xs[1..][j] == xs[j + 1];
      DescendStably(key, order, xs[1..]);
      DescendSorts(key, xs[1..]);
      InsertStably(key, order, xs[0], Descend(key, xs[1..]));
    }
  }

  lemma {:induction false} InsertKeeps<T>(key: T -> int, x: T, xs: seq<T>)
    ensures multiset(Insert(key, x, xs)) == multiset(xs) + multiset{x}
  {
    if xs != [] && key(xs[0]) > key(x) {
      InsertKeeps(key, x, xs[1..]);
      assert xs == [xs[0]] + xs[1..];
    }
  }

  lemma {:induction false} DescendKeeps<T>(key: T -> int, xs: seq<T>)
    ensures multiset(Descend(key, xs)) == multiset(xs)
  {
    if xs != [] {
      DescendKeeps(key, xs[1..]);
      InsertKeeps(key, xs[0], Descend(key, xs[1..]));
      assert xs == [xs[0]] + xs[1..];
    }
  }

  /** No two elements share a key. */
  ghost predicate Strict<T>(key: T -> int, xs: seq<T>) {
    forall j, k :: 0 <= j < k < |xs| ==> key(xs[k]) < key(xs[j])
  }

  lemma {:induction false} SameFirst<T>(key: T -> int, xs: seq<T>, ys: seq<T>)
    requires multiset(xs) == multiset(ys) && Strict(key, xs) && Descending(key, ys) && xs != []
    ensures ys != [] && xs[0] == ys[0]
  {
    assert |xs| == |multiset(xs)| == |multiset(ys)| == |ys|;
    assert xs[0] in multiset(ys) && ys[0] in multiset(xs);
    var k :| 0 <= k < |ys| && ys[k] == xs[0];
    var j :| 0 <= j < |xs| && xs[j] == ys[0];
    assert key(xs[0]) <= key(ys[0]);
  }

  lemma {:induction false} TailMultisets<T>(xs: seq<T>, ys: seq<T>)
    requires multiset(xs) == multiset(ys) && xs != [] && ys != [] && xs[0] == ys[0]
    ensures multiset(xs[1..]) == multiset(ys[1..])
  {
    assert xs == [xs[0]] + xs[1..] && ys == [ys[0]] + ys[1..];
    assert multiset(xs[1..]) == multiset(xs) - multiset{xs[0]};
    assert multiset(ys[1..]) == multiset(ys) - multiset{xs[0]};
  }

  lemma {:induction false} HeadAndTail<T>(xs: seq<T>, ys: seq<T>)
    requires xs != [] && ys != [] && xs[0] == ys[0] && xs[1..] == ys[1..]
    ensures xs == ys
  {
    assert xs == [xs[0]] + xs[1..] && ys == [ys[0]] + ys[1..];
  }

  lemma {:induction false} NoneLeft<T>(xs: seq<T>, ys: seq<T>)
    requires multiset(xs) == multiset(ys) && xs == []
    ensures ys == []
  {
    assert |ys| == |multiset(ys)|;
  }

  lemma {:induction false} TailOrder<T>(key: T -> int, xs: seq<T>)
    requires xs != []
    ensures Strict(key, xs) ==> Strict(key, xs[1..])
    ensures Descending(key, xs) ==> Descending(key, xs[1..])
  {
    assert forall k :: 0 <= k < |xs| - 1 ==> xs[1..][k] == xs[k + 1];
  }

  /** Elements with distinct keys have one order, whatever order they came in. */
  lemma {:induction false} OneOrder<T>(key: T -> int, xs: seq<T>, ys: seq<T>)
    requires multiset(xs) == multiset(ys) && Strict(key, xs) && Descending(key, ys)
    ensures xs == ys
    decreases |xs|
  {
    if xs == [] {
      NoneLeft(xs, ys);
    } else {
      SameFirst(key, xs, ys);
      TailMultisets(xs, ys);
      TailOrder(key, xs);
      TailOrder(key, ys);
      OneOrder(key, xs[1..], ys[1..]);
      HeadAndTail(xs, ys);
    }
  }
}
