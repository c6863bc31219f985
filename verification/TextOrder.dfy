// Python's order on strings, and the one sorted list of a set of strings.
module TextOrder {
  predicate Leq(a: string, b: string) {
    a == "" || (b != "" && (a[0] < b[0] || (a[0] == b[0] && Leq(a[1..], b[1..]))))
  }

  lemma {:induction false} LeqTotal(a: string, b: string)
    ensures Leq(a, b) || Leq(b, a)
  {
    if a != "" && b != "" && a[0] == b[0] {
      LeqTotal(a[1..], b[1..]);
    }
  }

  lemma {:induction false} LeqAntisymmetric(a: string, b: string)
    requires Leq(a, b) && Leq(b, a)
    ensures a == b
  {
    if a != "" {
      LeqAntisymmetric(a[1..], b[1..]);
      assert a == [a[0]] + a[1..] && b == [b[0]] + b[1..];
    }
  }

  lemma {:induction false} LeqTransitive(a: string, b: string, c: string)
    requires Leq(a, b) && Leq(b, c)
    ensures Leq(a, c)
  {
    if a != "" && a[0] == b[0] == c[0] {
      LeqTransitive(a[1..], b[1..], c[1..]);
    }
  }

  ghost predicate Ascending(s: seq<string>) {
    forall j, k :: 0 <= j < k < |s| ==> Leq(s[j], s[k]) && s[j] != s[k]
  }

  /** `s` is what sorting the set `elements` gives. */
  ghost predicate SortedListOf(s: seq<string>, elements: set<string>) {
    Ascending(s) && forall x :: x in s <==> x in elements
  }

  function InsertText(x: string, s: seq<string>): seq<string> {
    if s == [] || Leq(x, s[0]) then [x] + s else [s[0]] + InsertText(x, s[1..])
  }

  lemma {:induction false} TailAscends(s: seq<string>)
    requires Ascending(s) && s != []
    ensures Ascending(s[1..]) && s[0] !in s[1..]
    ensures forall x :: x in s <==> x == s[0] || x in s[1..]
  {
    assert s == [s[0]] + s[1..];
  }

  lemma {:induction false} ConsAscends(x: string, s: seq<string>)
    requires Ascending(s) && forall y :: y in s ==> Leq(x, y) && x != y
    ensures Ascending([x] + s)
  {
    forall j, k | 0 <= j < k < |s| + 1
      ensures Leq(([x] + s)[j], ([x] + s)[k]) && ([x] + s)[j] != ([x] + s)[k]
    {
      assert s[k - 1] in s;
      if j > 0 { assert Leq(s[j - 1], s[k - 1]) && s[j - 1] != s[k - 1]; }
    }
  }

  lemma {:induction false} InsertedAscends(x: string, s: seq<string>)
    requires Ascending(s) && x !in s
    ensures Ascending(InsertText(x, s)) && forall y :: y in InsertText(x, s) <==> y == x || y in s
  {
    if s == [] {
    } else if Leq(x, s[0]) {
      forall y | y in s
        ensures Leq(x, y) && x != y
      {
        var k :| 0 <= k < |s| && s[k] == y;
        if k > 0 { LeqTransitive(x, s[0], s[k]); }
      }
      ConsAscends(x, s);
    } else {
      LeqTotal(x, s[0]);
      TailAscends(s);
      InsertedAscends(x, s[1..]);
      forall y | y in InsertText(x, s[1..])
        ensures Leq(s[0], y) && s[0] != y
      {
        if y in s[1..] {
          var k :| 0 <= k < |s| - 1 && s[1..][k] == y;
          assert Leq(s[0], s[k + 1]);
        }
      }
      ConsAscends(s[0], InsertText(x, s[1..]));
    }
  }

  /** `sorted` on a set: elements are taken in any order and inserted in place. */
  method SortSet(elements: set<string>) returns (s: seq<string>)
    ensures SortedListOf(s, elements)
  {
    s := [];
    var rest := elements;
    while rest != {}
      invariant rest <= elements && SortedListOf(s, elements - rest)
      decreases |rest|
    {
      var x :| x in rest;
      InsertedAscends(x, s);
      s := InsertText(x, s);
      rest := rest - {x};
    }
  }

  lemma {:induction false} EmptyList(s: seq<string>, elements: set<string>)
    requires SortedListOf(s, elements)
    ensures s == [] <==> elements == {}
  {
    if s != [] {
      assert s[0] in s;
    }
  }

  /** A set has one sorted list. */
  lemma {:induction false} OneSortedList(a: seq<string>, b: seq<string>, elements: set<string>)
    requires SortedListOf(a, elements) && SortedListOf(b, elements)
    ensures a == b
    decreases |a|
  {
    EmptyList(a, elements);
    EmptyList(b, elements);
    if a != [] {
      assert a[0] in a && a[0] in b;
      assert b[0] in b && b[0] in a;
      SmallestFirst(a, b[0]);
      SmallestFirst(b, a[0]);
      LeqAntisymmetric(a[0], b[0]);
      TailAscends(a);
      TailAscends(b);
      OneSortedList(a[1..], b[1..], elements - {a[0]});
      assert a == [a[0]] + a[1..] && b == [b[0]] + b[1..];
    }
  }

  lemma {:induction false} SmallestFirst(s: seq<string>, x: string)
    requires Ascending(s) && x in s
    ensures Leq(s[0], x)
  {
    var k :| 0 <= k < |s| && s[k] == x;
    if k == 0 { LeqTotal(x, x); }
  }

  lemma {:induction false} SortedListExists(elements: set<string>)
    ensures exists s :: SortedListOf(s, elements)
    decreases |elements|
  {
    if elements == {} {
      assert SortedListOf([], elements);
    } else {
      var x :| x in elements;
      SortedListExists(elements - {x});
      var s :| SortedListOf(s, elements - {x});
      InsertedAscends(x, s);
      assert SortedListOf(InsertText(x, s), elements);
    }
  }

  ghost function Sorted(elements: set<string>): (s: seq<string>)
    ensures SortedListOf(s, elements)
  {
    SortedListExists(elements);
    var s :| SortedListOf(s, elements);
    s
  }
}
