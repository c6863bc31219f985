// validation/jvm_unit_discovery.py, `excluded_generated_classes`: every class left out of discovery belongs
// to a closed hierarchy without tests.
module HelperClasses {
  import opened Wrappers

  type Name = string

  datatype Row = Row(name: Name, parent: Name, interfaces: seq<Name>, junit: bool)

  type Roster = map<Name, Row>

  predicate JUnitInterface(i: Name) { "org/junit/" <= i || "junit/" <= i }

  lemma {:induction false} JUnitInterfacesExactly(rest: string, i: Name)
    ensures JUnitInterface("org/junit/" + rest) && JUnitInterface("junit/" + rest)
    ensures JUnitInterface(i) ==>
      (|i| >= 10 && i == "org/junit/" + i[10..]) || (|i| >= 6 && i == "junit/" + i[6..])
  {
    assert ("org/junit/" + rest)[..10] == "org/junit/" && ("junit/" + rest)[..6] == "junit/";
  }

  /** A class that can stand in a hierarchy without tests. */
  predicate Quiet(roster: Roster, name: Name) {
    name in roster && !roster[name].junit
    && forall k :: 0 <= k < |roster[name].interfaces| ==> !JUnitInterface(roster[name].interfaces[k])
  }

  /** Within `fuel` superclasses the hierarchy of `name` reaches a root, over quiet classes only. */
  predicate Grounded(roster: Roster, roots: set<Name>, name: Name, fuel: nat)
    decreases fuel
  {
    name in roots || (fuel > 0 && Quiet(roster, name) && Grounded(roster, roots, roster[name].parent, fuel - 1))
  }

  ghost predicate NonTest(roster: Roster, roots: set<Name>, name: Name) {
    exists fuel: nat :: Grounded(roster, roots, name, fuel)
  }

  // ----- a hierarchy that runs into itself -----

  /**
   * Distinct classes of the roster, none a root, each the parent of the one before, the last one's parent being
   * `next`.
   */
  ghost predicate Path(roster: Roster, roots: set<Name>, path: seq<Name>, next: Name) {
    && (forall k :: 0 <= k < |path| ==> path[k] in roster && path[k] !in roots)
    && (forall j, k :: 0 <= j && k == j + 1 < |path| ==> roster[path[j]].parent == path[k])
    && (path != [] ==> roster[path[|path| - 1]].parent == next)
  }

  lemma {:induction false} CycleHasNoGround(roster: Roster, roots: set<Name>, path: seq<Name>, back: nat, i: nat,
                                            fuel: nat)
    requires back < |path| && i < |path| && Path(roster, roots, path, path[back])
    ensures !Grounded(roster, roots, path[i], fuel)
    decreases fuel
  {
    if fuel > 0 {
      var next := if i + 1 < |path| then i + 1 else back;
      assert roster[path[i]].parent == path[next];
      CycleHasNoGround(roster, roots, path, back, next, fuel - 1);
    }
  }

  /** Further along the path the question is the same, as long as the classes passed are quiet. */
  lemma {:induction false} ParentDecides(roster: Roster, roots: set<Name>, name: Name)
    requires name !in roots && Quiet(roster, name)
    ensures NonTest(roster, roots, name) <==> NonTest(roster, roots, roster[name].parent)
  {
    var parent := roster[name].parent;
    if fuel: nat :| Grounded(roster, roots, name, fuel) {
      assert Grounded(roster, roots, parent, fuel - 1);
    }
    if fuel: nat :| Grounded(roster, roots, parent, fuel) {
      assert Grounded(roster, roots, name, fuel + 1);
    }
  }

  ghost predicate Holds(seen: set<Name>, path: seq<Name>) { forall n :: n in seen <==> n in path }

  /** `non_test`: its `seen` set is the path walked, so it refuses exactly the hierarchies that are not grounded. */
  method CheckNonTest(roster: Roster, roots: set<Name>, name: Name, seen: set<Name>, ghost path: seq<Name>)
    returns (ok: bool)
    requires Path(roster, roots, path, name) && Holds(seen, path) && seen <= roster.Keys
    ensures ok <==> NonTest(roster, roots, name)
    decreases roster.Keys - seen
  {
    if name in seen {
      ghost var back :| 0 <= back < |path| && path[back] == name;
      forall fuel: nat
        ensures !Grounded(roster, roots, name, fuel)
      {
        CycleHasNoGround(roster, roots, path, back, back, fuel);
      }
      return false;
    }
    if name in roots {
      assert Grounded(roster, roots, name, 0);
      return true;
    }
    if name !in roster || roster[name].junit { return false; }
    ok := CheckNonTest(roster, roots, roster[name].parent, seen + {name}, path + [name]);
    var quiet := true;
    for k := 0 to |roster[name].interfaces|
      invariant quiet <==> forall j :: 0 <= j < k ==> !JUnitInterface(roster[name].interfaces[j])
    {
      quiet := quiet && !JUnitInterface(roster[name].interfaces[k]);
    }
    if quiet {
      ParentDecides(roster, roots, name);
    }
    ok := ok && quiet;
  }

  // ----- the classes left out -----

  /** The text before the first dollar sign. */
  function Owner(name: Name): Name { if name == "" || name[0] == '$' then "" else [name[0]] + Owner(name[1..]) }

  lemma {:induction false} OwnerIsBeforeDollar(name: Name)
    ensures Owner(name) <= name && '$' !in Owner(name)
    ensures Owner(name) != name ==> name[|Owner(name)|] == '$'
  {
    if name != "" && name[0] != '$' {
      OwnerIsBeforeDollar(name[1..]);
      assert name == [name[0]] + name[1..];
    }
  }

  ghost predicate Excludable(roster: Roster, roots: set<Name>, name: Name)
    requires name in roster
  {
    '$' in name && !roster[name].junit && Owner(name) in roster && NonTest(roster, roots, name)
  }

  ghost predicate DistinctNames(headers: seq<Row>) {
    forall j, k :: 0 <= j < k < |headers| ==> headers[j].name != headers[k].name
  }

  ghost predicate Lists(headers: seq<Row>, roster: Roster) {
    && (forall n :: n in roster <==> exists k :: 0 <= k < |headers| && headers[k].name == n)
    && (DistinctNames(headers) ==> forall k :: 0 <= k < |headers| ==> roster[headers[k].name] == headers[k])
  }

  method ReadRoster(headers: seq<Row>) returns (r: Option<Roster>)
    ensures r.Some? <==> DistinctNames(headers)
    ensures r.Some? ==> Lists(headers, r.value)
  {
    var roster: Roster, n := map[], 0;
    while n < |headers|
      invariant n <= |headers| && DistinctNames(headers[..n])
      invariant forall x :: x in roster <==> exists k :: 0 <= k < n && headers[k].name == x
      invariant forall k :: 0 <= k < n ==> headers[k].name in roster && roster[headers[k].name] == headers[k]
    {
      if headers[n].name in roster {
        ghost var k :| 0 <= k < n && headers[k].name == headers[n].name;
        assert !DistinctNames(headers);
        return None;
      }
      roster := roster[headers[n].name := headers[n]];
      n := n + 1;
    }
    assert headers[..n] == headers;
    r := Some(roster);
  }

  /** `excluded_generated_classes`, up to the sorting of the names it returns. */
  method ExcludedClasses(headers: seq<Row>, selected: set<Name>, roots: set<Name>) returns (r: Result<set<Name>>)
    ensures r.Ok? <==> exists roster :: Lists(headers, roster) && Closed(headers, roster, selected, roots)
    ensures forall roster :: r.Ok? && Lists(headers, roster) ==> r.value == roster.Keys - selected
  {
    if headers == [] { return Refused; }
    var read := ReadRoster(headers);
    if read.None? { return Refused; }
    var roster := read.value;
    forall other | Lists(headers, other)
      ensures other == roster
    {
      OneRoster(headers, roster, other);
    }
    if !(roster.Keys !! roots) || !(selected <= roster.Keys) { return Refused; }
    var ok := CheckOthers(roster, selected, roots);
    assert DistinctNames(headers) && Lists(headers, roster);
    assert ok <==> Closed(headers, roster, selected, roots);
    r := if ok then Ok(roster.Keys - selected) else Refused;
  }

  method CheckOthers(roster: Roster, selected: set<Name>, roots: set<Name>) returns (ok: bool)
    ensures ok <==> forall n :: n in roster && n !in selected ==> Excludable(roster, roots, n)
  {
    var rest := roster.Keys - selected;
    while rest != {}
      invariant rest <= roster.Keys - selected
      invariant forall n :: n in roster && n !in selected && n !in rest ==> Excludable(roster, roots, n)
      decreases |rest|
    {
      var name :| name in rest;
      rest := rest - {name};
      if !('$' in name && !roster[name].junit && Owner(name) in roster) { return false; }
      ok := CheckNonTest(roster, roots, name, {}, []);
      if !ok { return; }
    }
    ok := true;
  }

  /** Every class not selected may be left out. */
  ghost predicate Closed(headers: seq<Row>, roster: Roster, selected: set<Name>, roots: set<Name>) {
    && headers != [] && DistinctNames(headers) && roster.Keys !! roots && selected <= roster.Keys
    && forall n :: n in roster && n !in selected ==> Excludable(roster, roots, n)
  }

  lemma {:induction false} OneRoster(headers: seq<Row>, a: Roster, b: Roster)
    requires DistinctNames(headers) && Lists(headers, a) && Lists(headers, b)
    ensures a == b
  {
    forall n | n in a
      ensures n in b && a[n] == b[n]
    {
      var k :| 0 <= k < |headers| && headers[k].name == n;
    }
    assert a.Keys == b.Keys;
    assert a == b;
  }
}
