// validation/nonrust_unit_cohort.py, `validate` and `require_source_bound_repairs`: executions in order of
// sequence, folded into one current outcome for every test.
module CohortFold {
  import opened Wrappers
  import opened StableSort
  import opened LatestMap

  type Test = string

  /** A named pass or failure, a pass of a whole command that names no test, or anything else a log can say. */
  datatype Outcome = Pass | Fail | OpaquePass | Other

  /** How a record adds to the opaque sources: not at all, with all its tests, or with its opaque passes. */
  datatype Mode = Named | Listed | Selected

  /**
   * One execution: the tests its later source changes invalidate, what it observed, the opaque passes that
   * count as exact repairs, and whether its failures are those of another source variant.
   */
  datatype Record = Record(sequence: nat, commit: string, log: string, invalid: set<Test>, actual: map<Test, Outcome>,
                           mode: Mode, exact: set<Test>, variant: bool)

  datatype Source = Source(sequence: nat, members: set<Test>)

  datatype Event = Event(commit: string, test: Test, log: string)

  /** The reviewed repair of one original failure. */
  datatype Edge = Edge(commit: string, test: Test, repair: string)

  type Edges = map<string, Edge>

  datatype State = State(retained: map<Test, Outcome>, owners: map<Test, nat>, failures: map<Test, nat>,
                         passes: map<Test, nat>, sources: seq<Source>,
                         sourceFailures: map<Event, nat>, sourceRepairs: map<Event, nat>)

  // ----- what one record does -----

  predicate Applies(r: Record, t: Test) { t in r.actual && t !in r.invalid }

  predicate Mends(r: Record, t: Test) {
    Applies(r, t) && (r.actual[t] == Pass || (r.actual[t] == OpaquePass && t in r.exact))
  }

  predicate Fails(r: Record, t: Test) { t in r.actual && r.actual[t] == Fail && !r.variant }

  predicate VariantFails(r: Record, e: Event) {
    r.variant && e.test in r.actual && r.actual[e.test] == Fail && e.commit == r.commit && e.log == r.log
  }

  predicate ExactRepair(r: Record, e: Event) {
    && e.test in r.actual && r.actual[e.test] == OpaquePass && e.test in r.exact
    && e.commit == r.commit && e.log == r.log
  }

  function At(r: Record): nat { r.sequence }

  function When(r: Record, t: Test): nat { r.sequence }

  function WhenEvent(r: Record, e: Event): nat { r.sequence }

  function Observed(r: Record, t: Test): Outcome { if t in r.actual then r.actual[t] else Other }

  function Apply(s: State, r: Record): State {
    var kept := set t | t in r.actual && t !in r.invalid;
    State(
      s.retained + (map t | t in kept :: r.actual[t]),
      s.owners + (map t | t in kept :: r.sequence),
      s.failures + (map t | t in r.actual && Fails(r, t) :: r.sequence),
      s.passes + (map t | t in kept && Mends(r, t) :: r.sequence),
      s.sources + Membership(r),
      s.sourceFailures + (map e | e in Events(r) && VariantFails(r, e) :: r.sequence),
      s.sourceRepairs + (map e | e in Events(r) && ExactRepair(r, e) :: r.sequence))
  }

  function Events(r: Record): set<Event> { set t | t in r.actual :: Event(r.commit, t, r.log) }

  const EMPTY := State(map[], map[], map[], map[], [], map[], map[])

  /** The state after the first `n` records. */
  function Fold(rs: seq<Record>, n: nat): State
    requires n <= |rs|
  {
    FoldBy(Apply, EMPTY, rs, n)
  }

  // ----- what the fold holds -----

  ghost predicate Means(s: State, rs: seq<Record>, n: nat)
    requires n <= |rs|
  {
    && Latest(s.retained, rs, n, Applies, Observed)
    && Latest(s.owners, rs, n, Applies, When)
    && Latest(s.failures, rs, n, Fails, When)
    && Latest(s.passes, rs, n, Mends, When)
    && Latest(s.sourceFailures, rs, n, VariantFails, WhenEvent)
    && Latest(s.sourceRepairs, rs, n, ExactRepair, WhenEvent)
  }

  lemma {:induction false} RetainedStep(s: State, rs: seq<Record>, n: nat)
    requires n < |rs| && Means(s, rs, n)
    ensures Latest(Apply(s, rs[n]).retained, rs, n + 1, Applies, Observed)
    ensures Latest(Apply(s, rs[n]).owners, rs, n + 1, Applies, When)
  {
    LatestStep(s.retained, Apply(s, rs[n]).retained, rs, n, Applies, Observed);
    LatestStep(s.owners, Apply(s, rs[n]).owners, rs, n, Applies, When);
  }

  lemma {:induction false} SequenceStep(s: State, rs: seq<Record>, n: nat)
    requires n < |rs| && Means(s, rs, n)
    ensures Latest(Apply(s, rs[n]).failures, rs, n + 1, Fails, When)
    ensures Latest(Apply(s, rs[n]).passes, rs, n + 1, Mends, When)
  {
    LatestStep(s.failures, Apply(s, rs[n]).failures, rs, n, Fails, When);
    LatestStep(s.passes, Apply(s, rs[n]).passes, rs, n, Mends, When);
  }

  lemma {:induction false} EventStep(s: State, rs: seq<Record>, n: nat)
    requires n < |rs| && Means(s, rs, n)
    ensures Latest(Apply(s, rs[n]).sourceFailures, rs, n + 1, VariantFails, WhenEvent)
    ensures Latest(Apply(s, rs[n]).sourceRepairs, rs, n + 1, ExactRepair, WhenEvent)
  {
    var r := rs[n];
    forall e: Event | VariantFails(r, e) || ExactRepair(r, e)
      ensures e in Events(r)
    {
      assert e == Event(r.commit, e.test, r.log);
    }
    LatestStep(s.sourceFailures, Apply(s, r).sourceFailures, rs, n, VariantFails, WhenEvent);
    LatestStep(s.sourceRepairs, Apply(s, r).sourceRepairs, rs, n, ExactRepair, WhenEvent);
  }

  lemma {:induction false} MeansStep(s: State, rs: seq<Record>, n: nat)
    requires n < |rs| && Means(s, rs, n)
    ensures Means(Apply(s, rs[n]), rs, n + 1)
  {
    RetainedStep(s, rs, n);
    SequenceStep(s, rs, n);
    EventStep(s, rs, n);
  }

  /** Every dictionary of the fold holds what the last record concerned wrote, invalidation included. */
  lemma {:induction false} FoldMeans(rs: seq<Record>, n: nat)
    requires n <= |rs|
    ensures Means(Fold(rs, n), rs, n)
  {
    var holds := (s: State, k: nat) => k <= |rs| && Means(s, rs, k);
    forall s: State, k: nat | k < |rs| && holds(s, k)
      ensures holds(Apply(s, rs[k]), k + 1)
    {
      MeansStep(s, rs, k);
    }
    FoldKeeps(Apply, EMPTY, rs, n, holds);
  }

  // ----- the sources of opaque passes -----

  ghost predicate SourcesAscend(sources: seq<Source>, bound: nat) {
    && (forall i, j :: 0 <= i < j < |sources| ==> sources[i].sequence < sources[j].sequence)
    && (forall i :: 0 <= i < |sources| ==> sources[i].sequence <= bound)
  }

  ghost predicate Lists(sources: seq<Source>, r: Record) { r.mode == Named || OwnSource(r) in sources }

  /** The opaque membership of a record. */
  function OwnSource(r: Record): Source {
    Source(r.sequence,
           if r.mode == Listed then r.actual.Keys - r.invalid
           else set t | t in r.actual && t !in r.invalid && r.actual[t] == OpaquePass)
  }

  function Membership(r: Record): seq<Source> { if r.mode == Named then [] else [OwnSource(r)] }

  ghost predicate SourcesKept(sources: seq<Source>, rs: seq<Record>, n: nat)
    requires n <= |rs|
  {
    && SourcesAscend(sources, if n == 0 then 0 else At(rs[n - 1]))
    && forall k :: 0 <= k < n ==> Lists(sources, rs[k])
  }

  lemma {:induction false} SourcesStep(sources: seq<Source>, rs: seq<Record>, n: nat)
    requires n < |rs| && Chronological(rs, At) && SourcesKept(sources, rs, n)
    ensures SourcesKept(sources + Membership(rs[n]), rs, n + 1)
  {
    assert n > 0 ==> At(rs[n - 1]) < At(rs[n]);
    assert At(rs[n]) > 0;
    AscendStep(sources, if n == 0 then 0 else At(rs[n - 1]), rs[n]);
  }

  lemma {:induction false} FoldListsSources(rs: seq<Record>, n: nat)
    requires n <= |rs| && Chronological(rs, At)
    ensures SourcesKept(Fold(rs, n).sources, rs, n)
  {
    var holds := (s: State, k: nat) => k <= |rs| && SourcesKept(s.sources, rs, k);
    forall s: State, k: nat | k < |rs| && holds(s, k)
      ensures holds(Apply(s, rs[k]), k + 1)
    {
      SourcesStep(s.sources, rs, k);
    }
    FoldKeeps(Apply, EMPTY, rs, n, holds);
  }

  lemma {:induction false} AscendStep(sources: seq<Source>, bound: nat, r: Record)
    requires SourcesAscend(sources, bound) && bound < r.sequence
    ensures SourcesAscend(sources + Membership(r), r.sequence)
    ensures Lists(sources + Membership(r), r)
    ensures forall x :: Lists(sources, x) ==> Lists(sources + Membership(r), x)
  {
    if r.mode != Named {
      assert (sources + Membership(r))[|sources|] == OwnSource(r);
    }
  }

  // ----- the verdict -----

  predicate Green(o: Outcome) { o == Pass || o == OpaquePass }

  predicate RepairedLater(s: State, e: Event, edges: Edges)
    requires e in s.sourceFailures
  {
    e.log in edges &&
    var edge := edges[e.log];
    && edge.commit == e.commit && edge.test == e.test
    && var repair := Event(e.commit, e.test, edge.repair);
       repair in s.sourceRepairs && s.sourceRepairs[repair] > s.sourceFailures[e]
  }

  predicate Complete(s: State, universe: set<Test>, edges: Edges) {
    && (forall e :: e in s.sourceFailures ==> RepairedLater(s, e, edges))
    && s.retained.Keys == universe && (forall t :: t in s.retained ==> Green(s.retained[t]))
    && (forall t :: t in s.failures ==> t in s.passes && s.passes[t] > s.failures[t])
  }

  /** An opaque source after the overlay of later records. */
  function Narrow(s: State, source: Source): Source {
    Source(source.sequence,
           set t | t in source.members && t in s.retained && t in s.owners
                   && s.retained[t] == OpaquePass && s.owners[t] == source.sequence)
  }

  function NarrowAll(s: State, sources: seq<Source>): seq<Source> {
    seq(|sources|, i requires 0 <= i < |sources| => Narrow(s, sources[i]))
  }

  function NamedPasses(s: State): set<Test> { set t | t in s.retained && s.retained[t] == Pass }

  ghost predicate NoneTwice(sources: seq<Source>, n: nat)
    requires n <= |sources|
  {
    forall i, j, t :: 0 <= i < j < n && t in sources[i].members ==> t !in sources[j].members
  }

  ghost predicate Partitions(named: set<Test>, sources: seq<Source>, universe: set<Test>) {
    && NoneTwice(sources, |sources|)
    && (forall i, t :: 0 <= i < |sources| && t in sources[i].members ==> t !in named)
    && (forall t :: t in universe <==> t in named || exists i :: 0 <= i < |sources| && t in sources[i].members)
  }

  datatype Cohort = Cohort(named: set<Test>, sources: seq<Source>)

  predicate RecordOk(r: Record, universe: set<Test>) { r.invalid <= universe && r.actual.Keys <= universe }

  ghost predicate RecordsOk(rs: seq<Record>, universe: set<Test>) {
    Chronological(rs, At) && forall k :: 0 <= k < |rs| ==> RecordOk(rs[k], universe)
  }

  ghost predicate Accepts(rs: seq<Record>, universe: set<Test>, edges: Edges) {
    && RecordsOk(rs, universe) && Complete(Fold(rs, |rs|), universe, edges)
    && var s := Fold(rs, |rs|); Partitions(NamedPasses(s), NarrowAll(s, s.sources), universe)
  }

  function Backwards(r: Record): int { 0 - r.sequence }

  ghost function Verdict(records: seq<Record>, universe: set<Test>, edges: Edges): Result<Cohort> {
    var rs := Descend(Backwards, records);
    if Accepts(rs, universe, edges) then
      var s := Fold(rs, |rs|); Ok(Cohort(NamedPasses(s), NarrowAll(s, s.sources)))
    else Refused
  }

  ghost predicate Joined(named: set<Test>, sources: seq<Source>, n: nat, seen: set<Test>)
    requires n <= |sources|
  {
    && (forall t :: t in seen <==> exists i :: 0 <= i < n && t in sources[i].members)
    && NoneTwice(sources, n)
    && (forall i, t :: 0 <= i < n && t in sources[i].members ==> t !in named)
  }

  lemma {:induction false} JoinOne(named: set<Test>, sources: seq<Source>, n: nat, seen: set<Test>)
    requires n < |sources| && Joined(named, sources, n, seen)
    requires sources[n].members !! seen && sources[n].members !! named
    ensures Joined(named, sources, n + 1, seen + sources[n].members)
  {
    JoinSeen(sources, n, seen);
    assert forall i, t :: 0 <= i < n && t in sources[i].members ==> t in seen;
  }

  lemma {:induction false} JoinSeen(sources: seq<Source>, n: nat, seen: set<Test>)
    requires n < |sources| && forall t :: t in seen <==> exists i :: 0 <= i < n && t in sources[i].members
    ensures forall t :: t in seen + sources[n].members <==> exists i :: 0 <= i < n + 1 && t in sources[i].members
  {
    forall t
      ensures t in seen + sources[n].members <==> exists i :: 0 <= i < n + 1 && t in sources[i].members
    {
      assert t in seen <==> exists i :: 0 <= i < n && t in sources[i].members;
    }
  }

  lemma {:induction false} Clash(named: set<Test>, sources: seq<Source>, n: nat, seen: set<Test>, universe: set<Test>)
    requires n < |sources| && Joined(named, sources, n, seen)
    requires !(sources[n].members !! seen) || !(sources[n].members !! named)
    ensures !Partitions(named, sources, universe)
  {
    if !(sources[n].members !! seen) {
      var t :| t in sources[n].members && t in seen;
      var i :| 0 <= i < n && t in sources[i].members;
    }
  }

  lemma {:induction false} AllJoined(named: set<Test>, sources: seq<Source>, seen: set<Test>, universe: set<Test>)
    requires Joined(named, sources, |sources|, seen)
    ensures Partitions(named, sources, universe) <==> seen + named == universe
  {
    if Partitions(named, sources, universe) {
      assert forall t :: t in seen + named <==> t in universe;
    }
  }

  /** The last check: joins the opaque memberships, looking for a test that is named or listed twice. */
  method CheckPartition(named: set<Test>, sources: seq<Source>, universe: set<Test>) returns (ok: bool)
    ensures ok == Partitions(named, sources, universe)
  {
    var seen: set<Test>, n := {}, 0;
    while n < |sources|
      invariant n <= |sources| && Joined(named, sources, n, seen)
    {
      if !(sources[n].members !! seen) || !(sources[n].members !! named) {
        Clash(named, sources, n, seen, universe);
        return false;
      }
      JoinOne(named, sources, n, seen);
      seen := seen + sources[n].members;
      n := n + 1;
    }
    AllJoined(named, sources, seen, universe);
    ok := seen + named == universe;
  }

  /** The checks on single records and on their sequences, in the order of the loop. */
  method CheckRecords(rs: seq<Record>, universe: set<Test>) returns (ok: bool)
    requires Descending(Backwards, rs)
    ensures ok == RecordsOk(rs, universe)
  {
    var n, sequences := 0, {};
    while n < |rs|
      invariant n <= |rs|
      invariant forall x :: x in sequences <==> exists k :: 0 <= k < n && rs[k].sequence == x
      invariant forall k :: 0 <= k < n ==> RecordOk(rs[k], universe) && At(rs[k]) > 0
      invariant forall j, k :: 0 <= j < k < n ==> At(rs[j]) < At(rs[k])
    {
      assert forall k :: 0 <= k < n ==> Backwards(rs[n]) <= Backwards(rs[k]);
      if rs[n].sequence == 0 {
        assert At(rs[n]) == 0;
        return false;
      }
      if rs[n].sequence in sequences {
        ghost var k :| 0 <= k < n && rs[k].sequence == rs[n].sequence;
        assert !(At(rs[k]) < At(rs[n]));
        return false;
      }
      if !RecordOk(rs[n], universe) { return false; }
      sequences := sequences + {rs[n].sequence};
      n := n + 1;
    }
    ok := true;
  }

  method FoldRecords(rs: seq<Record>) returns (s: State)
    ensures s == Fold(rs, |rs|)
  {
    s := EMPTY;
    for n := 0 to |rs|
      invariant s == Fold(rs, n)
    {
      s := Apply(s, rs[n]);
    }
  }

  /** `validate`: sort, fold, and judge what is left. */
  method Validate(records: seq<Record>, universe: set<Test>, edges: Edges) returns (r: Result<Cohort>)
    ensures r == Verdict(records, universe, edges)
  {
    var rs := Descend(Backwards, records);
    DescendSorts(Backwards, records);
    var ok := CheckRecords(rs, universe);
    if !ok { return Refused; }
    var s := FoldRecords(rs);
    if !Complete(s, universe, edges) { return Refused; }
    var named, sources := NamedPasses(s), NarrowAll(s, s.sources);
    ok := CheckPartition(named, sources, universe);
    r := if ok then Ok(Cohort(named, sources)) else Refused;
  }

  // ----- consequences -----

  /** Records as their parsers make them: only those that list an opaque source hold opaque passes. */
  ghost predicate Parsed(r: Record) { r.mode == Named ==> forall t :: t in r.actual ==> r.actual[t] != OpaquePass }

  /** An opaque pass that survives stands in the narrowed source of the record that owns it. */
  lemma {:induction false} OwnedOnce(rs: seq<Record>, t: Test) returns (i: nat)
    requires Chronological(rs, At) && forall k :: 0 <= k < |rs| ==> Parsed(rs[k])
    requires var s := Fold(rs, |rs|); t in s.retained && s.retained[t] == OpaquePass
    ensures var s := Fold(rs, |rs|); i < |s.sources| && t in Narrow(s, s.sources[i]).members
  {
    var s := Fold(rs, |rs|);
    FoldMeans(rs, |rs|);
    FoldListsSources(rs, |rs|);
    assert LatestAt(s.retained, rs, |rs|, Applies, Observed, t);
    assert LatestAt(s.owners, rs, |rs|, Applies, When, t);
    var k := LastTouch(rs, |rs|, Applies, t).value;
    assert Parsed(rs[k]) && Lists(s.sources, rs[k]);
    i :| 0 <= i < |s.sources| && s.sources[i] == OwnSource(rs[k]);
  }

  /** The partition check is redundant: it can never fail on what the checks before it let through. */
  lemma {:induction false} PartitionNeverFails(rs: seq<Record>, universe: set<Test>, edges: Edges)
    requires RecordsOk(rs, universe) && forall k :: 0 <= k < |rs| ==> Parsed(rs[k])
    requires Complete(Fold(rs, |rs|), universe, edges)
    ensures var s := Fold(rs, |rs|); Partitions(NamedPasses(s), NarrowAll(s, s.sources), universe)
  {
    var s := Fold(rs, |rs|);
    var narrowed := NarrowAll(s, s.sources);
    FoldListsSources(rs, |rs|);
    forall t | t in universe && s.retained[t] != Pass
      ensures exists i :: 0 <= i < |narrowed| && t in narrowed[i].members
    {
      assert Green(s.retained[t]);
      var i := OwnedOnce(rs, t);
      assert t in narrowed[i].members;
    }
    forall i, j, t | 0 <= i < j < |narrowed| && t in narrowed[i].members
      ensures t !in narrowed[j].members
    {
      assert s.sources[i].sequence < s.sources[j].sequence;
    }
  }

  /** The records, in whatever order they are supplied, give one verdict. */
  lemma {:induction false} OrderDoesNotMatter(xs: seq<Record>, ys: seq<Record>, universe: set<Test>, edges: Edges)
    requires multiset(xs) == multiset(ys)
    ensures Verdict(xs, universe, edges) == Verdict(ys, universe, edges)
  {
    var a, b := Descend(Backwards, xs), Descend(Backwards, ys);
    DescendSorts(Backwards, xs);
    DescendSorts(Backwards, ys);
    DescendKeeps(Backwards, xs);
    DescendKeeps(Backwards, ys);
    if Chronological(a, At) {
      ChronologyIsStrict(a);
      OneOrder(Backwards, a, b);
    } else if Chronological(b, At) {
      ChronologyIsStrict(b);
      OneOrder(Backwards, b, a);
    }
  }

  lemma {:induction false} ChronologyIsStrict(rs: seq<Record>)
    requires Chronological(rs, At)
    ensures Strict(Backwards, rs)
  {
    forall j, k | 0 <= j < k < |rs|
      ensures Backwards(rs[k]) < Backwards(rs[j])
    {
      assert At(rs[j]) < At(rs[k]);
    }
  }

  /** The last execution that still applies to `t` passed it, by name or as part of a whole command. */
  ghost predicate CurrentlyGreen(rs: seq<Record>, t: Test) {
    exists k :: 0 <= k < |rs| && LastTouch(rs, |rs|, Applies, t) == Some(k) && Green(Observed(rs[k], t))
  }

  ghost predicate RepairedAt(rs: seq<Record>, t: Test) {
    forall k :: 0 <= k < |rs| && Fails(rs[k], t) ==> LaterTouch(rs, At, Mends, t, At(rs[k]))
  }

  ghost predicate FailuresRepaired(rs: seq<Record>) { forall t: Test :: RepairedAt(rs, t) }

  /** The reviewed repair of `e`, when there is one. */
  function RepairOf(e: Event, edges: Edges): Option<Event> {
    if e.log in edges && edges[e.log].commit == e.commit && edges[e.log].test == e.test
    then Some(Event(e.commit, e.test, edges[e.log].repair)) else None
  }

  /** A failure of another source variant has a reviewed repair of the same source, and it came later. */
  ghost predicate VariantRepairedAt(rs: seq<Record>, edges: Edges, e: Event) {
    forall k :: 0 <= k < |rs| && VariantFails(rs[k], e) ==>
      RepairOf(e, edges).Some? && LaterTouch(rs, At, ExactRepair, RepairOf(e, edges).value, At(rs[k]))
  }

  ghost predicate VariantsRepaired(rs: seq<Record>, edges: Edges) { forall e: Event :: VariantRepairedAt(rs, edges, e) }

  lemma {:induction false} GreenAt(s: State, rs: seq<Record>, universe: set<Test>, t: Test)
    requires LatestAt(s.retained, rs, |rs|, Applies, Observed, t)
    requires forall k :: 0 <= k < |rs| ==> RecordOk(rs[k], universe)
    ensures t in s.retained && Green(s.retained[t]) <==> CurrentlyGreen(rs, t)
    ensures t in s.retained ==> t in universe
  {
    var last := LastTouch(rs, |rs|, Applies, t);
    if last.Some? { assert RecordOk(rs[last.value], universe); }
  }

  ghost predicate GreenNow(s: State, t: Test) { t in s.retained && Green(s.retained[t]) }

  lemma {:induction false} GreenExactly(s: State, rs: seq<Record>, universe: set<Test>)
    requires Means(s, rs, |rs|) && forall k :: 0 <= k < |rs| ==> RecordOk(rs[k], universe)
    ensures s.retained.Keys == universe && (forall t :: t in s.retained ==> Green(s.retained[t])) <==>
      forall t :: t in universe ==> CurrentlyGreen(rs, t)
  {
    forall t: Test
      ensures GreenNow(s, t) <==> CurrentlyGreen(rs, t)
      ensures t in s.retained ==> t in universe
    {
      GreenAt(s, rs, universe, t);
    }
    AllGreen(s, universe);
  }

  lemma {:induction false} AllGreen(s: State, universe: set<Test>)
    requires forall t :: t in s.retained ==> t in universe
    ensures s.retained.Keys == universe && (forall t :: t in s.retained ==> Green(s.retained[t])) <==>
      forall t :: t in universe ==> GreenNow(s, t)
  {
    if forall t :: t in universe ==> GreenNow(s, t) {
      assert s.retained.Keys == universe;
      assert forall t :: t in s.retained ==> GreenNow(s, t);
    }
  }

  ghost predicate MendedNow(s: State, t: Test) { t in s.failures ==> t in s.passes && s.passes[t] > s.failures[t] }

  lemma {:induction false} FailuresExactly(s: State, rs: seq<Record>)
    requires Means(s, rs, |rs|) && Chronological(rs, At)
    ensures (forall t :: t in s.failures ==> t in s.passes && s.passes[t] > s.failures[t]) <==> FailuresRepaired(rs)
  {
    forall t: Test
      ensures MendedNow(s, t) <==> RepairedAt(rs, t)
    {
      EveryFailureFollowed(rs, At, s.failures, Fails, When, s.passes, Mends, When, t, t);
    }
    forall t | t in s.failures && FailuresRepaired(rs)
      ensures t in s.passes && s.passes[t] > s.failures[t]
    {
      assert RepairedAt(rs, t) && MendedNow(s, t);
    }
  }

  ghost predicate VariantMended(s: State, edges: Edges, e: Event) {
    e in s.sourceFailures ==> RepairedLater(s, e, edges)
  }

  lemma {:induction false} VariantExactly(s: State, rs: seq<Record>, edges: Edges, e: Event)
    requires Means(s, rs, |rs|) && Chronological(rs, At)
    ensures VariantMended(s, edges, e) <==> VariantRepairedAt(rs, edges, e)
  {
    var repair := RepairOf(e, edges);
    assert LatestAt(s.sourceFailures, rs, |rs|, VariantFails, WhenEvent, e);
    if repair.Some? {
      assert LatestAt(s.sourceRepairs, rs, |rs|, ExactRepair, WhenEvent, repair.value);
      EveryFailureFollowed(rs, At, s.sourceFailures, VariantFails, WhenEvent, s.sourceRepairs, ExactRepair, WhenEvent,
                           e, repair.value);
    } else if e !in s.sourceFailures {
      forall k | 0 <= k < |rs|
        ensures !VariantFails(rs[k], e)
      {
        NeverTouched(rs, |rs|, VariantFails, e, k);
      }
    } else {
      var k := LastTouch(rs, |rs|, VariantFails, e).value;
      assert VariantFails(rs[k], e);
    }
  }

  lemma {:induction false} VariantsExactly(s: State, rs: seq<Record>, edges: Edges)
    requires Means(s, rs, |rs|) && Chronological(rs, At)
    ensures (forall e :: e in s.sourceFailures ==> RepairedLater(s, e, edges)) <==> VariantsRepaired(rs, edges)
  {
    forall e: Event
      ensures VariantMended(s, edges, e) <==> VariantRepairedAt(rs, edges, e)
    {
      VariantExactly(s, rs, edges, e);
    }
    forall e | e in s.sourceFailures && VariantsRepaired(rs, edges)
      ensures RepairedLater(s, e, edges)
    {
      assert VariantRepairedAt(rs, edges, e) && VariantMended(s, edges, e);
    }
  }

  /**
   * What acceptance means, of the records themselves: every test's last applicable execution is green, every
   * failure is followed by an applicable pass or exact repair, every variant failure by its reviewed repair.
   */
  lemma {:induction false} AcceptedExactly(rs: seq<Record>, universe: set<Test>, edges: Edges)
    requires RecordsOk(rs, universe) && forall k :: 0 <= k < |rs| ==> Parsed(rs[k])
    ensures Accepts(rs, universe, edges) <==>
      (forall t :: t in universe ==> CurrentlyGreen(rs, t)) && FailuresRepaired(rs) && VariantsRepaired(rs, edges)
  {
    FoldMeans(rs, |rs|);
    CompleteExactly(Fold(rs, |rs|), rs, universe, edges);
    if Complete(Fold(rs, |rs|), universe, edges) {
      PartitionNeverFails(rs, universe, edges);
    }
  }

  lemma {:induction false} CompleteExactly(s: State, rs: seq<Record>, universe: set<Test>, edges: Edges)
    requires RecordsOk(rs, universe) && Means(s, rs, |rs|)
    ensures Complete(s, universe, edges) <==>
      (forall t :: t in universe ==> CurrentlyGreen(rs, t)) && FailuresRepaired(rs) && VariantsRepaired(rs, edges)
  {
    GreenExactly(s, rs, universe);
    FailuresExactly(s, rs);
    VariantsExactly(s, rs, edges);
  }

  // ----- acceptance, in full -----

  /** The last execution of `t` whose inputs have not changed since is `k`. */
  ghost predicate LastApplicable(rs: seq<Record>, t: Test, k: int) {
    && 0 <= k < |rs| && t in rs[k].actual && t !in rs[k].invalid
    && forall j :: k < j < |rs| && t in rs[j].actual ==> t in rs[j].invalid
  }

  /** Execution `j` passed `t` on unchanged inputs, by name or as a reviewed exact repair. */
  ghost predicate PassedAt(rs: seq<Record>, t: Test, j: int) {
    && 0 <= j < |rs| && t in rs[j].actual && t !in rs[j].invalid
    && (rs[j].actual[t] == Pass || (rs[j].actual[t] == OpaquePass && t in rs[j].exact))
  }

  ghost predicate FailedAt(rs: seq<Record>, t: Test, k: int, variant: bool) {
    0 <= k < |rs| && t in rs[k].actual && rs[k].actual[t] == Fail && rs[k].variant == variant
  }

  /** Execution `j` is the reviewed repair of the variant failure of `t` in execution `k`. */
  ghost predicate ExactlyRepairedAt(rs: seq<Record>, edges: Edges, t: Test, k: int, j: int) {
    && 0 <= k < j < |rs| && rs[k].log in edges && edges[rs[k].log] == Edge(rs[k].commit, t, rs[j].log)
    && rs[j].commit == rs[k].commit && t in rs[j].actual && rs[j].actual[t] == OpaquePass && t in rs[j].exact
  }

  /**
   * A cohort is accepted exactly when each test's last applicable execution passed, every failure has a later
   * applicable pass, and every failure of another source variant its reviewed repair, later and of the same source.
   */
  lemma {:induction false} AcceptedInFull(rs: seq<Record>, universe: set<Test>, edges: Edges)
    requires RecordsOk(rs, universe) && forall k :: 0 <= k < |rs| ==> Parsed(rs[k])
    ensures Accepts(rs, universe, edges) <==>
      && (forall t :: t in universe ==> exists k :: LastApplicable(rs, t, k) && rs[k].actual[t] in {Pass, OpaquePass})
      && (forall t, k :: FailedAt(rs, t, k, false) ==> exists j :: k < j && PassedAt(rs, t, j))
      && (forall t, k :: FailedAt(rs, t, k, true) ==> exists j :: ExactlyRepairedAt(rs, edges, t, k, j))
  {
    AcceptedExactly(rs, universe, edges);
    forall t
      ensures CurrentlyGreen(rs, t) <==>
        exists k :: LastApplicable(rs, t, k) && rs[k].actual[t] in {Pass, OpaquePass}
    {
      GreenInFull(rs, t);
    }
    RepairedInFull(rs);
    VariantsInFull(rs, edges);
  }

  lemma {:induction false} GreenInFull(rs: seq<Record>, t: Test)
    ensures CurrentlyGreen(rs, t) <==> exists k :: LastApplicable(rs, t, k) && rs[k].actual[t] in {Pass, OpaquePass}
  {
    var last := LastTouch(rs, |rs|, Applies, t);
    forall k | 0 <= k < |rs| && Applies(rs[k], t)
      ensures last.Some? && k <= last.value
    {
      LastTouchIsLast(rs, |rs|, Applies, t, k);
    }
    if last.Some? {
      assert LastApplicable(rs, t, last.value);
    }
  }

  /** A later sequence number is a later place in the list. */
  lemma {:induction false} LaterIsAfter(rs: seq<Record>, j: int, k: int)
    requires Chronological(rs, At) && 0 <= j < |rs| && 0 <= k < |rs|
    ensures At(rs[j]) > At(rs[k]) <==> j > k
  {
  }

  lemma {:induction false} RepairedInFull(rs: seq<Record>)
    requires Chronological(rs, At)
    ensures FailuresRepaired(rs) <==>
      forall t, k :: FailedAt(rs, t, k, false) ==> exists j :: k < j && PassedAt(rs, t, j)
  {
    forall t, k | FailedAt(rs, t, k, false)
      ensures LaterTouch(rs, At, Mends, t, At(rs[k])) <==> exists j :: k < j && PassedAt(rs, t, j)
    {
      forall j | 0 <= j < |rs|
        ensures Mends(rs[j], t) && At(rs[j]) > At(rs[k]) <==> k < j && PassedAt(rs, t, j)
      {
        LaterIsAfter(rs, j, k);
      }
    }
    if FailuresRepaired(rs) {
      forall t, k | FailedAt(rs, t, k, false)
        ensures LaterTouch(rs, At, Mends, t, At(rs[k]))
      {
        assert RepairedAt(rs, t) && Fails(rs[k], t);
      }
    }
    if forall t, k :: FailedAt(rs, t, k, false) ==> exists j :: k < j && PassedAt(rs, t, j) {
      forall t
        ensures RepairedAt(rs, t)
      {
        assert forall k :: 0 <= k < |rs| && Fails(rs[k], t) ==> FailedAt(rs, t, k, false);
      }
    }
  }

  lemma {:induction false} VariantsInFull(rs: seq<Record>, edges: Edges)
    requires Chronological(rs, At)
    ensures VariantsRepaired(rs, edges) <==>
      forall t, k :: FailedAt(rs, t, k, true) ==> exists j :: ExactlyRepairedAt(rs, edges, t, k, j)
  {
    forall t, k | FailedAt(rs, t, k, true)
      ensures VariantOk(rs, edges, k, Event(rs[k].commit, t, rs[k].log)) <==>
        exists j :: ExactlyRepairedAt(rs, edges, t, k, j)
    {
      VariantInFull(rs, edges, t, k);
    }
    if VariantsRepaired(rs, edges) {
      forall t, k | FailedAt(rs, t, k, true)
        ensures VariantOk(rs, edges, k, Event(rs[k].commit, t, rs[k].log))
      {
        assert VariantRepairedAt(rs, edges, Event(rs[k].commit, t, rs[k].log));
        assert VariantFails(rs[k], Event(rs[k].commit, t, rs[k].log));
      }
    }
    if forall t, k :: FailedAt(rs, t, k, true) ==> exists j :: ExactlyRepairedAt(rs, edges, t, k, j) {
      forall e: Event
        ensures VariantRepairedAt(rs, edges, e)
      {
        forall k | 0 <= k < |rs| && VariantFails(rs[k], e)
          ensures VariantOk(rs, edges, k, e)
        {
          assert FailedAt(rs, e.test, k, true) && e == Event(rs[k].commit, e.test, rs[k].log);
        }
      }
    }
  }

  ghost predicate VariantOk(rs: seq<Record>, edges: Edges, k: int, e: Event)
    requires 0 <= k < |rs|
  {
    RepairOf(e, edges).Some? && LaterTouch(rs, At, ExactRepair, RepairOf(e, edges).value, At(rs[k]))
  }

  lemma {:induction false} VariantInFull(rs: seq<Record>, edges: Edges, t: Test, k: int)
    requires Chronological(rs, At) && FailedAt(rs, t, k, true)
    ensures VariantOk(rs, edges, k, Event(rs[k].commit, t, rs[k].log)) <==>
      exists j :: ExactlyRepairedAt(rs, edges, t, k, j)
  {
    var e := Event(rs[k].commit, t, rs[k].log);
    forall j | 0 <= j < |rs|
      ensures RepairOf(e, edges).Some? && ExactRepair(rs[j], RepairOf(e, edges).value) && At(rs[j]) > At(rs[k])
        <==> ExactlyRepairedAt(rs, edges, t, k, j)
    {
      LaterIsAfter(rs, j, k);
    }
  }

  // ----- the cohort it reports, in full -----

  ghost predicate SourcesCome(sources: seq<Source>, rs: seq<Record>, n: nat)
    requires n <= |rs|
  {
    forall x :: x in sources ==> exists k :: 0 <= k < n && rs[k].mode != Named && x == OwnSource(rs[k])
  }

  lemma {:induction false} SourcesComeStep(sources: seq<Source>, rs: seq<Record>, n: nat)
    requires n < |rs| && SourcesCome(sources, rs, n)
    ensures SourcesCome(sources + Membership(rs[n]), rs, n + 1)
  {
    forall x | x in sources + Membership(rs[n])
      ensures exists k :: 0 <= k < n + 1 && rs[k].mode != Named && x == OwnSource(rs[k])
    {
      if x in sources {
        var k :| 0 <= k < n && rs[k].mode != Named && x == OwnSource(rs[k]);
      }
    }
  }

  lemma {:induction false} FoldSourcesCome(rs: seq<Record>, n: nat)
    requires n <= |rs|
    ensures SourcesCome(Fold(rs, n).sources, rs, n)
  {
    var holds := (s: State, k: nat) => k <= |rs| && SourcesCome(s.sources, rs, k);
    forall s: State, k: nat | k < |rs| && holds(s, k)
      ensures holds(Apply(s, rs[k]), k + 1)
    {
      SourcesComeStep(s.sources, rs, k);
    }
    FoldKeeps(Apply, EMPTY, rs, n, holds);
  }

  lemma {:induction false} RetainedInFull(rs: seq<Record>, t: Test, k: int)
    requires Chronological(rs, At) && LastApplicable(rs, t, k)
    ensures var s := Fold(rs, |rs|);
      (t, rs[k].actual[t]) in s.retained.Items && (t, rs[k].sequence) in s.owners.Items
  {
    FoldMeans(rs, |rs|);
    LastTouchIsLast(rs, |rs|, Applies, t, k);
    assert LatestAt(Fold(rs, |rs|).retained, rs, |rs|, Applies, Observed, t);
    assert LatestAt(Fold(rs, |rs|).owners, rs, |rs|, Applies, When, t);
    var last := LastTouch(rs, |rs|, Applies, t).value;
    assert Applies(rs[last], t);
  }

  lemma {:induction false} RetainedHasLast(rs: seq<Record>, t: Test) returns (k: int)
    requires t in Fold(rs, |rs|).retained
    ensures LastApplicable(rs, t, k)
  {
    FoldMeans(rs, |rs|);
    assert LatestAt(Fold(rs, |rs|).retained, rs, |rs|, Applies, Observed, t);
    k := LastTouch(rs, |rs|, Applies, t).value;
    forall j | k < j < |rs| && Applies(rs[j], t)
      ensures false
    {
      LastTouchIsLast(rs, |rs|, Applies, t, j);
    }
  }

  /** Named passes are the tests whose last applicable execution passed by name. */
  lemma {:induction false} NamedInFull(rs: seq<Record>, t: Test)
    requires Chronological(rs, At)
    ensures t in NamedPasses(Fold(rs, |rs|)) <==> exists k :: LastApplicable(rs, t, k) && rs[k].actual[t] == Pass
  {
    if t in Fold(rs, |rs|).retained {
      var k := RetainedHasLast(rs, t);
      RetainedInFull(rs, t, k);
    }
    if k :| LastApplicable(rs, t, k) && rs[k].actual[t] == Pass {
      RetainedInFull(rs, t, k);
    }
  }

  /**
   * There is one opaque source for each execution that is not named outcome by outcome, in their order, and its
   * members are the tests whose last applicable execution it was and which it passed opaquely.
   */
  lemma {:induction false} SourcesInFull(rs: seq<Record>, k: int, i: int)
    requires Chronological(rs, At) && 0 <= k < |rs|
    ensures var sources := NarrowAll(Fold(rs, |rs|), Fold(rs, |rs|).sources);
      && SourcesAscend(sources, At(rs[|rs| - 1]))
      && (rs[k].mode != Named <==> exists x :: x in sources && x.sequence == rs[k].sequence)
      && (0 <= i < |sources| && sources[i].sequence == rs[k].sequence ==>
            forall t :: t in sources[i].members <==> LastApplicable(rs, t, k) && rs[k].actual[t] == OpaquePass)
  {
    var s := Fold(rs, |rs|);
    var sources := NarrowAll(s, s.sources);
    FoldListsSources(rs, |rs|);
    FoldSourcesCome(rs, |rs|);
    if rs[k].mode != Named {
      assert Lists(s.sources, rs[k]);
      var j :| 0 <= j < |s.sources| && s.sources[j] == OwnSource(rs[k]);
      assert sources[j] in sources && sources[j].sequence == rs[k].sequence;
    }
    forall j | 0 <= j < |sources| && sources[j].sequence == rs[k].sequence
      ensures rs[k].mode != Named && s.sources[j] == OwnSource(rs[k])
    {
      assert s.sources[j] in s.sources;
      var m :| 0 <= m < |rs| && rs[m].mode != Named && s.sources[j] == OwnSource(rs[m]);
      SameSequence(rs, m, k);
    }
    if 0 <= i < |sources| && sources[i].sequence == rs[k].sequence {
      forall t
        ensures t in sources[i].members <==> LastApplicable(rs, t, k) && rs[k].actual[t] == OpaquePass
      {
        MemberInFull(rs, k, t);
      }
    }
  }

  lemma {:induction false} SameSequence(rs: seq<Record>, j: int, k: int)
    requires Chronological(rs, At) && 0 <= j < |rs| && 0 <= k < |rs| && rs[j].sequence == rs[k].sequence
    ensures j == k
  {
    assert At(rs[j]) == At(rs[k]);
  }

  lemma {:induction false} MemberInFull(rs: seq<Record>, k: int, t: Test)
    requires Chronological(rs, At) && 0 <= k < |rs|
    ensures t in Narrow(Fold(rs, |rs|), OwnSource(rs[k])).members <==>
      LastApplicable(rs, t, k) && rs[k].actual[t] == OpaquePass
  {
    var s := Fold(rs, |rs|);
    if t in Narrow(s, OwnSource(rs[k])).members {
      var last := RetainedHasLast(rs, t);
      RetainedInFull(rs, t, last);
      SameSequence(rs, last, k);
    }
    if LastApplicable(rs, t, k) && rs[k].actual[t] == OpaquePass {
      RetainedInFull(rs, t, k);
    }
  }
}
