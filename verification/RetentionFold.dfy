// validation/promotion_unit_retention.py, `validate`: the fold over the records of one suite.
module RetentionFold {
  import opened Wrappers
  import opened StableSort
  import opened LatestMap

  type Test = string

  datatype Outcome = Pass | Fail | Ignored | Unknown

  /** An original test that was retired in favour of a successor. */
  datatype Policy = Policy(source: string, log: string, id: Test, successor: Test)

  datatype Record = Record(sequence: nat, source: string, log: string, invalidated: set<Test>,
                           outcomes: map<Test, Outcome>)

  /** The discovered tests, the retirement policies, and the baseline of an aggregate cohort. */
  datatype Suite = Suite(ids: set<Test>, policies: seq<Policy>, baseline: Option<nat>)

  datatype Retired = Retired(sequence: nat, policy: Policy)

  datatype State = State(results: map<Test, Outcome>, passing: map<Test, nat>, failures: map<Test, nat>,
                         failed: set<Test>, retired: seq<Retired>)

  // ----- one record -----

  function Extras(r: Record, suite: Suite): set<Test> { r.outcomes.Keys - suite.ids }

  predicate Covers(p: Policy, r: Record, suite: Suite) {
    && p.source == r.source && p.log == r.log && Extras(r, suite) == {p.id}
    && p.id in r.outcomes && r.outcomes[p.id] == Pass && p.successor in suite.ids
  }

  function Matches(policies: seq<Policy>, r: Record, suite: Suite): seq<Policy> {
    if policies == [] then []
    else (if Covers(policies[0], r, suite) then [policies[0]] else []) + Matches(policies[1..], r, suite)
  }

  /** The retired test a record holds, if it holds tests that are no longer discovered. */
  function RetiredBy(r: Record, suite: Suite): Option<Policy> {
    if Extras(r, suite) == {} || |Matches(suite.policies, r, suite)| != 1 then None
    else Some(Matches(suite.policies, r, suite)[0])
  }

  predicate RecordOk(r: Record, suite: Suite) {
    && r.sequence > 0 && r.invalidated <= suite.ids && r.outcomes != map[]
    && (Extras(r, suite) == {} || RetiredBy(r, suite).Some?)
    && forall t :: t in r.outcomes ==> r.outcomes[t] != Unknown
  }

  predicate Applies(suite: Suite, r: Record, t: Test) {
    && t in r.outcomes && t !in r.invalidated
    && !(RetiredBy(r, suite).Some? && RetiredBy(r, suite).value.id == t)
  }

  predicate Fails(r: Record, t: Test) { t in r.outcomes && r.outcomes[t] == Fail }

  predicate Passes(suite: Suite, r: Record, t: Test) { Applies(suite, r, t) && r.outcomes[t] == Pass }

  function At(r: Record): nat { r.sequence }

  function When(r: Record, t: Test): nat { r.sequence }

  function Observed(r: Record, t: Test): Outcome { if t in r.outcomes then r.outcomes[t] else Unknown }

  function RetiredOf(r: Record, suite: Suite): seq<Retired> {
    if RetiredBy(r, suite).Some? then [Retired(r.sequence, RetiredBy(r, suite).value)] else []
  }

  function Apply(suite: Suite, s: State, r: Record): State {
    State(
      s.results + (map t | t in r.outcomes && Applies(suite, r, t) :: r.outcomes[t]),
      s.passing + (map t | t in r.outcomes && Passes(suite, r, t) :: r.sequence),
      s.failures + (map t | t in r.outcomes && Fails(r, t) :: r.sequence),
      s.failed + (set t | t in r.outcomes && Fails(r, t)),
      s.retired + RetiredOf(r, suite))
  }

  const EMPTY := State(map[], map[], map[], {}, [])

  type Step = (State, Record) -> State

  function Stepper(suite: Suite): Step { (s: State, r: Record) => Apply(suite, s, r) }

  function Fold(suite: Suite, rs: seq<Record>, n: nat): State
    requires n <= |rs|
  {
    FoldBy(Stepper(suite), EMPTY, rs, n)
  }

  // ----- what the fold holds -----

  type Touches = (Record, Test) -> bool

  function Applying(suite: Suite): Touches { (r: Record, t: Test) => Applies(suite, r, t) }

  function Passing(suite: Suite): Touches { (r: Record, t: Test) => Passes(suite, r, t) }

  ghost predicate Means(suite: Suite, s: State, rs: seq<Record>, n: nat)
    requires n <= |rs|
  {
    && Latest(s.results, rs, n, Applying(suite), Observed)
    && Latest(s.passing, rs, n, Passing(suite), When)
    && Latest(s.failures, rs, n, Fails, When)
    && s.failed == s.failures.Keys
    && RetiredListed(Retires(suite), s.retired, rs, n)
  }

  type Retirement = Record -> Option<Policy>

  function Retires(suite: Suite): Retirement { (r: Record) => RetiredBy(r, suite) }

  predicate RetiredAs(retires: Retirement, r: Record, x: Retired) {
    retires(r).Some? && x == Retired(r.sequence, retires(r).value)
  }

  /** The retired executions are those of the records. */
  ghost predicate RetiredListed(retires: Retirement, retired: seq<Retired>, rs: seq<Record>, n: nat)
    requires n <= |rs|
  {
    forall x :: x in retired <==> exists k :: 0 <= k < n && RetiredAs(retires, rs[k], x)
  }

  lemma {:induction false} RetiredMore(retires: Retirement, retired: seq<Retired>, rs: seq<Record>, n: nat)
    requires n < |rs| && RetiredListed(retires, retired, rs, n)
    ensures RetiredListed(retires,
                          retired + (if retires(rs[n]).Some? then [Retired(rs[n].sequence, retires(rs[n]).value)]
                                     else []),
                          rs, n + 1)
  {
    var more := retired + (if retires(rs[n]).Some? then [Retired(rs[n].sequence, retires(rs[n]).value)] else []);
    forall x
      ensures x in more <==> exists k :: 0 <= k < n + 1 && RetiredAs(retires, rs[k], x)
    {
      assert x in retired <==> exists k :: 0 <= k < n && RetiredAs(retires, rs[k], x);
      assert x in more <==> x in retired || RetiredAs(retires, rs[n], x);
    }
  }

  lemma {:induction false} ResultsStep(suite: Suite, s: State, rs: seq<Record>, n: nat)
    requires n < |rs| && Means(suite, s, rs, n)
    ensures var after := Apply(suite, s, rs[n]);
      && Latest(after.results, rs, n + 1, Applying(suite), Observed)
      && Latest(after.passing, rs, n + 1, Passing(suite), When)
      && Latest(after.failures, rs, n + 1, Fails, When)
  {
    var after := Apply(suite, s, rs[n]);
    LatestStep(s.results, after.results, rs, n, Applying(suite), Observed);
    LatestStep(s.passing, after.passing, rs, n, Passing(suite), When);
    LatestStep(s.failures, after.failures, rs, n, Fails, When);
  }

  lemma {:induction false} MeansStep(suite: Suite, s: State, rs: seq<Record>, n: nat)
    requires n < |rs| && Means(suite, s, rs, n)
    ensures Means(suite, Apply(suite, s, rs[n]), rs, n + 1)
  {
    ResultsStep(suite, s, rs, n);
    RetiredMore(Retires(suite), s.retired, rs, n);
    FailedStep(suite, s, rs[n]);
  }

  lemma {:induction false} FailedStep(suite: Suite, s: State, r: Record)
    requires s.failed == s.failures.Keys
    ensures Apply(suite, s, r).failed == Apply(suite, s, r).failures.Keys
    ensures Apply(suite, s, r).retired == s.retired + RetiredOf(r, suite)
  {
  }

  lemma {:induction false} FoldMeans(suite: Suite, rs: seq<Record>, n: nat)
    requires n <= |rs|
    ensures Means(suite, Fold(suite, rs, n), rs, n)
  {
    var holds := (s: State, k: nat) => k <= |rs| && Means(suite, s, rs, k);
    forall s: State, k: nat | k < |rs| && holds(s, k)
      ensures holds(Stepper(suite)(s, rs[k]), k + 1)
    {
      MeansStep(suite, s, rs, k);
    }
    FoldKeeps(Stepper(suite), EMPTY, rs, n, holds);
  }

  // ----- the verdict -----

  predicate SuccessorPassed(s: State, r: Retired) {
    var t := r.policy.successor;
    && t in s.results && s.results[t] == Pass && t in s.passing && s.passing[t] > r.sequence
    && (t in s.failures ==> s.passing[t] > s.failures[t])
  }

  predicate Settled(s: State, suite: Suite) {
    && s.results.Keys == suite.ids && (forall t :: t in s.results ==> s.results[t] == Pass || s.results[t] == Ignored)
    && (forall t :: t in s.failed ==> t in s.results && s.results[t] == Pass)
    && (suite.baseline.Some? ==> forall t :: t in s.results ==> s.results[t] == Pass)
    && (forall i :: 0 <= i < |s.retired| ==> SuccessorPassed(s, s.retired[i]))
  }

  /** No retired execution is enrolled twice. */
  ghost predicate OncePerPolicy(retires: Retirement, rs: seq<Record>, n: nat)
    requires n <= |rs|
  {
    forall j, k :: 0 <= j < k < n && retires(rs[j]).Some? && retires(rs[k]).Some? ==>
      !SameExecution(retires(rs[j]).value, retires(rs[k]).value)
  }

  predicate SameExecution(p: Policy, q: Policy) { p.source == q.source && p.log == q.log && p.id == q.id }

  type Check = Record -> bool

  function Checks(suite: Suite): Check { (r: Record) => RecordOk(r, suite) }

  ghost predicate RecordsOk(good: Check, retires: Retirement, baseline: Option<nat>, rs: seq<Record>) {
    && rs != [] && Chronological(rs, At) && (forall k :: 0 <= k < |rs| ==> good(rs[k]))
    && OncePerPolicy(retires, rs, |rs|)
    && (baseline.Some? ==> exists k :: 0 <= k < |rs| && At(rs[k]) == baseline.value)
  }

  function Backwards(r: Record): int { 0 - r.sequence }

  ghost predicate Accepts(suite: Suite, rs: seq<Record>) {
    RecordsOk(Checks(suite), Retires(suite), suite.baseline, rs) && Settled(Fold(suite, rs, |rs|), suite)
  }

  method FoldRecords(suite: Suite, rs: seq<Record>) returns (s: State)
    ensures s == Fold(suite, rs, |rs|)
  {
    s := EMPTY;
    for n := 0 to |rs|
      invariant s == Fold(suite, rs, n)
    {
      s := Apply(suite, s, rs[n]);
    }
  }

  /** The loop over the records of one suite, and the checks after it. */
  method ValidateSuite(suite: Suite, records: seq<Record>) returns (ok: bool)
    ensures ok == Accepts(suite, Descend(Backwards, records))
  {
    var rs := Descend(Backwards, records);
    DescendSorts(Backwards, records);
    assert forall r :: Checks(suite)(r) ==> r.sequence > 0;
    ok := CheckRecords(rs, Checks(suite), Retires(suite), suite.baseline);
    if !ok { return; }
    var s := FoldRecords(suite, rs);
    ok := Settled(s, suite);
  }

  ghost predicate CheckedSoFar(rs: seq<Record>, good: Check, retires: Retirement, n: nat, sequences: set<nat>,
                               policies: seq<Policy>)
    requires n <= |rs|
  {
    && SequencesSeen(rs, n, sequences) && (forall k :: 0 <= k < n ==> good(rs[k]))
    && Enrolled(retires, rs, n, policies) && OncePerPolicy(retires, rs, n)
  }

  ghost predicate SequencesSeen(rs: seq<Record>, n: nat, sequences: set<nat>)
    requires n <= |rs|
  {
    && (forall x :: x in sequences <==> exists k :: 0 <= k < n && At(rs[k]) == x)
    && (forall j, k :: 0 <= j < k < n ==> At(rs[j]) < At(rs[k]))
  }

  ghost predicate Enrolled(retires: Retirement, rs: seq<Record>, n: nat, policies: seq<Policy>)
    requires n <= |rs|
  {
    forall p :: p in policies <==> exists k :: 0 <= k < n && retires(rs[k]) == Some(p)
  }

  predicate Repeats(policies: seq<Policy>, p: Policy) { exists q :: q in policies && SameExecution(q, p) }

  /** One round: a repeated sequence, a malformed record or a repeated retirement refuses the suite. */
  method CheckRecord(rs: seq<Record>, good: Check, retires: Retirement, n: nat, sequences: set<nat>,
                     policies: seq<Policy>)
    returns (ok: bool)
    requires n < |rs| && Descending(Backwards, rs)
    requires CheckedSoFar(rs, good, retires, n, sequences, policies)
    ensures !ok ==> forall baseline :: !RecordsOk(good, retires, baseline, rs)
    ensures ok ==> good(rs[n]) && rs[n].sequence !in sequences
    ensures ok ==> !(retires(rs[n]).Some? && Repeats(policies, retires(rs[n]).value))
  {
    if rs[n].sequence in sequences {
      ghost var k :| 0 <= k < n && At(rs[k]) == At(rs[n]);
      assert !(At(rs[k]) < At(rs[n]));
      return false;
    }
    if !good(rs[n]) { return false; }
    if retires(rs[n]).Some? && Repeats(policies, retires(rs[n]).value) {
      RepeatRefuses(retires, rs, n, policies);
      return false;
    }
    ok := true;
  }

  lemma {:induction false} RepeatRefuses(retires: Retirement, rs: seq<Record>, n: nat, policies: seq<Policy>)
    requires n < |rs| && Enrolled(retires, rs, n, policies)
    requires retires(rs[n]).Some? && Repeats(policies, retires(rs[n]).value)
    ensures !OncePerPolicy(retires, rs, |rs|)
  {
    var q :| q in policies && SameExecution(q, retires(rs[n]).value);
    var k :| 0 <= k < n && retires(rs[k]) == Some(q);
  }

  lemma {:induction false} CheckedMore(rs: seq<Record>, good: Check, retires: Retirement, n: nat, sequences: set<nat>,
                                       policies: seq<Policy>)
    requires n < |rs| && Descending(Backwards, rs) && CheckedSoFar(rs, good, retires, n, sequences, policies)
    requires good(rs[n]) && rs[n].sequence !in sequences
    requires !(retires(rs[n]).Some? && Repeats(policies, retires(rs[n]).value))
    ensures CheckedSoFar(rs, good, retires, n + 1, sequences + {rs[n].sequence},
                         policies + (if retires(rs[n]).Some? then [retires(rs[n]).value] else []))
  {
    SequencesMore(rs, n, sequences);
    EnrollMore(retires, rs, n, policies);
  }

  lemma {:induction false} SequencesMore(rs: seq<Record>, n: nat, sequences: set<nat>)
    requires n < |rs| && Descending(Backwards, rs) && rs[n].sequence !in sequences && SequencesSeen(rs, n, sequences)
    ensures SequencesSeen(rs, n + 1, sequences + {rs[n].sequence})
  {
    forall k | 0 <= k < n
      ensures At(rs[k]) < At(rs[n])
    {
      assert Backwards(rs[n]) <= Backwards(rs[k]);
      assert At(rs[k]) in sequences;
    }
    forall x
      ensures x in sequences + {rs[n].sequence} <==> exists k :: 0 <= k < n + 1 && At(rs[k]) == x
    {
      SequenceSeen(rs, n, sequences, x);
    }
  }

  lemma {:induction false} SequenceSeen(rs: seq<Record>, n: nat, sequences: set<nat>, x: nat)
    requires n < |rs| && (x in sequences <==> exists k :: 0 <= k < n && At(rs[k]) == x)
    ensures x in sequences + {rs[n].sequence} <==> exists k :: 0 <= k < n + 1 && At(rs[k]) == x
  {
    if x in sequences {
      var k :| 0 <= k < n && At(rs[k]) == x;
    }
    if x == rs[n].sequence { assert At(rs[n]) == x; }
  }

  lemma {:induction false} EnrollMore(retires: Retirement, rs: seq<Record>, n: nat, policies: seq<Policy>)
    requires n < |rs| && Enrolled(retires, rs, n, policies) && OncePerPolicy(retires, rs, n)
    requires !(retires(rs[n]).Some? && Repeats(policies, retires(rs[n]).value))
    ensures Enrolled(retires, rs, n + 1, policies + (if retires(rs[n]).Some? then [retires(rs[n]).value] else []))
    ensures OncePerPolicy(retires, rs, n + 1)
  {
    var more := policies + (if retires(rs[n]).Some? then [retires(rs[n]).value] else []);
    forall p
      ensures p in more <==> exists k :: 0 <= k < n + 1 && retires(rs[k]) == Some(p)
    {
      assert p in policies <==> exists k :: 0 <= k < n && retires(rs[k]) == Some(p);
      assert p in more <==> p in policies || retires(rs[n]) == Some(p);
    }
    forall k | 0 <= k < n && retires(rs[k]).Some? && retires(rs[n]).Some?
      ensures !SameExecution(retires(rs[k]).value, retires(rs[n]).value)
    {
      assert retires(rs[k]).value in policies;
    }
  }

  method CheckRecords(rs: seq<Record>, good: Check, retires: Retirement, baseline: Option<nat>) returns (ok: bool)
    requires Descending(Backwards, rs) && forall r :: good(r) ==> r.sequence > 0
    ensures ok == RecordsOk(good, retires, baseline, rs)
  {
    var n, sequences: set<nat>, policies: seq<Policy> := 0, {}, [];
    while n < |rs|
      invariant n <= |rs| && CheckedSoFar(rs, good, retires, n, sequences, policies)
    {
      ok := CheckRecord(rs, good, retires, n, sequences, policies);
      if !ok { return; }
      CheckedMore(rs, good, retires, n, sequences, policies);
      sequences := sequences + {rs[n].sequence};
      policies := policies + (if retires(rs[n]).Some? then [retires(rs[n]).value] else []);
      n := n + 1;
    }
    AllChecked(rs, good, retires, baseline, sequences, policies);
    ok := rs != [] && (baseline.Some? ==> baseline.value in sequences);
  }

  lemma {:induction false} AllChecked(rs: seq<Record>, good: Check, retires: Retirement, baseline: Option<nat>,
                                      sequences: set<nat>, policies: seq<Policy>)
    requires CheckedSoFar(rs, good, retires, |rs|, sequences, policies) && forall r :: good(r) ==> r.sequence > 0
    ensures RecordsOk(good, retires, baseline, rs) == (rs != [] && (baseline.Some? ==> baseline.value in sequences))
  {
  }

  // ----- consequences -----

  /** The last execution that still applies to `t`. */
  function LastOutcome(suite: Suite, rs: seq<Record>, t: Test): Option<Outcome> {
    var last := LastTouch(rs, |rs|, Applying(suite), t);
    if last.Some? then Some(Observed(rs[last.value], t)) else None
  }

  ghost predicate EverFailed(rs: seq<Record>, t: Test) { exists k :: 0 <= k < |rs| && Fails(rs[k], t) }

  /** A successor of a retired test passed, still applicably, after the retirement and after all its own failures. */
  ghost predicate Succeeded(suite: Suite, rs: seq<Record>, k: nat)
    requires k < |rs| && RetiredBy(rs[k], suite).Some?
  {
    var t := RetiredBy(rs[k], suite).value.successor;
    && LastOutcome(suite, rs, t) == Some(Pass)
    && LaterTouch(rs, At, Passing(suite), t, At(rs[k]))
    && forall j :: 0 <= j < |rs| && Fails(rs[j], t) ==> LaterTouch(rs, At, Passing(suite), t, At(rs[j]))
  }

  /** What the suite has to show of test `t`. */
  ghost predicate TestSettled(suite: Suite, rs: seq<Record>, t: Test) {
    && (LastOutcome(suite, rs, t) == Some(Pass) || LastOutcome(suite, rs, t) == Some(Ignored))
    && (EverFailed(rs, t) || suite.baseline.Some? ==> LastOutcome(suite, rs, t) == Some(Pass))
  }

  lemma {:induction false} ResultAt(suite: Suite, s: State, rs: seq<Record>, t: Test)
    requires Means(suite, s, rs, |rs|)
    ensures t in s.results <==> LastOutcome(suite, rs, t).Some?
    ensures t in s.results ==> Some(s.results[t]) == LastOutcome(suite, rs, t)
    ensures t in s.failed <==> EverFailed(rs, t)
  {
    assert LatestAt(s.results, rs, |rs|, Applying(suite), Observed, t);
    assert LatestAt(s.failures, rs, |rs|, Fails, When, t);
    if k :| 0 <= k < |rs| && Fails(rs[k], t) {
      LastTouchIsLast(rs, |rs|, Fails, t, k);
    }
  }

  lemma {:induction false} SuccessorExactly(suite: Suite, s: State, rs: seq<Record>, k: nat)
    requires Means(suite, s, rs, |rs|) && Chronological(rs, At) && k < |rs| && RetiredBy(rs[k], suite).Some?
    ensures SuccessorPassed(s, Retired(rs[k].sequence, RetiredBy(rs[k], suite).value)) <==> Succeeded(suite, rs, k)
  {
    var t := RetiredBy(rs[k], suite).value.successor;
    ResultAt(suite, s, rs, t);
    assert LatestAt(s.failures, rs, |rs|, Fails, When, t);
    assert LatestAt(s.passing, rs, |rs|, Passing(suite), When, t);
    EveryFailureFollowed(rs, At, s.failures, Fails, When, s.passing, Passing(suite), When, t, t);
    if j :| 0 <= j < |rs| && Passing(suite)(rs[j], t) && At(rs[j]) > At(rs[k]) {
      LastTouchIsLast(rs, |rs|, Passing(suite), t, j);
      var last := LastTouch(rs, |rs|, Passing(suite), t).value;
      assert j < last ==> At(rs[j]) < At(rs[last]);
    }
    if t in s.passing && s.passing[t] > rs[k].sequence {
      var last := LastTouch(rs, |rs|, Passing(suite), t).value;
      assert Passing(suite)(rs[last], t) && At(rs[last]) > At(rs[k]);
    }
  }

  lemma {:induction false} MatchesCover(policies: seq<Policy>, r: Record, suite: Suite)
    ensures forall p :: p in Matches(policies, r, suite) ==> Covers(p, r, suite)
  {
    if policies != [] {
      MatchesCover(policies[1..], r, suite);
    }
  }

  /** A test that a well-formed record reports is discovered, or it is the retired one, which passed. */
  lemma {:induction false} OnlyRetiredIsExtra(suite: Suite, r: Record, t: Test)
    requires RecordOk(r, suite) && t in r.outcomes && t !in suite.ids
    ensures RetiredBy(r, suite).Some? && RetiredBy(r, suite).value.id == t && r.outcomes[t] == Pass
  {
    assert t in Extras(r, suite);
    MatchesCover(suite.policies, r, suite);
    var p := RetiredBy(r, suite).value;
    assert p in Matches(suite.policies, r, suite);
    assert Covers(p, r, suite);
  }

  lemma {:induction false} ResultsAreDiscovered(suite: Suite, s: State, rs: seq<Record>, t: Test)
    requires Means(suite, s, rs, |rs|) && forall k :: 0 <= k < |rs| ==> RecordOk(rs[k], suite)
    ensures t in s.results || t in s.failed ==> t in suite.ids
  {
    assert LatestAt(s.results, rs, |rs|, Applying(suite), Observed, t);
    assert LatestAt(s.failures, rs, |rs|, Fails, When, t);
    if t !in suite.ids {
      var a, f := LastTouch(rs, |rs|, Applying(suite), t), LastTouch(rs, |rs|, Fails, t);
      if a.Some? {
        OnlyRetiredIsExtra(suite, rs[a.value], t);
      }
      if f.Some? {
        OnlyRetiredIsExtra(suite, rs[f.value], t);
      }
    }
  }

  ghost predicate TestGreen(s: State, suite: Suite, t: Test) {
    && t in s.results && (s.results[t] == Pass || s.results[t] == Ignored)
    && (t in s.failed || suite.baseline.Some? ==> s.results[t] == Pass)
  }

  lemma {:induction false} GreenExactly(suite: Suite, s: State)
    requires forall t :: t in s.results || t in s.failed ==> t in suite.ids
    ensures s.results.Keys == suite.ids
      && (forall t :: t in s.results ==> s.results[t] == Pass || s.results[t] == Ignored)
      && (forall t :: t in s.failed ==> t in s.results && s.results[t] == Pass)
      && (suite.baseline.Some? ==> forall t :: t in s.results ==> s.results[t] == Pass)
      <==> forall t :: t in suite.ids ==> TestGreen(s, suite, t)
  {
    if forall t :: t in suite.ids ==> TestGreen(s, suite, t) {
      assert s.results.Keys == suite.ids;
      assert forall t :: t in s.results ==> TestGreen(s, suite, t);
      assert forall t :: t in s.failed ==> TestGreen(s, suite, t);
    }
  }

  /**
   * What acceptance means, of the records themselves: every test's last applicable outcome is a pass or ignored,
   * a pass if it ever failed, and every retired execution has a successor that passed after it.
   */
  lemma {:induction false} SettledExactly(suite: Suite, rs: seq<Record>)
    requires RecordsOk(Checks(suite), Retires(suite), suite.baseline, rs)
    ensures Settled(Fold(suite, rs, |rs|), suite) <==>
      (forall t :: t in suite.ids ==> TestSettled(suite, rs, t))
      && (forall k :: 0 <= k < |rs| && RetiredBy(rs[k], suite).Some? ==> Succeeded(suite, rs, k))
  {
    FoldMeans(suite, rs, |rs|);
    assert forall k :: 0 <= k < |rs| ==> Checks(suite)(rs[k]);
    StateExactly(suite, Fold(suite, rs, |rs|), rs);
  }

  lemma {:induction false} StateExactly(suite: Suite, s: State, rs: seq<Record>)
    requires Means(suite, s, rs, |rs|) && Chronological(rs, At) && forall k :: 0 <= k < |rs| ==> RecordOk(rs[k], suite)
    ensures Settled(s, suite) <==>
      (forall t :: t in suite.ids ==> TestSettled(suite, rs, t))
      && (forall k :: 0 <= k < |rs| && RetiredBy(rs[k], suite).Some? ==> Succeeded(suite, rs, k))
  {
    forall t: Test
      ensures t in s.results || t in s.failed ==> t in suite.ids
      ensures TestGreen(s, suite, t) <==> TestSettled(suite, rs, t)
    {
      ResultsAreDiscovered(suite, s, rs, t);
      ResultAt(suite, s, rs, t);
    }
    GreenExactly(suite, s);
    RetiredExactly(suite, s, rs);
  }

  lemma {:induction false} RetiredExactly(suite: Suite, s: State, rs: seq<Record>)
    requires Means(suite, s, rs, |rs|) && Chronological(rs, At)
    ensures (forall i :: 0 <= i < |s.retired| ==> SuccessorPassed(s, s.retired[i])) <==>
      forall k :: 0 <= k < |rs| && RetiredBy(rs[k], suite).Some? ==> Succeeded(suite, rs, k)
  {
    forall k | 0 <= k < |rs| && RetiredBy(rs[k], suite).Some?
      ensures var x := Retired(rs[k].sequence, RetiredBy(rs[k], suite).value);
        x in s.retired && (SuccessorPassed(s, x) <==> Succeeded(suite, rs, k))
    {
      SuccessorExactly(suite, s, rs, k);
      assert RetiredAs(Retires(suite), rs[k], Retired(rs[k].sequence, RetiredBy(rs[k], suite).value));
    }
    forall i | 0 <= i < |s.retired|
      ensures exists k :: 0 <= k < |rs| && RetiredAs(Retires(suite), rs[k], s.retired[i])
    {
      assert s.retired[i] in s.retired;
    }
  }

  // ----- a failure whose inputs changed -----

  /** Every failure of `t` has an applicable pass after it. */
  ghost predicate FailuresFollowed(suite: Suite, rs: seq<Record>, t: Test) {
    forall k :: 0 <= k < |rs| && Fails(rs[k], t) ==> LaterTouch(rs, At, Passing(suite), t, At(rs[k]))
  }

  /** No invalidated failure of `t` comes after everything that applies to `t`. */
  ghost predicate NoFailureLast(suite: Suite, rs: seq<Record>, t: Test) {
    forall k :: 0 <= k < |rs| && Fails(rs[k], t) ==>
      Applies(suite, rs[k], t) || exists j :: k < j < |rs| && Applies(suite, rs[j], t)
  }

  /**
   * The cohort fold demands a pass after every failure; this fold asks only that the last applicable outcome be
   * a pass, so an accepted suite has those later passes exactly when no invalidated failure comes last.
   */
  lemma {:induction false} LaterPassExactly(suite: Suite, rs: seq<Record>, t: Test)
    requires Chronological(rs, At) && TestSettled(suite, rs, t)
    ensures FailuresFollowed(suite, rs, t) <==> NoFailureLast(suite, rs, t)
  {
    var last := LastTouch(rs, |rs|, Applying(suite), t).value;
    if NoFailureLast(suite, rs, t) {
      forall k | 0 <= k < |rs| && Fails(rs[k], t)
        ensures LaterTouch(rs, At, Passing(suite), t, At(rs[k]))
      {
        if Applies(suite, rs[k], t) {
          LastTouchIsLast(rs, |rs|, Applying(suite), t, k);
        } else {
          var j :| k < j < |rs| && Applies(suite, rs[j], t);
          LastTouchIsLast(rs, |rs|, Applying(suite), t, j);
        }
        assert EverFailed(rs, t);
        assert Passing(suite)(rs[last], t) && At(rs[last]) > At(rs[k]);
      }
    }
    if FailuresFollowed(suite, rs, t) {
      forall k | 0 <= k < |rs| && Fails(rs[k], t)
        ensures exists j :: k < j < |rs| && Applies(suite, rs[j], t)
      {
        var j :| 0 <= j < |rs| && Passing(suite)(rs[j], t) && At(rs[j]) > At(rs[k]);
        assert Applies(suite, rs[j], t);
      }
    }
  }

  const LASTING := Suite({"t"}, [], None)
  const PASSED := Record(1, "a", "x", {}, map["t" := Pass])
  const FAILED := Record(2, "b", "y", {"t"}, map["t" := Fail])

  /** Accepted, although the failure is the last word on the test and nothing passed after it. */
  lemma {:induction false} FailureMayStandLast()
    ensures Accepts(LASTING, [PASSED, FAILED]) && Fails(FAILED, "t")
      && !FailuresFollowed(LASTING, [PASSED, FAILED], "t")
  {
    var rs := [PASSED, FAILED];
    assert "t" in PASSED.outcomes && "t" in FAILED.outcomes;
    assert Extras(PASSED, LASTING) == {} && Extras(FAILED, LASTING) == {};
    assert RecordOk(PASSED, LASTING) && RecordOk(FAILED, LASTING);
    LastStands(rs);
    assert RecordsOk(Checks(LASTING), Retires(LASTING), None, rs);
    SettledExactly(LASTING, rs);
    assert Fails(rs[1], "t") && !LaterTouch(rs, At, Passing(LASTING), "t", At(rs[1]));
  }

  lemma {:induction false} LastStands(rs: seq<Record>)
    requires rs == [PASSED, FAILED]
    ensures TestSettled(LASTING, rs, "t")
  {
    assert Extras(PASSED, LASTING) == {};
    assert Applies(LASTING, rs[0], "t") && !Applies(LASTING, rs[1], "t");
    assert LastTouch(rs, 1, Applying(LASTING), "t") == Some(0);
    assert LastTouch(rs, 2, Applying(LASTING), "t") == Some(0);
  }

  // ----- acceptance, in full -----

  /** Policy `p` retires the only test of the record that is no longer discovered, which passed. */
  ghost predicate CoversInFull(p: Policy, r: Record, suite: Suite) {
    && p.source == r.source && p.log == r.log && p.successor in suite.ids
    && p.id !in suite.ids && (p.id, Pass) in r.outcomes.Items
    && forall t :: t in r.outcomes ==> t == p.id || t in suite.ids
  }

  ghost predicate OnlyCover(r: Record, suite: Suite, i: int) {
    && 0 <= i < |suite.policies| && CoversInFull(suite.policies[i], r, suite)
    && forall j :: 0 <= j < |suite.policies| && j != i ==> !CoversInFull(suite.policies[j], r, suite)
  }

  lemma {:induction false} CoversMeans(p: Policy, r: Record, suite: Suite)
    ensures Covers(p, r, suite) <==> CoversInFull(p, r, suite)
  {
    if Covers(p, r, suite) {
      assert p.id in Extras(r, suite);
      forall t | t in r.outcomes
        ensures t == p.id || t in suite.ids
      {
        assert t !in suite.ids ==> t in Extras(r, suite);
      }
    }
    if CoversInFull(p, r, suite) {
      assert Extras(r, suite) == {p.id};
    }
  }

  /** Among these policies exactly one, at `i`, covers the record. */
  ghost predicate OneCovers(policies: seq<Policy>, r: Record, suite: Suite, i: int) {
    && 0 <= i < |policies| && Covers(policies[i], r, suite)
    && forall j :: 0 <= j < |policies| && j != i ==> !Covers(policies[j], r, suite)
  }

  lemma {:induction false} MatchesNothing(policies: seq<Policy>, r: Record, suite: Suite)
    ensures Matches(policies, r, suite) == [] <==> forall j :: 0 <= j < |policies| ==> !Covers(policies[j], r, suite)
  {
    if policies != [] {
      MatchesNothing(policies[1..], r, suite);
      assert policies == [policies[0]] + policies[1..];
    }
  }

  lemma {:induction false} MatchesOne(policies: seq<Policy>, r: Record, suite: Suite, p: Policy)
    requires Matches(policies, r, suite) == [p]
    ensures exists i :: OneCovers(policies, r, suite, i) && policies[i] == p
  {
    var rest := policies[1..];
    assert forall j :: 0 < j < |policies| ==> policies[j] == rest[j - 1];
    MatchesNothing(rest, r, suite);
    if Covers(policies[0], r, suite) {
      var all := Matches(policies, r, suite);
      assert all == [policies[0]] + Matches(rest, r, suite) && |all| == 1 && all[0] == p;
      assert OneCovers(policies, r, suite, 0);
    } else {
      MatchesOne(rest, r, suite, p);
      var i :| OneCovers(rest, r, suite, i) && rest[i] == p;
      assert OneCovers(policies, r, suite, i + 1);
    }
  }

  lemma {:induction false} OneMatches(policies: seq<Policy>, r: Record, suite: Suite, i: int)
    requires OneCovers(policies, r, suite, i)
    ensures Matches(policies, r, suite) == [policies[i]]
  {
    var rest := policies[1..];
    forall j | 0 <= j < |rest| && j != i - 1
      ensures !Covers(rest[j], r, suite)
    {
      assert rest[j] == policies[j + 1];
    }
    if i == 0 {
      MatchesNothing(rest, r, suite);
    } else {
      assert rest[i - 1] == policies[i];
      OneMatches(rest, r, suite, i - 1);
    }
  }

  /** A record holds a retired test exactly when one policy covers it, and just one. */
  lemma {:induction false} RetiredInFull(r: Record, suite: Suite, p: Policy)
    ensures RetiredBy(r, suite) == Some(p) <==> exists i :: OnlyCover(r, suite, i) && suite.policies[i] == p
  {
    if Matches(suite.policies, r, suite) == [p] {
      MatchesOne(suite.policies, r, suite, p);
    }
    forall q: Policy
      ensures Covers(q, r, suite) <==> CoversInFull(q, r, suite)
    {
      CoversMeans(q, r, suite);
    }
    forall i
      ensures OneCovers(suite.policies, r, suite, i) <==> OnlyCover(r, suite, i)
    {
    }
    if i :| OnlyCover(r, suite, i) && suite.policies[i] == p {
      OneMatches(suite.policies, r, suite, i);
      assert p.id in Extras(r, suite);
    }
  }

  /** The last execution of `t` whose inputs have not changed since is `k`. */
  ghost predicate LastApplicable(rs: seq<Record>, t: Test, k: int) {
    && 0 <= k < |rs| && t in rs[k].outcomes && t !in rs[k].invalidated
    && forall j :: k < j < |rs| && t in rs[j].outcomes ==> t in rs[j].invalidated
  }

  ghost predicate PassedAt(rs: seq<Record>, t: Test, j: int) {
    0 <= j < |rs| && (t, Pass) in rs[j].outcomes.Items && t !in rs[j].invalidated
  }

  ghost predicate FailedAt(rs: seq<Record>, t: Test, j: int) { 0 <= j < |rs| && (t, Fail) in rs[j].outcomes.Items }

  /** The last applicable outcome is a pass, or ignored where that is enough. */
  ghost predicate EndsWell(suite: Suite, rs: seq<Record>, t: Test) {
    exists k :: LastApplicable(rs, t, k) &&
      (rs[k].outcomes[t] == Pass
       || (rs[k].outcomes[t] == Ignored && suite.baseline.None? && forall j :: !FailedAt(rs, t, j)))
  }

  /** The successor of the test retired at `k` passes, after the retirement and after each of its own failures. */
  ghost predicate SucceedsInFull(rs: seq<Record>, t: Test, k: int) {
    && (exists last :: LastApplicable(rs, t, last) && rs[last].outcomes[t] == Pass)
    && (exists j :: k < j && PassedAt(rs, t, j))
    && forall i :: FailedAt(rs, t, i) ==> exists j :: i < j && PassedAt(rs, t, j)
  }

  /** For a test that is still discovered, applicable means executed and not invalidated. */
  lemma {:induction false} DiscoveredApplies(suite: Suite, r: Record, t: Test)
    requires t in suite.ids
    ensures Applies(suite, r, t) <==> t in r.outcomes && t !in r.invalidated
  {
    if RetiredBy(r, suite).Some? {
      MatchesCover(suite.policies, r, suite);
      var p := RetiredBy(r, suite).value;
      assert p in Matches(suite.policies, r, suite);
      assert Covers(p, r, suite);
      assert p.id in Extras(r, suite);
    }
  }

  lemma {:induction false} LastInFull(suite: Suite, rs: seq<Record>, t: Test)
    requires t in suite.ids
    ensures LastOutcome(suite, rs, t).Some? ==>
      exists k :: LastApplicable(rs, t, k) && LastOutcome(suite, rs, t) == Some(rs[k].outcomes[t])
    ensures forall k :: LastApplicable(rs, t, k) ==> LastOutcome(suite, rs, t) == Some(rs[k].outcomes[t])
  {
    var last := LastTouch(rs, |rs|, Applying(suite), t);
    forall k | 0 <= k < |rs|
      ensures Applies(suite, rs[k], t) <==> t in rs[k].outcomes && t !in rs[k].invalidated
      ensures Applies(suite, rs[k], t) ==> last.Some? && k <= last.value
    {
      DiscoveredApplies(suite, rs[k], t);
      if Applies(suite, rs[k], t) { LastTouchIsLast(rs, |rs|, Applying(suite), t, k); }
    }
    if last.Some? { assert LastApplicable(rs, t, last.value); }
  }

  lemma {:induction false} PassesInFull(suite: Suite, rs: seq<Record>, t: Test, k: int)
    requires t in suite.ids && Chronological(rs, At) && 0 <= k < |rs|
    ensures LaterTouch(rs, At, Passing(suite), t, At(rs[k])) <==> exists j :: k < j && PassedAt(rs, t, j)
  {
    forall j | 0 <= j < |rs|
      ensures Passing(suite)(rs[j], t) && At(rs[j]) > At(rs[k]) <==> k < j && PassedAt(rs, t, j)
    {
      DiscoveredApplies(suite, rs[j], t);
    }
  }

  lemma {:induction false} TestInFull(suite: Suite, rs: seq<Record>, t: Test)
    requires t in suite.ids
    ensures TestSettled(suite, rs, t) <==> EndsWell(suite, rs, t)
  {
    LastInFull(suite, rs, t);
    assert EverFailed(rs, t) <==> exists j :: FailedAt(rs, t, j) by {
      assert forall j :: FailedAt(rs, t, j) <==> 0 <= j < |rs| && Fails(rs[j], t);
    }
  }

  lemma {:induction false} SuccessInFull(suite: Suite, rs: seq<Record>, k: int)
    requires Chronological(rs, At) && 0 <= k < |rs| && RetiredBy(rs[k], suite).Some?
    requires RetiredBy(rs[k], suite).value.successor in suite.ids
    ensures Succeeded(suite, rs, k) <==> SucceedsInFull(rs, RetiredBy(rs[k], suite).value.successor, k)
  {
    var t := RetiredBy(rs[k], suite).value.successor;
    LastInFull(suite, rs, t);
    forall j | 0 <= j < |rs|
      ensures LaterTouch(rs, At, Passing(suite), t, At(rs[j])) <==> exists i :: j < i && PassedAt(rs, t, i)
    {
      PassesInFull(suite, rs, t, j);
    }
    assert forall j :: FailedAt(rs, t, j) <==> 0 <= j < |rs| && Fails(rs[j], t);
  }

  /** The checks after the fold, said of the records alone. */
  lemma {:induction false} SettledInFull(suite: Suite, rs: seq<Record>)
    requires RecordsOk(Checks(suite), Retires(suite), suite.baseline, rs)
    ensures Settled(Fold(suite, rs, |rs|), suite) <==>
      (forall t :: t in suite.ids ==> EndsWell(suite, rs, t))
      && (forall k, p :: 0 <= k < |rs| && RetiredBy(rs[k], suite) == Some(p) ==> SucceedsInFull(rs, p.successor, k))
  {
    SettledExactly(suite, rs);
    forall t | t in suite.ids
      ensures TestSettled(suite, rs, t) <==> EndsWell(suite, rs, t)
    {
      TestInFull(suite, rs, t);
    }
    forall k | 0 <= k < |rs| && RetiredBy(rs[k], suite).Some?
      ensures Succeeded(suite, rs, k) <==> SucceedsInFull(rs, RetiredBy(rs[k], suite).value.successor, k)
    {
      var p := RetiredBy(rs[k], suite).value;
      RetiredInFull(rs[k], suite, p);
      SuccessInFull(suite, rs, k);
    }
  }

  /** A record is admitted when it is numbered, says something, and all it says is of discovered or retired tests. */
  lemma {:induction false} RecordInFull(r: Record, suite: Suite)
    ensures RecordOk(r, suite) <==>
      && r.sequence > 0 && r.outcomes != map[] && (forall t :: t in r.invalidated ==> t in suite.ids)
      && (forall t :: t in r.outcomes ==> r.outcomes[t] in {Pass, Fail, Ignored})
      && ((forall t :: t in r.outcomes ==> t in suite.ids) || exists i :: OnlyCover(r, suite, i))
  {
    assert Extras(r, suite) == {} <==> forall t :: t in r.outcomes ==> t in suite.ids by {
      forall t
        ensures t in Extras(r, suite) <==> t in r.outcomes && t !in suite.ids
      {
      }
    }
    if RetiredBy(r, suite).Some? {
      RetiredInFull(r, suite, RetiredBy(r, suite).value);
    }
    if i :| OnlyCover(r, suite, i) {
      RetiredInFull(r, suite, suite.policies[i]);
    }
    forall t | t in r.outcomes
      ensures r.outcomes[t] != Unknown <==> r.outcomes[t] in {Pass, Fail, Ignored}
    {
    }
  }
}
