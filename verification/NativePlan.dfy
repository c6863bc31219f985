// validation/native_receipts.py, `case_outcomes`, `adopt_tv_cases` and `planned_artifacts`: a plan that is
// authenticated a second time from nothing but the artifacts it rests on.
module NativePlan {
  import opened Wrappers
  import opened FiniteSets
  import opened StableSort

  type Test = string

  const MAX_CANDIDATES := 16

  // ----- `case_outcomes` -----

  datatype Outcome = Passed | Failed | Skipped

  /** A line of the log that announces a test case. */
  datatype Event = Started(test: Test) | Ended(test: Test, outcome: Outcome) | Garbled

  /** Event `k` may follow the events before it: a test of the selection starts once, and ends once after that. */
  ghost predicate InTurn(events: seq<Event>, selected: seq<Test>, k: nat)
    requires k < |events|
  {
    match events[k]
    case Garbled => false
    case Started(t) => t in selected && forall j :: 0 <= j < k ==> events[j] != Started(t)
    case Ended(t, o) =>
      && t in selected && (exists j :: 0 <= j < k && events[j] == Started(t))
      && forall j :: 0 <= j < k ==> !(events[j].Ended? && events[j].test == t)
  }

  ghost predicate Orderly(events: seq<Event>, selected: seq<Test>, n: nat)
    requires n <= |events|
  {
    forall k :: 0 <= k < n ==> InTurn(events, selected, k)
  }

  ghost predicate Tells(events: seq<Event>, n: nat, outcomes: map<Test, Outcome>)
    requires n <= |events|
  {
    && (forall k :: 0 <= k < n && events[k].Ended? ==>
          events[k].test in outcomes && outcomes[events[k].test] == events[k].outcome)
    && (forall t :: t in outcomes ==> exists k :: 0 <= k < n && events[k] == Ended(t, outcomes[t]))
  }

  method CaseOutcomes(events: seq<Event>, selected: seq<Test>) returns (r: Result<map<Test, Outcome>>)
    ensures r.Ok? <==> Orderly(events, selected, |events|)
    ensures r.Ok? ==> Tells(events, |events|, r.value)
  {
    var started: set<Test>, outcomes: map<Test, Outcome>, n := {}, map[], 0;
    while n < |events|
      invariant n <= |events| && Orderly(events, selected, n) && Tells(events, n, outcomes)
      invariant forall t :: t in started <==> exists j :: 0 <= j < n && events[j] == Started(t)
    {
      var event := events[n];
      if event.Garbled? || event.test !in selected {
        assert !InTurn(events, selected, n);
        return Refused;
      }
      if event.Started? {
        if event.test in started {
          assert !InTurn(events, selected, n);
          return Refused;
        }
        started := started + {event.test};
      } else {
        if event.test !in started || event.test in outcomes {
          assert !InTurn(events, selected, n);
          return Refused;
        }
        outcomes := outcomes[event.test := event.outcome];
      }
      assert InTurn(events, selected, n);
      n := n + 1;
    }
    r := Ok(outcomes);
  }

  // ----- artifacts and what they prove -----

  datatype Artifact = Artifact(id: nat, run: nat, named: bool)

  /** The evidence recorded for a pass: the artifact it comes from and everything else about it. */
  datatype Evidence = Evidence(artifact: nat, rest: string)

  datatype Verdict = Verified(evidence: Evidence, tests: set<Test>) | NotRetained | Unsafe

  /** The full verification of one artifact; the same every time it is done. */
  type Verifier = Artifact -> Verdict

  predicate Offers(verify: Verifier, a: Artifact, t: Test) { a.named && verify(a).Verified? && t in verify(a).tests }

  const RunOf: Artifact -> int := (a: Artifact) => a.run

  function First<T>(xs: seq<T>, n: nat): seq<T> { if |xs| <= n then xs else xs[..n] }

  /** Newest run first, at most sixteen. */
  function Considered(artifacts: seq<Artifact>): seq<Artifact> { First(Descend(RunOf, artifacts), MAX_CANDIDATES) }

  /** Considered are the newest artifacts: sixteen, or all there are, and none of a later run is left out. */
  lemma {:induction false} ConsideredAreNewest(artifacts: seq<Artifact>, a: Artifact, b: Artifact)
    ensures |Considered(artifacts)| == if |artifacts| < MAX_CANDIDATES then |artifacts| else MAX_CANDIDATES
    ensures a in Considered(artifacts) && b in artifacts && b !in Considered(artifacts) ==> b.run <= a.run
  {
    DescendSorts(RunOf, artifacts);
    PrefixIsLarger(RunOf, Descend(RunOf, artifacts), MAX_CANDIDATES, a, b);
  }

  lemma {:induction false} PrefixIsLarger<T>(key: T -> int, xs: seq<T>, n: nat, a: T, b: T)
    requires Descending(key, xs)
    ensures |First(xs, n)| == if |xs| < n then |xs| else n
    ensures a in First(xs, n) && b in xs && b !in First(xs, n) ==> key(b) <= key(a)
  {
    if a in First(xs, n) && b in xs && b !in First(xs, n) {
      var j :| 0 <= j < |First(xs, n)| && First(xs, n)[j] == a;
      var k :| 0 <= k < |xs| && xs[k] == b;
      assert forall i :: 0 <= i < |First(xs, n)| ==> xs[i] in First(xs, n);
      assert xs[j] == a;
    }
  }

  type Passes = map<Test, Evidence>

  /** The first of the first `n` artifacts that offers `t`. */
  function FirstOffer(verify: Verifier, list: seq<Artifact>, n: nat, t: Test): (r: Option<nat>)
    requires n <= |list|
    ensures r.Some? ==> r.value < n && Offers(verify, list[r.value], t)
  {
    if n == 0 then None
    else
      var before := FirstOffer(verify, list, n - 1, t);
      if before.Some? then before else if Offers(verify, list[n - 1], t) then Some(n - 1) else None
  }

  lemma {:induction false} FirstOfferIsFirst(verify: Verifier, list: seq<Artifact>, n: nat, t: Test)
    requires n <= |list|
    ensures var f := FirstOffer(verify, list, n, t);
      if f.Some? then
        f.value < n && Offers(verify, list[f.value], t) && forall j :: 0 <= j < f.value ==> !Offers(verify, list[j], t)
      else forall j :: 0 <= j < n ==> !Offers(verify, list[j], t)
  {
    if n > 0 {
      FirstOfferIsFirst(verify, list, n - 1, t);
    }
  }

  /** Each test's evidence is that of the first artifact that offers it. */
  ghost predicate FirstOffers(verify: Verifier, list: seq<Artifact>, n: nat, passes: Passes)
    requires n <= |list|
  {
    forall t: Test {:trigger FirstOffer(verify, list, n, t)} {:trigger t in passes} ::
      var f := FirstOffer(verify, list, n, t);
      if f.Some? then f.value < n && t in passes && passes[t] == verify(list[f.value]).evidence else t !in passes
  }

  datatype Cases = Cases(required: seq<Test>, passes: Passes, pending: seq<Test>)

  function Restrict(passes: Passes, required: seq<Test>): Passes { map t | t in passes && t in required :: passes[t] }

  function Missing(required: seq<Test>, passes: Passes): seq<Test> {
    if required == [] then []
    else (if required[0] in passes then [] else [required[0]]) + Missing(required[1..], passes)
  }

  ghost predicate AnyUnsafe(verify: Verifier, list: seq<Artifact>) {
    exists k :: 0 <= k < |list| && list[k].named && verify(list[k]).Unsafe?
  }

  /** `adopt_tv_cases`. */
  method AdoptCases(verify: Verifier, artifacts: seq<Artifact>, required: seq<Test>) returns (r: Result<Cases>)
    ensures r.Refused? <==> AnyUnsafe(verify, Considered(artifacts))
    ensures r.Ok? ==> Adopts(verify, artifacts, required, r.value)
  {
    var list, passes: Passes, n := Considered(artifacts), map[], 0;
    while n < |list|
      invariant n <= |list| && FirstOffers(verify, list, n, passes)
      invariant forall k :: 0 <= k < n ==> !(list[k].named && verify(list[k]).Unsafe?)
    {
      if list[n].named && verify(list[n]).Unsafe? { return Refused; }
      OneMore(verify, list, n, passes);
      if list[n].named && verify(list[n]).Verified? {
        var v := verify(list[n]);
        passes := (map t | t in v.tests :: v.evidence) + passes;
      }
      n := n + 1;
    }
    var kept := Restrict(passes, required);
    r := Ok(Cases(required, kept, Missing(required, kept)));
    assert AdoptsFrom(verify, artifacts, required, r.value, passes);
  }

  ghost predicate Adopts(verify: Verifier, artifacts: seq<Artifact>, required: seq<Test>, c: Cases) {
    exists passes :: AdoptsFrom(verify, artifacts, required, c, passes)
  }

  ghost predicate AdoptsFrom(verify: Verifier, artifacts: seq<Artifact>, required: seq<Test>, c: Cases,
                             passes: Passes) {
    && FirstOffers(verify, Considered(artifacts), |Considered(artifacts)|, passes)
    && c == Cases(required, Restrict(passes, required), Missing(required, Restrict(passes, required)))
  }

  /** `setdefault` for every test the artifact passed. */
  function Absorbed(verify: Verifier, a: Artifact, passes: Passes): Passes {
    if a.named && verify(a).Verified? then (map t | t in verify(a).tests :: verify(a).evidence) + passes else passes
  }

  lemma {:induction false} OneMore(verify: Verifier, list: seq<Artifact>, n: nat, before: Passes)
    requires n < |list| && FirstOffers(verify, list, n, before)
    ensures FirstOffers(verify, list, n + 1, Absorbed(verify, list[n], before))
  {
    var after := Absorbed(verify, list[n], before);
    forall t: Test
      ensures var f := FirstOffer(verify, list, n + 1, t);
        if f.Some? then f.value < n + 1 && t in after && after[t] == verify(list[f.value]).evidence else t !in after
    {
      var f := FirstOffer(verify, list, n, t);
      assert f.Some? <==> t in before;
    }
  }

  // ----- passes and pending -----

  lemma {:induction false} MissingHolds(required: seq<Test>, passes: Passes)
    ensures forall t :: t in Missing(required, passes) <==> t in required && t !in passes
  {
    if required != [] {
      MissingHolds(required[1..], passes);
      assert required == [required[0]] + required[1..];
    }
  }

  /** Every required test is retained or due, never both, and nothing else is either. */
  lemma {:induction false} RequiredIsPartitioned(verify: Verifier, artifacts: seq<Artifact>, required: seq<Test>,
                                                 c: Cases)
    requires Adopts(verify, artifacts, required, c)
    ensures forall t :: t in required <==> t in c.passes || t in c.pending
    ensures forall t :: !(t in c.passes && t in c.pending)
  {
    MissingHolds(required, c.passes);
  }

  // ----- the plan authenticates itself -----

  ghost function Origins(passes: Passes): set<nat> { set t | t in passes :: passes[t].artifact }

  ghost predicate AscendingIds(list: seq<Artifact>) { forall j, k :: 0 <= j < k < |list| ==> list[j].id < list[k].id }

  /** The artifacts with these ids, in order of id. */
  ghost predicate Resolves(list: seq<Artifact>, ids: set<nat>, fetch: nat -> Option<Artifact>) {
    && AscendingIds(list)
    && (forall i: nat :: i in ids <==> exists k :: 0 <= k < |list| && list[k].id == i)
    && (forall k :: 0 <= k < |list| ==> fetch(list[k].id) == Some(list[k]))
  }

  /** `planned_artifacts`. */
  method PlannedArtifacts(passes: Passes, ids: set<nat>, fetch: nat -> Option<Artifact>)
    returns (r: Result<seq<Artifact>>)
    requires ids == Origins(passes)
    ensures r.Ok? ==> |ids| <= MAX_CANDIDATES && Resolves(r.value, ids, fetch)
    ensures |ids| <= MAX_CANDIDATES && (forall i :: i in ids ==> fetch(i).Some? && fetch(i).value.id == i) ==> r.Ok?
  {
    if |ids| > MAX_CANDIDATES { return Refused; }
    var list: seq<Artifact>, rest := [], ids;
    while rest != {}
      invariant rest <= ids && Resolves(list, ids - rest, fetch)
      invariant forall k, i: nat :: 0 <= k < |list| && i in rest ==> list[k].id < i
      decreases |rest|
    {
      var i := Smallest(rest);
      var a := fetch(i);
      if a.None? || a.value.id != i { return Refused; }
      ghost var before := list;
      list := list + [a.value];
      ResolvesMore(before, ids - rest, fetch, a.value);
      assert ids - (rest - {i}) == ids - rest + {i};
      rest := rest - {i};
    }
    assert ids - rest == ids;
    r := Ok(list);
  }

  lemma {:induction false} ResolvesMore(list: seq<Artifact>, ids: set<nat>, fetch: nat -> Option<Artifact>, a: Artifact)
    requires Resolves(list, ids, fetch) && fetch(a.id) == Some(a)
    requires forall k :: 0 <= k < |list| ==> list[k].id < a.id
    ensures Resolves(list + [a], ids + {a.id}, fetch)
  {
    var more := list + [a];
    forall i: nat
      ensures i in ids + {a.id} <==> exists k :: 0 <= k < |more| && more[k].id == i
    {
      if i in ids {
        var k :| 0 <= k < |list| && list[k].id == i;
        assert more[k].id == i;
      }
      if i == a.id { assert more[|list|].id == i; }
    }
  }

  /** Artifacts with an id of their own each, which the API still gives back unchanged. */
  ghost predicate Stable(verify: Verifier, artifacts: seq<Artifact>, fetch: nat -> Option<Artifact>) {
    && (forall a, b :: a in artifacts && b in artifacts && a.id == b.id ==> a == b)
    && (forall a :: a in artifacts ==> fetch(a.id) == Some(a))
    && (forall a :: a in artifacts && verify(a).Verified? ==> verify(a).evidence.artifact == a.id)
  }

  lemma {:induction false} ConsideredHolds(artifacts: seq<Artifact>)
    ensures var list := Considered(artifacts);
      && Descending(RunOf, list) && |list| <= MAX_CANDIDATES && (forall a :: a in list ==> a in artifacts)
      && (|artifacts| <= MAX_CANDIDATES ==> forall a :: a in artifacts ==> a in list)
  {
    DescendSorts(RunOf, artifacts);
    var all := Descend(RunOf, artifacts);
    assert forall a :: a in First(all, MAX_CANDIDATES) ==> a in all;
  }

  /** In a list by descending run, no artifact of a later run than the first that offers a test offers it. */
  lemma {:induction false} FirstIsNewest(verify: Verifier, list: seq<Artifact>, t: Test, a: Artifact)
    requires Descending(RunOf, list) && a in list && Offers(verify, a, t)
    ensures var f := FirstOffer(verify, list, |list|, t); f.Some? && a.run <= list[f.value].run
  {
    FirstOfferIsFirst(verify, list, |list|, t);
    var k :| 0 <= k < |list| && list[k] == a;
    var f := FirstOffer(verify, list, |list|, t).value;
    assert f <= k;
    if f < k { assert RunOf(list[k]) <= RunOf(list[f]); }
  }

  /** Two lists by descending run choose from one run when the second holds the first's choice and nothing new. */
  lemma {:induction false} SameRun(verify: Verifier, all: seq<Artifact>, part: seq<Artifact>, t: Test)
    requires Descending(RunOf, all) && Descending(RunOf, part) && forall a :: a in part ==> a in all
    requires var f := FirstOffer(verify, all, |all|, t); f.Some? ==> all[f.value] in part
    ensures var f, g := FirstOffer(verify, all, |all|, t), FirstOffer(verify, part, |part|, t);
      (f.Some? <==> g.Some?) && (f.Some? ==> all[f.value].run == part[g.value].run)
  {
    var f, g := FirstOffer(verify, all, |all|, t), FirstOffer(verify, part, |part|, t);
    if f.Some? {
      FirstIsNewest(verify, part, t, all[f.value]);
      FirstIsNewest(verify, all, t, part[g.value]);
    } else if g.Some? {
      FirstIsNewest(verify, all, t, part[g.value]);
    }
  }

  lemma {:induction false} IdsFit(list: seq<Artifact>, ids: set<nat>)
    requires forall i :: i in ids ==> exists a :: a in list && a.id == i
    ensures |ids| <= |list|
    decreases |list|
  {
    if list == [] {
      assert ids == {};
    } else {
      var n := |list| - 1;
      var rest := ids - {list[n].id};
      forall i | i in rest
        ensures exists a :: a in list[..n] && a.id == i
      {
        var a :| a in list && a.id == i;
        assert a in list[..n];
      }
      IdsFit(list[..n], rest);
      assert ids <= rest + {list[n].id};
      SizeOfOneMore(rest, list[n].id, ids);
    }
  }

  lemma {:induction false} SizeOfOneMore(rest: set<nat>, x: nat, ids: set<nat>)
    requires rest == ids - {x}
    ensures |ids| <= |rest| + 1
  {
    if x in ids {
      assert ids == rest + {x};
    } else {
      assert ids == rest;
    }
  }

  lemma {:induction false} OriginsAreConsidered(verify: Verifier, artifacts: seq<Artifact>, required: seq<Test>,
                                                c: Cases, fetch: nat -> Option<Artifact>)
    requires Stable(verify, artifacts, fetch) && Adopts(verify, artifacts, required, c)
    ensures forall i :: i in Origins(c.passes) ==> exists a :: a in Considered(artifacts) && a.id == i
    ensures |Origins(c.passes)| <= MAX_CANDIDATES
  {
    var passes :| AdoptsFrom(verify, artifacts, required, c, passes);
    var list := Considered(artifacts);
    ConsideredHolds(artifacts);
    forall i | i in Origins(c.passes)
      ensures exists a :: a in list && a.id == i
    {
      var t :| t in c.passes && c.passes[t].artifact == i;
      var f := FirstOffer(verify, list, |list|, t);
      assert t in passes && f.Some?;
      assert list[f.value] in list && list[f.value].id == i;
    }
    IdsFit(list, Origins(c.passes));
  }

  lemma {:induction false} PlannedFits(planned: seq<Artifact>, ids: set<nat>, fetch: nat -> Option<Artifact>)
    requires Resolves(planned, ids, fetch)
    ensures |planned| == |ids|
    decreases |planned|
  {
    if planned == [] {
      assert ids == {};
    } else {
      var n := |planned| - 1;
      var front := planned[..n];
      var rest := ids - {planned[n].id};
      forall i: nat
        ensures i in rest <==> exists k :: 0 <= k < |front| && front[k].id == i
      {
        if i in rest {
          var k :| 0 <= k < |planned| && planned[k].id == i;
          assert front[k].id == i;
        }
        if k :| 0 <= k < |front| && front[k].id == i {
          assert planned[k].id == i;
        }
      }
      PlannedFits(front, rest, fetch);
      assert planned[n].id in ids;
      assert ids == rest + {planned[n].id};
    }
  }

  /** `part` is the selection of `all` with these ids, its artifacts of one run in order of id. */
  ghost predicate Selects(verify: Verifier, all: seq<Artifact>, part: seq<Artifact>, ids: set<nat>) {
    && Descending(RunOf, all) && Descending(RunOf, part) && Stably(RunOf, LowerId, part)
    && (forall a, b :: a in all && b in all && a.id == b.id ==> a == b)
    && (forall a :: a in all && verify(a).Verified? ==> verify(a).evidence.artifact == a.id)
    && (forall a :: a in part <==> a in all && a.id in ids)
  }

  const LowerId: (Artifact, Artifact) -> bool := (a: Artifact, b: Artifact) => a.id < b.id

  /** The planned artifacts all fit in the bound, and one run's are taken in order of id. */
  lemma {:induction false} PlannedInOrder(planned: seq<Artifact>, ids: set<nat>, fetch: nat -> Option<Artifact>)
    requires Resolves(planned, ids, fetch) && |ids| <= MAX_CANDIDATES
    ensures Descending(RunOf, Considered(planned)) && Stably(RunOf, LowerId, Considered(planned))
    ensures Same(Considered(planned), planned)
  {
    PlannedFits(planned, ids, fetch);
    DescendSorts(RunOf, planned);
    DescendStably(RunOf, LowerId, planned);
  }

  /** The planned artifacts are the considered ones that contributed. */
  lemma {:induction false} PlannedContributed(list: seq<Artifact>, planned: seq<Artifact>, ids: set<nat>,
                                              fetch: nat -> Option<Artifact>, a: Artifact)
    requires Resolves(planned, ids, fetch) && forall b :: b in list ==> fetch(b.id) == Some(b)
    requires forall i :: i in ids ==> exists b :: b in list && b.id == i
    ensures a in planned <==> a in list && a.id in ids
  {
    if a in planned {
      var k :| 0 <= k < |planned| && planned[k] == a;
      assert a.id in ids;
      var b :| b in list && b.id == a.id;
      assert fetch(b.id) == Some(b) == Some(a);
    }
    if a in list && a.id in ids {
      var k :| 0 <= k < |planned| && planned[k].id == a.id;
      assert fetch(a.id) == Some(a) == Some(planned[k]);
    }
  }

  lemma {:induction false} PlannedIsConsidered(artifacts: seq<Artifact>, planned: seq<Artifact>, ids: set<nat>,
                                               fetch: nat -> Option<Artifact>, verify: Verifier)
    requires Stable(verify, artifacts, fetch) && Resolves(planned, ids, fetch) && |ids| <= MAX_CANDIDATES
    requires forall i :: i in ids ==> exists a :: a in Considered(artifacts) && a.id == i
    ensures Selects(verify, Considered(artifacts), Considered(planned), ids)
  {
    ConsideredHolds(artifacts);
    PlannedInOrder(planned, ids, fetch);
    forall a
      ensures a in planned <==> a in Considered(artifacts) && a.id in ids
    {
      PlannedContributed(Considered(artifacts), planned, ids, fetch, a);
    }
  }

  /** Of the artifacts `list` that contribute to `passes`, one of a lower id and the same run offers `t` too. */
  ghost predicate Overtaken(verify: Verifier, list: seq<Artifact>, passes: Passes, t: Test)
    requires t in passes
  {
    exists a, b :: a in list && b in list && a.id == passes[t].artifact && b.id in Origins(passes)
      && a.run == b.run && b.id < a.id && Offers(verify, b, t)
  }

  ghost predicate AnyOvertaken(verify: Verifier, list: seq<Artifact>, passes: Passes) {
    exists t :: t in passes && Overtaken(verify, list, passes, t)
  }

  /** The selection offers the same tests, and gives the same evidence unless a lower id of the run offers it. */
  lemma {:induction false} Rechosen(verify: Verifier, all: seq<Artifact>, part: seq<Artifact>, passes: Passes,
                                    before: Passes, after: Passes, t: Test)
    requires Selects(verify, all, part, Origins(passes))
    requires FirstOffers(verify, all, |all|, before) && FirstOffers(verify, part, |part|, after)
    requires t in before ==> t in passes && passes[t] == before[t]
    ensures t in before <==> t in after
    ensures t in before ==> (before[t] == after[t] <==> !Overtaken(verify, all, passes, t))
  {
    var f, g := FirstOffer(verify, all, |all|, t), FirstOffer(verify, part, |part|, t);
    if f.Some? {
      assert before[t].artifact == all[f.value].id;
      assert all[f.value].id in Origins(passes);
    }
    SameRun(verify, all, part, t);
    if f.Some? {
      LowestIdFirst(verify, part, t, all[f.value]);
      if Overtaken(verify, all, passes, t) {
        var a, b :| a in all && b in all && a.id == passes[t].artifact && b.id in Origins(passes)
          && a.run == b.run && b.id < a.id && Offers(verify, b, t);
        LowestIdFirst(verify, part, t, b);
      }
    }
  }

  /** Among the artifacts of its run that offer a test, the first one has the lowest id. */
  lemma {:induction false} LowestIdFirst(verify: Verifier, part: seq<Artifact>, t: Test, a: Artifact)
    requires Stably(RunOf, LowerId, part) && a in part && Offers(verify, a, t)
    ensures var g := FirstOffer(verify, part, |part|, t);
      g.Some? && (part[g.value].run == a.run ==> part[g.value].id <= a.id)
  {
    FirstOfferIsFirst(verify, part, |part|, t);
    var k :| 0 <= k < |part| && part[k] == a;
    var g := FirstOffer(verify, part, |part|, t).value;
    if g < k && part[g].run == a.run {
      assert RunOf(part[g]) == RunOf(part[k]);
      assert LowerId(part[g], part[k]);
    }
  }

  lemma {:induction false} MissingByKeys(required: seq<Test>, before: Passes, after: Passes)
    requires before.Keys == after.Keys
    ensures Missing(required, before) == Missing(required, after)
  {
    if required != [] {
      MissingByKeys(required[1..], before, after);
    }
  }

  /** Two maps have one entry for `t` exactly when `same` holds of it. */
  ghost predicate Agrees(kept: Passes, again: Passes, same: Test -> bool, t: Test) {
    (t in kept <==> t in again) && (t in kept ==> (kept[t] == again[t] <==> same(t)))
  }

  ghost function NotOvertaken(verify: Verifier, list: seq<Artifact>, passes: Passes): Test -> bool {
    t => t in passes ==> !Overtaken(verify, list, passes, t)
  }

  lemma {:induction false} RequiredAgrees(verify: Verifier, all: seq<Artifact>, part: seq<Artifact>,
                                          required: seq<Test>, before: Passes, after: Passes, t: Test)
    requires Selects(verify, all, part, Origins(Restrict(before, required)))
    requires FirstOffers(verify, all, |all|, before) && FirstOffers(verify, part, |part|, after)
    ensures Agrees(Restrict(before, required), Restrict(after, required),
                   NotOvertaken(verify, all, Restrict(before, required)), t)
  {
    if t in required {
      Rechosen(verify, all, part, Restrict(before, required), before, after, t);
    }
  }

  lemma {:induction false} SameTests(verify: Verifier, all: seq<Artifact>, part: seq<Artifact>, required: seq<Test>,
                                     before: Passes, after: Passes)
    requires Selects(verify, all, part, Origins(Restrict(before, required)))
    requires FirstOffers(verify, all, |all|, before) && FirstOffers(verify, part, |part|, after)
    ensures Restrict(before, required).Keys == Restrict(after, required).Keys
    ensures Restrict(before, required) == Restrict(after, required)
      <==> !AnyOvertaken(verify, all, Restrict(before, required))
  {
    var kept, again := Restrict(before, required), Restrict(after, required);
    var same := NotOvertaken(verify, all, kept);
    forall t
      ensures Agrees(kept, again, same, t)
    {
      RequiredAgrees(verify, all, part, required, before, after, t);
    }
    SameMaps(kept, again, same);
    SomeOvertaken(verify, all, kept);
  }

  lemma {:induction false} SameMaps(kept: Passes, again: Passes, same: Test -> bool)
    requires forall t :: Agrees(kept, again, same, t)
    ensures kept.Keys == again.Keys
    ensures kept == again <==> forall t :: t in kept ==> same(t)
  {
    forall t
      ensures (t in kept <==> t in again) && (t in kept ==> (kept[t] == again[t] <==> same(t)))
    {
      assert Agrees(kept, again, same, t);
    }
  }

  lemma {:induction false} SomeOvertaken(verify: Verifier, all: seq<Artifact>, kept: Passes)
    ensures AnyOvertaken(verify, all, kept) <==> exists t :: t in kept && !NotOvertaken(verify, all, kept)(t)
  {
  }

  /**
   * Rebuilt from nothing but the artifacts that contributed a pass, the plan always retains the same tests
   * and leaves the same pending.  It is the same plan exactly when no contributing artifact of a lower id
   * offers a test that another artifact of its run was credited with.
   */
  lemma {:induction false} PlanRebuildsExactly(verify: Verifier, artifacts: seq<Artifact>, required: seq<Test>,
                                               c: Cases,
                                               fetch: nat -> Option<Artifact>, planned: seq<Artifact>, again: Cases)
    requires Stable(verify, artifacts, fetch) && Adopts(verify, artifacts, required, c)
    requires Resolves(planned, Origins(c.passes), fetch) && Adopts(verify, planned, required, again)
    ensures again.passes.Keys == c.passes.Keys && again.pending == c.pending
    ensures again == c <==> !AnyOvertaken(verify, Considered(artifacts), c.passes)
  {
    OriginsAreConsidered(verify, artifacts, required, c, fetch);
    PlannedIsConsidered(artifacts, planned, Origins(c.passes), fetch, verify);
    var before :| AdoptsFrom(verify, artifacts, required, c, before);
    var after :| AdoptsFrom(verify, planned, required, again, after);
    SameTests(verify, Considered(artifacts), Considered(planned), required, before, after);
    MissingByKeys(required, c.passes, again.passes);
  }

  /** In particular nothing can change when the artifacts come from distinct runs. */
  lemma {:induction false} PlanRebuildsItself(verify: Verifier, artifacts: seq<Artifact>, required: seq<Test>, c: Cases,
                                              fetch: nat -> Option<Artifact>, planned: seq<Artifact>, again: Cases)
    requires Stable(verify, artifacts, fetch) && Adopts(verify, artifacts, required, c)
    requires forall a, b :: a in artifacts && b in artifacts && a.run == b.run ==> a == b
    requires Resolves(planned, Origins(c.passes), fetch) && Adopts(verify, planned, required, again)
    ensures again == c
  {
    ConsideredHolds(artifacts);
    PlanRebuildsExactly(verify, artifacts, required, c, fetch, planned, again);
  }

  /** Each planned artifact was verified when it contributed, so the second verification cannot be refused. */
  lemma {:induction false} PlannedAreVerified(verify: Verifier, artifacts: seq<Artifact>, required: seq<Test>, c: Cases,
                                              fetch: nat -> Option<Artifact>, planned: seq<Artifact>)
    requires Stable(verify, artifacts, fetch) && Adopts(verify, artifacts, required, c)
    requires Resolves(planned, Origins(c.passes), fetch)
    ensures forall a :: a in planned ==> a in Considered(artifacts) && a.named && verify(a).Verified?
    ensures !AnyUnsafe(verify, Considered(planned))
  {
    OriginsAreConsidered(verify, artifacts, required, c, fetch);
    PlannedIsConsidered(artifacts, planned, Origins(c.passes), fetch, verify);
    PlannedFits(planned, Origins(c.passes), fetch);
    ConsideredHolds(planned);
    var list := Considered(artifacts);
    var passes :| AdoptsFrom(verify, artifacts, required, c, passes);
    forall a | a in planned
      ensures a in list && a.named && verify(a).Verified?
    {
      var t :| t in c.passes && c.passes[t].artifact == a.id;
      var f := FirstOffer(verify, list, |list|, t);
      assert t in passes && list[f.value] in list && list[f.value].id == a.id;
    }
    assert forall k :: 0 <= k < |Considered(planned)| ==> Considered(planned)[k] in planned;
  }

  /**
   * `main` with `--verify-tv-plan`: the plan is rebuilt from its own origins and compared.  A plan made from
   * artifacts that the API still gives back is refused exactly when one of its credits is overtaken.
   */
  method ReverifyPlan(verify: Verifier, plan: Cases, ids: set<nat>, fetch: nat -> Option<Artifact>,
                      ghost artifacts: seq<Artifact>) returns (ok: bool)
    requires Stable(verify, artifacts, fetch) && Adopts(verify, artifacts, plan.required, plan)
    requires ids == Origins(plan.passes)
    ensures ok <==> !AnyOvertaken(verify, Considered(artifacts), plan.passes)
  {
    OriginsAreConsidered(verify, artifacts, plan.required, plan, fetch);
    ConsideredHolds(artifacts);
    var planned := PlannedArtifacts(plan.passes, ids, fetch);
    assert planned.Ok?;
    PlannedAreVerified(verify, artifacts, plan.required, plan, fetch, planned.value);
    var again := AdoptCases(verify, planned.value, plan.required);
    PlanRebuildsExactly(verify, artifacts, plan.required, plan, fetch, planned.value, again.value);
    ok := again.value == plan;
  }

  // ----- two artifacts of one run -----

  const HIGH_FIRST := [Artifact(2, 7, true), Artifact(1, 7, true)]
  const LOW_FIRST := [Artifact(1, 7, true), Artifact(2, 7, true)]

  const BothShare: Verifier := (a: Artifact) =>
    if a.id == 2 then Verified(Evidence(2, ""), {"shared"}) else Verified(Evidence(a.id, ""), {"shared", "other"})

  const FetchEither: nat -> Option<Artifact> := (i: nat) => Some(Artifact(i, 7, true))

  const PLANNED := Cases(["shared", "other"], map["shared" := Evidence(2, ""), "other" := Evidence(1, "")], [])
  const REBUILT := Cases(["shared", "other"], map["shared" := Evidence(1, ""), "other" := Evidence(1, "")], [])

  /** Two artifacts of one run both offer a test: rebuilt in order of id, the plan credits the other one. */
  lemma {:induction false} OneRunTwice()
    ensures Stable(BothShare, HIGH_FIRST, FetchEither) && Adopts(BothShare, HIGH_FIRST, PLANNED.required, PLANNED)
    ensures Resolves(LOW_FIRST, Origins(PLANNED.passes), FetchEither)
    ensures Adopts(BothShare, LOW_FIRST, PLANNED.required, REBUILT)
    ensures PLANNED.passes["shared"].artifact == 2 && REBUILT.passes["shared"].artifact == 1 && REBUILT != PLANNED
  {
    HighFirst();
    LowFirst();
    BothResolve();
  }

  lemma {:induction false} BothResolve()
    ensures Stable(BothShare, HIGH_FIRST, FetchEither)
    ensures Resolves(LOW_FIRST, Origins(PLANNED.passes), FetchEither)
  {
    assert PLANNED.passes["shared"].artifact == 2 && PLANNED.passes["other"].artifact == 1;
    assert Origins(PLANNED.passes) == {1, 2};
    assert LOW_FIRST[0].id == 1 && LOW_FIRST[1].id == 2;
  }

  lemma {:induction false} NoneMissing(c: Cases)
    requires |c.required| == 2 && c.pending == [] && c.passes.Keys == {c.required[0], c.required[1]}
    ensures Restrict(c.passes, c.required) == c.passes && Missing(c.required, c.passes) == c.pending
  {
    assert c.required[1..] == [c.required[1]] && c.required[1..][1..] == [];
    assert Missing(c.required[1..], c.passes) == [];
  }

  lemma {:induction false} HighFirst()
    ensures Adopts(BothShare, HIGH_FIRST, PLANNED.required, PLANNED)
  {
    TwoInOrder(HIGH_FIRST[0], HIGH_FIRST[1]);
    NoneMissing(PLANNED);
    forall t: Test
      ensures FirstOffer(BothShare, HIGH_FIRST, 2, t)
        == if t == "shared" then Some(0) else if t == "other" then Some(1) else None
    {
      assert FirstOffer(BothShare, HIGH_FIRST, 1, t) == if t == "shared" then Some(0) else None;
    }
    assert AdoptsFrom(BothShare, HIGH_FIRST, PLANNED.required, PLANNED, PLANNED.passes);
  }

  lemma {:induction false} LowFirst()
    ensures Adopts(BothShare, LOW_FIRST, PLANNED.required, REBUILT)
  {
    TwoInOrder(LOW_FIRST[0], LOW_FIRST[1]);
    NoneMissing(REBUILT);
    forall t: Test
      ensures FirstOffer(BothShare, LOW_FIRST, 2, t) == if t == "shared" || t == "other" then Some(0) else None
    {
      assert FirstOffer(BothShare, LOW_FIRST, 1, t) == if t == "shared" || t == "other" then Some(0) else None;
    }
    assert AdoptsFrom(BothShare, LOW_FIRST, PLANNED.required, REBUILT, REBUILT.passes);
  }

  lemma {:induction false} TwoInOrder(x: Artifact, y: Artifact)
    requires x.run == y.run
    ensures Considered([x, y]) == [x, y]
  {
    assert [x, y][1..] == [y] && [y][1..] == [];
    assert Descend(RunOf, [y]) == [y];
    assert Descend(RunOf, [x, y]) == Insert(RunOf, x, [y]) == [x, y];
  }
}
