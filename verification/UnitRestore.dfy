// validation/main_unit_receipts.py, `restore`: which earlier successes a run starts from.
module UnitRestore {
  import opened Wrappers

  type Test = string

  /** Where a success was observed; work outside CI has neither run nor commit, and a provenance instead. */
  datatype Source = Source(run: Option<nat>, commit: Option<string>, provenance: Option<string>)

  datatype Journal = Journal(commit: string, passes: map<Test, Source>)

  /** A prior journal authenticates, or is not adopted, or shows the current run unsafe. */
  datatype Attempt = Authentic(run: nat, journal: Journal) | Unadoptable(run: nat) | Unsafe(run: nat)

  datatype Entry = Entry(run: nat, journal: Journal)

  type Applies = (Test, Source) -> bool

  // ----- journals -----

  function Authenticated(attempts: seq<Attempt>, n: nat): seq<Entry>
    requires n <= |attempts|
  {
    if n == 0 then []
    else
      var before := Authenticated(attempts, n - 1);
      if attempts[n - 1].Authentic? then before + [Entry(attempts[n - 1].run, attempts[n - 1].journal)] else before
  }

  /** The journal of the run itself records the success, without further provenance. */
  predicate Records(e: Entry, test: Test, run: Option<nat>, commit: Option<string>) {
    && run == Some(e.run) && commit == Some(e.journal.commit)
    && test in e.journal.passes && e.journal.passes[test] == Source(run, commit, None)
  }

  ghost predicate TrustedBy(journals: seq<Entry>, test: Test, s: Source) {
    exists k :: 0 <= k < |journals| && Records(journals[k], test, s.run, s.commit)
  }

  type Trust = set<(Test, nat, string)>

  /** A journal's own successes, as `restore` lists them. */
  function OwnOf(e: Entry): Trust {
    set t | t in e.journal.passes && e.journal.passes[t] == Source(Some(e.run), Some(e.journal.commit), None)
      :: (t, e.run, e.journal.commit)
  }

  function InTrust(trusted: Trust, test: Test, s: Source): bool {
    s.run.Some? && s.commit.Some? && (test, s.run.value, s.commit.value) in trusted
  }

  method Trusted(journals: seq<Entry>) returns (trusted: Trust)
    ensures forall t: Test, s: Source :: InTrust(trusted, t, s) <==> TrustedBy(journals, t, s)
  {
    trusted := {};
    var n := 0;
    while n < |journals|
      invariant n <= |journals|
      invariant forall x :: x in trusted <==> exists k :: 0 <= k < n && x in OwnOf(journals[k])
    {
      trusted := trusted + OwnOf(journals[n]);
      n := n + 1;
    }
    forall t: Test, s: Source
      ensures InTrust(trusted, t, s) <==> TrustedBy(journals, t, s)
    {
      if InTrust(trusted, t, s) {
        var k :| 0 <= k < |journals| && (t, s.run.value, s.commit.value) in OwnOf(journals[k]);
        assert Records(journals[k], t, s.run, s.commit);
      }
      if TrustedBy(journals, t, s) {
        var k :| 0 <= k < |journals| && Records(journals[k], t, s.run, s.commit);
        assert (t, s.run.value, s.commit.value) in OwnOf(journals[k]);
      }
    }
  }

  // ----- what is restored -----

  /** Journal `e` offers `test`: its record is applicable and the journal it names recorded it too. */
  ghost predicate Offers(journals: seq<Entry>, applies: Applies, e: Entry, test: Test) {
    test in e.journal.passes && TrustedBy(journals, test, e.journal.passes[test])
      && applies(test, e.journal.passes[test])
  }

  /** The passes of the first `n` journals; for each test the first journal that offers it counts. */
  ghost predicate Restores(journals: seq<Entry>, applies: Applies, n: nat, passes: map<Test, Source>)
    requires n <= |journals|
  {
    && (forall t: Test :: t in passes <==> exists k :: 0 <= k < n && Offers(journals, applies, journals[k], t))
    && (forall t: Test, k :: 0 <= k < n && OffersFirst(journals, applies, k, t) ==>
          t in passes && passes[t] == journals[k].journal.passes[t])
  }

  ghost predicate OffersFirst(journals: seq<Entry>, applies: Applies, k: nat, test: Test)
    requires k < |journals|
  {
    Offers(journals, applies, journals[k], test)
    && forall j :: 0 <= j < k ==> !Offers(journals, applies, journals[j], test)
  }

  method AddJournal(journals: seq<Entry>, applies: Applies, trusted: Trust, n: nat, before: map<Test, Source>)
    returns (passes: map<Test, Source>)
    requires n < |journals| && Restores(journals, applies, n, before)
    requires forall t: Test, s: Source :: InTrust(trusted, t, s) <==> TrustedBy(journals, t, s)
    ensures Restores(journals, applies, n + 1, passes)
  {
    passes := before;
    var e := journals[n];
    var rest := e.journal.passes.Keys;
    while rest != {}
      invariant rest <= e.journal.passes.Keys
      invariant forall t: Test :: t in passes <==> t in before || (t !in rest && Offers(journals, applies, e, t))
      invariant forall t: Test :: t in before ==> t in passes && passes[t] == before[t]
      invariant forall t: Test :: t in passes && t !in before ==> passes[t] == e.journal.passes[t]
      decreases |rest|
    {
      var t :| t in rest;
      var s := e.journal.passes[t];
      rest := rest - {t};
      if InTrust(trusted, t, s) && applies(t, s) && t !in passes {
        passes := passes[t := s];
      }
    }
    Extended(journals, applies, n, before, passes);
  }

  lemma {:induction false} Extended(journals: seq<Entry>, applies: Applies, n: nat, before: map<Test, Source>,
                                    passes: map<Test, Source>)
    requires n < |journals| && Restores(journals, applies, n, before)
    requires forall t: Test :: t in passes <==> t in before || Offers(journals, applies, journals[n], t)
    requires forall t: Test :: t in before ==> t in passes && passes[t] == before[t]
    requires forall t: Test :: t in passes && t !in before ==>
      t in journals[n].journal.passes && passes[t] == journals[n].journal.passes[t]
    ensures Restores(journals, applies, n + 1, passes)
  {
    forall t: Test
      ensures t in passes <==> exists k :: 0 <= k < n + 1 && Offers(journals, applies, journals[k], t)
    {
      assert t in before <==> exists k :: 0 <= k < n && Offers(journals, applies, journals[k], t);
      assert t in passes <==> t in before || Offers(journals, applies, journals[n], t);
    }
    forall t: Test, k | 0 <= k < n + 1 && OffersFirst(journals, applies, k, t)
      ensures t in passes && passes[t] == journals[k].journal.passes[t]
    {
      if k == n {
        assert t !in before;
      }
    }
  }

  /** `restore`. */
  method Restore(attempts: seq<Attempt>, applies: Applies) returns (r: Result<map<Test, Source>>)
    ensures r.Refused? <==> exists k :: 0 <= k < |attempts| && attempts[k].Unsafe?
    ensures r.Ok? ==>
      var journals := Authenticated(attempts, |attempts|); Restores(journals, applies, |journals|, r.value)
  {
    var journals: seq<Entry>, n := [], 0;
    while n < |attempts|
      invariant n <= |attempts| && journals == Authenticated(attempts, n)
      invariant forall k :: 0 <= k < n ==> !attempts[k].Unsafe?
    {
      if attempts[n].Unsafe? { return Refused; }
      if attempts[n].Authentic? {
        journals := journals + [Entry(attempts[n].run, attempts[n].journal)];
      }
      n := n + 1;
    }
    var trusted := Trusted(journals);
    var passes: map<Test, Source> := map[];
    n := 0;
    while n < |journals|
      invariant n <= |journals| && Restores(journals, applies, n, passes)
    {
      passes := AddJournal(journals, applies, trusted, n, passes);
      n := n + 1;
    }
    r := Ok(passes);
  }

  // ----- consequences -----

  lemma {:induction false} FirstOffer(journals: seq<Entry>, applies: Applies, test: Test, k: nat) returns (first: nat)
    requires k < |journals| && Offers(journals, applies, journals[k], test)
    ensures first <= k && Offers(journals, applies, journals[first], test)
    ensures forall j :: 0 <= j < first ==> !Offers(journals, applies, journals[j], test)
    decreases k
  {
    if j: nat :| j < k && Offers(journals, applies, journals[j], test) {
      first := FirstOffer(journals, applies, test, j);
    } else {
      first := k;
    }
  }

  /** Every restored pass is applicable and recorded by the adopted journal of the very run and commit it names. */
  lemma {:induction false} RestoredIsGrounded(journals: seq<Entry>, applies: Applies, passes: map<Test, Source>,
                                              test: Test)
    requires Restores(journals, applies, |journals|, passes) && test in passes
    ensures applies(test, passes[test])
    ensures exists k :: 0 <= k < |journals| && Records(journals[k], test, passes[test].run, passes[test].commit)
  {
    var k :| 0 <= k < |journals| && Offers(journals, applies, journals[k], test);
    var first := FirstOffer(journals, applies, test, k);
    assert OffersFirst(journals, applies, first, test);
    assert passes[test] == journals[first].journal.passes[test];
  }

  /** `part` is what is left of `whole` when some journals are taken away. */
  ghost predicate LeftOf(part: seq<Entry>, whole: seq<Entry>) {
    forall k :: 0 <= k < |part| ==> part[k] in whole
  }

  /** Fewer journals never restore more tests. */
  lemma {:induction false} FewerJournalsRestoreFewer(part: seq<Entry>, whole: seq<Entry>, applies: Applies,
                                                     fewer: map<Test, Source>, more: map<Test, Source>)
    requires LeftOf(part, whole)
    requires Restores(part, applies, |part|, fewer) && Restores(whole, applies, |whole|, more)
    ensures fewer.Keys <= more.Keys
  {
    forall t | t in fewer
      ensures t in more
    {
      var k :| 0 <= k < |part| && Offers(part, applies, part[k], t);
      var s := part[k].journal.passes[t];
      var own :| 0 <= own < |part| && Records(part[own], t, s.run, s.commit);
      var i :| 0 <= i < |whole| && whole[i] == part[k];
      var j :| 0 <= j < |whole| && whole[j] == part[own];
      assert Records(whole[j], t, s.run, s.commit);
      assert Offers(whole, applies, whole[i], t);
    }
  }
}
