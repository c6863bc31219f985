// validation/main_preflight_adoption.py, `validate_journal`, `require_record_origin`, `authenticate_journal`
// and `prepare`: outcomes inherited from run to run.
module AdoptionHistory {
  import opened Wrappers
  import opened FiniteSets
  import opened InputGlob
  import opened InputDigest
  import opened InputWitness

  type Id = string

  datatype Outcome = Success | Skipped

  datatype Record = Record(commit: string, run: nat, job: nat, attempt: nat, outcome: Outcome, env: string, inputs: nat)

  type Records = map<Id, Record>

  datatype Scope = Scope(repository: nat, pr: nat)

  datatype Journal = Journal(scope: Scope, run: nat, commit: string, job: nat, attempt: nat, env: string,
                             producer: string, manifest: string, outcomes: Records, skips: Records, errors: seq<string>)

  datatype Job = Job(id: nat, run: nat, repository: nat, attempt: nat, terminal: bool)

  /** A start artifact: its run, whether it is named right and not expired, how often the log announces it. */
  datatype Start = Start(run: nat, genuine: bool, journal: Journal, published: nat)

  /**
   * What the artifacts, the API, git and the job log say of one prior run: `bound` that run and event belong
   * to the pull request, `known` that the producing workflow and blobs are this program's, `events` the
   * outcome lines of the log, `declared` the digest of a test's declared inputs at a commit.
   */
  datatype Evidence = Evidence(genuine: bool, bound: bool, commit: string, jobs: seq<Job>, final: Journal,
                               available: bool, known: bool, sourceLogged: bool, published: nat, starts: seq<Start>,
                               events: multiset<(Id, Record)>, declared: map<(Id, string), nat>)

  /** Reading a run's evidence works, fails in a way that only loses it, or shows the current run unsafe. */
  datatype Reading = Read(evidence: Evidence) | Unreadable | Unsafe

  datatype Verdict = Adopted(outcomes: Records, skips: Records, dropped: nat) | NotAdopted

  // ----- one journal -----

  predicate KnownKind(id: Id) { "validation:" <= id || "operations:" <= id || "node:" <= id }

  predicate RecordsOk(records: Records, outcome: Outcome, env: string) {
    forall id :: id in records ==>
      && KnownKind(id) && records[id].outcome == outcome && records[id].attempt == 1 && records[id].env == env
      && records[id].run > 0 && records[id].job > 0
  }

  /** `validate_journal`. */
  predicate JournalOk(j: Journal, scope: Scope, run: nat, commit: string, job: Job, env: string) {
    && j.scope == scope && j.run == run && j.commit == commit && j.job == job.id && j.attempt == job.attempt == 1
    && j.env == env
    && job.run == run && job.repository == scope.repository && job.terminal
    && j.errors == [] && RecordsOk(j.outcomes, Success, env) && RecordsOk(j.skips, Skipped, env)
  }

  predicate SameIdentity(a: Journal, b: Journal) {
    a.(outcomes := map[], skips := map[]) == b.(outcomes := map[], skips := map[])
  }

  predicate Within(part: Records, whole: Records) { forall id :: id in part ==> id in whole && whole[id] == part[id] }

  /** Everything that is asked of a journal before its records are looked at one by one. */
  predicate Authentic(e: Evidence, scope: Scope, run: nat, env: string) {
    && e.genuine && e.bound && |e.jobs| == 1
    && JournalOk(e.final, scope, run, e.commit, e.jobs[0], env)
    && e.available && e.known && e.sourceLogged && e.published == 1
    && |e.starts| == 1 && e.starts[0].run == run && e.starts[0].genuine
    && JournalOk(e.starts[0].journal, scope, run, e.commit, e.jobs[0], env)
    && SameIdentity(e.starts[0].journal, e.final)
    && Within(e.starts[0].journal.outcomes, e.final.outcomes)
    && e.starts[0].published == 1
  }

  // ----- one record -----

  predicate Own(r: Record, j: Journal) {
    r.run == j.run && r.commit == j.commit && r.job == j.job && r.attempt == j.attempt && r.env == j.env
  }

  /** The records agree on everything but the input digest. */
  predicate SameOrigin(a: Record, b: Record) { a.(inputs := 0) == b.(inputs := 0) }

  /** `require_record_origin`. */
  predicate OriginOk(r: Record, j: Journal, original: Option<Record>) {
    Own(r, j) || (original.Some? && SameOrigin(r, original.value))
  }

  predicate Declared(e: Evidence, id: Id, r: Record) {
    r.env == e.final.env && (id, r.commit) in e.declared && e.declared[(id, r.commit)] == r.inputs
  }

  function Lookup(records: Records, id: Id): Option<Record> { if id in records then Some(records[id]) else None }

  predicate OwnOk(e: Evidence, id: Id, r: Record) {
    OriginOk(r, e.final, None) && e.events[(id, r)] == 1 && Declared(e, id, r)
  }

  predicate InheritedOk(e: Evidence, id: Id, r: Record, candidates: Records) {
    OriginOk(r, e.final, Lookup(candidates, id)) && Declared(e, id, r)
  }

  predicate OwnSkipOk(e: Evidence, id: Id, r: Record) { OriginOk(r, e.final, None) && e.events[(id, r)] == 1 }

  // ----- `authenticate_journal` -----

  type Test = (Id, Record) -> bool

  /** Own records are kept, others only when they pass `inherits`. */
  ghost function Sifted(records: Records, run: nat, inherits: Test): Records {
    map id | id in records && (records[id].run == run || inherits(id, records[id])) :: records[id]
  }

  ghost predicate OwnPass(records: Records, run: nat, own: Test) {
    forall id :: id in records && records[id].run == run ==> own(id, records[id])
  }

  /**
   * The loop over one of a journal's two maps: one bad own record refuses the journal, a bad inherited one is
   * dropped.
   */
  method Sift(records: Records, run: nat, own: Test, inherits: Test) returns (r: Result<Records>, dropped: nat)
    ensures r.Ok? <==> OwnPass(records, run, own)
    ensures r.Ok? ==> r.value == Sifted(records, run, inherits) && dropped == |records| - |r.value|
  {
    var kept: Records, rest := map[], records.Keys;
    dropped := 0;
    while rest != {}
      invariant rest <= records.Keys
      invariant forall id :: id in records && id !in rest && records[id].run == run ==> own(id, records[id])
      invariant forall id :: id in kept <==> id in Sifted(records, run, inherits) && id !in rest
      invariant forall id :: id in kept ==> kept[id] == records[id]
      invariant dropped + |kept| + |rest| == |records|
      decreases |rest|
    {
      var id :| id in rest;
      var record := records[id];
      rest := rest - {id};
      if record.run == run {
        if !own(id, record) { return Refused, 0; }
        kept := kept[id := record];
      } else if inherits(id, record) {
        kept := kept[id := record];
      } else {
        dropped := dropped + 1;
      }
    }
    assert kept == Sifted(records, run, inherits);
    r := Ok(kept);
  }

  ghost predicate OwnRecordsOk(e: Evidence) {
    && OwnPass(e.final.outcomes, e.final.run, (id, r) => OwnOk(e, id, r))
    && OwnPass(e.final.skips, e.final.run, (id, r) => OwnSkipOk(e, id, r))
  }

  ghost function KeptOutcomes(e: Evidence, candidates: Records): Records {
    Sifted(e.final.outcomes, e.final.run, (id, r) => InheritedOk(e, id, r, candidates))
  }

  ghost function KeptSkips(e: Evidence, skips: Records): Records {
    Sifted(e.final.skips, e.final.run, (id, r) => OriginOk(r, e.final, Lookup(skips, id)))
  }

  ghost predicate Accepted(e: Evidence, scope: Scope, run: nat, env: string) {
    Authentic(e, scope, run, env) && OwnRecordsOk(e)
  }

  method Authenticate(e: Evidence, scope: Scope, run: nat, env: string, candidates: Records, skips: Records)
    returns (v: Verdict)
    ensures v.Adopted? <==> Accepted(e, scope, run, env)
    ensures v.Adopted? ==> v.outcomes == KeptOutcomes(e, candidates) && v.skips == KeptSkips(e, skips)
    ensures v.Adopted? ==> v.dropped == |e.final.outcomes| - |v.outcomes|
  {
    if !Authentic(e, scope, run, env) { return NotAdopted; }
    var outcomes, dropped := Sift(e.final.outcomes, e.final.run, (id, r) => OwnOk(e, id, r),
                                  (id, r) => InheritedOk(e, id, r, candidates));
    if outcomes.Refused? { return NotAdopted; }
    var kept, lost := Sift(e.final.skips, e.final.run, (id, r) => OwnSkipOk(e, id, r),
                           (id, r) => OriginOk(r, e.final, Lookup(skips, id)));
    if kept.Refused? { return NotAdopted; }
    v := Adopted(outcomes.value, kept.value, dropped);
  }

  // ----- all prior runs, oldest first -----

  type Runs = map<nat, seq<Reading>>

  datatype Past = Past(candidates: Records, skips: Records)

  /** The one readable journal of a run that passes every check. */
  ghost predicate AdoptedRun(runs: Runs, scope: Scope, env: string, run: nat) {
    run in runs && |runs[run]| == 1 && runs[run][0].Read? && Accepted(runs[run][0].evidence, scope, run, env)
  }

  /** What the runs before `n` contribute. */
  ghost function Before(runs: Runs, scope: Scope, env: string, n: nat): Past {
    if n == 0 then Past(map[], map[])
    else
      var past := Before(runs, scope, env, n - 1);
      if !AdoptedRun(runs, scope, env, n - 1) then past
      else
        var e := runs[n - 1][0].evidence;
        Past(past.candidates + KeptOutcomes(e, past.candidates), past.skips + KeptSkips(e, past.skips))
  }

  lemma {:induction false} NothingBetween(runs: Runs, scope: Scope, env: string, m: nat, n: nat)
    requires m <= n && forall run: nat :: run in runs && m <= run ==> n <= run
    ensures Before(runs, scope, env, n) == Before(runs, scope, env, m)
    decreases n
  {
    if m < n {
      NothingBetween(runs, scope, env, m, n - 1);
    }
  }

  ghost predicate AnyUnsafe(runs: Runs) {
    exists run: nat :: run in runs && |runs[run]| == 1 && runs[run][0].Unsafe?
  }

  /** The loop of `prepare` over the prior runs; `end` lies beyond all of them. */
  method Collect(runs: Runs, scope: Scope, env: string, ghost end: nat) returns (r: Result<Past>)
    requires forall run: nat :: run in runs ==> run < end
    ensures r.Refused? <==> AnyUnsafe(runs)
    ensures r.Ok? ==> r.value == Before(runs, scope, env, end)
  {
    var candidates: Records, skips: Records := map[], map[];
    var rest := runs.Keys;
    ghost var n: nat := 0;
    while rest != {}
      invariant n <= end && rest <= runs.Keys && forall run: nat :: run in runs ==> (run in rest <==> n <= run)
      invariant Past(candidates, skips) == Before(runs, scope, env, n)
      invariant forall run: nat :: run in runs && run < n && |runs[run]| == 1 ==> !runs[run][0].Unsafe?
      decreases |rest|
    {
      var run := Smallest(rest);
      NothingBetween(runs, scope, env, n, run);
      rest := rest - {run};
      n := run + 1;
      if |runs[run]| == 1 {
        var reading := runs[run][0];
        if reading.Unsafe? { return Refused; }
        if reading.Read? {
          var v := Authenticate(reading.evidence, scope, run, env, candidates, skips);
          if v.Adopted? {
            candidates, skips := candidates + v.outcomes, skips + v.skips;
          }
        }
      }
    }
    NothingBetween(runs, scope, env, n, end);
    r := Ok(Past(candidates, skips));
  }

  // ----- the newest record wins -----

  /** What the adopted journal of run `k` hands on: its own records and those it rightly inherited. */
  ghost function HandsOn(runs: Runs, scope: Scope, env: string, k: nat): Past {
    if !AdoptedRun(runs, scope, env, k) then Past(map[], map[])
    else
      var e, past := runs[k][0].evidence, Before(runs, scope, env, k);
      Past(KeptOutcomes(e, past.candidates), KeptSkips(e, past.skips))
  }

  /** A record is kept as it stands in the journal, when it is the run's own or rightly inherited. */
  lemma {:induction false} HandedOnExactly(runs: Runs, scope: Scope, env: string, k: nat, id: Id, r: Record)
    requires AdoptedRun(runs, scope, env, k)
    ensures var e, past := runs[k][0].evidence, Before(runs, scope, env, k);
      && ((id, r) in HandsOn(runs, scope, env, k).candidates.Items <==>
            (id, r) in e.final.outcomes.Items
            && (r.run == k || (Declared(e, id, r) && (Own(r, e.final) || Inherited(r, id, past.candidates)))))
      && ((id, r) in HandsOn(runs, scope, env, k).skips.Items <==>
            (id, r) in e.final.skips.Items && (r.run == k || Own(r, e.final) || Inherited(r, id, past.skips)))
  {
    var e := runs[k][0].evidence;
    assert e.final.run == k;
  }

  /** An earlier journal handed the record on, up to its input digest. */
  predicate Inherited(r: Record, id: Id, past: Records) {
    id in past && r == past[id].(inputs := r.inputs)
  }

  /** Maps laid over each other, later ones on top. */
  ghost function Layers(maps: nat -> Records, n: nat): Records {
    if n == 0 then map[] else Layers(maps, n - 1) + maps(n - 1)
  }

  /** Map `k` is the last before `n` that has `id`. */
  ghost predicate LastWith(maps: nat -> Records, n: nat, k: nat, id: Id) {
    k < n && id in maps(k) && forall m: nat :: k < m < n ==> id !in maps(m)
  }

  lemma {:induction false} LayersHold(maps: nat -> Records, n: nat, id: Id)
    ensures id in Layers(maps, n) <==> exists k: nat :: k < n && id in maps(k)
    decreases n
  {
    if n > 0 {
      LayersHold(maps, n - 1, id);
      if id in maps(n - 1) { assert n - 1 < n && id in maps(n - 1); }
    }
  }

  lemma {:induction false} TopLayerShows(maps: nat -> Records, n: nat, k: nat, id: Id)
    requires LastWith(maps, n, k, id)
    ensures (id, maps(k)[id]) in Layers(maps, n).Items
    decreases n
  {
    if k < n - 1 {
      assert LastWith(maps, n - 1, k, id);
      TopLayerShows(maps, n - 1, k, id);
      assert id !in maps(n - 1);
    }
  }

  ghost function Outcomes(runs: Runs, scope: Scope, env: string): nat -> Records {
    (k: nat) => HandsOn(runs, scope, env, k).candidates
  }

  ghost function Skips(runs: Runs, scope: Scope, env: string): nat -> Records {
    (k: nat) => HandsOn(runs, scope, env, k).skips
  }

  lemma {:induction false} OneMoreLayer(runs: Runs, scope: Scope, env: string, n: nat)
    ensures Before(runs, scope, env, n + 1).candidates
      == Before(runs, scope, env, n).candidates + HandsOn(runs, scope, env, n).candidates
    ensures Before(runs, scope, env, n + 1).skips
      == Before(runs, scope, env, n).skips + HandsOn(runs, scope, env, n).skips
  {
    var past := Before(runs, scope, env, n);
    assert past.candidates + map[] == past.candidates && past.skips + map[] == past.skips;
  }

  lemma {:induction false} BeforeIsLayers(runs: Runs, scope: Scope, env: string, n: nat)
    ensures Before(runs, scope, env, n).candidates == Layers(Outcomes(runs, scope, env), n)
    ensures Before(runs, scope, env, n).skips == Layers(Skips(runs, scope, env), n)
    decreases n
  {
    if n > 0 {
      BeforeIsLayers(runs, scope, env, n - 1);
      OneMoreLayer(runs, scope, env, n - 1);
      assert Outcomes(runs, scope, env)(n - 1) == HandsOn(runs, scope, env, n - 1).candidates;
      assert Skips(runs, scope, env)(n - 1) == HandsOn(runs, scope, env, n - 1).skips;
    }
  }

  /** A candidate is the record of the latest adopted run that hands its test on; a test nobody hands on is none. */
  lemma {:induction false} NewestWins(runs: Runs, scope: Scope, env: string, n: nat, k: nat, id: Id)
    ensures id in Before(runs, scope, env, n).candidates <==>
      exists m: nat :: m < n && id in Outcomes(runs, scope, env)(m)
    ensures LastWith(Outcomes(runs, scope, env), n, k, id) ==>
      (id, HandsOn(runs, scope, env, k).candidates[id]) in Before(runs, scope, env, n).candidates.Items
  {
    BeforeIsLayers(runs, scope, env, n);
    LayersHold(Outcomes(runs, scope, env), n, id);
    if LastWith(Outcomes(runs, scope, env), n, k, id) {
      TopLayerShows(Outcomes(runs, scope, env), n, k, id);
    }
  }

  /** So it is with skips. */
  lemma {:induction false} NewestSkipWins(runs: Runs, scope: Scope, env: string, n: nat, k: nat, id: Id)
    ensures id in Before(runs, scope, env, n).skips <==> exists m: nat :: m < n && id in Skips(runs, scope, env)(m)
    ensures LastWith(Skips(runs, scope, env), n, k, id) ==>
      (id, HandsOn(runs, scope, env, k).skips[id]) in Before(runs, scope, env, n).skips.Items
  {
    BeforeIsLayers(runs, scope, env, n);
    LayersHold(Skips(runs, scope, env), n, id);
    if LastWith(Skips(runs, scope, env), n, k, id) {
      TopLayerShows(Skips(runs, scope, env), n, k, id);
    }
  }

  /** No adopted journal between `k` and `n` holds the test among its outcomes, or among its skips. */
  ghost predicate Unheard(runs: Runs, scope: Scope, env: string, k: nat, n: nat, id: Id, skips: bool) {
    forall m: nat :: k < m < n && AdoptedRun(runs, scope, env, m) ==>
      id !in (if skips then runs[m][0].evidence.final.skips else runs[m][0].evidence.final.outcomes)
  }

  /** An adopted run's own record stands until a later adopted journal holds the test. */
  lemma {:induction false} OwnRecordStands(runs: Runs, scope: Scope, env: string, n: nat, k: nat, id: Id, r: Record)
    requires k < n && AdoptedRun(runs, scope, env, k) && r.run == k
    requires Unheard(runs, scope, env, k, n, id, false) && (id, r) in runs[k][0].evidence.final.outcomes.Items
    ensures (id, r) in Before(runs, scope, env, n).candidates.Items
  {
    HandedOnExactly(runs, scope, env, k, id, r);
    forall m: nat | k < m < n
      ensures id !in Outcomes(runs, scope, env)(m)
    {
    }
    NewestWins(runs, scope, env, n, k, id);
  }

  lemma {:induction false} OwnSkipStands(runs: Runs, scope: Scope, env: string, n: nat, k: nat, id: Id, r: Record)
    requires k < n && AdoptedRun(runs, scope, env, k) && r.run == k
    requires Unheard(runs, scope, env, k, n, id, true) && (id, r) in runs[k][0].evidence.final.skips.Items
    ensures (id, r) in Before(runs, scope, env, n).skips.Items
  {
    HandedOnExactly(runs, scope, env, k, id, r);
    forall m: nat | k < m < n
      ensures id !in Skips(runs, scope, env)(m)
    {
    }
    NewestSkipWins(runs, scope, env, n, k, id);
  }

  /** What makes a run's journal count: one genuine journal of one finished job, announced once, that kept its start. */
  lemma {:induction false} AdoptedRunsAreGenuine(runs: Runs, scope: Scope, env: string, k: nat)
    requires AdoptedRun(runs, scope, env, k)
    ensures var e := runs[k][0].evidence;
      && e.genuine && e.bound && e.available && e.known && e.sourceLogged && e.published == 1
      && |e.jobs| == 1 && e.jobs[0].run == k && e.jobs[0].repository == scope.repository && e.jobs[0].terminal
      && e.final.scope == scope && e.final.run == k && e.final.commit == e.commit && e.final.env == env
      && e.final.job == e.jobs[0].id && e.final.attempt == e.jobs[0].attempt == 1 && e.final.errors == []
      && |e.starts| == 1 && e.starts[0].genuine && e.starts[0].run == k && e.starts[0].published == 1
      && e.starts[0].journal.outcomes.Items <= e.final.outcomes.Items
      && e.starts[0].journal.job == e.final.job && e.starts[0].journal.producer == e.final.producer
      && e.starts[0].journal.manifest == e.final.manifest && e.starts[0].journal.errors == []
  {
  }

  /** The records of an adopted journal are well formed, and its own skips are printed once each. */
  lemma {:induction false} AdoptedRecordsAreSound(runs: Runs, scope: Scope, env: string, k: nat, id: Id, r: Record)
    requires AdoptedRun(runs, scope, env, k)
    ensures var j := runs[k][0].evidence.final;
      ((id, r) in j.outcomes.Items ==> r.outcome == Success) && ((id, r) in j.skips.Items ==> r.outcome == Skipped)
    ensures var j := runs[k][0].evidence.final; (id, r) in j.outcomes.Items || (id, r) in j.skips.Items ==>
      r.attempt == 1 && r.env == env && r.run > 0 && r.job > 0
      && ("validation:" <= id || "operations:" <= id || "node:" <= id)
    ensures var e := runs[k][0].evidence; (id, r) in e.final.skips.Items && r.run == k ==>
      r.commit == e.commit && r.job == e.final.job && e.events[(id, r)] == 1
  {
    var e := runs[k][0].evidence;
    assert e.final.run == k;
    if (id, r) in e.final.skips.Items && r.run == k {
      assert OwnSkipOk(e, id, r);
    }
  }

  // ----- provenance -----

  /** The record is a success that the adopted journal of the run it names itself observed, exactly once. */
  ghost predicate Grounded(runs: Runs, scope: Scope, env: string, id: Id, r: Record) {
    AdoptedRun(runs, scope, env, r.run) &&
    var e := runs[r.run][0].evidence;
    && id in e.final.outcomes
    && var o := e.final.outcomes[id];
    && SameOrigin(r, o) && o.outcome == Success && Own(o, e.final) && e.events[(id, o)] == 1 && Declared(e, id, o)
  }

  ghost predicate AllGrounded(runs: Runs, scope: Scope, env: string, n: nat, records: Records) {
    forall id :: id in records ==> Grounded(runs, scope, env, id, records[id]) && records[id].run < n
  }

  lemma {:induction false} KeptIsGrounded(runs: Runs, scope: Scope, env: string, run: nat, candidates: Records, id: Id)
    requires AdoptedRun(runs, scope, env, run) && AllGrounded(runs, scope, env, run, candidates)
    requires id in KeptOutcomes(runs[run][0].evidence, candidates)
    ensures var r := runs[run][0].evidence.final.outcomes[id];
      Grounded(runs, scope, env, id, r) && r.run < run + 1 && (!Own(r, runs[run][0].evidence.final) ==> r.run < run)
  {
    var e := runs[run][0].evidence;
    var r := e.final.outcomes[id];
    if r.run == run {
      assert OwnOk(e, id, r);
    } else {
      assert SameOrigin(r, candidates[id]);
      assert Grounded(runs, scope, env, id, candidates[id]);
    }
  }

  /**
   * Through any number of inheritances every adopted outcome traces back to a success of the run it names:
   * same commit, job, attempt and environment, observed by that run itself and printed exactly once.
   */
  lemma {:induction false} EveryCandidateIsGrounded(runs: Runs, scope: Scope, env: string, n: nat)
    ensures AllGrounded(runs, scope, env, n, Before(runs, scope, env, n).candidates)
    decreases n
  {
    if n > 0 {
      EveryCandidateIsGrounded(runs, scope, env, n - 1);
      if AdoptedRun(runs, scope, env, n - 1) {
        var past := Before(runs, scope, env, n - 1).candidates;
        var kept := KeptOutcomes(runs[n - 1][0].evidence, past);
        forall id | id in kept
          ensures Grounded(runs, scope, env, id, kept[id]) == true && kept[id].run < n
        {
          KeptIsGrounded(runs, scope, env, n - 1, past, id);
        }
        MergeGrounded(runs, scope, env, n, past, kept);
      }
    }
  }

  lemma {:induction false} MergeGrounded(runs: Runs, scope: Scope, env: string, n: nat, past: Records, kept: Records)
    requires n > 0 && AllGrounded(runs, scope, env, n - 1, past) && AllGrounded(runs, scope, env, n, kept)
    ensures AllGrounded(runs, scope, env, n, past + kept)
  {
  }

  /**
   * An outcome a journal carries for another run counts only if that run came before and its own journal was
   * adopted.
   */
  lemma {:induction false} InheritanceGoesBack(runs: Runs, scope: Scope, env: string, run: nat, id: Id)
    requires AdoptedRun(runs, scope, env, run)
    requires id in KeptOutcomes(runs[run][0].evidence, Before(runs, scope, env, run).candidates)
    requires runs[run][0].evidence.final.outcomes[id].run != run
    ensures var origin := runs[run][0].evidence.final.outcomes[id].run;
      origin < run && AdoptedRun(runs, scope, env, origin)
  {
    EveryCandidateIsGrounded(runs, scope, env, run);
    KeptIsGrounded(runs, scope, env, run, Before(runs, scope, env, run).candidates, id);
  }

  // ----- what the current run adopts -----

  /** Whether a test is still there, and whether its own source still applies. */
  datatype Answer = Yes | No | Failed | Broken

  /** The current commit's view of a test. */
  datatype Present = Present(commit: string, env: string, families: seq<Family>, rows: map<Family, Row>,
                             listed: Id -> Answer, applies: (Id, Record) -> Answer)

  predicate IsNode(id: Id) { "node:" <= id }

  /** The manifest row a test's inputs are taken from. */
  ghost predicate RowOf(now: Present, id: Id, row: Row) {
    exists k: nat :: Closest(now.families, id, k) && InputWitness.Usable(now.families[k])
      && Widened(now.families[k], id) in now.rows && now.rows[Widened(now.families[k], id)] == row
  }

  /** What adopting a record promises about the current commit. */
  ghost predicate Carried(d: Digests, now: Present, id: Id, candidate: Record, adopted: Record) {
    && adopted == candidate.(inputs := adopted.inputs) && Applies(now, id, candidate)
    && exists row :: RowOf(now, id, row)
         && RightDigest(d.repo, d.fits, d.hash, now.commit, row, adopted.inputs)
         && RightDigest(d.repo, d.fits, d.hash, candidate.commit, row, adopted.inputs)
  }

  predicate Applies(now: Present, id: Id, candidate: Record) {
    candidate.env == now.env && (IsNode(id) || (now.listed(id) == Yes && now.applies(id, candidate) == Yes))
  }

  /** A node test needs only its environment; any other must be listed and its own source must still apply. */
  lemma {:induction false} AppliesExactly(now: Present, id: Id, candidate: Record)
    ensures "node:" <= id ==> (Applies(now, id, candidate) <==> candidate.env == now.env)
    ensures !("node:" <= id) ==> (Applies(now, id, candidate) <==>
      candidate.env == now.env && now.listed(id) == Yes == now.applies(id, candidate))
    ensures Breaks(now, id, candidate) <==> !("node:" <= id) && Broken in {now.listed(id), now.applies(id, candidate)}
  {
  }

  /** The record applies in this environment and its declared inputs have one digest at both commits. */
  ghost predicate StillHolds(d: Digests, now: Present, id: Id, candidate: Record) {
    && Applies(now, id, candidate)
    && exists row, h :: RowOf(now, id, row)
         && RightDigest(d.repo, d.fits, d.hash, now.commit, row, h)
         && RightDigest(d.repo, d.fits, d.hash, candidate.commit, row, h)
  }

  lemma {:induction false} CarriedHolds(d: Digests, now: Present, id: Id, candidate: Record, adopted: Record)
    requires Carried(d, now, id, candidate, adopted)
    ensures StillHolds(d, now, id, candidate)
  {
    var row :| RowOf(now, id, row)
      && RightDigest(d.repo, d.fits, d.hash, now.commit, row, adopted.inputs)
      && RightDigest(d.repo, d.fits, d.hash, candidate.commit, row, adopted.inputs);
  }

  /** The tree cache is full and one of the two commits is not in it. */
  ghost predicate Crowded(trees: set<Commit>, now: Present, candidate: Record) {
    |trees| >= MAX_TREES && (now.commit !in trees || candidate.commit !in trees)
  }

  lemma {:induction false} OneRow(now: Present, id: Id, row: Row, other: Row)
    requires RowOf(now, id, row) && RowOf(now, id, other)
    ensures row == other
  {
  }

  predicate Breaks(now: Present, id: Id, candidate: Record) {
    !IsNode(id) && (now.listed(id) == Broken || now.applies(id, candidate) == Broken)
  }

  /** A carried record is right, and one that still holds is left out only for want of room. */
  ghost predicate Settled(d: Digests, trees: set<Commit>, now: Present, id: Id, candidate: Record,
                          adopted: Option<Record>) {
    && (adopted.Some? ==> Carried(d, now, id, candidate, adopted.value))
    && (adopted.None? && StillHolds(d, now, id, candidate) ==> Crowded(trees, now, candidate))
  }

  /** Both commits have this digest for the row. */
  ghost predicate Common(d: Digests, now: Present, candidate: Record, row: Row, h: Hash) {
    && RightDigest(d.repo, d.fits, d.hash, now.commit, row, h)
    && RightDigest(d.repo, d.fits, d.hash, candidate.commit, row, h)
  }

  /** Both digests can be computed, and there is room for their trees. */
  ghost predicate Readable(d: Digests, trees: set<Commit>, now: Present, candidate: Record, row: Row) {
    && Uncached(d.repo, d.fits, now.commit, row).Ok? && Uncached(d.repo, d.fits, candidate.commit, row).Ok?
    && !Crowded(trees, now, candidate)
  }

  /** The round gets as far as asking whether the test's own source still applies. */
  ghost predicate Asks(d: Digests, trees: set<Commit>, now: Present, id: Id, candidate: Record) {
    && !IsNode(id) && now.listed(id) == Yes
    && exists row :: RowOf(now, id, row) && (candidate.env == now.env ==> Readable(d, trees, now, candidate, row))
  }

  /** Whether the row has one digest at both commits, read through the caches. */
  method SameDigest(d: Digests, now: Present, candidate: Record, row: Row) returns (same: Result<bool>)
    requires d.Valid()
    modifies d
    ensures d.Valid() && Grows(old(d.trees).Keys, d.trees.Keys, {now.commit, candidate.commit})
    ensures same.Ok? ==> (candidate.commit, row) in d.digests
    ensures same.Ok? ==> (same.value <==> exists h :: Common(d, now, candidate, row, h))
    ensures same.Refused? ==> !Readable(d, d.trees.Keys, now, candidate, row)
  {
    var after := d.InputDigest(now.commit, row);
    if after.Refused? { return Refused; }
    var before := d.InputDigest(candidate.commit, row);
    if before.Refused? { return Refused; }
    same := Ok(before.value == after.value);
    if same.value { assert Common(d, now, candidate, row, after.value); }
  }

  /**
   * One round of the last loop of `prepare`.  A record that still holds is carried; only a full tree cache
   * can stand in its way, and only a worktree that is not the dispatched source refuses the whole run.
   */
  method AdoptOne(d: Digests, now: Present, id: Id, candidate: Record) returns (r: Result<Option<Record>>)
    requires d.Valid()
    modifies d
    ensures d.Valid() && Grows(old(d.trees).Keys, d.trees.Keys, {now.commit, candidate.commit})
    ensures r.Ok? ==> Settled(d, d.trees.Keys, now, id, candidate, r.value)
    ensures r.Refused? ==> Breaks(now, id, candidate)
    ensures !IsNode(id) && now.listed(id) == Broken ==> r.Refused?
    ensures Asks(d, d.trees.Keys, now, id, candidate) && now.applies(id, candidate) == Broken ==> r.Refused?
  {
    if !IsNode(id) && now.listed(id) != Yes {
      return if now.listed(id) == Broken then Refused else Ok(None);
    }
    var family := Witness(id, now.families);
    if family.Refused? || family.value !in now.rows { return Ok(None); }
    var row := now.rows[family.value];
    assert RowOf(now, id, row);
    HoldsForRow(d, now, id, candidate, row);
    var same := candidate.env == now.env;
    if same {
      var compared := SameDigest(d, now, candidate, row);
      if compared.Refused? { return Ok(None); }
      same := compared.value;
    }
    if !IsNode(id) {
      if now.applies(id, candidate) == Broken { return Refused; }
      same := same && now.applies(id, candidate) == Yes;
    }
    if !same { return Ok(None); }
    var inputs := d.InputDigest(candidate.commit, row);
    assert Common(d, now, candidate, row, inputs.value);
    r := Ok(Some(candidate.(inputs := inputs.value)));
  }

  lemma {:induction false} HoldsForRow(d: Digests, now: Present, id: Id, candidate: Record, row: Row)
    requires RowOf(now, id, row)
    ensures StillHolds(d, now, id, candidate)
      <==> Applies(now, id, candidate) && exists h :: Common(d, now, candidate, row, h)
  {
    if StillHolds(d, now, id, candidate) {
      var other, h :| RowOf(now, id, other) && RightDigest(d.repo, d.fits, d.hash, now.commit, other, h)
        && RightDigest(d.repo, d.fits, d.hash, candidate.commit, other, h);
      OneRow(now, id, row, other);
      assert Common(d, now, candidate, row, h);
    }
  }

  /** The commits whose trees the last loop may ask for. */
  ghost function Commits(now: Present, candidates: Records): set<Commit> {
    {now.commit} + set id | id in candidates :: candidates[id].commit
  }

  ghost predicate AllSettled(d: Digests, trees: set<Commit>, now: Present, candidates: Records, done: set<Id>,
                             adopted: Records)
    requires done <= candidates.Keys
  {
    forall id :: id in done ==> Settled(d, trees, now, id, candidates[id], Lookup(adopted, id))
  }

  /** Exactly the candidates that still hold are carried. */
  ghost predicate CarriesExactly(d: Digests, now: Present, candidates: Records, adopted: Records) {
    forall id :: id in candidates ==> (id in adopted <==> StillHolds(d, now, id, candidates[id]))
  }

  function With(adopted: Records, id: Id, one: Option<Record>): Records {
    if one.Some? then adopted[id := one.value] else adopted
  }

  lemma {:induction false} OneMoreSettled(d: Digests, before: set<Commit>, after: set<Commit>, wanted: set<Commit>,
                                          now: Present, candidates: Records, done: set<Id>, adopted: Records, id: Id,
                                          one: Option<Record>)
    requires done <= candidates.Keys && id in candidates && id !in done
    requires AllSettled(d, before, now, candidates, done, adopted) && Grows(before, after, wanted)
    requires id !in adopted && Settled(d, after, now, id, candidates[id], one)
    ensures AllSettled(d, after, now, candidates, done + {id}, With(adopted, id, one)) == true
  {
    var more := With(adopted, id, one);
    assert Lookup(more, id) == one;
    forall other | other in done
      ensures Settled(d, after, now, other, candidates[other], Lookup(more, other)) == true
    {
      assert Settled(d, before, now, other, candidates[other], Lookup(adopted, other));
      assert Lookup(more, other) == Lookup(adopted, other);
    }
  }

  method AdoptNext(d: Digests, now: Present, candidates: Records, id: Id, adopted: Records, ghost start: set<Commit>,
                   ghost done: set<Id>) returns (r: Result<Records>)
    requires id in candidates && id !in done && done <= candidates.Keys && adopted.Keys <= done && d.Valid()
    requires Grows(start, d.trees.Keys, Commits(now, candidates))
    requires AllSettled(d, d.trees.Keys, now, candidates, done, adopted) == true
    modifies d
    ensures d.Valid() && Grows(start, d.trees.Keys, Commits(now, candidates))
    ensures r.Ok? ==> r.value.Keys <= done + {id}
    ensures r.Ok? ==> AllSettled(d, d.trees.Keys, now, candidates, done + {id}, r.value) == true
    ensures r.Refused? ==> Breaks(now, id, candidates[id])
  {
    ghost var trees := d.trees.Keys;
    var one := AdoptOne(d, now, id, candidates[id]);
    GrowsFurther(start, trees, d.trees.Keys, now, candidates, id);
    if one.Refused? { return Refused; }
    OneMoreSettled(d, trees, d.trees.Keys, Commits(now, candidates), now, candidates, done, adopted, id, one.value);
    r := Ok(With(adopted, id, one.value));
  }

  lemma {:induction false} GrowsFurther(start: set<Commit>, trees: set<Commit>, more: set<Commit>, now: Present,
                                        candidates: Records, id: Id)
    requires id in candidates && Grows(trees, more, {now.commit, candidates[id].commit})
    requires Grows(start, trees, Commits(now, candidates))
    ensures Grows(trees, more, Commits(now, candidates)) && Grows(start, more, Commits(now, candidates))
  {
    assert {now.commit, candidates[id].commit} <= Commits(now, candidates);
  }

  /** The last loop of `prepare`: it carries what still holds, all of it when no more than 64 trees are asked for. */
  method AdoptAll(d: Digests, now: Present, candidates: Records) returns (r: Result<Records>)
    requires d.Valid()
    modifies d
    ensures d.Valid() && Grows(old(d.trees).Keys, d.trees.Keys, Commits(now, candidates))
    ensures r.Ok? ==> r.value.Keys <= candidates.Keys
    ensures r.Ok? ==> AllSettled(d, d.trees.Keys, now, candidates, candidates.Keys, r.value)
    ensures r.Ok? && |old(d.trees).Keys + Commits(now, candidates)| <= MAX_TREES ==>
      CarriesExactly(d, now, candidates, r.value)
    ensures r.Refused? ==> exists id :: id in candidates && Breaks(now, id, candidates[id])
  {
    r := Ok(map[]);
    var rest := candidates.Keys;
    while rest != {}
      invariant rest <= candidates.Keys && r.Ok?
      invariant d.Valid() && Grows(old(d.trees).Keys, d.trees.Keys, Commits(now, candidates))
      invariant r.value.Keys <= candidates.Keys - rest
      invariant AllSettled(d, d.trees.Keys, now, candidates, candidates.Keys - rest, r.value) == true
      decreases |rest|
    {
      var id :| id in rest;
      ghost var done := candidates.Keys - rest;
      rest := rest - {id};
      r := AdoptNext(d, now, candidates, id, r.value, old(d.trees).Keys, done);
      if r.Refused? { return; }
      assert candidates.Keys - rest == done + {id};
    }
    assert candidates.Keys - rest == candidates.Keys;
    NothingDropped(d, d.trees.Keys, old(d.trees).Keys + Commits(now, candidates), now, candidates, r.value);
  }

  lemma {:induction false} NothingDropped(d: Digests, trees: set<Commit>, wanted: set<Commit>, now: Present,
                                          candidates: Records, adopted: Records)
    requires AllSettled(d, trees, now, candidates, candidates.Keys, adopted)
    requires trees <= wanted && Commits(now, candidates) <= wanted
    ensures |wanted| <= MAX_TREES ==> CarriesExactly(d, now, candidates, adopted) == true
  {
    if |wanted| > MAX_TREES { return; }
    forall id | id in candidates
      ensures id in adopted <==> StillHolds(d, now, id, candidates[id])
    {
      assert Settled(d, trees, now, id, candidates[id], Lookup(adopted, id));
      if id in adopted {
        CarriedHolds(d, now, id, candidates[id], adopted[id]);
      } else {
        NeverCrowded(trees, wanted, now, candidates[id]);
      }
    }
  }

  lemma {:induction false} NeverCrowded(trees: set<Commit>, wanted: set<Commit>, now: Present, candidate: Record)
    requires trees <= wanted && |wanted| <= MAX_TREES && {now.commit, candidate.commit} <= wanted
    ensures !Crowded(trees, now, candidate)
  {
    if c :| c in {now.commit, candidate.commit} && c !in trees {
      SubsetSize(trees + {c}, wanted);
    }
  }

  ghost predicate Unchanged(repo: Repo, fits: Wildcard, before: Commit, after: Commit, row: Row) {
    && Uncached(repo, fits, before, row).Ok? && Uncached(repo, fits, after, row).Ok?
    && SameInputs(repo, fits, before, after, row)
  }

  /**
   * What a run starts from: each adopted outcome was observed by the run it names, and nothing its manifest
   * row declares has changed between that run's commit and this one.
   */
  lemma {:induction false} AdoptedOutcomesStillHold(runs: Runs, scope: Scope, end: nat, d: Digests, now: Present,
                                                    id: Id, candidate: Record, adopted: Record)
    requires Injective(d.hash) && Carried(d, now, id, candidate, adopted)
    requires id in Before(runs, scope, now.env, end).candidates
    requires Before(runs, scope, now.env, end).candidates[id] == candidate
    ensures Grounded(runs, scope, now.env, id, adopted)
    ensures exists row :: RowOf(now, id, row) && Unchanged(d.repo, d.fits, candidate.commit, now.commit, row)
  {
    EveryCandidateIsGrounded(runs, scope, now.env, end);
    assert Grounded(runs, scope, now.env, id, candidate);
    var row :| RowOf(now, id, row)
      && RightDigest(d.repo, d.fits, d.hash, now.commit, row, adopted.inputs)
      && RightDigest(d.repo, d.fits, d.hash, candidate.commit, row, adopted.inputs);
    DigestsCoincide(d.repo, d.fits, d.hash, candidate.commit, now.commit, row);
  }
}
