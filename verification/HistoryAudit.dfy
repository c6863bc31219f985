// validation/history.py, `audit_merge_regressions` and the post-boundary part of `audit_history`: which
// commits a landing brought in, and which of the corrective ones carry a regression test.
module HistoryAudit {
  import opened Wrappers

  /** Commits numbered so that parents come first, as in any topological order. */
  type Commit = nat

  /** A history: the parents of each commit, the first one first. */
  type Dag = map<Commit, seq<Commit>>

  ghost predicate WellFormed(dag: Dag) {
    forall c, k :: c in dag && 0 <= k < |dag[c]| ==> dag[c][k] in dag && dag[c][k] < c
  }

  function Parents(dag: Dag, c: Commit): seq<Commit> { if c in dag then dag[c] else [] }

  // ----- reachability -----

  /** A commit and everything reachable from it. */
  function Ancestors(dag: Dag, c: Commit): set<Commit>
    decreases c, 1, 0
  {
    {c} + AncestorsOf(dag, c, Parents(dag, c), |Parents(dag, c)|)
  }

  /** What the first `n` of these parents of `c` reach. */
  function AncestorsOf(dag: Dag, c: Commit, parents: seq<Commit>, n: nat): set<Commit>
    requires n <= |parents|
    decreases c, 0, n
  {
    if n == 0 then {}
    else
      AncestorsOf(dag, c, parents, n - 1) + (if parents[n - 1] < c then Ancestors(dag, parents[n - 1]) else {})
  }

  function Reach(dag: Dag, tips: seq<Commit>): set<Commit> {
    if tips == [] then {} else Ancestors(dag, tips[0]) + Reach(dag, tips[1..])
  }

  lemma {:induction false} ParentReached(dag: Dag, c: Commit, parents: seq<Commit>, n: nat, k: nat)
    requires k < n <= |parents| && parents[k] < c
    ensures Ancestors(dag, parents[k]) <= AncestorsOf(dag, c, parents, n)
  {
    if k < n - 1 {
      ParentReached(dag, c, parents, n - 1, k);
    }
  }

  lemma {:induction false} AncestorsAreEarlier(dag: Dag, c: Commit)
    ensures forall a :: a in Ancestors(dag, c) ==> a <= c
    decreases c, 1, 0
  {
    EarlierOf(dag, c, Parents(dag, c), |Parents(dag, c)|);
  }

  lemma {:induction false} EarlierOf(dag: Dag, c: Commit, parents: seq<Commit>, n: nat)
    requires n <= |parents|
    ensures forall a :: a in AncestorsOf(dag, c, parents, n) ==> a < c
    decreases c, 0, n
  {
    if n > 0 {
      EarlierOf(dag, c, parents, n - 1);
      if parents[n - 1] < c {
        AncestorsAreEarlier(dag, parents[n - 1]);
      }
    }
  }

  predicate ChildOf(dag: Dag, c: Commit, parent: Commit) { c in dag && parent in dag[c] }

  /** From child to parent, each step in the graph. */
  ghost predicate IsPath(dag: Dag, path: seq<Commit>) {
    path != [] && forall k :: 0 <= k < |path| - 1 ==> ChildOf(dag, path[k], path[k + 1])
  }

  ghost predicate Leads(dag: Dag, c: Commit, a: Commit, path: seq<Commit>) {
    IsPath(dag, path) && path[0] == c && path[|path| - 1] == a
  }

  /** An ancestor is what a path of parents leads to. */
  lemma {:induction false} AncestorsAreReached(dag: Dag, c: Commit, a: Commit)
    requires WellFormed(dag)
    ensures a in Ancestors(dag, c) <==> exists path :: Leads(dag, c, a, path)
  {
    if a in Ancestors(dag, c) {
      var path := PathTo(dag, c, a);
    }
    if path :| Leads(dag, c, a, path) {
      PathReaches(dag, c, a, path);
    }
  }

  lemma {:induction false} PathTo(dag: Dag, c: Commit, a: Commit) returns (path: seq<Commit>)
    requires WellFormed(dag) && a in Ancestors(dag, c)
    ensures Leads(dag, c, a, path)
    decreases c, 1, 0
  {
    if a == c {
      path := [c];
    } else {
      path := PathThrough(dag, c, a, |Parents(dag, c)|);
    }
  }

  lemma {:induction false} PathThrough(dag: Dag, c: Commit, a: Commit, n: nat) returns (path: seq<Commit>)
    requires WellFormed(dag) && n <= |Parents(dag, c)| && a in AncestorsOf(dag, c, Parents(dag, c), n)
    ensures Leads(dag, c, a, path)
    decreases c, 0, n
  {
    var parent := Parents(dag, c)[n - 1];
    if parent < c && a in Ancestors(dag, parent) {
      var rest := PathTo(dag, parent, a);
      path := [c] + rest;
      forall k | 0 <= k < |path| - 1
        ensures ChildOf(dag, path[k], path[k + 1])
      {
        if k > 0 { assert ChildOf(dag, rest[k - 1], rest[k - 1 + 1]); }
      }
    } else {
      path := PathThrough(dag, c, a, n - 1);
    }
  }

  lemma {:induction false} PathReaches(dag: Dag, c: Commit, a: Commit, path: seq<Commit>)
    requires WellFormed(dag) && Leads(dag, c, a, path)
    ensures a in Ancestors(dag, c)
    decreases |path|
  {
    if |path| > 1 {
      assert ChildOf(dag, path[0], path[0 + 1]);
      var k :| 0 <= k < |dag[c]| && dag[c][k] == path[1];
      var rest := path[1..];
      forall k | 0 <= k < |rest| - 1
        ensures ChildOf(dag, rest[k], rest[k + 1])
      {
        assert ChildOf(dag, path[k + 1], path[k + 1 + 1]);
      }
      PathReaches(dag, path[1], a, rest);
      ParentReached(dag, c, Parents(dag, c), |Parents(dag, c)|, k);
    }
  }

  // ----- what a landing brings in -----

  /** Everything a merge adds to its first parent; a commit that is no merge adds itself. */
  function Brought(dag: Dag, landing: Commit): set<Commit> {
    var parents := Parents(dag, landing);
    if |parents| > 1 then Ancestors(dag, landing) - Ancestors(dag, parents[0]) else {landing}
  }

  lemma {:induction false} BroughtIsDifference(dag: Dag, c: Commit)
    requires WellFormed(dag) && |Parents(dag, c)| > 0
    ensures Brought(dag, c) == Ancestors(dag, c) - Ancestors(dag, Parents(dag, c)[0])
    ensures Ancestors(dag, Parents(dag, c)[0]) <= Ancestors(dag, c)
  {
    var parents := Parents(dag, c);
    assert parents[0] < c;
    ParentReached(dag, c, parents, |parents|, 0);
    AncestorsAreEarlier(dag, parents[0]);
    if |parents| == 1 {
      assert AncestorsOf(dag, c, parents, 0) == {};
      assert Ancestors(dag, c) == {c} + Ancestors(dag, parents[0]);
    }
  }

  /** From `chain[0]` back along first parents. */
  ghost predicate FirstParents(dag: Dag, chain: seq<Commit>) {
    && chain != []
    && forall j, k :: 0 <= j && k == j + 1 < |chain| ==>
         |Parents(dag, chain[j])| > 0 && Parents(dag, chain[j])[0] == chain[k]
  }

  lemma {:induction false} Link(dag: Dag, chain: seq<Commit>, i: nat)
    requires FirstParents(dag, chain) && i + 1 < |chain|
    ensures |Parents(dag, chain[i])| > 0 && Parents(dag, chain[i])[0] == chain[i + 1]
  {
  }

  lemma {:induction false} ChainShrinks(dag: Dag, chain: seq<Commit>, i: nat, j: nat)
    requires WellFormed(dag) && FirstParents(dag, chain) && i <= j < |chain|
    ensures Ancestors(dag, chain[j]) <= Ancestors(dag, chain[i])
    decreases j - i
  {
    if i < j {
      ChainShrinks(dag, chain, i + 1, j);
      BroughtIsDifference(dag, chain[i]);
    }
  }

  /**
   * When every commit of the first-parent chain above the boundary is a landing, what they bring in covers
   * everything between boundary and tip, each commit once.
   */
  lemma {:induction false} LandingsPartition(dag: Dag, chain: seq<Commit>)
    requires WellFormed(dag) && FirstParents(dag, chain)
    ensures var n := |chain| - 1;
      && (forall c :: c in Ancestors(dag, chain[0]) - Ancestors(dag, chain[n]) <==>
            exists i :: 0 <= i < n && c in Brought(dag, chain[i]))
      && (forall i, j, c :: 0 <= i < j < n && c in Brought(dag, chain[i]) ==> c !in Brought(dag, chain[j]))
  {
    var n := |chain| - 1;
    forall c
      ensures c in Ancestors(dag, chain[0]) - Ancestors(dag, chain[n]) <==>
        exists i :: 0 <= i < n && c in Brought(dag, chain[i])
    {
      if c in Ancestors(dag, chain[0]) - Ancestors(dag, chain[n]) {
        var i := LastReaching(dag, chain, c, 0);
      }
      if i :| 0 <= i < n && c in Brought(dag, chain[i]) {
        Link(dag, chain, i);
        BroughtIsDifference(dag, chain[i]);
        ChainShrinks(dag, chain, 0, i);
        ChainShrinks(dag, chain, i + 1, n);
      }
    }
    forall i, j, c | 0 <= i < j < n && c in Brought(dag, chain[i])
      ensures c !in Brought(dag, chain[j])
    {
      Link(dag, chain, i);
      Link(dag, chain, j);
      BroughtIsDifference(dag, chain[i]);
      BroughtIsDifference(dag, chain[j]);
      ChainShrinks(dag, chain, i + 1, j);
    }
  }

  lemma {:induction false} LastReaching(dag: Dag, chain: seq<Commit>, c: Commit, i: nat) returns (k: nat)
    requires WellFormed(dag) && FirstParents(dag, chain) && i < |chain|
    requires c in Ancestors(dag, chain[i]) && c !in Ancestors(dag, chain[|chain| - 1])
    ensures k < |chain| - 1 && c in Brought(dag, chain[k])
    decreases |chain| - i
  {
    Link(dag, chain, i);
    BroughtIsDifference(dag, chain[i]);
    if c in Ancestors(dag, chain[i + 1]) {
      k := LastReaching(dag, chain, c, i + 1);
    } else {
      k := i;
    }
  }

  // ----- the landing audit -----

  /** The title of a landing commit: whether it is corrective. */
  datatype Title = Title(corrective: bool)

  /** A ledger row that vouches for a merge: its title, and whether the commit still is what the row says. */
  datatype Verified = Verified(title: Title, identical: bool)

  /** A commit's message: its canonical landing title, its regression-test lines and how many do not resolve. */
  datatype Message = Message(landing: Option<Title>, lines: nat, unresolved: nat)

  datatype Ledger = Ledger(verified: map<Commit, Verified>, excused: set<Commit>)

  type Messages = Commit -> Message

  datatype Round = Landing(title: Title) | Mismatch | Ordinary

  /** What a commit of the log counts as. */
  function RoundOf(messages: Messages, ledger: Ledger, c: Commit): Round {
    if c in ledger.verified then
      if !ledger.verified[c].identical || messages(c).landing.Some? then Mismatch else Landing(ledger.verified[c].title)
    else if messages(c).landing.Some? then Landing(messages(c).landing.value)
    else Ordinary
  }

  predicate Resolved(m: Message) { m.lines > 0 && m.unresolved == 0 }

  /** The landing's own lines, or its erratum, answer for what it brings in. */
  predicate Answers(messages: Messages, ledger: Ledger, c: Commit) { Resolved(messages(c)) || c in ledger.excused }

  function LandingErrors(messages: Messages, ledger: Ledger, c: Commit, title: Title): nat {
    if c in ledger.excused then 0
    else messages(c).unresolved + if title.corrective && messages(c).lines == 0 then 1 else 0
  }

  datatype Audit = Audit(errors: nat, covers: set<Commit>, introduced: map<Commit, seq<Commit>>, landings: seq<Commit>)

  predicate IsLanding(messages: Messages, ledger: Ledger, c: Commit) { RoundOf(messages, ledger, c).Landing? }

  /** `setdefault(commit, []).append(landing)` for each commit brought in. */
  function Introduce(introduced: map<Commit, seq<Commit>>, brought: set<Commit>, landing: Commit)
    : map<Commit, seq<Commit>>
  {
    introduced + map c | c in brought :: (if c in introduced then introduced[c] else []) + [landing]
  }

  /** No complaint about this commit of the log. */
  predicate Sound(messages: Messages, ledger: Ledger, c: Commit) {
    match RoundOf(messages, ledger, c)
    case Ordinary => true
    case Mismatch => false
    case Landing(title) => LandingErrors(messages, ledger, c, title) == 0
  }

  /**
   * The log is clean at a commit exactly when its ledger row, if any, still describes it and it is no canonical
   * landing besides; and when, being a landing without erratum, all its lines resolve and it has one if corrective.
   */
  lemma {:induction false} SoundExactly(messages: Messages, ledger: Ledger, c: Commit)
    ensures Sound(messages, ledger, c) <==>
      && (c in ledger.verified ==> ledger.verified[c].identical && messages(c).landing.None?)
      && forall title :: LandsAs(messages, ledger, c, title) && c !in ledger.excused ==>
           messages(c).unresolved == 0 && (title.corrective ==> messages(c).lines > 0)
    ensures IsLanding(messages, ledger, c) <==> exists title :: LandsAs(messages, ledger, c, title)
  {
    assert forall title :: LandsAs(messages, ledger, c, title) <==> RoundOf(messages, ledger, c) == Landing(title);
  }

  /** The commit's landing title, from its ledger row or its own subject. */
  predicate LandsAs(messages: Messages, ledger: Ledger, c: Commit, title: Title) {
    if c in ledger.verified then
      ledger.verified[c].identical && messages(c).landing.None? && ledger.verified[c].title == title
    else messages(c).landing == Some(title)
  }

  /** A landing answers for its commits when it has lines and all resolve, or has an erratum. */
  lemma {:induction false} AnswersExactly(messages: Messages, ledger: Ledger, c: Commit)
    ensures Answers(messages, ledger, c) <==>
      c in ledger.excused || (messages(c).lines > 0 && messages(c).unresolved == 0)
  {
  }

  function Next(dag: Dag, messages: Messages, ledger: Ledger, a: Audit, c: Commit): Audit {
    match RoundOf(messages, ledger, c)
    case Ordinary => a
    case Mismatch => a.(errors := a.errors + 1)
    case Landing(title) =>
      var brought := Brought(dag, c);
      Audit(a.errors + LandingErrors(messages, ledger, c, title),
            if Answers(messages, ledger, c) then a.covers + brought else a.covers,
            Introduce(a.introduced, brought, c), a.landings + [c])
  }

  /** The audit after the first `n` commits of the log. */
  function AuditOf(dag: Dag, messages: Messages, ledger: Ledger, log: seq<Commit>, n: nat): Audit
    requires n <= |log|
  {
    if n == 0 then Audit(0, {}, map[], [])
    else Next(dag, messages, ledger, AuditOf(dag, messages, ledger, log, n - 1), log[n - 1])
  }

  lemma {:induction false} NextLanding(dag: Dag, messages: Messages, ledger: Ledger, a: Audit, c: Commit, title: Title,
                                       brought: set<Commit>)
    requires RoundOf(messages, ledger, c) == Landing(title) && brought == Brought(dag, c)
    ensures Next(dag, messages, ledger, a, c) ==
      Audit(a.errors + LandingErrors(messages, ledger, c, title),
            if Resolved(messages(c)) || c in ledger.excused then a.covers + brought else a.covers,
            Introduce(a.introduced, brought, c), a.landings + [c])
  {
  }

  /** `audit_merge_regressions`: the loop over the log of commits past the boundary. */
  method AuditLandings(dag: Dag, messages: Messages, ledger: Ledger, log: seq<Commit>) returns (a: Audit)
    ensures a == AuditOf(dag, messages, ledger, log, |log|)
  {
    var errors: nat, covers: set<Commit> := 0, {};
    var introduced: map<Commit, seq<Commit>>, landings: seq<Commit> := map[], [];
    var n := 0;
    while n < |log|
      invariant n <= |log|
      invariant Audit(errors, covers, introduced, landings) == AuditOf(dag, messages, ledger, log, n)
    {
      var c := log[n];
      var round := RoundOf(messages, ledger, c);
      ghost var before := Audit(errors, covers, introduced, landings);
      if round.Mismatch? {
        errors := errors + 1;
      } else if round.Landing? {
        var brought := Brought(dag, c);
        landings := landings + [c];
        introduced := Introduce(introduced, brought, c);
        errors := errors + LandingErrors(messages, ledger, c, round.title);
        if Resolved(messages(c)) || c in ledger.excused {
          covers := covers + brought;
        }
        NextLanding(dag, messages, ledger, before, c, round.title, brought);
      }
      n := n + 1;
    }
    a := Audit(errors, covers, introduced, landings);
  }

  // ----- what the audit holds -----

  /** Whether a commit of the log contributes another commit. */
  type Gives = (Commit, Commit) -> bool

  ghost predicate GivenBy(gives: Gives, log: seq<Commit>, n: nat, c: Commit)
    requires n <= |log|
  {
    exists k :: 0 <= k < n && gives(log[k], c)
  }

  ghost predicate Gathers(gives: Gives, log: seq<Commit>, n: nat, gathered: set<Commit>)
    requires n <= |log|
  {
    forall c :: c in gathered <==> GivenBy(gives, log, n, c)
  }

  lemma {:induction false} GathersNext(gives: Gives, log: seq<Commit>, n: nat, before: set<Commit>, after: set<Commit>)
    requires n < |log| && Gathers(gives, log, n, before)
    requires forall c :: c in after <==> c in before || gives(log[n], c)
    ensures Gathers(gives, log, n + 1, after)
  {
    var m := n + 1;
    forall c
      ensures c in after <==> GivenBy(gives, log, m, c)
    {
      assert c in before <==> GivenBy(gives, log, n, c);
      if GivenBy(gives, log, n, c) {
        var k :| 0 <= k < n && gives(log[k], c);
      }
    }
  }

  ghost function Introduces(dag: Dag, messages: Messages, ledger: Ledger): Gives {
    (l: Commit, c: Commit) => IsLanding(messages, ledger, l) && c in Brought(dag, l)
  }

  ghost function Covering(dag: Dag, messages: Messages, ledger: Ledger): Gives {
    (l: Commit, c: Commit) => IsLanding(messages, ledger, l) && Answers(messages, ledger, l) && c in Brought(dag, l)
  }

  /** The commits among the first `n` of the log that contribute `c`, in the order of the log. */
  ghost function Givers(gives: Gives, log: seq<Commit>, n: nat, c: Commit): seq<Commit>
    requires n <= |log|
  {
    if n == 0 then [] else Givers(gives, log, n - 1, c) + (if gives(log[n - 1], c) then [log[n - 1]] else [])
  }

  function ListOf(introduced: map<Commit, seq<Commit>>, c: Commit): seq<Commit> {
    if c in introduced then introduced[c] else []
  }

  /** Every list names the landings that brought its commit in, and no list is empty. */
  ghost predicate Lists(gives: Gives, log: seq<Commit>, n: nat, introduced: map<Commit, seq<Commit>>)
    requires n <= |log|
  {
    && (forall c :: ListOf(introduced, c) == Givers(gives, log, n, c))
    && (forall c :: c in introduced ==> introduced[c] != [])
  }

  ghost predicate Audited(dag: Dag, messages: Messages, ledger: Ledger, log: seq<Commit>, n: nat, a: Audit)
    requires n <= |log|
  {
    && Gathers(Covering(dag, messages, ledger), log, n, a.covers)
    && Gathers(Introduces(dag, messages, ledger), log, n, a.introduced.Keys)
    && (a.errors == 0 <==> forall k :: 0 <= k < n ==> Sound(messages, ledger, log[k]))
  }

  lemma {:induction false} CoversNext(dag: Dag, messages: Messages, ledger: Ledger, log: seq<Commit>, n: nat, a: Audit)
    requires n < |log| && Gathers(Covering(dag, messages, ledger), log, n, a.covers)
    ensures Gathers(Covering(dag, messages, ledger), log, n + 1, Next(dag, messages, ledger, a, log[n]).covers)
  {
    GathersNext(Covering(dag, messages, ledger), log, n, a.covers, Next(dag, messages, ledger, a, log[n]).covers);
  }

  lemma {:induction false} IntroducedNext(dag: Dag, messages: Messages, ledger: Ledger, log: seq<Commit>, n: nat,
                                          a: Audit)
    requires n < |log| && Gathers(Introduces(dag, messages, ledger), log, n, a.introduced.Keys)
    ensures Gathers(Introduces(dag, messages, ledger), log, n + 1,
                    Next(dag, messages, ledger, a, log[n]).introduced.Keys)
  {
    GathersNext(Introduces(dag, messages, ledger), log, n, a.introduced.Keys,
                Next(dag, messages, ledger, a, log[n]).introduced.Keys);
  }

  lemma {:induction false} ListsNext(dag: Dag, messages: Messages, ledger: Ledger, log: seq<Commit>, n: nat, a: Audit,
                                     next: Audit)
    requires 0 < n <= |log| && Lists(Introduces(dag, messages, ledger), log, n - 1, a.introduced)
    requires next == Next(dag, messages, ledger, a, log[n - 1])
    ensures Lists(Introduces(dag, messages, ledger), log, n, next.introduced)
  {
    var gives := Introduces(dag, messages, ledger);
    forall c
      ensures ListOf(next.introduced, c) == Givers(gives, log, n, c)
    {
      assert ListOf(a.introduced, c) == Givers(gives, log, n - 1, c);
      assert ListOf(next.introduced, c) == ListOf(a.introduced, c) + if gives(log[n - 1], c) then [log[n - 1]] else [];
    }
  }

  /** Each list of `introduced` names exactly the landings that brought the commit in, in the order of the log. */
  lemma {:induction false} IntroducedLists(dag: Dag, messages: Messages, ledger: Ledger, log: seq<Commit>, n: nat)
    requires n <= |log|
    ensures Lists(Introduces(dag, messages, ledger), log, n, AuditOf(dag, messages, ledger, log, n).introduced) == true
  {
    if n > 0 {
      IntroducedLists(dag, messages, ledger, log, n - 1);
      ListsNext(dag, messages, ledger, log, n, AuditOf(dag, messages, ledger, log, n - 1),
                AuditOf(dag, messages, ledger, log, n));
    }
  }

  /** What the audit's sets contain, and when it finds nothing to complain about. */
  lemma {:induction false} AuditMeans(dag: Dag, messages: Messages, ledger: Ledger, log: seq<Commit>, n: nat)
    requires n <= |log|
    ensures Audited(dag, messages, ledger, log, n, AuditOf(dag, messages, ledger, log, n))
  {
    if n == 0 {
      NothingAudited(dag, messages, ledger, log, AuditOf(dag, messages, ledger, log, n));
    } else {
      AuditMeans(dag, messages, ledger, log, n - 1);
      AuditedNext(dag, messages, ledger, log, n, AuditOf(dag, messages, ledger, log, n - 1),
                  AuditOf(dag, messages, ledger, log, n));
    }
  }

  lemma {:induction false} NothingAudited(dag: Dag, messages: Messages, ledger: Ledger, log: seq<Commit>, a: Audit)
    requires a == Audit(0, {}, map[], [])
    ensures Audited(dag, messages, ledger, log, 0, a)
  {
  }

  lemma {:induction false} AuditedNext(dag: Dag, messages: Messages, ledger: Ledger, log: seq<Commit>, n: nat, a: Audit,
                                       next: Audit)
    requires 0 < n <= |log| && Audited(dag, messages, ledger, log, n - 1, a) == true
    requires next == Next(dag, messages, ledger, a, log[n - 1])
    ensures Audited(dag, messages, ledger, log, n, next) == true
  {
    CoversNext(dag, messages, ledger, log, n - 1, a);
    IntroducedNext(dag, messages, ledger, log, n - 1, a);
    assert next.errors == 0 <==> a.errors == 0 && Sound(messages, ledger, log[n - 1]);
  }

  // ----- the corrective commits past the boundary -----

  datatype Judged = Judged(errors: nat, covered: set<Commit>, pending: set<Commit>)

  /** How the audit disposes of one corrective commit. */
  datatype Disposal = Covered | LandedBare | OutsideLanding | Excused | Pending

  function Dispose(a: Audit, landed: set<Commit>, ledger: Ledger, c: Commit): Disposal {
    if c in a.covers then Covered
    else if c in a.introduced then LandedBare
    else if c in landed && c !in ledger.excused then OutsideLanding
    else if c !in landed then Pending
    else Excused
  }

  predicate Complains(d: Disposal) { d.LandedBare? || d.OutsideLanding? }

  /** Which corrective commits are covered, pending or complained of. */
  lemma {:induction false} DisposalExactly(a: Audit, landed: set<Commit>, ledger: Ledger, c: Commit)
    ensures Dispose(a, landed, ledger, c).Covered? <==> c in a.covers
    ensures Dispose(a, landed, ledger, c).Pending? <==> c !in a.covers && c !in a.introduced && c !in landed
    ensures Complains(Dispose(a, landed, ledger, c)) <==>
      c !in a.covers && (c in a.introduced || (c in landed && c !in ledger.excused))
  {
  }

  /** The loop of `audit_history` over the corrective commits past the boundary. */
  method JudgeCorrectives(a: Audit, landed: set<Commit>, ledger: Ledger, issues: seq<Commit>) returns (j: Judged)
    ensures j.errors == 0 <==> forall k :: 0 <= k < |issues| ==> !Complains(Dispose(a, landed, ledger, issues[k]))
    ensures forall c :: c in j.covered <==> c in issues && Dispose(a, landed, ledger, c).Covered?
    ensures forall c :: c in j.pending <==> c in issues && Dispose(a, landed, ledger, c).Pending?
  {
    j := Judged(0, {}, {});
    var n := 0;
    while n < |issues|
      invariant n <= |issues|
      invariant j.errors == 0 <==> forall k :: 0 <= k < n ==> !Complains(Dispose(a, landed, ledger, issues[k]))
      invariant forall c :: c in j.covered <==> c in issues[..n] && Dispose(a, landed, ledger, c).Covered?
      invariant forall c :: c in j.pending <==> c in issues[..n] && Dispose(a, landed, ledger, c).Pending?
    {
      var c := issues[n];
      assert issues[..n + 1] == issues[..n] + [c];
      if c in a.covers {
        j := j.(covered := j.covered + {c});
      } else if c in a.introduced {
        j := j.(errors := j.errors + 1);
      } else if c in landed && c !in ledger.excused {
        j := j.(errors := j.errors + 1);
      } else if c !in landed {
        j := j.(pending := j.pending + {c});
      }
      n := n + 1;
    }
    assert issues[..n] == issues;
  }

  /** What a corrective commit needs: a landing that brought it in and answers for it. */
  ghost predicate AnsweredFor(dag: Dag, messages: Messages, ledger: Ledger, log: seq<Commit>, c: Commit) {
    exists l :: l in log && IsLanding(messages, ledger, l) && Answers(messages, ledger, l) && c in Brought(dag, l)
  }

  /**
   * With no error from either loop, every corrective commit past the boundary that has landed is answered for
   * by a landing or excused itself, and a pending one has not landed.
   */
  lemma {:induction false} CleanAudit(dag: Dag, messages: Messages, ledger: Ledger, log: seq<Commit>, a: Audit,
                                      landed: set<Commit>, c: Commit)
    requires Audited(dag, messages, ledger, log, |log|, a)
    requires !Complains(Dispose(a, landed, ledger, c))
    ensures c in landed ==> c in ledger.excused || AnsweredFor(dag, messages, ledger, log, c)
    ensures Dispose(a, landed, ledger, c).Pending? ==> c !in landed && c !in a.introduced
    ensures c in a.introduced ==> AnsweredFor(dag, messages, ledger, log, c)
  {
    if c in a.covers {
      assert GivenBy(Covering(dag, messages, ledger), log, |log|, c);
      var k :| 0 <= k < |log| && Covering(dag, messages, ledger)(log[k], c);
      assert log[k] in log;
    }
  }

  /** The one commit of the chain that brings in `c`. */
  ghost predicate OnlyBroughtBy(dag: Dag, chain: seq<Commit>, c: Commit, i: int)
    requires 0 <= i < |chain| - 1
  {
    c in Brought(dag, chain[i]) && forall j :: 0 <= j < |chain| - 1 && c in Brought(dag, chain[j]) ==> j == i
  }

  /**
   * A boundary from which every first-parent commit up to the tip is a landing leaves no gap: without errors,
   * each corrective commit reachable from the tip and not from the boundary was brought in by exactly one
   * commit of the chain, and landings that answer for it exist.
   */
  lemma {:induction false} FullyLanded(dag: Dag, messages: Messages, ledger: Ledger, log: seq<Commit>, a: Audit,
                                       landed: set<Commit>, chain: seq<Commit>, c: Commit)
    requires WellFormed(dag) && FirstParents(dag, chain) && Audited(dag, messages, ledger, log, |log|, a)
    requires forall i :: 0 <= i < |chain| - 1 ==> chain[i] in log && IsLanding(messages, ledger, chain[i])
    requires c in Ancestors(dag, chain[0]) - Ancestors(dag, chain[|chain| - 1])
    requires !Complains(Dispose(a, landed, ledger, c))
    ensures exists i :: 0 <= i < |chain| - 1 && OnlyBroughtBy(dag, chain, c, i)
    ensures Dispose(a, landed, ledger, c) == Covered && AnsweredFor(dag, messages, ledger, log, c)
  {
    LandingsPartition(dag, chain);
    var i :| 0 <= i < |chain| - 1 && c in Brought(dag, chain[i]);
    assert chain[i] in log && IsLanding(messages, ledger, chain[i]);
    var k :| 0 <= k < |log| && log[k] == chain[i];
    assert Introduces(dag, messages, ledger)(log[k], c);
    assert GivenBy(Introduces(dag, messages, ledger), log, |log|, c);
    assert c in a.introduced.Keys;
    assert OnlyBroughtBy(dag, chain, c, i);
    CleanAudit(dag, messages, ledger, log, a, landed, c);
  }

  /** Past the boundary the log is complete: everything the tips reach and the boundary does not. */
  ghost predicate Logs(dag: Dag, log: seq<Commit>, tips: seq<Commit>, boundary: Commit) {
    forall c :: c in log <==> c in Reach(dag, tips) - Ancestors(dag, boundary)
  }

  /** What a landing brings in lies past the boundary, so the log has an entry for all of it. */
  lemma {:induction false} LandedIsLogged(dag: Dag, log: seq<Commit>, tips: seq<Commit>, boundary: Commit,
                                          chain: seq<Commit>)
    requires WellFormed(dag) && Logs(dag, log, tips, boundary) && FirstParents(dag, chain)
    requires chain[0] in tips && chain[|chain| - 1] == boundary
    ensures forall i :: 0 <= i < |chain| - 1 ==> chain[i] in log
  {
    forall i | 0 <= i < |chain| - 1
      ensures chain[i] in log
    {
      TipReached(dag, tips, chain[0]);
      ChainShrinks(dag, chain, 0, i);
      Link(dag, chain, i);
      BroughtIsDifference(dag, chain[i]);
      AncestorsAreEarlier(dag, chain[i + 1]);
      ChainShrinks(dag, chain, i + 1, |chain| - 1);
      assert chain[i] in Ancestors(dag, chain[i]);
    }
  }

  lemma {:induction false} TipReached(dag: Dag, tips: seq<Commit>, tip: Commit)
    requires tip in tips
    ensures Ancestors(dag, tip) <= Reach(dag, tips)
  {
    if tips[0] != tip {
      assert tips == [tips[0]] + tips[1..];
      TipReached(dag, tips[1..], tip);
    }
  }
}
