// validation/main_preflight_adoption.py, `input_digest`: what a commit's declared inputs hash to, with
// the three caches it goes through.
module InputDigest {
  import opened Wrappers
  import opened ExportPaths
  import opened InputGlob
  import opened TextOrder

  type Commit = string
  type Hash = nat

  /** Mode, object type and object name of one file in a commit's tree. */
  datatype Meta = Meta(mode: string, kind: string, blob: string)
  type Files = map<string, Meta>

  /** The log of a commit and whether the checkout is shallow, as text. */
  datatype History = History(log: string, shallow: string)

  /** What git answers; a commit outside the maps makes it fail. */
  datatype Repo = Repo(trees: map<Commit, Files>, histories: map<Commit, History>)

  datatype Row = Row(inputs: seq<string>, pathsets: seq<string>, history: bool, rest: string)

  datatype Note = Entry(path: string, meta: Meta) | Fact(name: string, text: string)

  /** The value whose JSON text is hashed. */
  datatype Document = Document(patterns: seq<string>, payload: seq<Note>, pathsets: seq<string>,
                               membership: seq<string>)

  const MAX_TREES := 64

  // ----- one path against a list of patterns -----

  /** `any(...)`: the first pattern that matches settles it; an unbounded one before that is an error. */
  ghost function AnyMatch(fits: Wildcard, path: string, patterns: seq<string>, k: nat): Result<bool>
    requires k <= |patterns|
    decreases |patterns| - k
  {
    if k == |patterns| then Ok(false)
    else if !Bounded(patterns[k]) then Refused
    else if PathMatches(fits, path, patterns[k]) then Ok(true)
    else AnyMatch(fits, path, patterns, k + 1)
  }

  /** Pattern `k` is the first to match, and every pattern up to it is bounded. */
  ghost predicate FirstMatch(fits: Wildcard, path: string, patterns: seq<string>, k: nat) {
    && k < |patterns| && PathMatches(fits, path, patterns[k]) && (forall j :: 0 <= j <= k ==> Bounded(patterns[j]))
    && forall j :: 0 <= j < k ==> !PathMatches(fits, path, patterns[j])
  }

  ghost predicate NoneMatches(fits: Wildcard, path: string, patterns: seq<string>, from: nat) {
    forall j :: from <= j < |patterns| ==> Bounded(patterns[j]) && !PathMatches(fits, path, patterns[j])
  }

  /** Some pattern matches the path, and no unbounded one comes before it. */
  ghost predicate Selected(fits: Wildcard, path: string, patterns: seq<string>) {
    exists k: nat :: k < |patterns| && PathMatches(fits, path, patterns[k])
      && forall j :: 0 <= j <= k ==> Bounded(patterns[j])
  }

  /** A path is selected exactly when some pattern matches it and no unbounded one comes before that. */
  lemma {:induction false} AnyMatchMeans(fits: Wildcard, path: string, patterns: seq<string>)
    ensures AnyMatch(fits, path, patterns, 0) == Ok(true) <==> Selected(fits, path, patterns)
    ensures AnyMatch(fits, path, patterns, 0) == Ok(false) <==> NoneMatches(fits, path, patterns, 0)
  {
    AnyMatchFrom(fits, path, patterns, 0);
    if Selected(fits, path, patterns) {
      var k: nat :| k < |patterns| && PathMatches(fits, path, patterns[k])
        && forall j :: 0 <= j <= k ==> Bounded(patterns[j]);
      var first := FirstOf(fits, path, patterns, k);
      assert FirstMatch(fits, path, patterns, first);
    }
  }

  lemma {:induction false} FirstOf(fits: Wildcard, path: string, patterns: seq<string>, k: nat) returns (first: nat)
    requires k < |patterns| && PathMatches(fits, path, patterns[k]) && forall j :: 0 <= j <= k ==> Bounded(patterns[j])
    ensures FirstMatch(fits, path, patterns, first)
  {
    first := 0;
    while !PathMatches(fits, path, patterns[first])
      invariant first <= k && forall j :: 0 <= j < first ==> !PathMatches(fits, path, patterns[j])
      decreases k - first
    {
      first := first + 1;
    }
  }

  lemma {:induction false} AnyMatchFrom(fits: Wildcard, path: string, patterns: seq<string>, from: nat)
    requires from <= |patterns|
    requires forall j :: 0 <= j < from ==> Bounded(patterns[j]) && !PathMatches(fits, path, patterns[j])
    ensures AnyMatch(fits, path, patterns, from) == Ok(true) <==> exists k: nat :: FirstMatch(fits, path, patterns, k)
    ensures AnyMatch(fits, path, patterns, from) == Ok(false) <==> NoneMatches(fits, path, patterns, from)
    decreases |patterns| - from
  {
    if from < |patterns| && Bounded(patterns[from]) {
      if PathMatches(fits, path, patterns[from]) {
        assert FirstMatch(fits, path, patterns, from);
      } else {
        AnyMatchFrom(fits, path, patterns, from + 1);
      }
    }
  }

  /** The paths that some pattern selects; refused when a pattern that is looked at is unbounded. */
  ghost function Choose(fits: Wildcard, paths: set<string>, patterns: seq<string>): (r: Result<set<string>>)
    ensures r.Ok? ==> r.value <= paths
  {
    if exists p :: p in paths && AnyMatch(fits, p, patterns, 0).Refused? then Refused
    else Ok(set p | p in paths && AnyMatch(fits, p, patterns, 0) == Ok(true))
  }

  predicate SafePattern(p: string) { p != "" && p[0] != '/' && ".." !in Split(p) }

  predicate SafePatterns(patterns: seq<string>) { forall k :: 0 <= k < |patterns| ==> SafePattern(patterns[k]) }

  function Entries(files: Files, paths: seq<string>): seq<Note>
    requires forall p :: p in paths ==> p in files
  {
    seq(|paths|, k requires 0 <= k < |paths| => Entry(paths[k], files[paths[k]]))
  }

  function Facts(h: History): seq<Note> { [Fact("HEAD-history", h.log), Fact("shallow", h.shallow)] }

  // ----- the digest without any cache -----

  ghost function Uncached(repo: Repo, fits: Wildcard, commit: Commit, row: Row): Result<Document> {
    if commit !in repo.trees || row.inputs == [] then Refused
    else if !SafePatterns(row.inputs) || !SafePatterns(row.pathsets) then Refused
    else
      var files := repo.trees[commit];
      var selected := Choose(fits, files.Keys, row.inputs);
      var members := Choose(fits, files.Keys, row.pathsets);
      if selected.Refused? || members.Refused? || (row.history && commit !in repo.histories) then Refused
      else
        Ok(Document(row.inputs,
                    Entries(files, Sorted(selected.value))
                    + (if row.history then Facts(repo.histories[commit]) else []),
                    row.pathsets, Sorted(members.value)))
  }

  lemma {:induction false} AllSafe(patterns: seq<string>)
    ensures SafePatterns(patterns) <==> forall p :: p in patterns ==> p != "" && p[0] != '/' && ".." !in Split(p)
  {
    if forall p :: p in patterns ==> p != "" && p[0] != '/' && ".." !in Split(p) {
      forall k | 0 <= k < |patterns|
        ensures SafePattern(patterns[k])
      {
        assert patterns[k] in patterns;
      }
    }
  }

  /** What the declared inputs come to: refused for an unreadable commit or an unsafe or unbounded pattern. */
  lemma {:induction false} UncachedExactly(repo: Repo, fits: Wildcard, commit: Commit, row: Row)
    ensures Uncached(repo, fits, commit, row).Ok? <==>
      && commit in repo.trees && row.inputs != [] && (row.history ==> commit in repo.histories)
      && (forall p :: p in row.inputs ==> p != "" && p[0] != '/' && ".." !in Split(p))
      && (forall p :: p in row.pathsets ==> p != "" && p[0] != '/' && ".." !in Split(p))
      && (forall path :: path in repo.trees[commit] ==> Decided(fits, path, row.inputs))
      && (forall path :: path in repo.trees[commit] ==> Decided(fits, path, row.pathsets))
  {
    AllSafe(row.inputs);
    AllSafe(row.pathsets);
    if commit in repo.trees && row.inputs != [] && SafePatterns(row.inputs) && SafePatterns(row.pathsets) {
      var paths := repo.trees[commit].Keys;
      assert Uncached(repo, fits, commit, row).Ok? <==>
        Choose(fits, paths, row.inputs).Ok? && Choose(fits, paths, row.pathsets).Ok?
        && (row.history ==> commit in repo.histories);
      ChosenWhenDecided(fits, paths, row.inputs);
      ChosenWhenDecided(fits, paths, row.pathsets);
      assert forall path :: path in paths <==> path in repo.trees[commit];
    } else {
      assert Uncached(repo, fits, commit, row).Refused?;
    }
  }

  /** Some pattern matches before any unbounded one, or all are bounded and none matches. */
  ghost predicate Decided(fits: Wildcard, path: string, patterns: seq<string>) {
    Selected(fits, path, patterns) || NoneMatches(fits, path, patterns, 0)
  }

  lemma {:induction false} ChosenWhenDecided(fits: Wildcard, paths: set<string>, patterns: seq<string>)
    ensures Choose(fits, paths, patterns).Ok? <==> forall path :: path in paths ==> Decided(fits, path, patterns)
  {
    forall path
      ensures AnyMatch(fits, path, patterns, 0).Ok? <==> Decided(fits, path, patterns)
    {
      AnyMatchMeans(fits, path, patterns);
      match AnyMatch(fits, path, patterns, 0)
      case Ok(hit) => if hit { assert Selected(fits, path, patterns); }
      case Refused =>
    }
  }

  method Select(fits: Wildcard, paths: set<string>, patterns: seq<string>) returns (r: Result<seq<string>>)
    ensures r.Ok? <==> Choose(fits, paths, patterns).Ok?
    ensures r.Ok? ==> r.value == Sorted(Choose(fits, paths, patterns).value)
  {
    var chosen, rest := {}, paths;
    while rest != {}
      invariant rest <= paths
      invariant forall p :: p in paths - rest ==> AnyMatch(fits, p, patterns, 0).Ok?
      invariant forall p :: p in chosen <==> p in paths - rest && AnyMatch(fits, p, patterns, 0) == Ok(true)
      decreases |rest|
    {
      var p :| p in rest;
      var hit := MatchAny(fits, p, patterns);
      if hit.Refused? { return Refused; }
      if hit.value { chosen := chosen + {p}; }
      rest := rest - {p};
    }
    assert Choose(fits, paths, patterns) == Ok(chosen) by {
      assert chosen == set p | p in paths && AnyMatch(fits, p, patterns, 0) == Ok(true);
    }
    var s := SortSet(chosen);
    OneSortedList(s, Sorted(chosen), chosen);
    r := Ok(s);
  }

  method MatchAny(fits: Wildcard, path: string, patterns: seq<string>) returns (r: Result<bool>)
    ensures r == AnyMatch(fits, path, patterns, 0)
  {
    var k := 0;
    while k < |patterns|
      invariant k <= |patterns| && AnyMatch(fits, path, patterns, 0) == AnyMatch(fits, path, patterns, k)
    {
      var hit, states := MatchesInput(fits, path, patterns[k]);
      if hit.Refused? || hit.value { return hit; }
      k := k + 1;
    }
    r := Ok(false);
  }

  // ----- the caches -----

  /** Commits are only added, from `wanted`, and none to a full cache. */
  ghost predicate Grows(before: set<Commit>, after: set<Commit>, wanted: set<Commit>) {
    before <= after <= before + wanted && (|before| >= MAX_TREES ==> after == before)
  }

  class Digests {
    const repo: Repo
    const fits: Wildcard
    const hash: Document -> Hash
    var trees: map<Commit, Files>
    var histories: map<Commit, History>
    var digests: map<(Commit, Row), Hash>

    ghost predicate Valid()
      reads this
    {
      && (forall c :: c in trees ==> c in repo.trees && trees[c] == repo.trees[c])
      && (forall c :: c in histories ==> c in repo.histories && histories[c] == repo.histories[c])
      && (forall k :: k in digests ==> RightDigest(repo, fits, hash, k.0, k.1, digests[k]))
    }

    constructor (repo: Repo, fits: Wildcard, hash: Document -> Hash)
      ensures Valid() && this.repo == repo && this.fits == fits && this.hash == hash
      ensures trees == map[] && histories == map[] && digests == map[]
    {
      this.repo, this.fits, this.hash := repo, fits, hash;
      trees, histories, digests := map[], map[], map[];
    }

    method Tree(commit: Commit) returns (files: Result<Files>)
      requires Valid()
      modifies `trees
      ensures Valid()
      ensures files.Refused? <==> commit !in old(trees) && (|old(trees)| >= MAX_TREES || commit !in repo.trees)
      ensures files.Ok? ==> commit in repo.trees && files.value == repo.trees[commit]
      ensures Grows(old(trees).Keys, trees.Keys, {commit})
    {
      if commit !in trees {
        if |trees| >= MAX_TREES || commit !in repo.trees {
          return Refused;
        }
        trees := trees[commit := repo.trees[commit]];
      }
      files := Ok(trees[commit]);
    }

    method HistoryOf(commit: Commit) returns (h: Result<History>)
      requires Valid()
      modifies `histories
      ensures Valid()
      ensures h == if commit in repo.histories then Ok(repo.histories[commit]) else Refused
    {
      if commit !in histories {
        if commit !in repo.histories {
          return Refused;
        }
        histories := histories[commit := repo.histories[commit]];
      }
      h := Ok(histories[commit]);
    }

    /** The value to be hashed, read through the caches of trees and histories. */
    method Describe(commit: Commit, row: Row) returns (document: Result<Document>)
      requires Valid()
      modifies `trees, `histories
      ensures Valid() && Grows(old(trees).Keys, trees.Keys, {commit})
      ensures document == if commit !in old(trees) && |old(trees)| >= MAX_TREES then Refused
                          else Uncached(repo, fits, commit, row)
    {
      var files := Tree(commit);
      if files.Refused? || row.inputs == [] || !SafePatterns(row.inputs) { return Refused; }
      var selected := Select(fits, files.value.Keys, row.inputs);
      if selected.Refused? || !SafePatterns(row.pathsets) { return Refused; }
      var membership := Select(fits, files.value.Keys, row.pathsets);
      if membership.Refused? { return Refused; }
      var payload := Entries(files.value, selected.value);
      if row.history {
        var facts := HistoryOf(commit);
        if facts.Refused? { return Refused; }
        payload := payload + Facts(facts.value);
      }
      assert payload == Entries(files.value, selected.value)
                        + (if row.history then Facts(repo.histories[commit]) else []);
      document := Ok(Document(row.inputs, payload, row.pathsets, membership.value));
    }

    /**
     * `input_digest`: through every cache it gives the uncached digest, and it refuses only what the
     * uncached computation refuses, or a tree beyond the cap.
     */
    method InputDigest(commit: Commit, row: Row) returns (r: Result<Hash>)
      requires Valid()
      modifies this
      ensures Valid()
      ensures r.Ok? ==> RightDigest(repo, fits, hash, commit, row, r.value)
      ensures r.Refused? <==>
        ((commit, row) !in old(digests)
         && (Uncached(repo, fits, commit, row).Refused? || (commit !in old(trees) && |old(trees)| >= MAX_TREES)))
      ensures Grows(old(trees).Keys, trees.Keys, {commit})
      ensures digests.Keys == old(digests).Keys + (if r.Ok? then {(commit, row)} else {})
    {
      if (commit, row) in digests {
        return Ok(digests[(commit, row)]);
      }
      var document := Describe(commit, row);
      if document.Refused? { return Refused; }
      digests := digests[(commit, row) := hash(document.value)];
      r := Ok(hash(document.value));
    }
  }

  ghost predicate RightDigest(repo: Repo, fits: Wildcard, hash: Document -> Hash, commit: Commit, row: Row, h: Hash) {
    var d := Uncached(repo, fits, commit, row);
    d.Ok? && h == hash(d.value)
  }

  // ----- what equal digests mean -----

  ghost predicate Injective(hash: Document -> Hash) { forall a, b :: hash(a) == hash(b) ==> a == b }

  /** Two commits agree on everything a row declares. */
  ghost predicate SameInputs(repo: Repo, fits: Wildcard, c: Commit, d: Commit, row: Row)
    requires Uncached(repo, fits, c, row).Ok? && Uncached(repo, fits, d, row).Ok?
  {
    var before, after := repo.trees[c], repo.trees[d];
    && SameFiles(fits, before, after, row.inputs) && SameMembers(fits, before, after, row.pathsets)
    && (row.history ==> repo.histories[c] == repo.histories[d])
  }

  /** Every path the patterns select is in both trees or in neither, with one mode and object. */
  ghost predicate SameFiles(fits: Wildcard, before: Files, after: Files, patterns: seq<string>) {
    forall p :: Selected(fits, p, patterns) ==>
      (p in before <==> p in after) && (p in before && p in after ==> before[p] == after[p])
  }

  ghost predicate SameMembers(fits: Wildcard, before: Files, after: Files, patterns: seq<string>) {
    forall p :: Selected(fits, p, patterns) ==> (p in before <==> p in after)
  }


  lemma {:induction false} SameEntries(before: Files, after: Files, s: seq<string>, t: seq<string>)
    requires (forall p :: p in s ==> p in before) && (forall p :: p in t ==> p in after)
    ensures Entries(before, s) == Entries(after, t) <==>
      s == t && forall k :: 0 <= k < |s| ==> s[k] in after && before[s[k]] == after[s[k]]
  {
    if Entries(before, s) == Entries(after, t) {
      assert |s| == |Entries(before, s)| == |t|;
      forall k | 0 <= k < |s|
        ensures s[k] == t[k] && before[s[k]] == after[t[k]]
      {
        assert Entries(before, s)[k] == Entries(after, t)[k];
      }
    }
  }

  lemma {:induction false} SameSorted(a: set<string>, b: set<string>)
    ensures Sorted(a) == Sorted(b) <==> a == b
  {
    if Sorted(a) == Sorted(b) {
      assert forall x :: x in a <==> x in Sorted(a);
    }
  }

  /** Facts never pass for entries, so equal payloads have equal entries and equal facts. */
  lemma {:induction false} PayloadsSplit(e: seq<Note>, f: seq<Note>, x: seq<Note>, y: seq<Note>)
    requires |x| == |y|
    ensures e + x == f + y <==> e == f && x == y
  {
    if e + x == f + y {
      assert e == (e + x)[..|e|] && f == (f + y)[..|f|];
      assert x == (e + x)[|e|..] && y == (f + y)[|f|..];
    }
  }

  lemma {:induction false} MembershipsMean(fits: Wildcard, before: Files, after: Files, patterns: seq<string>)
    requires Choose(fits, before.Keys, patterns).Ok? && Choose(fits, after.Keys, patterns).Ok?
    ensures Choose(fits, before.Keys, patterns).value == Choose(fits, after.Keys, patterns).value
      <==> SameMembers(fits, before, after, patterns)
  {
    ChosenAreSelected(fits, before.Keys, patterns);
    ChosenAreSelected(fits, after.Keys, patterns);
  }

  lemma {:induction false} ChosenAreSelected(fits: Wildcard, paths: set<string>, patterns: seq<string>)
    requires Choose(fits, paths, patterns).Ok?
    ensures forall p :: p in Choose(fits, paths, patterns).value <==> p in paths && Selected(fits, p, patterns)
  {
    forall p
      ensures p in Choose(fits, paths, patterns).value <==> p in paths && Selected(fits, p, patterns)
    {
      AnyMatchMeans(fits, p, patterns);
    }
  }

  lemma {:induction false} EntriesMean(fits: Wildcard, before: Files, after: Files, patterns: seq<string>)
    requires Choose(fits, before.Keys, patterns).Ok? && Choose(fits, after.Keys, patterns).Ok?
    ensures Entries(before, Sorted(Choose(fits, before.Keys, patterns).value)) ==
            Entries(after, Sorted(Choose(fits, after.Keys, patterns).value))
      <==> SameFiles(fits, before, after, patterns)
  {
    var s, t := Choose(fits, before.Keys, patterns).value, Choose(fits, after.Keys, patterns).value;
    MembershipsMean(fits, before, after, patterns);
    SameSorted(s, t);
    SameEntries(before, after, Sorted(s), Sorted(t));
    assert forall p :: p in s <==> p in Sorted(s);
    ChosenAreSelected(fits, before.Keys, patterns);
    if SameFiles(fits, before, after, patterns) {
      assert SameMembers(fits, before, after, patterns);
      forall k | 0 <= k < |Sorted(s)|
        ensures Sorted(s)[k] in after && before[Sorted(s)[k]] == after[Sorted(s)[k]]
      {
        assert Sorted(s)[k] in s;
      }
    }
    if Entries(before, Sorted(s)) == Entries(after, Sorted(t)) {
      assert SameMembers(fits, before, after, patterns);
      forall p | Selected(fits, p, patterns) && p in before
        ensures p in after && before[p] == after[p]
      {
        var k :| 0 <= k < |Sorted(s)| && Sorted(s)[k] == p;
      }
    }
  }

  /** With an injective hash, two commits have one digest for a row exactly when its inputs coincide. */
  lemma {:induction false} DigestsCoincide(repo: Repo, fits: Wildcard, hash: Document -> Hash, c: Commit, d: Commit,
                                           row: Row)
    requires Injective(hash) && Uncached(repo, fits, c, row).Ok? && Uncached(repo, fits, d, row).Ok?
    ensures hash(Uncached(repo, fits, c, row).value) == hash(Uncached(repo, fits, d, row).value)
      <==> SameInputs(repo, fits, c, d, row)
  {
    var before, after := repo.trees[c], repo.trees[d];
    var x := if row.history then Facts(repo.histories[c]) else [];
    var y := if row.history then Facts(repo.histories[d]) else [];
    PayloadsSplit(Entries(before, Sorted(Choose(fits, before.Keys, row.inputs).value)),
                  Entries(after, Sorted(Choose(fits, after.Keys, row.inputs).value)), x, y);
    EntriesMean(fits, before, after, row.inputs);
    MembershipsMean(fits, before, after, row.pathsets);
    SameSorted(Choose(fits, before.Keys, row.pathsets).value, Choose(fits, after.Keys, row.pathsets).value);
    if row.history {
      FactsTell(repo.histories[c], repo.histories[d]);
    }
  }

  lemma {:induction false} FactsTell(g: History, h: History)
    ensures Facts(g) == Facts(h) <==> g == h
  {
    if Facts(g) == Facts(h) {
      assert Facts(g)[0] == Facts(h)[0] && Facts(g)[1] == Facts(h)[1];
    }
  }
}
