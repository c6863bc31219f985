// validation/main_preflight_adoption.py, `matches_input`: path globs matched with a memo table.
module InputGlob {
  import opened Wrappers
  import opened FiniteSets
  import opened ExportPaths

  /** One component against one glob without "**", as fnmatch decides it. */
  type Wildcard = (string, string) -> bool

  const ANY := "**"

  /** Where each glob of a match ends and the next begins. */
  type Cuts = seq<nat>

  // ----- what a match means -----

  /** Glob `i` takes components a..b: "**" any run of them, everything else exactly one. */
  predicate Takes(fits: Wildcard, components: seq<string>, glob: seq<string>, i: nat, a: nat, b: nat)
    requires i < |glob|
  {
    if glob[i] == ANY then a <= b <= |components|
    else b == a + 1 <= |components| && fits(components[a], glob[i])
  }

  /** `cuts` divides the components from `j` on among the globs from `i` on. */
  ghost predicate Divides(fits: Wildcard, components: seq<string>, glob: seq<string>, i: nat, j: nat, cuts: Cuts)
    requires i <= |glob|
  {
    && |cuts| == |glob| - i + 1 && cuts[0] == j && cuts[|cuts| - 1] == |components|
    && forall k :: 0 <= k < |glob| - i ==> Takes(fits, components, glob, i + k, cuts[k], cuts[k + 1])
  }

  /** The components from `j` on match the globs from `i` on. */
  ghost predicate Matches(fits: Wildcard, components: seq<string>, glob: seq<string>, i: nat, j: nat)
    requires i <= |glob|
  {
    exists cuts :: Divides(fits, components, glob, i, j, cuts)
  }

  // ----- the equations the recursion relies on -----

  lemma {:induction false} NoGlobsLeft(fits: Wildcard, components: seq<string>, glob: seq<string>, j: nat)
    ensures Matches(fits, components, glob, |glob|, j) <==> j == |components|
  {
    if j == |components| {
      assert Divides(fits, components, glob, |glob|, j, [j]);
    }
  }

  lemma {:induction false} Prepend(fits: Wildcard, components: seq<string>, glob: seq<string>, i: nat, j: nat, b: nat)
    requires i < |glob| && Takes(fits, components, glob, i, j, b) && Matches(fits, components, glob, i + 1, b)
    ensures Matches(fits, components, glob, i, j)
  {
    var rest :| Divides(fits, components, glob, i + 1, b, rest);
    var cuts := [j] + rest;
    forall k | 0 <= k < |glob| - i
      ensures Takes(fits, components, glob, i + k, cuts[k], cuts[k + 1])
    {
      if k > 0 {
        assert Takes(fits, components, glob, i + 1 + (k - 1), rest[k - 1], rest[k - 1 + 1]);
      }
    }
    assert Divides(fits, components, glob, i, j, cuts);
  }

  lemma {:induction false} FirstTakes(fits: Wildcard, components: seq<string>, glob: seq<string>, i: nat, j: nat)
    returns (b: nat)
    requires i < |glob| && Matches(fits, components, glob, i, j)
    ensures Takes(fits, components, glob, i, j, b) && Matches(fits, components, glob, i + 1, b)
  {
    var cuts :| Divides(fits, components, glob, i, j, cuts);
    b := cuts[1];
    assert Takes(fits, components, glob, i + 0, cuts[0], cuts[0 + 1]);
    var rest := cuts[1..];
    forall k | 0 <= k < |glob| - (i + 1)
      ensures Takes(fits, components, glob, i + 1 + k, rest[k], rest[k + 1])
    {
      assert Takes(fits, components, glob, i + (k + 1), cuts[k + 1], cuts[k + 1 + 1]);
    }
    assert Divides(fits, components, glob, i + 1, b, rest);
  }

  lemma {:induction false} OneComponent(fits: Wildcard, components: seq<string>, glob: seq<string>, i: nat, j: nat)
    requires i < |glob| && glob[i] != ANY
    ensures Matches(fits, components, glob, i, j) <==>
      j < |components| && fits(components[j], glob[i]) && Matches(fits, components, glob, i + 1, j + 1)
  {
    if Matches(fits, components, glob, i, j) {
      var b := FirstTakes(fits, components, glob, i, j);
    }
    if j < |components| && fits(components[j], glob[i]) && Matches(fits, components, glob, i + 1, j + 1) {
      Prepend(fits, components, glob, i, j, j + 1);
    }
  }

  lemma {:induction false} AnyComponents(fits: Wildcard, components: seq<string>, glob: seq<string>, i: nat, j: nat)
    requires i < |glob| && glob[i] == ANY && j <= |components|
    ensures Matches(fits, components, glob, i, j) <==>
      Matches(fits, components, glob, i + 1, j) || (j < |components| && Matches(fits, components, glob, i, j + 1))
  {
    if Matches(fits, components, glob, i, j) {
      var b := FirstTakes(fits, components, glob, i, j);
      if b != j {
        Prepend(fits, components, glob, i, j + 1, b);
      }
    }
    if Matches(fits, components, glob, i + 1, j) {
      Prepend(fits, components, glob, i, j, j);
    }
    if j < |components| && Matches(fits, components, glob, i, j + 1) {
      var b := FirstTakes(fits, components, glob, i, j + 1);
      Prepend(fits, components, glob, i, j, b);
    }
  }

  // ----- the memoised recursion -----

  type Meaning = (nat, nat) -> bool

  /** The branches of `match`, as an equation between a state's meaning and its successors'. */
  ghost predicate EquationAt(fits: Wildcard, components: seq<string>, glob: seq<string>, meaning: Meaning, i: nat,
                             j: nat)
    requires i <= |glob| && j <= |components|
  {
    meaning(i, j) ==
      if i == |glob| then j == |components|
      else if glob[i] == ANY then meaning(i + 1, j) || (j < |components| && meaning(i, j + 1))
      else j < |components| && fits(components[j], glob[i]) && meaning(i + 1, j + 1)
  }

  ghost predicate Equations(fits: Wildcard, components: seq<string>, glob: seq<string>, meaning: Meaning) {
    forall i: nat, j: nat {:trigger EquationAt(fits, components, glob, meaning, i, j)} ::
      i <= |glob| && j <= |components| ==> EquationAt(fits, components, glob, meaning, i, j)
  }

  ghost function MeaningOf(fits: Wildcard, components: seq<string>, glob: seq<string>): Meaning {
    (i: nat, j: nat) => i <= |glob| && Matches(fits, components, glob, i, j)
  }

  lemma {:induction false} MatchingIsLawful(fits: Wildcard, components: seq<string>, glob: seq<string>)
    ensures Equations(fits, components, glob, MeaningOf(fits, components, glob))
  {
    forall i: nat, j: nat | i <= |glob| && j <= |components|
      ensures EquationAt(fits, components, glob, MeaningOf(fits, components, glob), i, j)
    {
      if i == |glob| {
        NoGlobsLeft(fits, components, glob, j);
      } else if glob[i] == ANY {
        AnyComponents(fits, components, glob, i, j);
      } else {
        OneComponent(fits, components, glob, i, j);
      }
    }
  }

  datatype State = State(i: nat, j: nat)

  type Memo = map<State, bool>

  ghost predicate Right(memo: Memo, globs: nat, components: nat, meaning: Meaning) {
    forall s :: s in memo ==> s.i <= globs && s.j <= components && memo[s] == meaning(s.i, s.j)
  }

  /** `match` and the table it fills, for one path and one pattern. */
  class Matcher {
    const fits: Wildcard
    const components: seq<string>
    const glob: seq<string>
    var memo: Memo
    /** How often a state was worked out rather than looked up. */
    var evaluated: nat

    constructor (fits: Wildcard, components: seq<string>, glob: seq<string>)
      ensures this.fits == fits && this.components == components && this.glob == glob
      ensures memo == map[] && evaluated == 0
    {
      this.fits, this.components, this.glob := fits, components, glob;
      memo, evaluated := map[], 0;
    }

    ghost predicate Sound(meaning: Meaning)
      reads this
    {
      && Equations(fits, components, glob, meaning)
      && Right(memo, |glob|, |components|, meaning) && evaluated == |memo|
    }

    method Match(i: nat, j: nat, ghost meaning: Meaning) returns (result: bool)
      requires i <= |glob| && j <= |components|
      requires Sound(meaning)
      modifies this
      ensures Sound(meaning)
      ensures result == meaning(i, j) && GrownFrom(old(memo), memo, i, j)
      decreases |glob| - i, |components| - j, 2
    {
      if State(i, j) in memo {
        return memo[State(i, j)];
      }
      result := Evaluate(i, j, meaning);
      memo := memo[State(i, j) := result];
      evaluated := evaluated + 1;
    }

    /** A state that is not in the table; working it out leaves the state itself out. */
    method Evaluate(i: nat, j: nat, ghost meaning: Meaning) returns (result: bool)
      requires i <= |glob| && j <= |components| && State(i, j) !in memo
      requires Sound(meaning)
      modifies this
      ensures Sound(meaning)
      ensures result == meaning(i, j) && GrownFrom(old(memo), memo, i, j) && State(i, j) !in memo
      decreases |glob| - i, |components| - j, 1
    {
      assert EquationAt(fits, components, glob, meaning, i, j);
      if i == |glob| {
        result := j == |components|;
      } else if glob[i] == ANY {
        result := EvaluateAny(i, j, meaning);
      } else {
        result := j < |components| && fits(components[j], glob[i]);
        if result {
          result := Match(i + 1, j + 1, meaning);
        }
      }
    }

    /** A "**": it takes nothing more, or one component more. */
    method EvaluateAny(i: nat, j: nat, ghost meaning: Meaning) returns (result: bool)
      requires i < |glob| && j <= |components| && State(i, j) !in memo
      requires Sound(meaning)
      modifies this
      ensures Sound(meaning)
      ensures result == (meaning(i + 1, j) || (j < |components| && meaning(i, j + 1)))
      ensures GrownFrom(old(memo), memo, i, j) && State(i, j) !in memo
      decreases |glob| - i, |components| - j, 0
    {
      ghost var before := memo;
      result := Match(i + 1, j, meaning);
      ghost var middle := memo;
      GrownTwice(before, middle, middle, i, j);
      if !result && j < |components| {
        result := Match(i, j + 1, meaning);
        GrownTwice(before, middle, memo, i, j);
      }
    }
  }

  /** Only states at or after (i, j) were added. */
  ghost predicate GrownFrom(before: Memo, after: Memo, i: nat, j: nat) {
    forall s :: s in after && s !in before ==> i <= s.i && j <= s.j
  }

  lemma {:induction false} GrownTwice(before: Memo, middle: Memo, after: Memo, i: nat, j: nat)
    requires State(i, j) !in before && GrownFrom(before, middle, i + 1, j) && GrownFrom(middle, after, i, j + 1)
    ensures GrownFrom(before, after, i, j) && State(i, j) !in after
  {
  }

  // ----- the bound on the work -----

  function Row(a: nat, columns: nat): set<State> {
    if columns == 0 then {} else Row(a, columns - 1) + {State(a, columns - 1)}
  }

  function Grid(rows: nat, columns: nat): set<State> {
    if rows == 0 then {} else Grid(rows - 1, columns) + Row(rows - 1, columns)
  }

  lemma {:induction false} RowHolds(a: nat, columns: nat)
    ensures forall s :: s in Row(a, columns) <==> s.i == a && s.j < columns
    ensures |Row(a, columns)| == columns
  {
    if columns > 0 {
      RowHolds(a, columns - 1);
    }
  }

  lemma {:induction false} GridHolds(rows: nat, columns: nat)
    ensures forall s :: s in Grid(rows, columns) <==> s.i < rows && s.j < columns
  {
    if rows > 0 {
      GridHolds(rows - 1, columns);
      RowHolds(rows - 1, columns);
    }
  }

  function Cells(rows: nat, columns: nat): nat { if rows == 0 then 0 else Cells(rows - 1, columns) + columns }

  lemma {:induction false} CellsIsProduct(rows: nat, columns: nat)
    ensures Cells(rows, columns) == rows * columns
  {
    if rows > 0 {
      CellsIsProduct(rows - 1, columns);
      assert (rows - 1) * columns + columns == rows * columns;
    }
  }

  lemma {:induction false} GridSize(rows: nat, columns: nat)
    ensures |Grid(rows, columns)| == Cells(rows, columns)
  {
    if rows > 0 {
      GridSize(rows - 1, columns);
      GridHolds(rows - 1, columns);
      RowHolds(rows - 1, columns);
      DisjointSizes(Grid(rows - 1, columns), Row(rows - 1, columns));
    }
  }

  lemma {:induction false} MemoFits(memo: Memo, globs: nat, components: nat)
    requires forall s :: s in memo ==> s.i <= globs && s.j <= components
    ensures |memo| <= Cells(globs + 1, components + 1)
  {
    GridHolds(globs + 1, components + 1);
    GridSize(globs + 1, components + 1);
    SubsetSize(memo.Keys, Grid(globs + 1, components + 1));
    assert |memo| == |memo.Keys|;
  }

  // ----- the whole operation -----

  function CountAny(glob: seq<string>, n: nat): nat
    requires n <= |glob|
  {
    if n == 0 then 0 else CountAny(glob, n - 1) + if glob[n - 1] == ANY then 1 else 0
  }

  lemma {:induction false} CountsAny(glob: seq<string>, n: nat)
    requires n <= |glob|
    ensures CountAny(glob, n) == multiset(glob[..n])[ANY]
  {
    if n > 0 {
      CountsAny(glob, n - 1);
      assert glob[..n] == glob[..n - 1] + [glob[n - 1]];
    }
  }

  /** At most eight components are "**", in at most 1024 characters. */
  lemma {:induction false} BoundedExactly(pattern: string)
    ensures Bounded(pattern) <==> multiset(Split(pattern))[ANY] < 9 && |pattern| < 1025
  {
    CountsAny(Split(pattern), |Split(pattern)|);
    assert Split(pattern)[..|Split(pattern)|] == Split(pattern);
  }

  predicate Bounded(pattern: string) { CountAny(Split(pattern), |Split(pattern)|) <= 8 && |pattern| <= 1024 }

  ghost predicate PathMatches(fits: Wildcard, path: string, pattern: string) {
    Matches(fits, Split(path), Split(pattern), 0, 0)
  }

  method MatchParts(fits: Wildcard, components: seq<string>, glob: seq<string>) returns (matched: bool, states: nat)
    ensures matched == Matches(fits, components, glob, 0, 0)
    ensures states <= Cells(|glob| + 1, |components| + 1)
  {
    var matcher := new Matcher(fits, components, glob);
    MatchingIsLawful(fits, components, glob);
    matched := matcher.Match(0, 0, MeaningOf(fits, components, glob));
    MemoFits(matcher.memo, |glob|, |components|);
    states := matcher.evaluated;
  }

  /** `matches_input`, with the number of states it evaluated. */
  method MatchesInput(fits: Wildcard, path: string, pattern: string) returns (r: Result<bool>, states: nat)
    ensures r.Ok? <==> Bounded(pattern)
    ensures r.Ok? ==> r.value == PathMatches(fits, path, pattern)
    ensures states <= (|Split(pattern)| + 1) * (|Split(path)| + 1)
  {
    var components, glob := Split(path), Split(pattern);
    CellsIsProduct(|glob| + 1, |components| + 1);
    if !(CountAny(glob, |glob|) <= 8 && |pattern| <= 1024) {
      return Refused, 0;
    }
    var matched, evaluated := MatchParts(fits, components, glob);
    r, states := Ok(matched), evaluated;
  }
}
