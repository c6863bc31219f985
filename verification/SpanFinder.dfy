// validation/doc_versions.py, `_HistoricalSpanFinder` and `_current_claims_only`: which parts of a document
// are marked as history and left out of the sweep.
module SpanFinder {
  import opened Wrappers

  /** A span tag as the HTML tokenizer reports it, with the offset of its "<". */
  datatype Event = Open(at: nat, marked: bool) | SelfClose(at: nat) | Close(at: nat)

  datatype OpenSpan = OpenSpan(start: Option<nat>, spoiled: bool)

  datatype Region = Region(start: nat, end: nat)

  /** Tags come one after another. */
  ghost predicate InOrder(events: seq<Event>) {
    forall j, k :: 0 <= j < k < |events| ==> events[j].at < events[k].at
  }

  function Spoil(stack: seq<OpenSpan>): (r: seq<OpenSpan>)
    ensures |r| == |stack| && forall k :: 0 <= k < |r| ==> r[k] == stack[k].(spoiled := true)
  {
    seq(|stack|, k requires 0 <= k < |stack| => stack[k].(spoiled := true))
  }

  // ----- what the finder is meant to find -----

  /** Tag `k` opens a marked span and the next tag closes it: nothing in between. */
  predicate Marks(events: seq<Event>, k: nat) {
    k + 1 < |events| && events[k].Open? && events[k].marked && events[k + 1].Close?
  }

  /** The regions that the first `n` tags complete. */
  function Regions(events: seq<Event>, n: nat): seq<Region>
    requires n <= |events|
  {
    if n < 2 then []
    else
      Regions(events, n - 1)
      + (if Marks(events, n - 2) then [Region(events[n - 2].at, events[n - 1].at)] else [])
  }

  // ----- the machine -----

  class HistoricalSpanFinder {
    var open: seq<OpenSpan>
    var spans: seq<Region>

    constructor ()
      ensures open == [] && spans == []
    {
      open, spans := [], [];
    }

    /**
     * After the first `n` tags: everything below the top is spoiled, the top is not only if the last tag
     * opened it, and the regions are those completed so far.
     */
    ghost predicate After(events: seq<Event>, n: nat)
      requires n <= |events|
      reads this
    {
      && (forall k :: 0 <= k < |open| - 1 ==> open[k].spoiled)
      && (open != [] && !open[|open| - 1].spoiled ==>
            n > 0 && events[n - 1].Open?
            && open[|open| - 1].start == if events[n - 1].marked then Some(events[n - 1].at) else None)
      && (n > 0 && events[n - 1].Open? ==> open != [] && !open[|open| - 1].spoiled)
      && spans == Regions(events, n)
    }

    method HandleStart(at: nat, marked: bool, ghost events: seq<Event>, ghost n: nat)
      requires n < |events| && events[n] == Open(at, marked) && After(events, n)
      modifies this
      ensures After(events, n + 1)
    {
      open := Spoil(open);
      open := open + [OpenSpan(if marked then Some(at) else None, false)];
    }

    method HandleStartEnd(ghost events: seq<Event>, ghost n: nat)
      requires n < |events| && events[n].SelfClose? && After(events, n)
      modifies this
      ensures After(events, n + 1)
    {
      open := Spoil(open);
    }

    method HandleEnd(at: nat, ghost events: seq<Event>, ghost n: nat)
      requires n < |events| && events[n] == Close(at) && After(events, n)
      modifies this
      ensures After(events, n + 1)
    {
      if open == [] { return; }
      var top := open[|open| - 1];
      open := open[..|open| - 1];
      if top.start.Some? && !top.spoiled {
        spans := spans + [Region(top.start.value, at)];
      }
    }

    /** `spans`: one pass over the tags of a document. */
    method Spans(events: seq<Event>) returns (found: seq<Region>)
      modifies this
      ensures found == Regions(events, |events|)
    {
      open, spans := [], [];
      var n := 0;
      while n < |events|
        invariant n <= |events| && After(events, n)
      {
        var event := events[n];
        if event.Open? {
          HandleStart(event.at, event.marked, events, n);
        } else if event.SelfClose? {
          HandleStartEnd(events, n);
        } else {
          HandleEnd(event.at, events, n);
        }
        n := n + 1;
      }
      found := spans;
    }
  }

  // ----- the regions -----

  ghost predicate RegionsOk(regions: seq<Region>, limit: nat) {
    && (forall k :: 0 <= k < |regions| ==> regions[k].start < regions[k].end <= limit)
    && (forall j, k :: 0 <= j < k < |regions| ==> regions[j].end <= regions[k].start)
  }

  /** Every region is non-empty, ends before the next one starts, and holds no other span tag. */
  lemma {:induction false} RegionsAreApart(events: seq<Event>, n: nat)
    requires InOrder(events) && n <= |events|
    ensures RegionsOk(Regions(events, n), if n == 0 then 0 else events[n - 1].at)
    ensures forall r, k :: r in Regions(events, n) && 0 <= k < |events| && r.start < events[k].at ==>
      r.end <= events[k].at
    decreases n
  {
    if n >= 2 {
      RegionsAreApart(events, n - 1);
      var before := Regions(events, n - 1);
      if Marks(events, n - 2) {
        var region := Region(events[n - 2].at, events[n - 1].at);
        forall k | 0 <= k < |events| && region.start < events[k].at
          ensures region.end <= events[k].at
        {
        }
        assert forall k :: 0 <= k < |before| ==> before[k].end <= events[n - 2].at;
      }
    }
  }

  /** A region is found for exactly those marked spans whose very next tag closes them. */
  lemma {:induction false} RegionsAreMarked(events: seq<Event>, n: nat, r: Region)
    requires n <= |events|
    ensures r in Regions(events, n) <==>
      exists k: nat :: k + 1 < n && Marks(events, k) && r == Region(events[k].at, events[k + 1].at)
    decreases n
  {
    if n >= 2 {
      RegionsAreMarked(events, n - 1, r);
      if Marks(events, n - 2) && r == Region(events[n - 2].at, events[n - 1].at) {
        var k: nat := n - 2;
        assert k + 1 < n && Marks(events, k) && r == Region(events[k].at, events[k + 1].at);
      }
    }
  }

  // ----- removing them -----

  /** From `cursor` on, with the regions from `k` on cut out and a space in place of each. */
  function Cut(contents: string, regions: seq<Region>, k: nat, cursor: nat): string
    requires RegionsOk(regions, |contents|) && k <= |regions| && cursor <= |contents|
    requires k < |regions| ==> cursor <= regions[k].start
    decreases |regions| - k
  {
    if k == |regions| then contents[cursor..]
    else contents[cursor..regions[k].start] + " " + Cut(contents, regions, k + 1, regions[k].end)
  }

  /** `_current_claims_only`, after the spans are found. */
  method CurrentClaimsOnly(contents: string, regions: seq<Region>) returns (kept: string)
    requires RegionsOk(regions, |contents|)
    ensures kept == Cut(contents, regions, 0, 0)
  {
    kept := "";
    var k: nat, cursor: nat := 0, 0;
    while k < |regions|
      invariant k <= |regions| && cursor <= |contents| && (k < |regions| ==> cursor <= regions[k].start)
      invariant kept + Cut(contents, regions, k, cursor) == Cut(contents, regions, 0, 0)
    {
      var r := regions[k];
      var piece := contents[cursor..r.start] + " ";
      Associate(kept, piece, Cut(contents, regions, k + 1, r.end));
      kept := kept + piece;
      cursor := r.end;
      k := k + 1;
    }
    kept := kept + contents[cursor..];
  }

  lemma {:induction false} Associate(a: string, b: string, c: string)
    ensures a + (b + c) == (a + b) + c
  {
  }

  type Spots = nat -> bool

  /** The same text character by character: a region's start gives one space, the rest of it nothing. */
  function Shown(contents: string, starts: Spots, inside: Spots, at: nat): string
    requires at <= |contents|
    decreases |contents| - at
  {
    if at == |contents| then ""
    else if starts(at) then " " + Shown(contents, starts, inside, at + 1)
    else if inside(at) then Shown(contents, starts, inside, at + 1)
    else [contents[at]] + Shown(contents, starts, inside, at + 1)
  }

  predicate StartsAt(regions: seq<Region>, at: nat) { exists r :: r in regions && r.start == at }

  predicate Inside(regions: seq<Region>, at: nat) { exists r :: r in regions && r.start <= at < r.end }

  function Starts(regions: seq<Region>): Spots { (at: nat) => StartsAt(regions, at) }

  function Insides(regions: seq<Region>): Spots { (at: nat) => Inside(regions, at) }

  lemma {:induction false} ShowPlain(contents: string, starts: Spots, inside: Spots, at: nat, to: nat)
    requires at <= to <= |contents|
    requires forall p: nat :: at <= p < to ==> !inside(p) && !starts(p)
    ensures Shown(contents, starts, inside, at) == contents[at..to] + Shown(contents, starts, inside, to)
    decreases |contents| - at
  {
    if at < to {
      var rest := Shown(contents, starts, inside, to);
      ShowPlain(contents, starts, inside, at + 1, to);
      ShowOne(contents, starts, inside, at);
      assert contents[at..to] == [contents[at]] + contents[at + 1..to];
      Associate([contents[at]], contents[at + 1..to], rest);
    } else {
      assert contents[at..to] == "";
    }
  }

  lemma {:induction false} ShowOne(contents: string, starts: Spots, inside: Spots, at: nat)
    requires at < |contents| && !inside(at) && !starts(at)
    ensures Shown(contents, starts, inside, at) == [contents[at]] + Shown(contents, starts, inside, at + 1)
  {
  }

  lemma {:induction false} ShowInside(contents: string, starts: Spots, inside: Spots, at: nat, to: nat)
    requires at <= to <= |contents|
    requires forall p: nat :: at <= p < to ==> inside(p) && !starts(p)
    ensures Shown(contents, starts, inside, at) == Shown(contents, starts, inside, to)
    decreases |contents| - at
  {
    if at < to {
      ShowInside(contents, starts, inside, at + 1, to);
    }
  }

  lemma {:induction false} Gap(contents: string, regions: seq<Region>, k: nat, p: nat)
    requires RegionsOk(regions, |contents|) && k <= |regions|
    requires (k > 0 ==> regions[k - 1].end <= p) && (k < |regions| ==> p < regions[k].start)
    ensures !Inside(regions, p) && !StartsAt(regions, p)
  {
    forall r | r in regions
      ensures !(r.start <= p < r.end) && r.start != p
    {
      var i :| 0 <= i < |regions| && regions[i] == r;
      if i < k {
        assert i < k - 1 ==> regions[i].end <= regions[k - 1].start;
      } else {
        assert k < i ==> regions[k].end <= regions[i].start;
      }
    }
  }

  lemma {:induction false} Within(contents: string, regions: seq<Region>, k: nat, p: nat)
    requires RegionsOk(regions, |contents|) && k < |regions| && regions[k].start < p < regions[k].end
    ensures Inside(regions, p) && !StartsAt(regions, p)
  {
    assert regions[k] in regions;
    forall r | r in regions
      ensures r.start != p
    {
      var i :| 0 <= i < |regions| && regions[i] == r;
      if i < k {
        assert regions[i].end <= regions[k].start;
      } else if k < i {
        assert regions[k].end <= regions[i].start;
      }
    }
  }

  /** The kept text is the document outside the regions, with one space for each of them. */
  lemma {:induction false} CutIsShown(contents: string, regions: seq<Region>, k: nat, cursor: nat)
    requires RegionsOk(regions, |contents|) && k <= |regions| && cursor <= |contents|
    requires (k < |regions| ==> cursor <= regions[k].start) && (k > 0 ==> cursor == regions[k - 1].end)
    ensures Cut(contents, regions, k, cursor) == Shown(contents, Starts(regions), Insides(regions), cursor)
    decreases |regions| - k
  {
    ShowGap(contents, regions, k, cursor);
    if k < |regions| {
      ShowRegion(contents, regions, k);
      CutIsShown(contents, regions, k + 1, regions[k].end);
      Associate(contents[cursor..regions[k].start], " ", Cut(contents, regions, k + 1, regions[k].end));
    } else {
      assert contents[cursor..|contents|] + "" == contents[cursor..];
    }
  }

  function StopOf(contents: string, regions: seq<Region>, k: nat): nat
    requires k <= |regions|
  {
    if k < |regions| then regions[k].start else |contents|
  }

  /** Up to the next region the document is shown as it is. */
  lemma {:induction false} ShowGap(contents: string, regions: seq<Region>, k: nat, cursor: nat)
    requires RegionsOk(regions, |contents|) && k <= |regions| && cursor <= StopOf(contents, regions, k) <= |contents|
    requires k > 0 ==> cursor == regions[k - 1].end
    ensures var stop := StopOf(contents, regions, k);
      Shown(contents, Starts(regions), Insides(regions), cursor) ==
      contents[cursor..stop] + Shown(contents, Starts(regions), Insides(regions), stop)
  {
    var starts, inside := Starts(regions), Insides(regions);
    var stop := StopOf(contents, regions, k);
    forall p: nat | cursor <= p < stop
      ensures !inside(p) && !starts(p)
    {
      Gap(contents, regions, k, p);
    }
    ShowPlain(contents, starts, inside, cursor, stop);
  }

  lemma {:induction false} ShowRegion(contents: string, regions: seq<Region>, k: nat)
    requires RegionsOk(regions, |contents|) && k < |regions|
    ensures var starts, inside := Starts(regions), Insides(regions);
      Shown(contents, starts, inside, regions[k].start) == " " + Shown(contents, starts, inside, regions[k].end)
  {
    var starts, inside, r := Starts(regions), Insides(regions), regions[k];
    assert r in regions;
    assert starts(r.start);
    forall p: nat | r.start + 1 <= p < r.end
      ensures inside(p) && !starts(p)
    {
      Within(contents, regions, k, p);
    }
    ShowInside(contents, starts, inside, r.start + 1, r.end);
  }

  /** `_current_claims_only`: the tags are found, and the regions they mark are left out. */
  method CurrentClaims(contents: string, events: seq<Event>) returns (kept: string)
    requires InOrder(events) && (events != [] ==> events[|events| - 1].at <= |contents|)
    ensures var regions := Regions(events, |events|); kept == Shown(contents, Starts(regions), Insides(regions), 0)
  {
    var finder := new HistoricalSpanFinder();
    var regions := finder.Spans(events);
    RegionsAreApart(events, |events|);
    kept := CurrentClaimsOnly(contents, regions);
    CutIsShown(contents, regions, 0, 0);
  }

  // ----- offsets -----

  /** `split("\n")`. */
  function Lines(s: string): (lines: seq<string>)
    ensures lines != []
  {
    if s == "" then [""]
    else
      var rest := Lines(s[1..]);
      if s[0] == '\n' then [""] + rest else [[s[0]] + rest[0]] + rest[1..]
  }

  /** Where line `k` begins when every line is followed by one newline. */
  function LineStart(lines: seq<string>, k: nat): nat
    requires k <= |lines|
  {
    if k == 0 then 0 else LineStart(lines, k - 1) + |lines[k - 1]| + 1
  }

  /** The table `spans` fills before parsing. */
  method LineStarts(contents: string) returns (starts: seq<nat>)
    ensures |starts| == |Lines(contents)| + 1
    ensures forall k :: 0 <= k < |starts| ==> starts[k] == LineStart(Lines(contents), k)
  {
    var lines := Lines(contents);
    starts := [0];
    var n := 0;
    while n < |lines|
      invariant n <= |lines| && |starts| == n + 1
      invariant forall k :: 0 <= k <= n ==> starts[k] == LineStart(lines, k)
    {
      starts := starts + [starts[n] + |lines[n]| + 1];
      n := n + 1;
    }
  }

  /** The parser's line, counted from zero, and column of a position. */
  function LineOf(s: string, p: nat): nat
    requires p <= |s|
  {
    if p == 0 then 0 else LineOf(s, p - 1) + if s[p - 1] == '\n' then 1 else 0
  }

  function ColumnOf(s: string, p: nat): nat
    requires p <= |s|
  {
    if p == 0 || s[p - 1] == '\n' then 0 else ColumnOf(s, p - 1) + 1
  }

  /** Line `k`, character by character, where the text has it. */
  ghost predicate LineAt(s: string, lines: seq<string>, k: nat, start: nat)
    requires k < |lines|
  {
    && start + |lines[k]| <= |s| && s[start..start + |lines[k]|] == lines[k] && '\n' !in lines[k]
    && (if k + 1 < |lines| then start + |lines[k]| < |s| && s[start + |lines[k]|] == '\n'
        else start + |lines[k]| == |s|)
  }

  lemma {:induction false} StartsShift(lines: seq<string>, k: nat)
    requires 0 < k <= |lines|
    ensures LineStart(lines, k) == |lines[0]| + 1 + LineStart(lines[1..], k - 1)
  {
    if k > 1 {
      StartsShift(lines, k - 1);
    }
  }

  lemma {:induction false} LinesStand(s: string, k: nat)
    requires k < |Lines(s)|
    ensures LineAt(s, Lines(s), k, LineStart(Lines(s), k))
    decreases |s|, 1
  {
    if s == "" {
    } else if s[0] == '\n' {
      AfterBreak(s, Lines(s), Lines(s[1..]), k);
    } else {
      AfterLetter(s, Lines(s), Lines(s[1..]), k);
    }
  }

  lemma {:induction false} AfterBreak(s: string, lines: seq<string>, rest: seq<string>, k: nat)
    requires s != "" && s[0] == '\n' && rest == Lines(s[1..]) && lines == [""] + rest && k < |lines|
    ensures LineAt(s, lines, k, LineStart(lines, k))
    decreases |s|, 0
  {
    if k > 0 {
      LinesStand(s[1..], k - 1);
      StartsShift(lines, k);
      assert lines[1..] == rest;
      LineMoves(s, rest, k - 1, LineStart(rest, k - 1), lines, k);
    }
  }

  lemma {:induction false} AfterLetter(s: string, lines: seq<string>, rest: seq<string>, k: nat)
    requires s != "" && s[0] != '\n' && rest == Lines(s[1..]) && lines == [[s[0]] + rest[0]] + rest[1..] && k < |lines|
    ensures LineAt(s, lines, k, LineStart(lines, k))
    decreases |s|, 0
  {
    LinesStand(s[1..], k);
    if k == 0 {
      LineGrows(s, lines, rest);
    } else {
      StartsShift(lines, k);
      StartsShift(rest, k);
      assert lines[1..] == rest[1..];
      LineMoves(s, rest, k, LineStart(rest, k), lines, k);
    }
  }

  lemma {:induction false} LineGrows(s: string, lines: seq<string>, rest: seq<string>)
    requires s != "" && s[0] != '\n' && rest != [] && lines == [[s[0]] + rest[0]] + rest[1..]
    requires LineAt(s[1..], rest, 0, 0)
    ensures LineAt(s, lines, 0, 0)
  {
    assert s[0..0 + |lines[0]|] == [s[0]] + s[1..][0..0 + |rest[0]|];
    assert forall c :: c in lines[0] <==> c == s[0] || c in rest[0];
  }

  /** A line of the tail is a line of the whole, one character later. */
  lemma {:induction false} LineMoves(s: string, rest: seq<string>, j: nat, start: nat, lines: seq<string>, k: nat)
    requires s != "" && j < |rest| && k < |lines| && lines[k] == rest[j] && (j + 1 < |rest| <==> k + 1 < |lines|)
    requires LineAt(s[1..], rest, j, start)
    ensures LineAt(s, lines, k, start + 1)
  {
    assert s[1..][start..start + |rest[j]|] == s[start + 1..start + 1 + |rest[j]|];
  }

  /** A position lies on its line, at its column. */
  lemma {:induction false} PositionOnLine(s: string, p: nat)
    requires p <= |s|
    ensures LineOf(s, p) < |Lines(s)| && ColumnOf(s, p) <= |Lines(s)[LineOf(s, p)]|
    ensures LineStart(Lines(s), LineOf(s, p)) + ColumnOf(s, p) == p
  {
    if p > 0 {
      PositionOnLine(s, p - 1);
      var lines, k := Lines(s), LineOf(s, p - 1);
      var start := LineStart(lines, k);
      LinesStand(s, k);
      CharOnLine(s, lines, k, start, p - 1);
    }
  }

  lemma {:induction false} CharOnLine(s: string, lines: seq<string>, k: nat, start: nat, p: nat)
    requires k < |lines| && LineAt(s, lines, k, start) && start <= p < |s|
    ensures p < start + |lines[k]| ==> s[p] != '\n'
    ensures p == start + |lines[k]| ==> k + 1 < |lines|
  {
    if p < start + |lines[k]| {
      assert s[p] == s[start..start + |lines[k]|][p - start] == lines[k][p - start];
      assert lines[k][p - start] in lines[k];
    }
  }
}
