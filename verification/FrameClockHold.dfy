// scripts/playback-frame-clock.js, analyzeFrameClock: how long one picture stayed on screen.
//
// Samples arrive as (time, frame).  A time of `None` is a missing or non-finite number, a frame of
// `None` is a missing or non-integer one.
module FrameClockHold {
  import opened Wrappers

  datatype Sample = Sample(at: Option<real>, frame: Option<int>)

  /** A sample whose time was accepted. */
  datatype Timed = Timed(t: real, frame: Option<int>)

  datatype Window = Window(start: real, end: real, gap: real)

  datatype Report = Report(
    complete: bool, samples: nat, unknownSamples: nat, captureGaps: nat, backwardFrames: nat,
    skippedCounterValues: nat, maximumHoldLower: real, maximumHoldUpper: real)

  predicate KnownFrame(frame: Option<int>) {
    frame.Some? && 0 <= frame.value <= 0xff_ffff
  }

  // ----- which samples count -----

  /** A time that is missing, or not later than every accepted time before it. */
  ghost predicate Rejected(sample: Sample, lastAt: Option<real>) {
    sample.at.None? || (lastAt.Some? && sample.at.value <= lastAt.value)
  }

  /** The latest accepted time among the first `n` samples. */
  ghost function LastAt(samples: seq<Sample>, n: nat): Option<real>
    requires n <= |samples|
  {
    if n == 0 then None
    else
      var lastAt := LastAt(samples, n - 1);
      if Rejected(samples[n - 1], lastAt) then lastAt else samples[n - 1].at
  }

  ghost function RejectedCount(samples: seq<Sample>, n: nat): nat
    requires n <= |samples|
  {
    if n == 0 then 0
    else RejectedCount(samples, n - 1) + if Rejected(samples[n - 1], LastAt(samples, n - 1)) then 1 else 0
  }

  /** Accepted samples inside the window, among the first `n`. */
  ghost function ObservedIn(samples: seq<Sample>, w: Window, n: nat): seq<Timed>
    requires n <= |samples|
  {
    if n == 0 then []
    else
      var obs, x := ObservedIn(samples, w, n - 1), samples[n - 1];
      if Rejected(x, LastAt(samples, n - 1)) || x.at.value < w.start || x.at.value > w.end then obs
      else obs + [Timed(x.at.value, x.frame)]
  }

  ghost function Observed(samples: seq<Sample>, w: Window): seq<Timed> {
    ObservedIn(samples, w, |samples|)
  }

  ghost function CountUnknown(obs: seq<Timed>, n: nat): nat
    requires n <= |obs|
  {
    if n == 0 then 0 else CountUnknown(obs, n - 1) + if KnownFrame(obs[n - 1].frame) then 0 else 1
  }

  /** Two samples that both carry a frame. */
  ghost predicate KnownStep(before: Timed, after: Timed) {
    KnownFrame(before.frame) && KnownFrame(after.frame)
  }

  ghost function WideSteps(obs: seq<Timed>, gap: real, n: nat): nat
    requires n <= |obs|
  {
    if n <= 1 then 0
    else
      var a, b := obs[n - 2], obs[n - 1];
      WideSteps(obs, gap, n - 1) + if KnownStep(a, b) && b.t - a.t > gap then 1 else 0
  }

  ghost function Backward(obs: seq<Timed>, n: nat): nat
    requires n <= |obs|
  {
    if n <= 1 then 0
    else
      var a, b := obs[n - 2], obs[n - 1];
      Backward(obs, n - 1) + if KnownStep(a, b) && b.frame.value < a.frame.value then 1 else 0
  }

  ghost function Skipped(obs: seq<Timed>, n: nat): nat
    requires n <= |obs|
  {
    if n <= 1 then 0
    else
      var a, b := obs[n - 2], obs[n - 1];
      Skipped(obs, n - 1)
      + if KnownStep(a, b) && b.frame.value > a.frame.value then b.frame.value - a.frame.value - 1 else 0
  }

  ghost function Changes(obs: seq<Timed>, n: nat): nat
    requires n <= |obs|
  {
    if n <= 1 then 0
    else Changes(obs, n - 1) + if obs[n - 1].frame != obs[n - 2].frame then 1 else 0
  }

  ghost predicate AllKnown(obs: seq<Timed>) {
    forall k :: 0 <= k < |obs| ==> KnownFrame(obs[k].frame)
  }

  ghost predicate Increasing(obs: seq<Timed>) {
    forall j, k :: 0 <= j < k < |obs| ==> obs[j].t < obs[k].t
  }

  ghost predicate DenseSteps(obs: seq<Timed>, gap: real) {
    forall j, k :: 0 <= j && k == j + 1 < |obs| ==> obs[k].t - obs[j].t <= gap
  }

  /** The whole window was seen: nothing rejected, nothing unknown, no hole wider than the gap. */
  ghost predicate FullySampled(samples: seq<Sample>, w: Window) {
    var obs := Observed(samples, w);
    && RejectedCount(samples, |samples|) == 0
    && obs != [] && AllKnown(obs) && DenseSteps(obs, w.gap)
    && obs[0].t - w.start <= w.gap
    && w.end - obs[|obs| - 1].t <= w.gap
  }

  ghost predicate InOrder(obs: seq<Timed>, w: Window) {
    Increasing(obs) && forall k :: 0 <= k < |obs| ==> w.start <= obs[k].t <= w.end
  }

  lemma {:induction false} ObservedInOrder(samples: seq<Sample>, w: Window, n: nat)
    requires n <= |samples|
    ensures var obs := ObservedIn(samples, w, n);
      InOrder(obs, w) && (obs != [] ==> LastAt(samples, n).Some? && obs[|obs| - 1].t <= LastAt(samples, n).value)
  {
    if n > 0 {
      ObservedInOrder(samples, w, n - 1);
    }
  }

  /** The accepted times are exactly those later than every time before them. */
  lemma {:induction false} AcceptedExactly(samples: seq<Sample>, n: nat)
    requires n <= |samples|
    ensures forall j :: 0 <= j < n && samples[j].at.Some? ==>
      LastAt(samples, n).Some? && samples[j].at.value <= LastAt(samples, n).value
    ensures LastAt(samples, n).Some? ==> exists j :: 0 <= j < n && samples[j].at == LastAt(samples, n)
    ensures n < |samples| ==>
      (!Rejected(samples[n], LastAt(samples, n)) <==>
        (samples[n].at.Some?
         && forall j :: 0 <= j < n && samples[j].at.Some? ==> samples[j].at.value < samples[n].at.value))
  {
    if n > 0 {
      AcceptedExactly(samples, n - 1);
    }
  }

  ghost predicate Taken(samples: seq<Sample>, w: Window, k: int, x: Timed) {
    && 0 <= k < |samples| && samples[k] == Sample(Some(x.t), x.frame) && w.start <= x.t <= w.end
    && forall j :: 0 <= j < k && samples[j].at.Some? ==> samples[j].at.value < x.t
  }

  /** The samples that count are those in the window that come later than every time before them. */
  lemma {:induction false} ObservedExactly(samples: seq<Sample>, w: Window, n: nat, x: Timed)
    requires n <= |samples|
    ensures x in ObservedIn(samples, w, n) <==> exists k :: 0 <= k < n && Taken(samples, w, k, x)
  {
    if n > 0 {
      ObservedExactly(samples, w, n - 1, x);
      AcceptedExactly(samples, n - 1);
      assert Taken(samples, w, n - 1, x) <==>
        !Rejected(samples[n - 1], LastAt(samples, n - 1)) && samples[n - 1] == Sample(Some(x.t), x.frame)
        && w.start <= x.t <= w.end;
    }
  }

  // ----- holds -----

  /** Time of sample `k`; before the first it is the window's start, after the last its end. */
  ghost function TimeOf(obs: seq<Timed>, w: Window, k: int): real
    requires -1 <= k <= |obs|
  {
    if k == -1 then w.start else if k == |obs| then w.end else obs[k].t
  }

  /** Samples `i` to `j`, both included, all carry one frame. */
  ghost predicate Uniform(obs: seq<Timed>, i: int, j: int)
    requires 0 <= i && j < |obs|
  {
    forall k :: i <= k <= j ==> obs[k].frame == obs[i].frame
  }

  /** A picture certainly held from sample `i` to sample `j` if the clock never went back. */
  ghost predicate SeenHold(obs: seq<Timed>, i: int, j: int) {
    0 <= i <= j < |obs| && Uniform(obs, i, j)
  }

  /** A picture may have held anywhere strictly between `i` and `j`: no frame in between differs. */
  ghost predicate PossibleHold(obs: seq<Timed>, i: int, j: int) {
    -1 <= i < j <= |obs| && Uniform(obs, i + 1, j - 1)
  }

  ghost predicate LongestSeen(obs: seq<Timed>, lower: real) {
    && (forall i, j {:trigger SeenHold(obs, i, j)} :: SeenHold(obs, i, j) ==> obs[j].t - obs[i].t <= lower)
    && (exists i, j {:trigger SeenHold(obs, i, j)} :: SeenHold(obs, i, j) && obs[j].t - obs[i].t == lower)
  }

  ghost predicate LongestPossible(obs: seq<Timed>, w: Window, upper: real) {
    && (forall i, j {:trigger PossibleHold(obs, i, j)} :: PossibleHold(obs, i, j) ==>
          TimeOf(obs, w, j) - TimeOf(obs, w, i) <= upper)
    && (exists i, j {:trigger PossibleHold(obs, i, j)} ::
          PossibleHold(obs, i, j) && TimeOf(obs, w, j) - TimeOf(obs, w, i) == upper)
  }

  /** Samples `i` to `j` show one picture, and it is known. */
  ghost predicate SeenKnown(obs: seq<Timed>, i: int, j: int) { SeenHold(obs, i, j) && KnownFrame(obs[i].frame) }

  /** A run: samples `i` up to `j` show one known picture, the ones before and after it do not. */
  ghost predicate IsRun(obs: seq<Timed>, i: int, j: int) {
    && 0 <= i < j <= |obs| && Uniform(obs, i, j - 1) && KnownFrame(obs[i].frame)
    && (i > 0 ==> obs[i - 1].frame != obs[i].frame) && (j < |obs| ==> obs[j].frame != obs[i].frame)
  }

  /** A run is closed by a known sample; an unknown one just breaks it off. */
  ghost predicate IsClosedRun(obs: seq<Timed>, i: int, j: int) {
    IsRun(obs, i, j) && j < |obs| && KnownFrame(obs[j].frame)
  }

  /** The picture of a run cannot have begun before the known sample ahead of it, or before the window. */
  ghost function BeganAfter(obs: seq<Timed>, w: Window, i: int): real
    requires 0 <= i < |obs|
  {
    if i > 0 && KnownFrame(obs[i - 1].frame) then obs[i - 1].t else w.start
  }

  /** `lower` is the longest stretch over which one known picture was seen. */
  ghost predicate LongestKnown(obs: seq<Timed>, lower: real) {
    && (forall i, j {:trigger SeenKnown(obs, i, j)} :: SeenKnown(obs, i, j) ==> obs[j].t - obs[i].t <= lower)
    && if exists k :: 0 <= k < |obs| && KnownFrame(obs[k].frame)
       then exists i, j {:trigger SeenKnown(obs, i, j)} :: SeenKnown(obs, i, j) && obs[j].t - obs[i].t == lower
       else lower == 0.0
  }

  /** `upper` is the longest that the picture of a closed run can have been up. */
  ghost predicate LongestClosed(obs: seq<Timed>, w: Window, upper: real) {
    && (forall i, j {:trigger IsClosedRun(obs, i, j)} :: IsClosedRun(obs, i, j) ==>
          obs[j].t - BeganAfter(obs, w, i) <= upper)
    && (upper == 0.0 || exists i, j {:trigger IsClosedRun(obs, i, j)} ::
          IsClosedRun(obs, i, j) && obs[j].t - BeganAfter(obs, w, i) == upper)
    && upper >= 0.0
  }

  /** A run counts when it is closed or lasts to the end of the window. */
  ghost predicate Counts(obs: seq<Timed>, i: int, j: int) { IsClosedRun(obs, i, j) || (IsRun(obs, i, j) && j == |obs|) }

  /** `upper` is the longest that the picture of a closed run, or of the last one, can have been up. */
  ghost predicate LongestRun(obs: seq<Timed>, w: Window, upper: real) {
    && (forall i, j {:trigger Counts(obs, i, j)} :: Counts(obs, i, j) ==>
          TimeOf(obs, w, j) - BeganAfter(obs, w, i) <= upper)
    && if exists i, j :: Counts(obs, i, j)
       then exists i, j {:trigger Counts(obs, i, j)} ::
              Counts(obs, i, j) && TimeOf(obs, w, j) - BeganAfter(obs, w, i) == upper
       else upper == 0.0
  }

  function Max(x: real, y: real): real { if x >= y then x else y }

  lemma {:induction false} SameSeen(obs: seq<Timed>, s: Timed, i: int, j: int)
    requires j < |obs|
    ensures SeenKnown(obs, i, j) <==> SeenKnown(obs + [s], i, j)
  {
    var all := obs + [s];
    if 0 <= i <= j {
      assert forall k :: i <= k <= j ==> all[k] == obs[k];
    }
  }

  lemma {:induction false} SameRun(obs: seq<Timed>, s: Timed, i: int, j: int)
    requires j < |obs|
    ensures IsClosedRun(obs, i, j) <==> IsClosedRun(obs + [s], i, j)
  {
    var all := obs + [s];
    if 0 <= i < j {
      assert forall k :: 0 <= k <= j ==> all[k] == obs[k];
    }
  }

  /** A run that reaches the last sample begins where that sample's picture does. */
  lemma {:induction false} OneLastRun(obs: seq<Timed>, first: int, i: int)
    requires IsRun(obs, first, |obs|) && 0 <= i < |obs| && Uniform(obs, i, |obs| - 1)
    ensures first <= i && (i > 0 && obs[i - 1].frame != obs[i].frame ==> i == first)
  {
    assert obs[|obs| - 1].frame == obs[i].frame && obs[|obs| - 1].frame == obs[first].frame;
  }

  lemma {:induction false} NoStretchAcross(obs: seq<Timed>, i: int, j: int)
    requires 0 < j < |obs| && obs[j].frame != obs[j - 1].frame
    ensures i < j ==> !SeenHold(obs, i, j)
  {
  }

  lemma {:induction false} NoRunEnds(obs: seq<Timed>, i: int, j: int)
    requires 0 < j <= |obs| ==> !KnownFrame(obs[j - 1].frame) || (j < |obs| && obs[j].frame == obs[j - 1].frame)
    ensures !IsRun(obs, i, j)
  {
  }

  /** What the loop's variables hold about the run that is open. */
  ghost predicate Tail(obs: seq<Timed>, runFirst: Option<Timed>, runBefore: Option<Timed>, first: int) {
    if obs == [] || !KnownFrame(obs[|obs| - 1].frame) then runFirst.None? && runBefore.None?
    else
      && IsRun(obs, first, |obs|) && runFirst == Some(obs[first])
      && runBefore == (if first > 0 && KnownFrame(obs[first - 1].frame) then Some(obs[first - 1]) else None)
  }

  // Stretches and runs after one more sample.

  lemma {:induction false} LowerNotNegative(obs: seq<Timed>, lower: real)
    requires LongestKnown(obs, lower) && Increasing(obs)
    ensures lower >= 0.0
  {
    if exists k :: 0 <= k < |obs| && KnownFrame(obs[k].frame) {
      var i, j :| SeenKnown(obs, i, j) && obs[j].t - obs[i].t == lower;
    }
  }

  /** `grown` is the longest stretch once each new one, ending at the new sample, has been measured. */
  lemma {:induction false} LowerAdvances(obs: seq<Timed>, s: Timed, lower: real, grown: real)
    requires LongestKnown(obs, lower) && Increasing(obs + [s]) && lower <= grown
    requires forall i :: SeenKnown(obs + [s], i, |obs|) ==> s.t - (obs + [s])[i].t <= grown
    requires grown > lower ==> exists i :: SeenKnown(obs + [s], i, |obs|) && s.t - (obs + [s])[i].t == grown
    ensures LongestKnown(obs + [s], grown)
  {
    var all, n := obs + [s], |obs|;
    forall i, j | SeenKnown(all, i, j)
      ensures all[j].t - all[i].t <= grown
    {
      if j < n { SameSeen(obs, s, i, j); }
    }
    if exists k :: 0 <= k < |all| && KnownFrame(all[k].frame) {
      var k :| 0 <= k < |all| && KnownFrame(all[k].frame);
      if grown == lower {
        if exists k :: 0 <= k < n && KnownFrame(obs[k].frame) {
          var i, j :| SeenKnown(obs, i, j) && obs[j].t - obs[i].t == lower;
          SameSeen(obs, s, i, j);
        } else {
          assert SeenKnown(all, n, n);
        }
      }
    }
    if grown > lower {
      var i :| SeenKnown(all, i, n) && s.t - all[i].t == grown;
      assert 0 <= i < |all| && KnownFrame(all[i].frame);
    } else if exists k :: 0 <= k < n && KnownFrame(obs[k].frame) {
      var k :| 0 <= k < n && KnownFrame(obs[k].frame);
      assert all[k] == obs[k];
    }
  }

  /** `grown` is the longest closed run once the one the new sample closes, if any, has been measured. */
  lemma {:induction false} UpperAdvances(obs: seq<Timed>, s: Timed, w: Window, upper: real, grown: real)
    requires LongestClosed(obs, w, upper) && upper <= grown
    requires forall i :: IsClosedRun(obs + [s], i, |obs|) ==> s.t - BeganAfter(obs + [s], w, i) <= grown
    requires grown > upper ==>
      exists i :: IsClosedRun(obs + [s], i, |obs|) && s.t - BeganAfter(obs + [s], w, i) == grown
    ensures LongestClosed(obs + [s], w, grown)
  {
    var all, n := obs + [s], |obs|;
    forall i, j | IsClosedRun(all, i, j)
      ensures all[j].t - BeganAfter(all, w, i) <= grown
    {
      if j < n {
        SameRun(obs, s, i, j);
        assert BeganAfter(all, w, i) == BeganAfter(obs, w, i);
      }
    }
    if grown == upper && upper != 0.0 {
      var i, j :| IsClosedRun(obs, i, j) && obs[j].t - BeganAfter(obs, w, i) == upper;
      SameRun(obs, s, i, j);
      assert all[j].t - BeganAfter(all, w, i) == upper;
    }
    if grown > upper {
      var i :| IsClosedRun(all, i, n) && s.t - BeganAfter(all, w, i) == grown;
      assert all[n] == s;
    }
  }

  // ----- the estimator -----

  /** The loop's variables. */
  datatype Scan = Scan(report: Report, previous: Option<Timed>, runFirst: Option<Timed>, runBefore: Option<Timed>,
                       lastAt: Option<real>)

  const START := Scan(Report(true, 0, 0, 0, 0, 0, 0.0, 0.0), None, None, None, None)

  /** The scan after one more sample. */
  ghost function Step(scan: Scan, sample: Sample, w: Window): Scan {
    var r := scan.report;
    if Rejected(sample, scan.lastAt) then
      scan.(report := r.(complete := false, captureGaps := r.captureGaps + 1))
    else
      var s := Timed(sample.at.value, sample.frame);
      if s.t < w.start || s.t > w.end then scan.(lastAt := Some(s.t)) else Arrive(scan, s, w)
  }

  /** The scan after a sample in the window. */
  ghost function Arrive(scan: Scan, s: Timed, w: Window): Scan {
    var r := scan.report;
    if !KnownFrame(s.frame) then Scan(CountUnknownSample(r), None, None, None, Some(s.t))
    else if scan.previous.None? then Scan(CountFirst(r, s, w), Some(s), Some(s), scan.runBefore, Some(s.t))
    else Follow(scan, scan.previous.value, s, w)
  }

  ghost function CountUnknownSample(r: Report): Report {
    r.(samples := r.samples + 1, unknownSamples := r.unknownSamples + 1, complete := false)
  }

  ghost function CountFirst(r: Report, s: Timed, w: Window): Report {
    r.(samples := r.samples + 1, complete := r.complete && s.t - w.start <= w.gap)
  }

  /** The counters when a known sample follows a known sample. */
  ghost function CountNext(r: Report, previous: Timed, s: Timed, w: Window): Report
    requires KnownFrame(s.frame) && previous.frame.Some?
  {
    var wide := s.t - previous.t > w.gap;
    var step := s.frame.value - previous.frame.value;
    r.(samples := r.samples + 1, captureGaps := r.captureGaps + (if wide then 1 else 0),
       complete := r.complete && !wide,
       backwardFrames := r.backwardFrames + (if step < 0 then 1 else 0),
       skippedCounterValues := r.skippedCounterValues + (if step > 1 then step - 1 else 0))
  }

  ghost function Follow(scan: Scan, previous: Timed, s: Timed, w: Window): Scan
    requires KnownFrame(s.frame)
  {
    if previous.frame.None? || scan.runFirst.None? then scan  // never: a known sample opened the run
    else
      var r := CountNext(scan.report, previous, s, w);
      if s.frame == previous.frame then
        Scan(r.(maximumHoldLower := Max(r.maximumHoldLower, s.t - scan.runFirst.value.t)),
             Some(s), scan.runFirst, scan.runBefore, Some(s.t))
      else
        Scan(r.(maximumHoldUpper := Max(r.maximumHoldUpper, s.t - RunBeganAfter(scan, w))),
             Some(s), Some(s), Some(previous), Some(s.t))
  }

  /** The current picture cannot have begun before this. */
  ghost function RunBeganAfter(scan: Scan, w: Window): real {
    if scan.runBefore.Some? then scan.runBefore.value.t else w.start
  }

  ghost function Run(samples: seq<Sample>, w: Window, n: nat): Scan
    requires n <= |samples|
  {
    if n == 0 then START else Step(Run(samples, w, n - 1), samples[n - 1], w)
  }

  ghost function Conclude(scan: Scan, w: Window): Report {
    var r := scan.report;
    var r' := if scan.previous.None? || w.end - scan.previous.value.t > w.gap then r.(complete := false) else r;
    if scan.runFirst.Some? && scan.previous.Some? then
      r'.(maximumHoldLower := Max(r.maximumHoldLower, scan.previous.value.t - scan.runFirst.value.t),
          maximumHoldUpper := Max(r.maximumHoldUpper, w.end - RunBeganAfter(scan, w)))
    else r'
  }

  /** A known previous sample always comes with the first sample of its run. */
  ghost predicate Coherent(scan: Scan) {
    && (scan.previous.Some? <==> scan.runFirst.Some?)
    && (scan.previous.None? ==> scan.runBefore.None?)
    && (scan.previous.Some? ==> KnownFrame(scan.previous.value.frame))
  }

  lemma {:induction false} RunIsCoherent(samples: seq<Sample>, w: Window, n: nat)
    requires n <= |samples|
    ensures Coherent(Run(samples, w, n))
  {
    if n > 0 {
      RunIsCoherent(samples, w, n - 1);
    }
  }

  /** The report for a window, as a function of the samples. */
  ghost function Analysis(samples: seq<Sample>, w: Window): Report {
    Conclude(Run(samples, w, |samples|), w)
  }

  method AnalyzeFrameClock(samples: seq<Sample>, startMs: Option<real>, endMs: Option<real>,
                           maximumSamplingGapMs: Option<real>)
    returns (r: Result<Report>)
    ensures r.Refused? <==> startMs.None? || endMs.None? || maximumSamplingGapMs.None?
                            || startMs.value >= endMs.value || maximumSamplingGapMs.value <= 0.0
    ensures r.Ok? ==>
      var w := Window(startMs.value, endMs.value, maximumSamplingGapMs.value);
      r.value == Analysis(samples, w)
  {
    if startMs.None? || endMs.None? || startMs.value >= endMs.value
       || maximumSamplingGapMs.None? || maximumSamplingGapMs.value <= 0.0 {
      return Refused;
    }
    var start, end, gap := startMs.value, endMs.value, maximumSamplingGapMs.value;
    ghost var w := Window(start, end, gap);
    var result := Report(true, 0, 0, 0, 0, 0, 0.0, 0.0);
    var previous: Option<Timed>, runFirst: Option<Timed>, runBefore: Option<Timed> := None, None, None;
    var lastAt: Option<real> := None;
    var i := 0;
    while i < |samples|
      invariant i <= |samples|
      invariant Scan(result, previous, runFirst, runBefore, lastAt) == Run(samples, w, i)
    {
      var sample := samples[i];
      RunIsCoherent(samples, w, i);
      i := i + 1;
      if sample.at.None? || (lastAt.Some? && sample.at.value <= lastAt.value) {
        result := result.(complete := false, captureGaps := result.captureGaps + 1);
        continue;
      }
      var at := sample.at.value;
      lastAt := sample.at;
      if at < start || at > end {
        continue;
      }
      result := result.(samples := result.samples + 1);
      if !KnownFrame(sample.frame) {
        result := result.(unknownSamples := result.unknownSamples + 1, complete := false);
        previous, runFirst, runBefore := None, None, None;
        continue;
      }
      var current := Timed(at, sample.frame);
      var frame := sample.frame.value;
      if previous.None? {
        if at - start > gap {
          result := result.(complete := false);
        }
        runFirst, previous := Some(current), Some(current);
        continue;
      }
      if at - previous.value.t > gap {
        result := result.(captureGaps := result.captureGaps + 1, complete := false);
      }
      if frame == previous.value.frame.value {
        result := result.(maximumHoldLower := Max(result.maximumHoldLower, at - runFirst.value.t));
      } else {
        if frame < previous.value.frame.value {
          result := result.(backwardFrames := result.backwardFrames + 1);
        } else if frame > previous.value.frame.value + 1 {
          var skipped := frame - previous.value.frame.value - 1;
          result := result.(skippedCounterValues := result.skippedCounterValues + skipped);
        }
        result := result.(maximumHoldUpper :=
          Max(result.maximumHoldUpper, at - (if runBefore.Some? then runBefore.value.t else start)));
        runBefore, runFirst := previous, Some(current);
      }
      previous := Some(current);
    }
    if previous.None? || end - previous.value.t > gap {
      result := result.(complete := false);
    }
    if runFirst.Some? && previous.Some? {
      result := result.(
        maximumHoldLower := Max(result.maximumHoldLower, previous.value.t - runFirst.value.t),
        maximumHoldUpper := Max(result.maximumHoldUpper, end - (if runBefore.Some? then runBefore.value.t else start)));
    }
    r := Ok(result);
  }

  // ----- what the scan has computed -----

  ghost predicate Counted(rejected: nat, obs: seq<Timed>, w: Window, r: Report) {
    var n := |obs|;
    && r.samples == n
    && r.unknownSamples == CountUnknown(obs, n)
    && r.captureGaps == rejected + WideSteps(obs, w.gap, n)
    && r.backwardFrames == Backward(obs, n)
    && r.skippedCounterValues == Skipped(obs, n)
  }

  ghost predicate CompleteSoFar(rejected: nat, obs: seq<Timed>, w: Window) {
    && rejected == 0
    && AllKnown(obs) && DenseSteps(obs, w.gap)
    && (obs != [] ==> obs[0].t - w.start <= w.gap)
  }

  ghost predicate CountsTrack(rejected: nat, obs: seq<Timed>, w: Window, scan: Scan) {
    && scan.previous == LastKnown(obs)
    && Counted(rejected, obs, w, scan.report)
    && (scan.report.complete <==> CompleteSoFar(rejected, obs, w))
  }

  ghost function LastKnown(obs: seq<Timed>): Option<Timed> {
    if obs == [] || !KnownFrame(obs[|obs| - 1].frame) then None else Some(obs[|obs| - 1])
  }

  /** One more sample in the window. */
  lemma {:induction false} ArriveCounts(rejected: nat, obs: seq<Timed>, s: Timed, w: Window, scan: Scan)
    requires Coherent(scan) && CountsTrack(rejected, obs, w, scan)
    ensures CountsTrack(rejected, obs + [s], w, Arrive(scan, s, w))
  {
    StepCounts(obs, s, w);
    assert LastKnown(obs + [s]) == if KnownFrame(s.frame) then Some(s) else None;
  }

  /** The counters mean what their names say, for every trace. */
  lemma {:induction false} CountsAreExact(samples: seq<Sample>, w: Window, n: nat)
    requires n <= |samples|
    ensures Run(samples, w, n).lastAt == LastAt(samples, n)
    ensures CountsTrack(RejectedCount(samples, n), ObservedIn(samples, w, n), w, Run(samples, w, n))
  {
    if n > 0 {
      CountsAreExact(samples, w, n - 1);
      RunIsCoherent(samples, w, n - 1);
      var x, scan, obs := samples[n - 1], Run(samples, w, n - 1), ObservedIn(samples, w, n - 1);
      if !Rejected(x, scan.lastAt) && w.start <= x.at.value <= w.end {
        ArriveCounts(RejectedCount(samples, n - 1), obs, Timed(x.at.value, x.frame), w, scan);
      }
    }
  }

  ghost predicate Traced(obs: seq<Timed>, w: Window, scan: Scan, first: int) {
    && LongestKnown(obs, scan.report.maximumHoldLower)
    && LongestClosed(obs, w, scan.report.maximumHoldUpper)
    && Tail(obs, scan.runFirst, scan.runBefore, first)
  }

  /** Nothing ends at an unknown sample. */
  lemma {:induction false} UnknownTraced(obs: seq<Timed>, s: Timed, w: Window, lower: real, upper: real)
    requires LongestKnown(obs, lower) && LongestClosed(obs, w, upper) && Increasing(obs + [s]) && !KnownFrame(s.frame)
    ensures LongestKnown(obs + [s], lower) && LongestClosed(obs + [s], w, upper) && Tail(obs + [s], None, None, 0)
  {
    var all, n := obs + [s], |obs|;
    assert all[n] == s;
    assert forall i :: SeenHold(all, i, n) ==> all[n].frame == all[i].frame;
    LowerAdvances(obs, s, lower, lower);
    UpperAdvances(obs, s, w, upper, upper);
  }

  /** A sample that opens a run: after another picture, after an unknown sample, or the first of all. */
  lemma {:induction false} OpeningTraced(obs: seq<Timed>, s: Timed, lower: real)
    requires LongestKnown(obs, lower) && Increasing(obs) && Increasing(obs + [s]) && KnownFrame(s.frame)
    requires obs != [] ==> obs[|obs| - 1].frame != s.frame
    ensures LongestKnown(obs + [s], lower) && IsRun(obs + [s], |obs|, |obs| + 1)
  {
    var all, n := obs + [s], |obs|;
    assert all[n] == s && (n > 0 ==> all[n - 1] == obs[n - 1]);
    LowerNotNegative(obs, lower);
    if n > 0 {
      forall i
        ensures i < n ==> !SeenHold(all, i, n)
      {
        NoStretchAcross(all, i, n);
      }
    }
    LowerAdvances(obs, s, lower, lower);
  }

  lemma {:induction false} FirstTraced(obs: seq<Timed>, s: Timed, w: Window, lower: real, upper: real)
    requires LongestKnown(obs, lower) && LongestClosed(obs, w, upper) && Increasing(obs) && Increasing(obs + [s])
    requires KnownFrame(s.frame) && (obs != [] ==> !KnownFrame(obs[|obs| - 1].frame))
    ensures LongestKnown(obs + [s], lower) && LongestClosed(obs + [s], w, upper)
    ensures Tail(obs + [s], Some(s), None, |obs|)
  {
    var all, n := obs + [s], |obs|;
    OpeningTraced(obs, s, lower);
    assert n > 0 ==> all[n - 1] == obs[n - 1];
    forall i
      ensures !IsRun(all, i, n)
    {
      NoRunEnds(all, i, n);
    }
    UpperAdvances(obs, s, w, upper, upper);
  }

  lemma {:induction false} SameTraced(obs: seq<Timed>, s: Timed, w: Window, lower: real, upper: real, first: int)
    requires LongestKnown(obs, lower) && LongestClosed(obs, w, upper) && IsRun(obs, first, |obs|)
    requires Increasing(obs + [s]) && s.frame == obs[|obs| - 1].frame
    ensures LongestKnown(obs + [s], Max(lower, s.t - obs[first].t)) && LongestClosed(obs + [s], w, upper)
    ensures IsRun(obs + [s], first, |obs| + 1)
  {
    var all, n := obs + [s], |obs|;
    assert all[n] == s && forall k :: 0 <= k < n ==> all[k] == obs[k];
    assert obs[n - 1].frame == obs[first].frame;
    assert SeenKnown(all, first, n);
    forall i | SeenKnown(all, i, n)
      ensures s.t - all[i].t <= Max(lower, s.t - obs[first].t)
    {
      if i < n {
        OneLastRun(obs, first, i);
        assert all[first].t <= all[i].t;
      }
    }
    forall i
      ensures !IsRun(all, i, n)
    {
      NoRunEnds(all, i, n);
    }
    LowerAdvances(obs, s, lower, Max(lower, s.t - obs[first].t));
    UpperAdvances(obs, s, w, upper, upper);
  }

  lemma {:induction false} ChangedTraced(obs: seq<Timed>, s: Timed, w: Window, lower: real, upper: real, first: int)
    requires LongestKnown(obs, lower) && LongestClosed(obs, w, upper) && IsRun(obs, first, |obs|)
    requires Increasing(obs) && Increasing(obs + [s]) && KnownFrame(s.frame) && s.frame != obs[|obs| - 1].frame
    ensures LongestKnown(obs + [s], lower) && IsRun(obs + [s], |obs|, |obs| + 1)
    ensures LongestClosed(obs + [s], w, Max(upper, s.t - BeganAfter(obs, w, first)))
  {
    var all, n := obs + [s], |obs|;
    assert all[n] == s && forall k :: 0 <= k < n ==> all[k] == obs[k];
    OpeningTraced(obs, s, lower);
    var grown := Max(upper, s.t - BeganAfter(obs, w, first));
    assert obs[n - 1].frame == obs[first].frame;
    assert IsClosedRun(all, first, n) && BeganAfter(all, w, first) == BeganAfter(obs, w, first);
    forall i | IsClosedRun(all, i, n)
      ensures s.t - BeganAfter(all, w, i) <= grown
    {
      OneLastRun(obs, first, i);
      if i == 0 { assert first == 0; }
    }
    UpperAdvances(obs, s, w, upper, grown);
  }

  lemma {:induction false} SameTail(obs: seq<Timed>, s: Timed, runFirst: Option<Timed>, runBefore: Option<Timed>,
                                    first: int)
    requires obs != [] && KnownFrame(obs[|obs| - 1].frame) && s.frame == obs[|obs| - 1].frame
    requires Tail(obs, runFirst, runBefore, first) && IsRun(obs + [s], first, |obs| + 1)
    ensures Tail(obs + [s], runFirst, runBefore, first)
  {
    assert forall k :: 0 <= k < |obs| ==> (obs + [s])[k] == obs[k];
  }

  lemma {:induction false} SameFollows(obs: seq<Timed>, s: Timed, w: Window, scan: Scan, first: int)
    requires Traced(obs, w, scan, first) && obs != [] && KnownFrame(obs[|obs| - 1].frame)
    requires Increasing(obs) && Increasing(obs + [s]) && KnownFrame(s.frame) && s.frame == obs[|obs| - 1].frame
    ensures Traced(obs + [s], w, Follow(scan, obs[|obs| - 1], s, w), first) == true
  {
    SameTraced(obs, s, w, scan.report.maximumHoldLower, scan.report.maximumHoldUpper, first);
    SameTail(obs, s, scan.runFirst, scan.runBefore, first);
  }

  lemma {:induction false} ChangedFollows(obs: seq<Timed>, s: Timed, w: Window, scan: Scan, first: int)
    requires Traced(obs, w, scan, first) && obs != [] && KnownFrame(obs[|obs| - 1].frame)
    requires Increasing(obs) && Increasing(obs + [s]) && KnownFrame(s.frame) && s.frame != obs[|obs| - 1].frame
    ensures Traced(obs + [s], w, Follow(scan, obs[|obs| - 1], s, w), |obs|) == true
  {
    TailBegan(obs, w, scan, first);
    ChangedTraced(obs, s, w, scan.report.maximumHoldLower, scan.report.maximumHoldUpper, first);
    ChangedTail(obs, s);
  }

  lemma {:induction false} TailBegan(obs: seq<Timed>, w: Window, scan: Scan, first: int)
    requires obs != [] && KnownFrame(obs[|obs| - 1].frame) && Tail(obs, scan.runFirst, scan.runBefore, first)
    ensures scan.runFirst == Some(obs[first]) && RunBeganAfter(scan, w) == BeganAfter(obs, w, first)
    ensures IsRun(obs, first, |obs|)
  {
  }

  lemma {:induction false} ChangedTail(obs: seq<Timed>, s: Timed)
    requires obs != [] && KnownFrame(obs[|obs| - 1].frame) && IsRun(obs + [s], |obs|, |obs| + 1)
    ensures Tail(obs + [s], Some(s), Some(obs[|obs| - 1]), |obs|)
  {
    assert (obs + [s])[|obs| - 1] == obs[|obs| - 1] && (obs + [s])[|obs|] == s;
  }

  lemma {:induction false} ArriveTraced(obs: seq<Timed>, s: Timed, w: Window, scan: Scan, first: int)
    returns (first': int)
    requires Traced(obs, w, scan, first) && Coherent(scan) && scan.previous == LastKnown(obs)
    requires Increasing(obs) && Increasing(obs + [s])
    ensures Traced(obs + [s], w, Arrive(scan, s, w), first')
  {
    first' := |obs|;
    if !KnownFrame(s.frame) {
      UnknownTraced(obs, s, w, scan.report.maximumHoldLower, scan.report.maximumHoldUpper);
    } else if scan.previous.None? {
      FirstTraced(obs, s, w, scan.report.maximumHoldLower, scan.report.maximumHoldUpper);
    } else {
      if s.frame == obs[|obs| - 1].frame {
        SameFollows(obs, s, w, scan, first);
        first' := first;
      } else {
        ChangedFollows(obs, s, w, scan, first);
      }
    }
  }

  lemma {:induction false} SameTrace(obs: seq<Timed>, w: Window, scan: Scan, scan': Scan, first: int)
    requires Traced(obs, w, scan, first)
    requires scan'.report.maximumHoldLower == scan.report.maximumHoldLower
    requires scan'.report.maximumHoldUpper == scan.report.maximumHoldUpper
    requires scan'.runFirst == scan.runFirst && scan'.runBefore == scan.runBefore
    ensures Traced(obs, w, scan', first)
  {
  }

  /** After any samples, known or not, the scan holds the longest stretch, the longest closed run and the open run. */
  lemma {:induction false} HoldsAreExact(samples: seq<Sample>, w: Window, n: nat) returns (first: int)
    requires n <= |samples|
    ensures Traced(ObservedIn(samples, w, n), w, Run(samples, w, n), first)
  {
    first := 0;
    if n > 0 {
      var x, scan, obs := samples[n - 1], Run(samples, w, n - 1), ObservedIn(samples, w, n - 1);
      CountsAreExact(samples, w, n - 1);
      RunIsCoherent(samples, w, n - 1);
      first := HoldsAreExact(samples, w, n - 1);
      if !Rejected(x, scan.lastAt) && w.start <= x.at.value <= w.end {
        ObservedInOrder(samples, w, n - 1);
        ObservedInOrder(samples, w, n);
        first := ArriveTraced(obs, Timed(x.at.value, x.frame), w, scan, first);
      } else {
        SameTrace(obs, w, scan, Run(samples, w, n), first);
      }
    }
  }

  /** The counters, and the exact condition for `complete`, with no reference to how they were computed. */
  lemma {:induction false} ReportCounts(samples: seq<Sample>, w: Window)
    ensures Counted(RejectedCount(samples, |samples|), Observed(samples, w), w, Analysis(samples, w))
    ensures Analysis(samples, w).complete <==> FullySampled(samples, w)
  {
    CountsAreExact(samples, w, |samples|);
    RunIsCoherent(samples, w, |samples|);
    ConcludeCounts(RejectedCount(samples, |samples|), Observed(samples, w), w, Run(samples, w, |samples|));
  }

  lemma {:induction false} ConcludeCounts(rejected: nat, obs: seq<Timed>, w: Window, scan: Scan)
    requires Coherent(scan) && CountsTrack(rejected, obs, w, scan)
    ensures Counted(rejected, obs, w, Conclude(scan, w))
    ensures Conclude(scan, w).complete <==>
      CompleteSoFar(rejected, obs, w) && obs != [] && w.end - obs[|obs| - 1].t <= w.gap
  {
    if obs != [] && AllKnown(obs) {
      assert KnownFrame(obs[|obs| - 1].frame);
    }
  }

  /**
   * The two bounds, whatever samples are unknown: the longest stretch over which one known picture was seen, and
   * the longest that the picture of a closed or last run can have been up.
   */
  lemma {:induction false} ReportBounds(samples: seq<Sample>, w: Window)
    requires w.start < w.end
    ensures LongestKnown(Observed(samples, w), Analysis(samples, w).maximumHoldLower)
    ensures LongestRun(Observed(samples, w), w, Analysis(samples, w).maximumHoldUpper)
  {
    var n := |samples|;
    CountsAreExact(samples, w, n);
    ObservedInOrder(samples, w, n);
    RunIsCoherent(samples, w, n);
    var first := HoldsAreExact(samples, w, n);
    ConcludeHolds(Observed(samples, w), w, Run(samples, w, n), first);
  }

  lemma {:induction false} ConcludeHolds(obs: seq<Timed>, w: Window, scan: Scan, first: int)
    requires w.start < w.end && InOrder(obs, w) && Traced(obs, w, scan, first)
    requires scan.previous == LastKnown(obs) && Coherent(scan)
    ensures LongestKnown(obs, Conclude(scan, w).maximumHoldLower)
    ensures LongestRun(obs, w, Conclude(scan, w).maximumHoldUpper)
  {
    var lower, upper, n := scan.report.maximumHoldLower, scan.report.maximumHoldUpper, |obs|;
    if scan.previous.None? {
      NoLastRun(obs, w, upper);
    } else {
      TailBegan(obs, w, scan, first);
      LastStretch(obs, lower, first);
      LastRun(obs, w, upper, first);
    }
  }

  lemma {:induction false} LastStretch(obs: seq<Timed>, lower: real, first: int)
    requires LongestKnown(obs, lower) && IsRun(obs, first, |obs|)
    ensures Max(lower, obs[|obs| - 1].t - obs[first].t) == lower
  {
    assert SeenKnown(obs, first, |obs| - 1);
  }

  lemma {:induction false} ClosedCounts(obs: seq<Timed>, w: Window, upper: real)
    requires LongestClosed(obs, w, upper) && upper != 0.0
    ensures exists i, j {:trigger Counts(obs, i, j)} ::
      Counts(obs, i, j) && TimeOf(obs, w, j) - BeganAfter(obs, w, i) == upper
  {
    var i, j :| IsClosedRun(obs, i, j) && obs[j].t - BeganAfter(obs, w, i) == upper;
    assert Counts(obs, i, j) && TimeOf(obs, w, j) == obs[j].t;
  }

  /** A counted run took time. */
  lemma {:induction false} RunsTakeTime(obs: seq<Timed>, w: Window, i: int, j: int)
    requires w.start < w.end && InOrder(obs, w) && Counts(obs, i, j)
    ensures TimeOf(obs, w, j) > BeganAfter(obs, w, i)
  {
    assert w.start <= obs[i].t;
    assert j < |obs| ==> obs[i].t < obs[j].t;
    assert j == |obs| && i > 0 ==> obs[i - 1].t < obs[i].t <= w.end;
  }

  lemma {:induction false} NoLastRun(obs: seq<Timed>, w: Window, upper: real)
    requires w.start < w.end && InOrder(obs, w) && LongestClosed(obs, w, upper) && LastKnown(obs).None?
    ensures LongestRun(obs, w, upper)
  {
    forall i
      ensures !IsRun(obs, i, |obs|)
    {
      NoRunEnds(obs, i, |obs|);
    }
    forall i, j | Counts(obs, i, j)
      ensures 0.0 < TimeOf(obs, w, j) - BeganAfter(obs, w, i) <= upper
    {
      RunsTakeTime(obs, w, i, j);
    }
    if upper != 0.0 { ClosedCounts(obs, w, upper); }
  }

  lemma {:induction false} LastRun(obs: seq<Timed>, w: Window, upper: real, first: int)
    requires w.start < w.end && InOrder(obs, w) && LongestClosed(obs, w, upper) && IsRun(obs, first, |obs|)
    ensures LongestRun(obs, w, Max(upper, w.end - BeganAfter(obs, w, first)))
  {
    assert Counts(obs, first, |obs|);
    forall i, j | Counts(obs, i, j)
      ensures TimeOf(obs, w, j) - BeganAfter(obs, w, i) <= Max(upper, w.end - BeganAfter(obs, w, first))
    {
      if j == |obs| {
        OneLastRun(obs, first, i);
        if i == 0 { assert first == 0; }
      }
    }
    RunsTakeTime(obs, w, first, |obs|);
    if upper > w.end - BeganAfter(obs, w, first) { ClosedCounts(obs, w, upper); }
  }

  // Without unknown samples the bounds are maxima over all stretches.

  lemma {:induction false} RunStart(obs: seq<Timed>, i: int) returns (a: int)
    requires 0 <= i < |obs|
    ensures 0 <= a <= i && Uniform(obs, a, i) && (a > 0 ==> obs[a - 1].frame != obs[a].frame)
    decreases i
  {
    a := i;
    if i > 0 && obs[i - 1].frame == obs[i].frame {
      a := RunStart(obs, i - 1);
      assert obs[i - 1].frame == obs[a].frame;
    }
  }

  lemma {:induction false} RunEnd(obs: seq<Timed>, j: int) returns (b: int)
    requires 0 <= j < |obs|
    ensures j < b <= |obs| && Uniform(obs, j, b - 1) && (b < |obs| ==> obs[b].frame != obs[j].frame)
    decreases |obs| - j
  {
    b := j + 1;
    if b < |obs| && obs[b].frame == obs[j].frame {
      b := RunEnd(obs, j + 1);
      assert forall k :: j + 1 <= k <= b - 1 ==> obs[k].frame == obs[j + 1].frame;
    }
  }

  /** The run around a stretch of one picture. */
  lemma {:induction false} RunAround(obs: seq<Timed>, i: int, j: int) returns (a: int, b: int)
    requires AllKnown(obs) && SeenHold(obs, i, j)
    ensures Counts(obs, a, b) && a <= i && j < b
  {
    a := RunStart(obs, i);
    b := RunEnd(obs, j);
    assert obs[j].frame == obs[i].frame == obs[a].frame;
    forall k | a <= k <= b - 1
      ensures obs[k].frame == obs[a].frame
    {
      if k <= i { assert obs[k].frame == obs[a].frame; }
      else if k <= j { assert obs[k].frame == obs[i].frame; }
      else { assert obs[k].frame == obs[j].frame; }
    }
    assert KnownFrame(obs[a].frame);
    assert b < |obs| ==> KnownFrame(obs[b].frame);
  }

  lemma {:induction false} KnownBounds(samples: seq<Sample>, w: Window)
    requires w.start < w.end && Observed(samples, w) != [] && AllKnown(Observed(samples, w))
    ensures LongestSeen(Observed(samples, w), Analysis(samples, w).maximumHoldLower)
    ensures LongestPossible(Observed(samples, w), w, Analysis(samples, w).maximumHoldUpper)
  {
    ReportBounds(samples, w);
    ObservedInOrder(samples, w, |samples|);
    KnownLower(Observed(samples, w), Analysis(samples, w).maximumHoldLower);
    KnownUpper(Observed(samples, w), w, Analysis(samples, w).maximumHoldUpper);
  }

  lemma {:induction false} KnownLower(obs: seq<Timed>, lower: real)
    requires obs != [] && AllKnown(obs) && LongestKnown(obs, lower)
    ensures LongestSeen(obs, lower)
  {
    assert KnownFrame(obs[0].frame);
    forall i, j | SeenHold(obs, i, j)
      ensures obs[j].t - obs[i].t <= lower
    {
      assert SeenKnown(obs, i, j);
    }
    var i, j :| SeenKnown(obs, i, j) && obs[j].t - obs[i].t == lower;
  }

  lemma {:induction false} KnownUpper(obs: seq<Timed>, w: Window, upper: real)
    requires obs != [] && AllKnown(obs) && InOrder(obs, w) && w.start <= w.end && LongestRun(obs, w, upper)
    ensures LongestPossible(obs, w, upper)
  {
    var a, b := RunAround(obs, 0, 0);
    var i, j :| Counts(obs, i, j) && TimeOf(obs, w, j) - BeganAfter(obs, w, i) == upper;
    assert PossibleHold(obs, i - 1, j) && TimeOf(obs, w, i - 1) == BeganAfter(obs, w, i);
    forall i, j | PossibleHold(obs, i, j)
      ensures TimeOf(obs, w, j) - TimeOf(obs, w, i) <= upper
    {
      PossibleInRun(obs, w, upper, i, j);
    }
  }

  /** The run around a stretch in which no two samples differ, however few it has. */
  lemma {:induction false} RunAroundPossible(obs: seq<Timed>, i: int, j: int) returns (a: int, b: int)
    requires obs != [] && AllKnown(obs) && PossibleHold(obs, i, j)
    ensures Counts(obs, a, b) && a - 1 <= i && j <= b
  {
    if i + 1 < j {
      a, b := RunAround(obs, i + 1, j - 1);
    } else {
      var k := if i < 0 then 0 else i;
      a, b := RunAround(obs, k, k);
    }
  }

  lemma {:induction false} TimesGrow(obs: seq<Timed>, w: Window, i: int, j: int)
    requires InOrder(obs, w) && w.start <= w.end && -1 <= i <= j <= |obs|
    ensures TimeOf(obs, w, i) <= TimeOf(obs, w, j)
  {
  }

  lemma {:induction false} PossibleInRun(obs: seq<Timed>, w: Window, upper: real, i: int, j: int)
    requires obs != [] && AllKnown(obs) && InOrder(obs, w) && w.start <= w.end
    requires LongestRun(obs, w, upper) && PossibleHold(obs, i, j)
    ensures TimeOf(obs, w, j) - TimeOf(obs, w, i) <= upper
  {
    var a, b := RunAroundPossible(obs, i, j);
    assert BeganAfter(obs, w, a) == TimeOf(obs, w, a - 1);
    TimesGrow(obs, w, a - 1, i);
    TimesGrow(obs, w, j, b);
  }

  /** How the counters move when one more sample falls in the window. */
  lemma {:induction false} StepCounts(obs: seq<Timed>, x: Timed, w: Window)
    ensures var all := obs + [x]; var n := |obs|; var step := n > 0 && KnownStep(obs[n - 1], x);
      && CountUnknown(all, n + 1) == CountUnknown(obs, n) + (if KnownFrame(x.frame) then 0 else 1)
      && WideSteps(all, w.gap, n + 1) == WideSteps(obs, w.gap, n)
        + (if step && x.t - obs[n - 1].t > w.gap then 1 else 0)
      && Backward(all, n + 1) == Backward(obs, n) + (if step && x.frame.value < obs[n - 1].frame.value then 1 else 0)
      && Skipped(all, n + 1) == Skipped(obs, n) + (if step && x.frame.value > obs[n - 1].frame.value
                                                   then x.frame.value - obs[n - 1].frame.value - 1 else 0)
    ensures AllKnown(obs + [x]) <==> AllKnown(obs) && KnownFrame(x.frame)
    ensures DenseSteps(obs + [x], w.gap) <==> DenseSteps(obs, w.gap) && (obs != [] ==> x.t - obs[|obs| - 1].t <= w.gap)
  {
    PrefixCounts(obs, x, w.gap, |obs|);
    AllKnownGrows(obs, x);
    DenseGrows(obs, x, w.gap);
  }

  lemma {:induction false} PrefixCounts(obs: seq<Timed>, x: Timed, gap: real, n: nat)
    requires n <= |obs|
    ensures CountUnknown(obs + [x], n) == CountUnknown(obs, n)
    ensures WideSteps(obs + [x], gap, n) == WideSteps(obs, gap, n)
    ensures Backward(obs + [x], n) == Backward(obs, n)
    ensures Skipped(obs + [x], n) == Skipped(obs, n)
  {
    if n > 0 {
      PrefixCounts(obs, x, gap, n - 1);
    }
  }

  lemma {:induction false} AllKnownGrows(obs: seq<Timed>, x: Timed)
    ensures AllKnown(obs + [x]) <==> AllKnown(obs) && KnownFrame(x.frame)
  {
    var all := obs + [x];
    if AllKnown(all) {
      assert KnownFrame(all[|obs|].frame);
      forall k | 0 <= k < |obs|
        ensures KnownFrame(obs[k].frame)
      {
        assert KnownFrame(all[k].frame);
      }
    }
  }

  lemma {:induction false} DenseGrows(obs: seq<Timed>, x: Timed, gap: real)
    ensures DenseSteps(obs + [x], gap) <==> DenseSteps(obs, gap) && (obs != [] ==> x.t - obs[|obs| - 1].t <= gap)
  {
    var all := obs + [x];
    if DenseSteps(all, gap) {
      assert obs != [] ==> all[|obs|].t - all[|obs| - 1].t <= gap;
      forall j, k | 0 <= j && k == j + 1 < |obs|
        ensures obs[k].t - obs[j].t <= gap
      {
        assert all[k].t - all[j].t <= gap;
      }
    }
  }

  // ----- what the report says about the picture on screen -----

  ghost predicate ConstantOn(picture: real -> int, a: real, b: real) {
    forall t :: a <= t <= b ==> picture(t) == picture(a)
  }

  ghost predicate NonDecreasingOn(picture: real -> int, a: real, b: real) {
    forall s, t :: a <= s <= t <= b ==> picture(s) <= picture(t)
  }

  ghost predicate Samples(obs: seq<Timed>, picture: real -> int) {
    forall k :: 0 <= k < |obs| ==> obs[k].frame == Some(picture(obs[k].t))
  }

  /** The last sample before `a` and the first after `b`. */
  lemma {:induction false} Straddle(obs: seq<Timed>, w: Window, a: real, b: real) returns (i: int, j: int)
    requires Increasing(obs) && w.start <= a <= b <= w.end
    ensures -1 <= i < j <= |obs|
    ensures TimeOf(obs, w, i) <= a && b <= TimeOf(obs, w, j)
    ensures forall k :: i < k < j ==> a <= obs[k].t <= b
  {
    i := -1;
    while i + 1 < |obs| && obs[i + 1].t < a
      invariant -1 <= i < |obs|
      invariant TimeOf(obs, w, i) <= a
      decreases |obs| - i
    {
      i := i + 1;
    }
    j := i + 1;
    while j < |obs| && obs[j].t <= b
      invariant i < j <= |obs|
      invariant forall k :: i < k < j ==> a <= obs[k].t <= b
    {
      j := j + 1;
    }
  }

  lemma {:induction false} NotTooWide(obs: seq<Timed>, w: Window, lower: real, upper: real)
    requires w.gap > 0.0 && obs != [] && LongestSeen(obs, lower) && LongestPossible(obs, w, upper)
    requires DenseSteps(obs, w.gap) && obs[0].t - w.start <= w.gap && w.end - obs[|obs| - 1].t <= w.gap
    ensures upper - lower <= w.gap + w.gap
  {
    var i, j :| PossibleHold(obs, i, j) && TimeOf(obs, w, j) - TimeOf(obs, w, i) == upper;
    NeighbourGap(obs, w, i);
    NeighbourGap(obs, w, j - 1);
    InnerHold(obs, lower, i, j);
  }

  lemma {:induction false} InnerHold(obs: seq<Timed>, lower: real, i: int, j: int)
    requires obs != [] && LongestSeen(obs, lower) && PossibleHold(obs, i, j)
    ensures lower >= 0.0
    ensures i + 1 < j ==> obs[j - 1].t - obs[i + 1].t <= lower
  {
    assert SeenHold(obs, 0, 0);
    if i + 1 < j {
      assert SeenHold(obs, i + 1, j - 1);
    }
  }

  lemma {:induction false} NotInverted(obs: seq<Timed>, w: Window, lower: real, upper: real)
    requires Increasing(obs) && LongestSeen(obs, lower) && LongestPossible(obs, w, upper)
    requires forall k :: 0 <= k < |obs| ==> w.start <= obs[k].t <= w.end
    ensures lower <= upper
  {
    var p, q :| SeenHold(obs, p, q) && obs[q].t - obs[p].t == lower;
    assert PossibleHold(obs, p - 1, q + 1);
  }

  lemma {:induction false} NeighbourGap(obs: seq<Timed>, w: Window, i: int)
    requires obs != [] && DenseSteps(obs, w.gap) && obs[0].t - w.start <= w.gap && w.end - obs[|obs| - 1].t <= w.gap
    requires -1 <= i < |obs|
    ensures TimeOf(obs, w, i + 1) - TimeOf(obs, w, i) <= w.gap
  {
  }

  /** No picture held longer than the reported upper bound, however it moved between samples. */
  lemma {:induction false} EveryHoldIsBounded(samples: seq<Sample>, w: Window, picture: real -> int, a: real, b: real)
    requires w.start < w.end && Analysis(samples, w).complete && Samples(Observed(samples, w), picture)
    requires w.start <= a <= b <= w.end && ConstantOn(picture, a, b)
    ensures b - a <= Analysis(samples, w).maximumHoldUpper
  {
    ReportCounts(samples, w);
    KnownBounds(samples, w);
    ObservedInOrder(samples, w, |samples|);
    HoldWithin(Observed(samples, w), w, Analysis(samples, w).maximumHoldUpper, picture, a, b);
  }

  lemma {:induction false} HoldWithin(obs: seq<Timed>, w: Window, upper: real, picture: real -> int, a: real, b: real)
    requires Increasing(obs) && obs != [] && LongestPossible(obs, w, upper) && Samples(obs, picture)
    requires w.start <= a <= b <= w.end && ConstantOn(picture, a, b)
    ensures b - a <= upper
  {
    var i, j := Straddle(obs, w, a, b);
    forall k | i + 1 <= k <= j - 1
      ensures obs[k].frame == obs[i + 1].frame
    {
      assert picture(obs[k].t) == picture(a) == picture(obs[i + 1].t);
    }
    assert PossibleHold(obs, i, j);
  }

  /** A clock that never goes back held some picture for the reported lower bound. */
  lemma {:induction false} SomeHoldReachesLower(samples: seq<Sample>, w: Window, picture: real -> int)
    returns (a: real, b: real)
    requires w.start < w.end && Analysis(samples, w).complete && Samples(Observed(samples, w), picture)
    requires NonDecreasingOn(picture, w.start, w.end)
    ensures w.start <= a <= b <= w.end && ConstantOn(picture, a, b)
    ensures b - a == Analysis(samples, w).maximumHoldLower
  {
    ReportCounts(samples, w);
    KnownBounds(samples, w);
    ObservedInOrder(samples, w, |samples|);
    a, b := HoldAsSeen(Observed(samples, w), w, Analysis(samples, w).maximumHoldLower, picture);
  }

  lemma {:induction false} HoldAsSeen(obs: seq<Timed>, w: Window, lower: real, picture: real -> int)
    returns (a: real, b: real)
    requires InOrder(obs, w) && LongestSeen(obs, lower) && Samples(obs, picture)
    requires NonDecreasingOn(picture, w.start, w.end)
    ensures w.start <= a <= b <= w.end && ConstantOn(picture, a, b) && b - a == lower
  {
    var i, j :| SeenHold(obs, i, j) && obs[j].t - obs[i].t == lower;
    a, b := obs[i].t, obs[j].t;
    assert obs[j].frame == obs[i].frame;
    forall t | a <= t <= b
      ensures picture(t) == picture(a)
    {
      assert picture(a) <= picture(t) <= picture(b);
    }
  }

  /** The bracket is never wider than two sampling gaps. */
  lemma {:induction false} BracketWidth(samples: seq<Sample>, w: Window)
    requires w.start < w.end && w.gap > 0.0 && Analysis(samples, w).complete
    ensures 0.0 <= Analysis(samples, w).maximumHoldUpper - Analysis(samples, w).maximumHoldLower <= w.gap + w.gap
  {
    var r, obs := Analysis(samples, w), Observed(samples, w);
    ReportCounts(samples, w);
    KnownBounds(samples, w);
    ObservedInOrder(samples, w, |samples|);
    NotTooWide(obs, w, r.maximumHoldLower, r.maximumHoldUpper);
    NotInverted(obs, w, r.maximumHoldLower, r.maximumHoldUpper);
  }

  /** Without backward frames the counter's advance is the changes seen plus the values skipped. */
  lemma {:induction false} AdvanceIsChangesPlusSkipped(samples: seq<Sample>, w: Window)
    requires Analysis(samples, w).complete && Analysis(samples, w).backwardFrames == 0
    ensures var obs := Observed(samples, w);
      && obs != [] && obs[0].frame.Some? && obs[|obs| - 1].frame.Some?
      && obs[|obs| - 1].frame.value - obs[0].frame.value
         == Changes(obs, |obs|) + Analysis(samples, w).skippedCounterValues
  {
    ReportCounts(samples, w);
    var obs := Observed(samples, w);
    assert KnownFrame(obs[0].frame) && KnownFrame(obs[|obs| - 1].frame);
    PrefixAdvance(obs, |obs|);
  }

  lemma {:induction false} PrefixAdvance(obs: seq<Timed>, n: nat)
    requires 1 <= n <= |obs| && AllKnown(obs) && Backward(obs, n) == 0
    ensures obs[n - 1].frame.value - obs[0].frame.value == Changes(obs, n) + Skipped(obs, n)
  {
    if n > 1 {
      PrefixAdvance(obs, n - 1);
    }
  }
}
