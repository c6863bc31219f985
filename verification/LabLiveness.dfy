// That launch, export and purge can run to their ends.
module LabLiveness {
  import opened Wrappers
  import opened LabHost
  import opened LabProtocol
  import opened LabSafety
  import opened LabCompletion

  // ----- one call and the write after it -----

  /** A launch at `pc` with a row and a host for that node, and nothing in the way of a write. */
  ghost predicate Launch(s: State, pc: Pc) {
    && s.controller.Some? && !s.leftover
    && var c := s.controller.value;
      c.kind.ForLaunch? && !c.failed && c.pc == pc && |c.memory.nodes| == |s.hosts|
  }

  function Memory(s: State): seq<Node>
    requires s.controller.Some?
  {
    s.controller.value.memory.nodes
  }

  lemma {:induction false} LaunchPair(s: State, pc: Pc, action: Action, next: Pc)
    requires Launch(s, pc) && CallAt(ForLaunch, pc) == Some(action) && pc.i < |s.hosts|
    requires Act(action, Memory(s)[pc.i], s.hosts[pc.i], SMOOTH).reply.Some?
    requires forall m: Manifest :: |m.nodes| == |s.hosts| ==> AfterSave(ForLaunch, m, PendingSave(pc)) == Some(next)
    ensures var s', o := Run(s, PAIR), Act(action, Memory(s)[pc.i], s.hosts[pc.i], SMOOTH);
      && Launch(s', next) && s'.hosts == s.hosts[pc.i := o.host]
      && Memory(s') == Memory(s)[pc.i := o.reply.value]
  {
    TwoSteps(s, Call(SMOOTH), Save(Saved));
    var s1 := Next(s, Call(SMOOTH));
    assert s1.controller.value.pc == PendingSave(pc) && |Memory(s1)| == |s.hosts|;
  }

  // ----- launch -----

  /** What a node is like when a smooth launch is about to send it `step`. */
  predicate Due(step: Action, n: Node, h: Host) {
    && n.image.Some? && LaunchStep(step)
    && (step.Claim? ==> h == FRESH_HOST)
    && (step.MakeNetwork? ==> h.root == Owned && h.network.None? && h.container.None? && !h.files)
    && (step.Create? ==> Networked(n, h) && h.container.None? && !h.files)
    && (step.Start? ==> InPlace(n, h))
  }

  function StepAfter(step: Action): Action {
    match step
    case Claim => MakeNetwork
    case MakeNetwork => Create
    case _ => Start
  }

  lemma {:induction false} DueReplies(step: Action, n: Node, h: Host)
    requires Due(step, n, h)
    ensures var o := Act(step, n, h, SMOOTH);
      o.reply.Some? && (!step.Start? ==> Due(StepAfter(step), o.reply.value, o.host))
  {
  }

  ghost predicate AtStep(s: State, i: nat, step: Action) {
    && Launch(s, Build(i, step)) && i < |s.hosts| && Due(step, Memory(s)[i], s.hosts[i])
    && forall j :: i < j < |s.hosts| ==> Due(Claim, Memory(s)[j], s.hosts[j])
  }

  function StepsLeft(step: Action): nat {
    match step
    case Claim => 3
    case MakeNetwork => 2
    case Create => 1
    case _ => 0
  }

  /** Where a smooth launch of `n` nodes goes after `step` on node `i`. */
  function AfterStep(n: nat, i: nat, step: Action): Pc {
    if !step.Start? then Build(i, StepAfter(step)) else if i + 1 < n then Build(i + 1, Claim) else Finish
  }

  ghost predicate Onward(s: State, pc: Pc) {
    if pc.Build? then AtStep(s, pc.i, pc.step) else pc.Finish? && Launch(s, Finish)
  }

  lemma {:induction false} BuildOn(s: State, i: nat, step: Action)
    requires AtStep(s, i, step)
    ensures |Run(s, PAIR).hosts| == |s.hosts| && Onward(Run(s, PAIR), AfterStep(|s.hosts|, i, step))
  {
    DueReplies(step, Memory(s)[i], s.hosts[i]);
    LaunchPair(s, Build(i, step), step, AfterStep(|s.hosts|, i, step));
    var s' := Run(s, PAIR);
    assert forall j :: 0 <= j < |s.hosts| && j != i ==> s'.hosts[j] == s.hosts[j] && Memory(s')[j] == Memory(s)[j];
  }

  lemma {:induction false} BuildToFinish(s: State, i: nat, step: Action) returns (events: seq<Event>)
    requires AtStep(s, i, step) == true
    ensures OneController(events) && Launch(Run(s, events), Finish) == true
    decreases |s.hosts| - i, StepsLeft(step)
  {
    BuildOn(s, i, step);
    var rest, next := [], AfterStep(|s.hosts|, i, step);
    if next.Build? {
      BuildIsCloser(s, i, step);
      rest := BuildToFinish(Run(s, PAIR), next.i, next.step);
    }
    RunAppend(s, PAIR, rest);
    events := PAIR + rest;
  }

  lemma {:induction false} BuildIsCloser(s: State, i: nat, step: Action)
    requires AtStep(s, i, step)
    ensures i < |s.hosts|
    ensures var next := AfterStep(|s.hosts|, i, step);
      next.Build? ==> i < next.i || (next.i == i && StepsLeft(next.step) < StepsLeft(step))
  {
  }

  ghost predicate AtBaseline(s: State, i: nat) {
    && Launch(s, Baseline(i)) && i < |s.hosts| && (forall j :: 0 <= j < |s.hosts| ==> s.hosts[j] == FRESH_HOST)
    && forall j :: 0 <= j < i ==> Memory(s)[j].image.Some?
  }

  ghost predicate AtAnnounce(s: State) {
    && Launch(s, Announce) && (forall j :: 0 <= j < |s.hosts| ==> s.hosts[j] == FRESH_HOST)
    && forall j :: 0 <= j < |s.hosts| ==> Memory(s)[j].image.Some?
  }

  lemma {:induction false} BaselinesToAnnounce(s: State, i: nat) returns (events: seq<Event>)
    requires AtBaseline(s, i)
    ensures OneController(events) && AtAnnounce(Run(s, events))
    decreases |s.hosts| - i
  {
    var next := if i + 1 < |s.hosts| then Baseline(i + 1) else Announce;
    LaunchPair(s, Baseline(i), Preflight, next);
    var s' := Run(s, PAIR);
    var rest := [];
    if i + 1 < |s.hosts| {
      assert AtBaseline(s', i + 1);
      rest := BaselinesToAnnounce(s', i + 1);
    }
    RunAppend(s, PAIR, rest);
    events := PAIR + rest;
  }

  lemma {:induction false} OneStep(s: State, e: Event)
    ensures Run(s, [e]) == Next(s, e)
  {
    assert [e][1..] == [];
    assert Run(Next(s, e), []) == Next(s, e);
  }

  lemma {:induction false} FreshIsDue(n: Node)
    requires n.image.Some?
    ensures Due(Claim, n, FRESH_HOST)
  {
  }

  /** The tail of a launch, from the announcement on. */
  lemma {:induction false} AnnounceToLaunched(s: State) returns (events: seq<Event>)
    requires AtAnnounce(s)
    ensures OneController(events) && Run(s, events).disk.phase == Launched
  {
    var s1 := Next(s, Save(Saved));
    OneStep(s, Save(Saved));
    var rest := [];
    if |s.hosts| > 0 {
      forall j | 0 <= j < |s.hosts|
        ensures Due(Claim, Memory(s1)[j], s1.hosts[j])
      {
        FreshIsDue(Memory(s)[j]);
      }
      assert AtStep(s1, 0, Claim);
      rest := BuildToFinish(s1, 0, Claim);
    }
    var s2 := Run(s1, rest);
    OneStep(s2, Save(Saved));
    RunAppend(s1, rest, [Save(Saved)]);
    RunAppend(s, [Save(Saved)], rest + [Save(Saved)]);
    events := [Save(Saved)] + (rest + [Save(Saved)]);
  }

  /** A lab of any size can be launched. */
  lemma {:induction false} LaunchCanFinish(n: nat) returns (events: seq<Event>)
    ensures OneController(events) && Run(Next(PlannedLab(n), Begin(ForLaunch)), events).disk.phase == Launched
  {
    var s := Next(PlannedLab(n), Begin(ForLaunch));
    var s1 := Next(s, Save(Saved));
    OneStep(s, Save(Saved));
    var base := [];
    if n > 0 {
      assert AtBaseline(s1, 0);
      base := BaselinesToAnnounce(s1, 0);
    } else {
      assert AtAnnounce(s1);
    }
    var rest := AnnounceToLaunched(Run(s1, base));
    RunAppend(s1, base, rest);
    RunAppend(s, [Save(Saved)], base + rest);
    events := [Save(Saved)] + (base + rest);
  }

  // ----- export and purge -----

  /** The sweep passes this node by, or its action on it succeeds. */
  predicate Treatable(kind: Kind, n: Node, h: Host) { n.purged || Act(ActionOf(kind), n, h, SMOOTH).reply.Some? }

  ghost predicate Passing(s: State, kind: Kind, i: nat) {
    && s.controller.Some? && !s.leftover
    && var c := s.controller.value;
      && c.kind == kind && !c.failed && c.pc == Visit(i) && |c.memory.nodes| == |s.hosts| && i <= |s.hosts|
      && (forall j :: i <= j < |s.hosts| ==> Treatable(kind, c.memory.nodes[j], s.hosts[j]))
  }

  lemma {:induction false} PassToClose(s: State, kind: Kind, i: nat) returns (events: seq<Event>)
    requires (kind.ForExport? || kind.ForPurge?) && Passing(s, kind, i)
    ensures OneController(events)
    ensures Run(s, events).disk.phase == PhaseAfter(kind)
    decreases |s.hosts| - i
  {
    var c := s.controller.value;
    var s1 := Next(s, Turn);
    OneStep(s, Turn);
    if i == |s.hosts| {
      OneStep(s1, Save(Saved));
      RunAppend(s, [Turn], [Save(Saved)]);
      events := [Turn] + [Save(Saved)];
    } else if c.memory.nodes[i].purged {
      assert Passing(s1, kind, i + 1);
      var rest := PassToClose(s1, kind, i + 1);
      RunAppend(s, [Turn], rest);
      events := [Turn] + rest;
    } else {
      var c1 := s1.controller.value;
      var o := Act(ActionOf(kind), c.memory.nodes[i], s.hosts[i], SMOOTH);
      CallAndSave(s1, c1, o);
      assert Passing(Advanced(s1, c1, o), kind, i + 1);
      var rest := PassToClose(Run(s1, PAIR), kind, i + 1);
      RunAppend(s1, PAIR, rest);
      RunAppend(s, [Turn], PAIR + rest);
      events := [Turn] + (PAIR + rest);
    }
  }

  /** Export and purge can finish when no leftover file blocks the manifest and each node lets its action through. */
  lemma {:induction false} SweepCanFinish(s: State, kind: Kind) returns (events: seq<Event>)
    requires (kind.ForExport? || kind.ForPurge?) && s.controller.None? && !s.leftover && |s.disk.nodes| == |s.hosts|
    requires forall i :: 0 <= i < |s.hosts| ==> Treatable(kind, s.disk.nodes[i], s.hosts[i])
    ensures OneController(events) && Run(Next(s, Begin(kind)), events).disk.phase == PhaseAfter(kind)
  {
    var begun := Next(s, Begin(kind));
    var ready := Next(begun, Save(Saved));
    OneStep(begun, Save(Saved));
    assert Passing(ready, kind, 0);
    var rest := PassToClose(ready, kind, 0);
    RunAppend(begun, [Save(Saved)], rest);
    events := [Save(Saved)] + rest;
  }
}
