// What the lab protocol guarantees over whole runs.
module LabSafety {
  import opened Wrappers
  import opened LabHost
  import opened LabProtocol

  // ----- safety -----

  lemma {:induction false} RunKeepsInv(s: State, events: seq<Event>)
    requires Inv(s) && Faithful(events)
    ensures Inv(Run(s, events))
    decreases |events|
  {
    if events != [] {
      assert FaithfulEvent(events[0]);
      NextKeepsInv(s, events[0]);
      assert forall k :: 0 <= k < |events| - 1 ==> events[1..][k] == events[k + 1];
      RunKeepsInv(Next(s, events[0]), events[1..]);
    }
  }

  /**
   * Over every run of launch, cleanup, export and purge, with crashes, lost replies and failed writes
   * between any two effects: an owned container has its network and a network its claimed root; a
   * settled phase means no node holds either; nothing that was claimed is lost; and the manifest on
   * disk is always one the controller would load again.
   */
  lemma {:induction false} EveryRunIsSafe(n: nat, events: seq<Event>)
    requires Faithful(events)
    ensures var s := Run(PlannedLab(n), events);
      && |s.hosts| == |s.disk.nodes|
      && (forall i :: 0 <= i < |s.hosts| ==>
            var h, row := s.hosts[i], s.disk.nodes[i];
            && (h.container.Some? ==> h.network.Some?)
            && (h.network.Some? ==> h.root == Owned)
            && (Settled(s.disk.phase) ==> h.network.None? && h.container.None?)
            && (h.everOwned ==> (h.root == Owned && h.intact) || (row.exported.Some? && h.archive == row.exported))
            && (row.container.Some? ==> row.image.Some?))
  {
    var s0 := PlannedLab(n);
    assert Inv(s0);
    RunKeepsInv(s0, events);
    var s := Run(s0, events);
    forall i | 0 <= i < |s.hosts|
      ensures DiskRow(s.disk.nodes[i], s.hosts[i])
    {
    }
  }

  /** Only a call changes a host, and only the one it is sent to. */
  lemma {:induction false} HostsChangeByCallsOnly(s: State, e: Event, i: nat)
    requires i < |s.hosts|
    ensures Next(s, e).hosts[i] == s.hosts[i] || (
      && s.controller.Some? && e.Call?
      && var c := s.controller.value;
        && CallAt(c.kind, c.pc).Some? && c.pc.i == i < |c.memory.nodes|
        && Next(s, e).hosts[i] == Act(CallAt(c.kind, c.pc).value, c.memory.nodes[i], s.hosts[i], e.chance).host)
  {
  }

  /** A claimed root is only ever harmed while the host holds the export the manifest on disk records. */
  lemma {:induction false} RootIsHarmedOnlyUnderExport(s: State, e: Event, i: nat)
    requires Inv(s) && i < |s.hosts| && s.hosts[i].root == Owned && s.hosts[i].intact
    requires Next(s, e).hosts[i].root != Owned || !Next(s, e).hosts[i].intact
    ensures s.disk.nodes[i].exported.Some? && s.hosts[i].archive == s.disk.nodes[i].exported
    ensures Next(s, e).hosts[i].archive == s.hosts[i].archive
  {
    HostsChangeByCallsOnly(s, e, i);
    var c := s.controller.value;
    OnlyPurgeHarms(CallAt(c.kind, c.pc).value, c.memory.nodes[i], s.hosts[i], e.chance);
    assert MemoryRow(c.memory.nodes[i], s.disk.nodes[i], s.hosts[i]);
    PurgeMeansPurging(s, c);
  }

  lemma {:induction false} PurgeMeansPurging(s: State, c: Controller)
    requires Inv(s) && s.controller == Some(c) && CallAt(c.kind, c.pc) == Some(Purge)
    ensures c.kind.ForPurge?
  {
  }

  lemma {:induction false} OnlyPurgeHarms(action: Action, n: Node, h: Host, c: Chance)
    requires h.root == Owned && h.intact
    ensures var h' := Act(action, n, h, c).host;
      h'.root != Owned || !h'.intact ==> action.Purge? && n.exported.Some? && h.archive == n.exported == h'.archive
  {
    if action.Cleanup? {
      var t := CleanupPlan(n, h);
      assert forall k :: 0 <= k < |t.states| ==> t.states[k].root == Owned && t.states[k].intact;
    }
  }

  // ----- the manifest write -----

  /**
   * A write interrupted between creating its temporary file and renaming it ends the campaign: no
   * later controller gets past its first write, so neither a host nor the manifest changes again.
   */
  lemma {:induction false} LeftoverFileStopsEverything(s: State, events: seq<Event>)
    requires s.leftover && (s.controller.Some? ==> s.controller.value.pc.Authorize?)
    ensures Run(s, events).hosts == s.hosts && Run(s, events).disk == s.disk
    decreases |events|
  {
    if events != [] {
      LeftoverFileStopsEverything(Next(s, events[0]), events[1..]);
    }
  }

  /** Without a leftover file the next controller does get past its first write. */
  lemma {:induction false} CleanDirectoryAdmitsControllers(s: State, kind: Kind)
    requires s.controller.None? && (kind.ForLaunch? ==> s.disk.phase == Planned)
    ensures var s' := Run(s, [Begin(kind), Save(Saved)]);
      s'.controller.Some? && !s'.controller.value.pc.Authorize? <==> !s.leftover
  {
    var first := Next(s, Begin(kind));
    assert [Begin(kind), Save(Saved)][1..] == [Save(Saved)];
    assert Run(first, [Save(Saved)]) == Run(Next(first, Save(Saved)), []);
  }

  // ----- when cleanup can finish -----

  /** Cleanup can deal with this node. */
  predicate Cleanable(n: Node, h: Host) {
    n.purged || h.root == Missing || (h.root == Owned && !(h.container.Some? && h.log))
  }

  ghost predicate AllCleanable(s: State) {
    |s.disk.nodes| == |s.hosts| && forall i :: 0 <= i < |s.hosts| ==> Cleanable(s.disk.nodes[i], s.hosts[i])
  }

  /** Steps of one controller that is not interrupted. */
  ghost predicate OneController(events: seq<Event>) {
    Faithful(events) && forall k :: 0 <= k < |events| ==> !events[k].Begin? && !events[k].Crash?
  }

  /** The sweep is over without a failure, and the next write records the settled phase. */
  ghost predicate ReadyToClose(s: State) {
    s.controller.Some? && s.controller.value.kind.ForCleanup? && s.controller.value.pc.Close?
    && !s.controller.value.failed && !s.leftover
  }

  ghost predicate CanFinish(s: State, events: seq<Event>) {
    OneController(events) && ReadyToClose(Run(Next(s, Begin(ForCleanup)), events))
  }

  lemma {:induction false} ReadyWritesSettledPhase(s: State)
    requires ReadyToClose(s)
    ensures Next(s, Save(Saved)).disk.phase == StoppedRetained && Next(s, Save(Saved)).controller.None?
  {
  }

  /**
   * Cleanup can run to its end exactly when no leftover file blocks the manifest and no node is stuck:
   * a half-made root, or a container whose log was already written, needs a person.
   */
  lemma {:induction false} CleanupFinishesExactlyWhenCleanable(s: State)
    requires Inv(s) && s.controller.None?
    ensures (exists events :: CanFinish(s, events)) <==> !s.leftover && AllCleanable(s)
  {
    var begun := Next(s, Begin(ForCleanup));
    NextKeepsInv(s, Begin(ForCleanup));
    if exists events :: CanFinish(s, events) {
      var events :| CanFinish(s, events);
      RunKeepsProgress(s, begun, events);
    }
    if !s.leftover && AllCleanable(s) {
      var ready := Next(begun, Save(Saved));
      NextKeepsInv(begun, Save(Saved));
      var rest := SweepToClose(ready, 0);
      var events := [Save(Saved)] + rest;
      assert events[0] == Save(Saved) && events[1..] == rest;
      assert Run(begun, events) == Run(ready, rest);
      assert CanFinish(s, events);
    }
  }

  // Necessity.

  /** How far a cleanup begun in `s0` has come: nodes behind it were cleanable, nodes ahead are as they were. */
  ghost predicate Progress(s0: State, s: State) {
    && (s0.leftover ==> s.leftover)
    && (s.controller.Some? ==>
          var c := s.controller.value;
          && c.kind.ForCleanup? && |s.hosts| == |s0.hosts| == |s0.disk.nodes| == |c.memory.nodes|
          && (!c.failed ==>
                && (forall j :: 0 <= j < Done(s, c.pc) && j < |s.hosts| ==> Cleanable(s0.disk.nodes[j], s0.hosts[j]))
                && (forall j :: Done(s, c.pc) <= j < |s.hosts| ==>
                      s.hosts[j] == s0.hosts[j] && c.memory.nodes[j].purged == s0.disk.nodes[j].purged)
                && (c.pc.SaveProbe? && c.pc.i < |s.hosts| && !c.memory.nodes[c.pc.i].claimed ==>
                      s.hosts[c.pc.i].root == Missing)))
  }

  lemma {:induction false} RunKeepsProgress(s0: State, s: State, events: seq<Event>)
    requires Inv(s) && Progress(s0, s) && OneController(events) && ReadyToClose(Run(s, events))
    ensures !s0.leftover && AllCleanable(s0)
    decreases |events|
  {
    if events != [] {
      var e := events[0];
      assert FaithfulEvent(e) && !e.Begin? && !e.Crash?;
      NextKeepsInv(s, e);
      NextKeepsProgress(s0, s, e);
      assert forall k :: 0 <= k < |events| - 1 ==> events[1..][k] == events[k + 1];
      RunKeepsProgress(s0, Next(s, e), events[1..]);
    }
  }

  lemma {:induction false} NextKeepsProgress(s0: State, s: State, e: Event)
    requires Inv(s) && Progress(s0, s) && FaithfulEvent(e) && !e.Begin? && !e.Crash?
    ensures Progress(s0, Next(s, e))
  {
    if s.controller.Some? {
      var c := s.controller.value;
      if e.Call? && CallAt(c.kind, c.pc).Some? && c.pc.i < |s.hosts| {
        CallKeepsProgress(s0, s, c, e.chance);
      } else if e.Save? && Saves(c.pc) {
        SaveKeepsProgress(s0, s, c, e.result);
      } else {
        assert Progress(s0, Next(s, e));
      }
    }
  }

  lemma {:induction false} CallKeepsProgress(s0: State, s: State, c: Controller, chance: Chance)
    requires CallAt(c.kind, c.pc).Some? && c.pc.i < |s.hosts| && c.pc.i < |c.memory.nodes|
    requires Progress(s0, s) && s.controller == Some(c) && SweepInv(s, c)
    ensures Progress(s0, CallStep(s, c, chance))
  {
    var i, action := c.pc.i, CallAt(c.kind, c.pc).value;
    var o := Act(action, c.memory.nodes[i], s.hosts[i], chance);
    if o.reply.Some? {
      ReplyMeansCleanable(action, c.memory.nodes[i], s.hosts[i], chance);
    }
    DeliverKeepsProgress(s0, s, c, o);
  }

  /** What a reply to the sweep tells about the host before the call. */
  lemma {:induction false} ReplyMeansCleanable(action: Action, m: Node, h: Host, c: Chance)
    requires action.ProbeRoot? || action.Recover? || (action.Cleanup? && Recorded(m, h))
    requires Act(action, m, h, c).reply.Some?
    ensures action.Cleanup? ==> Cleanable(m, h)
    ensures !action.Cleanup? ==> Act(action, m, h, c).host == h && Act(action, m, h, c).reply.value.purged == m.purged
    ensures action.ProbeRoot? && !Act(action, m, h, c).reply.value.claimed ==> h.root == Missing
  {
  }

  lemma {:induction false} DeliverKeepsProgress(s0: State, s: State, c: Controller, o: Outcome)
    requires CallAt(c.kind, c.pc).Some? && c.pc.i < |s.hosts| && c.pc.i < |c.memory.nodes|
    requires Progress(s0, s) && s.controller == Some(c) && SweepInv(s, c)
    requires o.reply.Some? ==>
      && (c.pc.Treat? ==> Cleanable(c.memory.nodes[c.pc.i], s.hosts[c.pc.i]))
      && (!c.pc.Treat? ==> o.host == s.hosts[c.pc.i] && o.reply.value.purged == c.memory.nodes[c.pc.i].purged)
      && (c.pc.Probe? && !o.reply.value.claimed ==> s.hosts[c.pc.i].root == Missing)
    ensures Progress(s0, Deliver(s, c, o))
  {
    var s' := Deliver(s, c, o);
    if o.reply.Some? && !c.failed {
      var i := c.pc.i;
      assert s.hosts[i] == s0.hosts[i] && c.memory.nodes[i].purged == s0.disk.nodes[i].purged;
    }
    assert Progress(s0, s');
  }

  lemma {:induction false} SaveKeepsProgress(s0: State, s: State, c: Controller, result: WriteResult)
    requires Progress(s0, s) && s.controller == Some(c) && SweepInv(s, c) && Saves(c.pc)
    ensures Progress(s0, SaveStep(s, c, result))
  {
    assert Progress(s0, SaveStep(s, c, result));
  }

  // Sufficiency.

  /** Every effect lands and every reply arrives. */
  const SMOOTH := Chance(10, true, true, true, 0, Archive(0, 0), Archive(0, 0))

  lemma {:induction false} RunAppend(s: State, a: seq<Event>, b: seq<Event>)
    ensures Run(s, a + b) == Run(Run(s, a), b)
    decreases |a|
  {
    if a == [] {
      assert a + b == b;
    } else {
      assert (a + b)[0] == a[0] && (a + b)[1..] == a[1..] + b;
      RunAppend(Next(s, a[0]), a[1..], b);
    }
  }

  /** A cleanup at the head of its loop, nothing failed, every node from `i` on cleanable. */
  ghost predicate Sweeping(s: State, i: nat) {
    && s.controller.Some? && !s.leftover
    && var c := s.controller.value;
      && c.kind.ForCleanup? && !c.failed && c.pc == Visit(i)
      && |c.memory.nodes| == |s.hosts| && i <= |s.hosts|
      && (forall j :: i <= j < |s.hosts| ==> Cleanable(c.memory.nodes[j], s.hosts[j]))
  }

  lemma {:induction false} SweepToClose(s: State, i: nat) returns (events: seq<Event>)
    requires Inv(s) && Sweeping(s, i)
    ensures OneController(events) && ReadyToClose(Run(s, events))
    decreases |s.hosts| - i
  {
    if i == |s.hosts| {
      events := [Turn];
      assert Run(s, [Turn]) == Run(Next(s, Turn), []);
    } else {
      var first := CleanNode(s, i);
      RunKeepsInv(s, first);
      var rest := SweepToClose(Run(s, first), i + 1);
      RunAppend(s, first, rest);
      events := first + rest;
    }
  }

  /** One call whose reply arrives, and the write after it. */
  lemma {:induction false} CallAndSave(s: State, c: Controller, o: Outcome)
    requires s.controller == Some(c) && InsideTry(c.pc) && CallAt(c.kind, c.pc).Some? && !s.leftover
    requires c.pc.i < |s.hosts| && c.pc.i < |c.memory.nodes| && o.reply.Some?
    requires o == Act(CallAt(c.kind, c.pc).value, c.memory.nodes[c.pc.i], s.hosts[c.pc.i], SMOOTH)
    ensures Run(s, [Call(SMOOTH), Save(Saved)]) == Advanced(s, c, o)
  {
    TwoSteps(s, Call(SMOOTH), Save(Saved));
    SavedDelivery(s, c, o);
  }

  function Advanced(s: State, c: Controller, o: Outcome): State
    requires InsideTry(c.pc) && CallAt(c.kind, c.pc).Some?
    requires c.pc.i < |s.hosts| && c.pc.i < |c.memory.nodes| && o.reply.Some?
  {
    var i := c.pc.i;
    var m := c.memory.(nodes := c.memory.nodes[i := o.reply.value]);
    var pc := if c.pc.Probe? then (if o.reply.value.claimed then Lookup(i) else Visit(i + 1))
              else if c.pc.Lookup? then Treat(i) else Visit(i + 1);
    State(s.hosts[i := o.host], m, false, Some(c.(memory := m, pc := pc)))
  }

  lemma {:induction false} SavedDelivery(s: State, c: Controller, o: Outcome)
    requires s.controller == Some(c) && InsideTry(c.pc) && CallAt(c.kind, c.pc).Some? && !s.leftover
    requires c.pc.i < |s.hosts| && c.pc.i < |c.memory.nodes| && o.reply.Some?
    ensures Next(Deliver(s, c, o), Save(Saved)) == Advanced(s, c, o)
  {
  }

  lemma {:induction false} TwoSteps(s: State, a: Event, b: Event)
    ensures Run(s, [a, b]) == Next(Next(s, a), b)
  {
    assert [a, b][1..] == [b];
    assert Run(Next(s, a), [b]) == Run(Next(Next(s, a), b), []);
  }

  lemma {:induction false} CleanNode(s: State, i: nat) returns (events: seq<Event>)
    requires Inv(s) && Sweeping(s, i) && i < |s.hosts|
    ensures OneController(events) && Sweeping(Run(s, events), i + 1) && |Run(s, events).hosts| == |s.hosts|
  {
    var c := s.controller.value;
    var s1 := Next(s, Turn);
    assert Run(s, [Turn]) == Run(s1, []);
    if c.memory.nodes[i].purged {
      events := [Turn];
    } else {
      NextKeepsInv(s, Turn);
      var rest := ProbeNode(s1, i);
      RunAppend(s, [Turn], rest);
      events := [Turn] + rest;
    }
  }

  /** A cleanup about to probe a cleanable node. */
  ghost predicate Probing(s: State, i: nat) {
    && s.controller.Some? && !s.leftover
    && var c := s.controller.value;
      && c.kind.ForCleanup? && !c.failed && c.pc == Probe(i)
      && |c.memory.nodes| == |s.hosts| && i < |s.hosts|
      && (s.hosts[i].root == Missing || (s.hosts[i].root == Owned && !(s.hosts[i].container.Some? && s.hosts[i].log)))
      && (forall j :: i < j < |s.hosts| ==> Cleanable(c.memory.nodes[j], s.hosts[j]))
  }

  lemma {:induction false} ProbeNode(s: State, i: nat) returns (events: seq<Event>)
    requires Inv(s) && Probing(s, i)
    ensures OneController(events) && Sweeping(Run(s, events), i + 1) && |Run(s, events).hosts| == |s.hosts|
  {
    var c := s.controller.value;
    var o := Act(ProbeRoot, c.memory.nodes[i], s.hosts[i], SMOOTH);
    CallAndSave(s, c, o);
    var probe := [Call(SMOOTH), Save(Saved)];
    if s.hosts[i].root == Missing {
      events := probe;
      assert Sweeping(Advanced(s, c, o), i + 1);
    } else {
      RunKeepsInv(s, probe);
      assert Looking(Advanced(s, c, o), i);
      var rest := RecoverAndClean(Run(s, probe), i);
      RunAppend(s, probe, rest);
      events := probe + rest;
    }
  }

  /** The root was found; the next call looks up what the host holds. */
  ghost predicate Looking(s: State, i: nat) {
    && s.controller.Some? && !s.leftover
    && var c := s.controller.value;
      && c.kind.ForCleanup? && !c.failed && c.pc == Lookup(i)
      && |c.memory.nodes| == |s.hosts| && i < |s.hosts|
      && s.hosts[i].root == Owned && !(s.hosts[i].container.Some? && s.hosts[i].log)
      && (forall j :: i < j < |s.hosts| ==> Cleanable(c.memory.nodes[j], s.hosts[j]))
  }

  const PAIR := [Call(SMOOTH), Save(Saved)]

  lemma {:induction false} RecoverAndClean(s: State, i: nat) returns (events: seq<Event>)
    requires Inv(s) && Looking(s, i)
    ensures OneController(events) && Sweeping(Run(s, events), i + 1) && |Run(s, events).hosts| == |s.hosts|
  {
    LookUp(s, i);
    CleanFound(Run(s, PAIR), i);
    RunAppend(s, PAIR, PAIR);
    events := PAIR + PAIR;
  }

  /** The lookup has named what the host holds, and cleaning that up succeeds. */
  ghost predicate Found(s: State, i: nat) {
    && s.controller.Some? && !s.leftover
    && var c := s.controller.value;
      && c.kind.ForCleanup? && !c.failed && c.pc == Treat(i)
      && |c.memory.nodes| == |s.hosts| && i < |s.hosts|
      && Act(Cleanup, c.memory.nodes[i], s.hosts[i], SMOOTH).reply.Some?
      && (forall j :: i < j < |s.hosts| ==> Cleanable(c.memory.nodes[j], s.hosts[j]))
  }

  lemma {:induction false} LookUp(s: State, i: nat)
    requires Inv(s) && Looking(s, i)
    ensures Found(Run(s, PAIR), i) && |Run(s, PAIR).hosts| == |s.hosts|
  {
    var c := s.controller.value;
    var m, h := c.memory.nodes[i], s.hosts[i];
    assert MemoryRow(m, s.disk.nodes[i], h);
    SmoothReplies(m, h);
    var o := Act(Recover, m, h, SMOOTH);
    CallAndSave(s, c, o);
    assert Found(Advanced(s, c, o), i);
  }

  lemma {:induction false} CleanFound(s: State, i: nat)
    requires Found(s, i)
    ensures Sweeping(Run(s, PAIR), i + 1) && |Run(s, PAIR).hosts| == |s.hosts|
  {
    var c := s.controller.value;
    var o := Act(Cleanup, c.memory.nodes[i], s.hosts[i], SMOOTH);
    CallAndSave(s, c, o);
    assert Sweeping(Advanced(s, c, o), i + 1);
  }

  lemma {:induction false} SmoothReplies(m: Node, h: Host)
    requires h.root == Owned && !(h.container.Some? && h.log)
    requires h.container.Some? ==> m.image == Some(h.container.value.image)
    ensures var o := Act(Recover, m, h, SMOOTH);
      o.host == h && o.reply.Some? && Act(Cleanup, o.reply.value, h, SMOOTH).reply.Some?
  {
  }

  // ----- the assumption about inspect is needed -----

  /** The failures of `inspect` in a lookup all meant absence. */
  predicate SawEverything(look: Chance, h: Host) {
    (look.seesNetwork || h.network.None?) && (look.seesContainer || h.container.None?)
  }

  /**
   * Which failure matters.  The looked-up row names what the host holds, and a cleanup that then reports
   * success leaves neither container nor network, exactly when no `inspect` failed on an object that is there.
   */
  lemma {:induction false} WhichLieMatters(n: Node, h: Host, look: Chance, c: Chance)
    requires Act(Recover, n, h, look).reply.Some?
    requires Act(Cleanup, Act(Recover, n, h, look).reply.value, h, c).reply.Some?
    ensures Recorded(Act(Recover, n, h, look).reply.value, h) <==> SawEverything(look, h)
    ensures var after := Act(Cleanup, Act(Recover, n, h, look).reply.value, h, c).host;
      after.container.None? && after.network.None? <==> SawEverything(look, h)
  {
    var row := Act(Recover, n, h, look).reply.value;
    var t := CleanupPlan(row, h);
    assert t.finished && Act(Cleanup, row, h, c).host == Last(t);
    LastOfCleanup(row, h);
  }

  /** A finished cleanup has removed what its row names and nothing else. */
  lemma {:induction false} LastOfCleanup(n: Node, h: Host)
    requires CleanupPlan(n, h).finished
    ensures Last(CleanupPlan(n, h)).container == if n.container.Some? then None else h.container
    ensures Last(CleanupPlan(n, h)).network == if n.network.Some? then None else h.network
  {
  }

  const LIE := SMOOTH.(seesNetwork := false, seesContainer := false)

  const CLAIMED := Host(Owned, true, true, None, None, false, false, None)
  const NETWORKED := CLAIMED.(network := Some(0))
  const CREATED := NETWORKED.(files := true, container := Some(Container(0, 0, false)))

  const IMAGED := FRESH_NODE.(image := Some(0))
  const CLAIMED_ROW := IMAGED.(claimed := true)
  const NETWORKED_ROW := CLAIMED_ROW.(network := Some(0))
  const FORGOTTEN_ROW := CLAIMED_ROW.(network := None, container := None)
  const STOPPED_ROW := FORGOTTEN_ROW.(stopped := true)

  /** A lab of one node; the controller is at `pc` with `memory` as that node's row. */
  function One(h: Host, phase: Phase, row: Node, kind: Kind, pc: Pc, memory: Node): State {
    State([h], Manifest(phase, [row]), false, Some(Controller(kind, Manifest(phase, [memory]), pc, false)))
  }

  /**
   * If `inspect` may fail although the object is there, cleanup can record the stopped phase while the
   * host still holds a created container and its network: launch stops after `create`, and the next
   * cleanup's lookup comes back empty.
   */
  lemma {:induction false} LyingInspectRetainsContainer() returns (events: seq<Event>)
    ensures var s := Run(PlannedLab(1), events);
      s.disk.phase == StoppedRetained && s.hosts == [CREATED]
  {
    var launch := LaunchUntilCrash();
    var cleanup := [Begin(ForCleanup), Save(Saved), Turn, Call(SMOOTH), Save(Saved)];
    var blind := [Call(LIE), Save(Saved), Call(SMOOTH), Save(Saved), Turn, Save(Saved)];
    events := launch + (cleanup + blind);
    RunAppend(PlannedLab(1), launch, cleanup + blind);
    CleanupUntilLookup(cleanup);
    RunAppend(CRASHED, cleanup, blind);
    BlindCleanup(blind);
  }

  lemma {:induction false} OneNode<T>(a: T, b: T)
    ensures [a][0 := b] == [b]
  {
  }

  const CRASHED := State([CREATED], Manifest(Launching, [NETWORKED_ROW]), false, None)

  lemma {:induction false} LaunchUntilCrash() returns (events: seq<Event>)
    ensures Run(PlannedLab(1), events) == CRASHED
  {
    var begin := [Begin(ForLaunch), Save(Saved), Call(SMOOTH), Save(Saved), Save(Saved)];
    var build := [Call(SMOOTH), Save(Saved), Call(SMOOTH), Save(Saved), Call(SMOOTH), Crash];
    var s1 := One(FRESH_HOST, Launching, IMAGED, ForLaunch, Build(0, Claim), IMAGED);
    BeginLaunch(begin);
    BuildUntilCrash(s1, build);
    RunAppend(PlannedLab(1), begin, build);
    events := begin + build;
  }

  lemma {:induction false} FirstSave()
    ensures Run(PlannedLab(1), [Begin(ForLaunch), Save(Saved)])
      == One(FRESH_HOST, Planned, FRESH_NODE, ForLaunch, Baseline(0), FRESH_NODE)
  {
    var s := PlannedLab(1);
    assert s.hosts == [FRESH_HOST] && s.disk.nodes == [FRESH_NODE];
    assert Next(s, Begin(ForLaunch)) == One(FRESH_HOST, Planned, FRESH_NODE, ForLaunch, Authorize, FRESH_NODE);
    TwoSteps(s, Begin(ForLaunch), Save(Saved));
  }

  lemma {:induction false} FirstPreflight()
    ensures Run(One(FRESH_HOST, Planned, FRESH_NODE, ForLaunch, Baseline(0), FRESH_NODE), PAIR)
      == One(FRESH_HOST, Planned, IMAGED, ForLaunch, Announce, IMAGED)
  {
    var s := One(FRESH_HOST, Planned, FRESH_NODE, ForLaunch, Baseline(0), FRESH_NODE);
    OneNode(FRESH_HOST, FRESH_HOST);
    OneNode(FRESH_NODE, IMAGED);
    assert Next(s, Call(SMOOTH)) == One(FRESH_HOST, Planned, FRESH_NODE, ForLaunch, SaveBaseline(0), IMAGED);
    TwoSteps(s, Call(SMOOTH), Save(Saved));
  }

  lemma {:induction false} BeginLaunch(events: seq<Event>)
    requires events == [Begin(ForLaunch), Save(Saved), Call(SMOOTH), Save(Saved), Save(Saved)]
    ensures Run(PlannedLab(1), events) == One(FRESH_HOST, Launching, IMAGED, ForLaunch, Build(0, Claim), IMAGED)
  {
    var announced := One(FRESH_HOST, Planned, IMAGED, ForLaunch, Announce, IMAGED);
    assert events == [Begin(ForLaunch), Save(Saved)] + (PAIR + [Save(Saved)]);
    RunAppend(PlannedLab(1), [Begin(ForLaunch), Save(Saved)], PAIR + [Save(Saved)]);
    FirstSave();
    RunAppend(One(FRESH_HOST, Planned, FRESH_NODE, ForLaunch, Baseline(0), FRESH_NODE), PAIR, [Save(Saved)]);
    FirstPreflight();
    assert Run(announced, [Save(Saved)]) == Run(Next(announced, Save(Saved)), []);
  }

  lemma {:induction false} BuildUntilCrash(s: State, events: seq<Event>)
    requires s == One(FRESH_HOST, Launching, IMAGED, ForLaunch, Build(0, Claim), IMAGED)
    requires events == [Call(SMOOTH), Save(Saved), Call(SMOOTH), Save(Saved), Call(SMOOTH), Crash]
    ensures Run(s, events) == CRASHED
  {
    var s1 := One(CLAIMED, Launching, IMAGED, ForLaunch, SaveBuild(0, Claim), CLAIMED_ROW);
    var s2 := One(CLAIMED, Launching, CLAIMED_ROW, ForLaunch, Build(0, MakeNetwork), CLAIMED_ROW);
    var s3 := One(NETWORKED, Launching, CLAIMED_ROW, ForLaunch, SaveBuild(0, MakeNetwork), NETWORKED_ROW);
    var s4 := One(NETWORKED, Launching, NETWORKED_ROW, ForLaunch, Build(0, Create), NETWORKED_ROW);
    OneNode(FRESH_HOST, CLAIMED);
    OneNode(IMAGED, CLAIMED_ROW);
    assert Next(s, events[0]) == s1;
    assert Next(s1, events[1]) == s2;
    OneNode(CLAIMED, NETWORKED);
    OneNode(CLAIMED_ROW, NETWORKED_ROW);
    assert Next(s2, events[2]) == s3;
    assert Next(s3, events[3]) == s4;
    OneNode(NETWORKED, CREATED);
    assert Next(Next(s4, events[4]), Crash) == CRASHED;
    FiveSteps(s, events[..5]);
    assert events == events[..5] + [Crash];
    RunAppend(s, events[..5], [Crash]);
    var s5 := Next(s4, events[4]);
    assert Run(s5, [Crash]) == Run(Next(s5, Crash), []);
  }

  lemma {:induction false} CleanupUntilLookup(events: seq<Event>)
    requires events == [Begin(ForCleanup), Save(Saved), Turn, Call(SMOOTH), Save(Saved)]
    ensures Run(CRASHED, events) == One(CREATED, Launching, NETWORKED_ROW, ForCleanup, Lookup(0), NETWORKED_ROW)
  {
    var s1 := One(CREATED, Launching, NETWORKED_ROW, ForCleanup, Authorize, NETWORKED_ROW);
    var s2 := One(CREATED, Launching, NETWORKED_ROW, ForCleanup, Visit(0), NETWORKED_ROW);
    var s3 := One(CREATED, Launching, NETWORKED_ROW, ForCleanup, Probe(0), NETWORKED_ROW);
    var s4 := One(CREATED, Launching, NETWORKED_ROW, ForCleanup, SaveProbe(0), NETWORKED_ROW);
    assert Next(CRASHED, events[0]) == s1;
    assert Next(s1, events[1]) == s2;
    assert Next(s2, events[2]) == s3;
    OneNode(CREATED, CREATED);
    OneNode(NETWORKED_ROW, NETWORKED_ROW);
    assert Next(s3, events[3]) == s4;
    FiveSteps(CRASHED, events);
  }

  lemma {:induction false} BlindLookup()
    ensures Run(One(CREATED, Launching, NETWORKED_ROW, ForCleanup, Lookup(0), NETWORKED_ROW), [Call(LIE), Save(Saved)])
      == One(CREATED, Launching, FORGOTTEN_ROW, ForCleanup, Treat(0), FORGOTTEN_ROW)
  {
    var s := One(CREATED, Launching, NETWORKED_ROW, ForCleanup, Lookup(0), NETWORKED_ROW);
    OneNode(CREATED, CREATED);
    OneNode(NETWORKED_ROW, FORGOTTEN_ROW);
    assert Next(s, Call(LIE)) == One(CREATED, Launching, NETWORKED_ROW, ForCleanup, SaveLookup(0), FORGOTTEN_ROW);
    TwoSteps(s, Call(LIE), Save(Saved));
  }

  lemma {:induction false} BlindTreatment()
    ensures Run(One(CREATED, Launching, FORGOTTEN_ROW, ForCleanup, Treat(0), FORGOTTEN_ROW), PAIR)
      == One(CREATED, Launching, STOPPED_ROW, ForCleanup, Visit(1), STOPPED_ROW)
  {
    var s := One(CREATED, Launching, FORGOTTEN_ROW, ForCleanup, Treat(0), FORGOTTEN_ROW);
    OneNode(CREATED, CREATED);
    OneNode(FORGOTTEN_ROW, STOPPED_ROW);
    assert Next(s, Call(SMOOTH)) == One(CREATED, Launching, FORGOTTEN_ROW, ForCleanup, SaveTreat(0), STOPPED_ROW);
    TwoSteps(s, Call(SMOOTH), Save(Saved));
  }

  lemma {:induction false} BlindClose()
    ensures var s := Run(One(CREATED, Launching, STOPPED_ROW, ForCleanup, Visit(1), STOPPED_ROW), [Turn, Save(Saved)]);
      s.disk.phase == StoppedRetained && s.hosts == [CREATED]
  {
    TwoSteps(One(CREATED, Launching, STOPPED_ROW, ForCleanup, Visit(1), STOPPED_ROW), Turn, Save(Saved));
  }

  lemma {:induction false} BlindCleanup(events: seq<Event>)
    requires events == [Call(LIE), Save(Saved), Call(SMOOTH), Save(Saved), Turn, Save(Saved)]
    ensures var s := Run(One(CREATED, Launching, NETWORKED_ROW, ForCleanup, Lookup(0), NETWORKED_ROW), events);
      s.disk.phase == StoppedRetained && s.hosts == [CREATED]
  {
    var s := One(CREATED, Launching, NETWORKED_ROW, ForCleanup, Lookup(0), NETWORKED_ROW);
    assert events == [Call(LIE), Save(Saved)] + (PAIR + [Turn, Save(Saved)]);
    RunAppend(s, [Call(LIE), Save(Saved)], PAIR + [Turn, Save(Saved)]);
    BlindLookup();
    RunAppend(One(CREATED, Launching, FORGOTTEN_ROW, ForCleanup, Treat(0), FORGOTTEN_ROW), PAIR, [Turn, Save(Saved)]);
    BlindTreatment();
    BlindClose();
  }

  lemma {:induction false} FiveSteps(s: State, events: seq<Event>)
    requires |events| == 5
    ensures Run(s, events) == Next(Next(Next(Next(Next(s, events[0]), events[1]), events[2]), events[3]), events[4])
  {
    var s2 := Next(Next(s, events[0]), events[1]);
    TwoSteps(s, events[0], events[1]);
    var s4 := Next(Next(s2, events[2]), events[3]);
    TwoSteps(s2, events[2], events[3]);
    assert Run(s4, [events[4]]) == Run(Next(s4, events[4]), []);
    RunAppend(s, [events[0], events[1]], [events[2], events[3]] + [events[4]]);
    RunAppend(s2, [events[2], events[3]], [events[4]]);
    assert events == [events[0], events[1]] + ([events[2], events[3]] + [events[4]]);
  }
}
