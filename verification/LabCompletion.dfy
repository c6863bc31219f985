// What a finished launch, cleanup, export or purge has done, in every run.
module LabCompletion {
  import opened Wrappers
  import opened LabHost
  import opened LabProtocol

  // ----- what each phase promises of a node -----

  /** The node runs: the container and network of its row, in its claimed root. */
  predicate Up(n: Node, h: Host) { InPlace(n, h) && h.container.value.running }

  predicate Networked(n: Node, h: Host) { h.root == Owned && h.network.Some? && n.network == h.network }

  predicate InPlace(n: Node, h: Host) {
    && Networked(n, h) && h.container.Some?
    && n.container == Some(h.container.value.id) && n.image == Some(h.container.value.image)
  }

  /** A purged row: the root is gone, its recorded archive is there. */
  predicate Purged(n: Node, h: Host) { n.purged && h.root == Missing && Exported(n, h) }

  predicate Exported(n: Node, h: Host) { n.exported.Some? && h.archive == n.exported }

  /** What a controller that enters `phase` has made of each node. */
  predicate Earned(phase: Phase, n: Node, h: Host) {
    match phase
    case Launched => Up(n, h)
    case StoppedRetained => Purged(n, h) || (n.stopped && h.root == Owned) || (!n.claimed && h.root == Missing)
    case ExportedPrivate => Exported(n, h)
    case PurgedRetained => Purged(n, h)
    case _ => true
  }

  ghost predicate AllEarned(phase: Phase, nodes: seq<Node>, hosts: seq<Host>)
    requires |nodes| == |hosts|
  {
    forall i :: 0 <= i < |hosts| ==> Earned(phase, nodes[i], hosts[i])
  }

  // ----- when an action goes through -----

  /** What the worker demands of a host before the action and gets out of it, if nothing cuts it off. */
  predicate Allowed(action: Action, n: Node, h: Host, c: Chance) {
    match action
    case Preflight => true
    case Claim => h.root == Missing
    case ProbeRoot => h.root != Unmarked
    case MakeNetwork => h.root == Owned && h.network.None?
    case Create =>
      h.root == Owned && n.image.Some? && n.network.Some? && n.network == h.network && h.container.None? && !h.files
    case Start => h.root == Owned && HoldsRecorded(n, h)
    case Recover =>
      h.root == Owned && (c.seesContainer && h.container.Some? ==> n.image == Some(h.container.value.image))
    case Cleanup =>
      && h.root == Owned && (n.container.Some? ==> HoldsRecorded(n, h) && !h.log)
      && (n.network.Some? ==> n.network == h.network)
      && (n.container.None? && h.container.Some? ==> !h.container.value.running)
    case Export => h.root == Owned && n.stopped && h.container.None? && h.archive.None?
    case Purge => h.root == Owned && n.stopped && h.container.None? && n.exported.Some? && h.archive == n.exported
  }

  predicate HoldsRecorded(n: Node, h: Host) {
    h.container.Some? && n.container == Some(h.container.value.id) && n.image == Some(h.container.value.image)
  }

  /** An uninterrupted action replies exactly when it is allowed. */
  lemma {:induction false} RepliesExactly(action: Action, n: Node, h: Host, c: Chance)
    requires c.landed >= 10 && c.replied
    ensures Act(action, n, h, c).reply.Some? <==> Allowed(action, n, h, c)
  {
  }

  /** What a replied action has done to the host and its row. */
  predicate Effect(action: Action, n: Node, h: Host, m: Node, g: Host, c: Chance) {
    match action
    case Preflight => g == h && m == n.(image := Some(c.id))
    case Claim => g == h.(root := Owned, everOwned := true, intact := true) && m == n.(claimed := true)
    case ProbeRoot => g == h && m == n.(claimed := h.root == Owned)
    case MakeNetwork => g == h.(network := Some(c.id)) && m == n.(network := Some(c.id))
    case Create =>
      && g == h.(files := true, container := g.container) && m == n.(container := Some(c.id))
      && g.container.Some? && g.container.value.id == c.id && n.image == Some(g.container.value.image)
      && !g.container.value.running
    case Start =>
      && h.container.Some? && g == h.(container := Some(h.container.value.(running := true))) && m == n
    case Recover =>
      && g == h && m == n.(network := m.network, container := m.container)
      && m.network == (if c.seesNetwork then h.network else None)
      && m.container == (if c.seesContainer && h.container.Some? then Some(h.container.value.id) else None)
    case Cleanup =>
      && g == h.(container := g.container, network := g.network, log := h.log || n.container.Some?)
      && g.container == (if n.container.Some? then None else h.container)
      && g.network == (if n.network.Some? then None else h.network) && m == n.(stopped := true)
    case Export => g == h.(archive := Some(c.whole)) && m == n.(exported := Some(c.whole))
    case Purge => g == h.(root := Missing, intact := false) && m == n.(purged := true)
  }

  lemma {:induction false} RepliedIsDone(action: Action, n: Node, h: Host, c: Chance)
    requires Act(action, n, h, c).reply.Some?
    ensures Effect(action, n, h, Act(action, n, h, c).reply.value, Act(action, n, h, c).host, c)
  {
  }

  // ----- what every run keeps -----

  predicate GoneIfPurged(n: Node, h: Host) { n.purged ==> Purged(n, h) }

  predicate Unused(n: Node, h: Host) { !n.purged && h.root == Missing }

  ghost predicate Rows(s: State, m: Manifest) {
    && |m.nodes| == |s.hosts|
    && (forall i :: 0 <= i < |s.hosts| ==> GoneIfPurged(m.nodes[i], s.hosts[i]))
    && (s.disk.phase.Planned? ==> forall i :: 0 <= i < |s.hosts| ==> Unused(m.nodes[i], s.hosts[i]))
  }

  predicate Unpurged(n: Node) { !n.purged }

  ghost predicate NonePurged(m: Manifest) { forall i :: 0 <= i < |m.nodes| ==> Unpurged(m.nodes[i]) }

  /** How far node `i` is when `step` is about to be sent to it. */
  predicate Ready(step: Action, n: Node, h: Host) {
    && (step.MakeNetwork? ==> h.root == Owned)
    && (step.Create? ==> Networked(n, h))
    && (step.Start? ==> InPlace(n, h))
  }

  /** How far it is when the reply to `step` is about to be saved. */
  predicate Stepped(step: Action, n: Node, h: Host) {
    && (step.Claim? ==> h.root == Owned)
    && (step.MakeNetwork? ==> Networked(n, h))
    && (step.Create? ==> InPlace(n, h))
    && (step.Start? ==> Up(n, h))
  }

  /** Nodes before this one are up. */
  function Built(n: nat, pc: Pc): nat {
    if pc.Build? || pc.SaveBuild? then pc.i else if pc.Finish? then n else 0
  }

  ghost predicate LaunchDone(s: State, c: Controller)
    requires |c.memory.nodes| == |s.hosts|
  {
    && (c.pc.Authorize? || Baselining(c.pc) || Building(c.pc))
    && (Baselining(c.pc) ==> s.disk.phase == Planned)
    && (Building(c.pc) ==> s.disk.phase == Launching && NonePurged(c.memory) && NonePurged(s.disk))
    && (c.pc.Build? || c.pc.SaveBuild? ==> LaunchStep(c.pc.step) && c.pc.i < |s.hosts|)
    && (forall j :: 0 <= j < Built(|s.hosts|, c.pc) && j < |s.hosts| ==> Up(c.memory.nodes[j], s.hosts[j]))
    && (c.pc.Build? ==> Ready(c.pc.step, c.memory.nodes[c.pc.i], s.hosts[c.pc.i]))
    && (c.pc.SaveBuild? ==> Stepped(c.pc.step, c.memory.nodes[c.pc.i], s.hosts[c.pc.i]))
  }

  /** What a sweep has made of the nodes behind it. */
  predicate Swept(kind: Kind, n: Node, h: Host) { Purged(n, h) || Earned(PhaseAfter(kind), n, h) }

  ghost predicate SweepDone(s: State, c: Controller)
    requires |c.memory.nodes| == |s.hosts|
  {
    && (c.pc.Authorize? || c.pc.Visit? || InsideTry(c.pc) || c.pc.Close?)
    && (c.pc.Probe? || c.pc.SaveProbe? || c.pc.Lookup? || c.pc.SaveLookup? ==> c.kind.ForCleanup?)
    && (!c.failed ==> forall j :: 0 <= j < Done(s, c.pc) && j < |s.hosts| ==>
          Swept(c.kind, c.memory.nodes[j], s.hosts[j]))
    && (c.pc.SaveProbe? && c.pc.i < |s.hosts| && !c.memory.nodes[c.pc.i].claimed ==> s.hosts[c.pc.i].root == Missing)
  }

  ghost predicate Holding(s: State, c: Controller) {
    && Rows(s, c.memory) && c.memory.phase == s.disk.phase && (c.pc.Authorize? ==> c.memory == s.disk)
    && if c.kind.ForLaunch? then LaunchDone(s, c) else SweepDone(s, c)
  }

  ghost predicate Kept(s: State) { Rows(s, s.disk) && (s.controller.Some? ==> Holding(s, s.controller.value)) }

  // ----- one action on one node -----

  /** Whatever part of it lands, an action that may be sent leaves purged rows gone and unused hosts unused. */
  lemma {:induction false} ActKeepsGone(action: Action, m: Node, n: Node, h: Host, c: Chance)
    requires GoneIfPurged(m, h) && GoneIfPurged(n, h)
    requires LaunchStep(action) ==> Unpurged(m) && Unpurged(n)
    ensures GoneIfPurged(n, Act(action, m, h, c).host)
    ensures GoneIfPurged(m, Act(action, m, h, c).host)
    ensures var o := Act(action, m, h, c); o.reply.Some? ==> GoneIfPurged(o.reply.value, o.host)
    ensures var o := Act(action, m, h, c); o.reply.Some? && LaunchStep(action) ==> Unpurged(o.reply.value)
  {
    if action.Cleanup? {
      CleanupKeepsRoot(m, h);
    }
  }

  lemma {:induction false} CleanupKeepsRoot(m: Node, h: Host)
    ensures forall k :: 0 <= k < |CleanupPlan(m, h).states| ==>
      CleanupPlan(m, h).states[k].root == h.root && CleanupPlan(m, h).states[k].archive == h.archive
  {
  }

  lemma {:induction false} UnusedStays(action: Action, m: Node, h: Host, c: Chance)
    requires Unused(m, h) && !LaunchStep(action)
    ensures Act(action, m, h, c).host == h
    ensures var o := Act(action, m, h, c); o.reply.Some? ==> Unused(o.reply.value, h)
  {
  }

  /** A reply to a launch step means that the step is complete. */
  lemma {:induction false} StepIsTaken(step: Action, m: Node, h: Host, c: Chance)
    requires LaunchStep(step) && Ready(step, m, h) && Act(step, m, h, c).reply.Some?
    ensures Stepped(step, Act(step, m, h, c).reply.value, Act(step, m, h, c).host)
  {
  }

  /** A reply to a sweep's action means that its node is dealt with. */
  lemma {:induction false} TreatmentIsDone(kind: Kind, m: Node, h: Host, c: Chance)
    requires !kind.ForLaunch? && Act(ActionOf(kind), m, h, c).reply.Some?
    ensures Swept(kind, Act(ActionOf(kind), m, h, c).reply.value, Act(ActionOf(kind), m, h, c).host)
  {
    if kind.ForCleanup? {
      CleanupKeepsRoot(m, h);
    }
  }

  // ----- every step keeps it -----

  lemma {:induction false} CallRows(s: State, c: Controller, o: Outcome, m: Manifest, row: Node)
    requires CallAt(c.kind, c.pc).Some? && c.pc.i < |s.hosts| && c.pc.i < |c.memory.nodes|
    requires Rows(s, m) && m.nodes[c.pc.i] == row && GoneIfPurged(row, o.host)
    requires s.disk.phase.Planned? ==> o.host == s.hosts[c.pc.i]
    ensures Rows(Deliver(s, c, o), m)
  {
    assert Deliver(s, c, o).hosts == s.hosts[c.pc.i := o.host];
    if s.disk.phase.Planned? {
      assert s.hosts[c.pc.i := o.host] == s.hosts;
    }
  }

  lemma {:induction false} ReplyRows(s: State, c: Controller, o: Outcome)
    requires CallAt(c.kind, c.pc).Some? && c.pc.i < |s.hosts| && c.pc.i < |c.memory.nodes| && o.reply.Some?
    requires Rows(s, c.memory) && GoneIfPurged(o.reply.value, o.host)
    requires s.disk.phase.Planned? ==> o.host == s.hosts[c.pc.i] && Unused(o.reply.value, o.host)
    ensures Rows(Deliver(s, c, o), Deliver(s, c, o).controller.value.memory)
  {
    var s' := Deliver(s, c, o);
    assert s'.hosts == s.hosts[c.pc.i := o.host];
    assert s'.controller.value.memory.nodes == c.memory.nodes[c.pc.i := o.reply.value];
  }

  lemma {:induction false} CallKeepsLaunch(s: State, c: Controller, o: Outcome)
    requires CallAt(c.kind, c.pc).Some? && c.pc.i < |s.hosts| == |c.memory.nodes|
    requires LaunchDone(s, c) && c.kind.ForLaunch?
    requires o.reply.Some? && c.pc.Build? ==>
      Stepped(c.pc.step, o.reply.value, o.host) && Unpurged(o.reply.value)
    ensures var s' := Deliver(s, c, o); s'.controller.Some? ==> LaunchDone(s', s'.controller.value)
  {
    var s' := Deliver(s, c, o);
    if o.reply.Some? {
      var c' := s'.controller.value;
      assert c'.pc == PendingSave(c.pc);
      assert forall j :: 0 <= j < |s.hosts| && j != c.pc.i ==>
        s'.hosts[j] == s.hosts[j] && c'.memory.nodes[j] == c.memory.nodes[j];
      assert Building(c'.pc) ==> NonePurged(c'.memory);
      assert LaunchDone(s', c');
    }
  }

  lemma {:induction false} CallKeepsSweep(s: State, c: Controller, o: Outcome)
    requires CallAt(c.kind, c.pc).Some? && c.pc.i < |s.hosts| == |c.memory.nodes|
    requires SweepDone(s, c) && !c.kind.ForLaunch?
    requires o.reply.Some? && c.pc.Treat? ==> Swept(c.kind, o.reply.value, o.host)
    requires o.reply.Some? && c.pc.Probe? && !o.reply.value.claimed ==> o.host.root == Missing
    ensures var s' := Deliver(s, c, o); s'.controller.Some? && SweepDone(s', s'.controller.value)
  {
    var s' := Deliver(s, c, o);
    var c' := s'.controller.value;
    assert forall j :: 0 <= j < |s.hosts| && j != c.pc.i ==>
      s'.hosts[j] == s.hosts[j] && c'.memory.nodes[j] == c.memory.nodes[j];
    assert SweepDone(s', c');
  }

  /** A call that keeps the rows true of the hosts. */
  lemma {:induction false} CallKeepsRows(s: State, c: Controller, chance: Chance)
    requires Kept(s) && s.controller == Some(c)
    requires CallAt(c.kind, c.pc).Some? && c.pc.i < |s.hosts| && c.pc.i < |c.memory.nodes|
    ensures var s' := CallStep(s, c, chance);
      Rows(s', s'.disk) && (s'.controller.Some? ==> Rows(s', s'.controller.value.memory))
  {
    var i, action := c.pc.i, CallAt(c.kind, c.pc).value;
    var m, d, h := c.memory.nodes[i], s.disk.nodes[i], s.hosts[i];
    assert GoneIfPurged(m, h) && GoneIfPurged(d, h);
    if c.pc.Build? { assert Unpurged(m) && Unpurged(d); }
    ActKeepsGone(action, m, d, h, chance);
    var o := Act(action, m, h, chance);
    if s.disk.phase.Planned? {
      assert Unused(m, h);
      UnusedStays(action, m, h, chance);
    }
    CallRows(s, c, o, s.disk, d);
    CallRows(s, c, o, c.memory, m);
    if o.reply.Some? {
      ReplyRows(s, c, o);
    }
  }

  lemma {:induction false} CallKeepsDone(s: State, c: Controller, chance: Chance)
    requires Holding(s, c) && |s.disk.nodes| == |s.hosts|
    requires CallAt(c.kind, c.pc).Some? && c.pc.i < |s.hosts| && c.pc.i < |c.memory.nodes|
    ensures var s' := CallStep(s, c, chance);
      s'.controller.Some? && |s'.controller.value.memory.nodes| == |s'.hosts| ==>
        if c.kind.ForLaunch? then LaunchDone(s', s'.controller.value) else SweepDone(s', s'.controller.value)
  {
    var i, action := c.pc.i, CallAt(c.kind, c.pc).value;
    var m, h := c.memory.nodes[i], s.hosts[i];
    var o := Act(action, m, h, chance);
    if c.kind.ForLaunch? {
      if o.reply.Some? && c.pc.Build? {
        assert Unpurged(m);
        StepIsTaken(action, m, h, chance);
      }
      CallKeepsLaunch(s, c, o);
    } else {
      if o.reply.Some? && c.pc.Treat? { TreatmentIsDone(c.kind, m, h, chance); }
      CallKeepsSweep(s, c, o);
    }
  }

  lemma {:induction false} CallKeeps(s: State, c: Controller, chance: Chance)
    requires Kept(s) && s.controller == Some(c)
    requires CallAt(c.kind, c.pc).Some? && c.pc.i < |s.hosts| && c.pc.i < |c.memory.nodes|
    ensures Kept(CallStep(s, c, chance)) == true
  {
    CallKeepsRows(s, c, chance);
    CallKeepsDone(s, c, chance);
    var s' := CallStep(s, c, chance);
    if s'.controller.Some? {
      var c' := s'.controller.value;
      assert c'.memory.phase == c.memory.phase && s'.disk == s.disk && !c'.pc.Authorize? && c'.kind == c.kind;
    }
  }

  /** A saved step makes its node ready for the next one, the last step leaves it up. */
  lemma {:induction false} SavedStepIsReady(s: State, c: Controller, next: Pc)
    requires |c.memory.nodes| == |s.hosts| && LaunchDone(s, c) && c.pc.SaveBuild?
    requires c.memory.phase == s.disk.phase && AfterSave(ForLaunch, c.memory, c.pc) == Some(next)
    ensures LaunchDone(s.(disk := c.memory), c.(pc := next))
  {
    assert next.Build? || next.Finish?;
  }

  lemma {:induction false} SaveKeepsLaunch(s: State, c: Controller, result: WriteResult)
    requires Holding(s, c) && c.kind.ForLaunch? && Saves(c.pc)
    requires SaveStep(s, c, result).controller.Some?
    ensures var s' := SaveStep(s, c, result); LaunchDone(s', s'.controller.value)
  {
    var s' := SaveStep(s, c, result);
    var c' := s'.controller.value;
    if c.pc.SaveBuild? {
      SavedStepIsReady(s, c, c'.pc);
      SameLaunch(s.(disk := c.memory), s', c.(pc := c'.pc), c');
    } else if c.pc.Announce? {
      assert NonePurged(c.memory) by {
        assert forall i :: 0 <= i < |s.hosts| ==> Unused(c.memory.nodes[i], s.hosts[i]);
      }
      assert c'.pc.Build? || c'.pc.Finish?;
      assert LaunchDone(s', c');
    } else {
      assert c'.pc.Baseline? || c'.pc.Announce?;
      assert LaunchDone(s', c');
    }
  }

  lemma {:induction false} SameLaunch(s: State, s': State, c: Controller, c': Controller)
    requires |c.memory.nodes| == |s.hosts| && LaunchDone(s, c) && s.hosts == s'.hosts && s.disk == s'.disk && c == c'
    ensures LaunchDone(s', c')
  {
  }

  lemma {:induction false} SaveKeepsSweep(s: State, c: Controller, result: WriteResult)
    requires Holding(s, c) && !c.kind.ForLaunch? && Saves(c.pc)
    requires SaveStep(s, c, result).controller.Some?
    ensures var s' := SaveStep(s, c, result); SweepDone(s', s'.controller.value)
  {
    var s' := SaveStep(s, c, result);
    assert SweepDone(s', s'.controller.value);
  }

  lemma {:induction false} SaveKeeps(s: State, c: Controller, result: WriteResult)
    requires Kept(s) && s.controller == Some(c) && Saves(c.pc)
    ensures Kept(SaveStep(s, c, result))
  {
    var s' := SaveStep(s, c, result);
    assert s'.hosts == s.hosts;
    assert Rows(s', s'.disk);
    if s'.controller.Some? {
      if c.kind.ForLaunch? { SaveKeepsLaunch(s, c, result); } else { SaveKeepsSweep(s, c, result); }
      assert Rows(s', s'.controller.value.memory);
    }
  }

  lemma {:induction false} TurnKeeps(s: State, c: Controller)
    requires Kept(s) && s.controller == Some(c) && c.pc.Visit?
    ensures Kept(s.(controller := Some(TurnStep(c))))
  {
    var s' := s.(controller := Some(TurnStep(c)));
    if c.pc.i < |s.hosts| {
      assert GoneIfPurged(c.memory.nodes[c.pc.i], s.hosts[c.pc.i]);
    }
    assert Rows(s', s'.disk) && Rows(s', c.memory);
    assert SweepDone(s', TurnStep(c));
  }

  lemma {:induction false} NextKeeps(s: State, e: Event)
    requires Kept(s)
    ensures Kept(Next(s, e))
  {
    match s.controller
    case None =>
      if e.Begin? {
        var c := Controller(e.kind, s.disk, Authorize, false);
        assert Rows(Next(s, e), s.disk);
        assert Holding(Next(s, e), c);
      }
    case Some(c) =>
      if e.Crash? {
        assert Rows(Next(s, e), s.disk);
      } else if e.Turn? && c.pc.Visit? {
        TurnKeeps(s, c);
      } else if e.Call? && CallAt(c.kind, c.pc).Some? && c.pc.i < |s.hosts| && c.pc.i < |c.memory.nodes| {
        CallKeeps(s, c, e.chance);
      } else if e.Save? && Saves(c.pc) {
        SaveKeeps(s, c, e.result);
      }
  }

  lemma {:induction false} RunKeeps(s: State, events: seq<Event>)
    requires Kept(s)
    ensures Kept(Run(s, events))
    decreases |events|
  {
    if events != [] {
      NextKeeps(s, events[0]);
      RunKeeps(Next(s, events[0]), events[1..]);
    }
  }

  // ----- a phase is entered only when it has been earned -----

  /** A launch that is done, or a sweep without failure, writes its phase. */
  predicate Enters(s: State, e: Event) {
    && s.controller.Some? && !s.leftover && e.Save? && (e.result.Saved? || e.result.SavedThenRaised?)
    && (s.controller.value.pc.Finish? || (s.controller.value.pc.Close? && !s.controller.value.failed))
  }

  lemma {:induction false} EnteredIsEarned(s: State, e: Event)
    requires Kept(s) && (Enters(s, e) || Next(s, e).disk.phase != s.disk.phase)
    ensures |Next(s, e).disk.nodes| == |s.hosts| && Next(s, e).hosts == s.hosts
    ensures AllEarned(Next(s, e).disk.phase, Next(s, e).disk.nodes, s.hosts)
  {
    var c := s.controller.value;
    assert Holding(s, c);
  }

  /**
   * In every run, whatever crashes, is lost or fails: when a controller writes its phase, every node is as that
   * phase says.  A launched node runs the container of its row, in its network and its root; a stopped one has been
   * stopped in its root or never had one; an exported one has its recorded archive; a purged one has that and no root.
   */
  lemma {:induction false} EveryPhaseIsEarned(n: nat, events: seq<Event>, e: Event)
    requires var s := Run(PlannedLab(n), events); Enters(s, e) || Next(s, e).disk.phase != s.disk.phase
    ensures var s := Next(Run(PlannedLab(n), events), e);
      |s.disk.nodes| == |s.hosts| && AllEarned(s.disk.phase, s.disk.nodes, s.hosts)
  {
    assert Kept(PlannedLab(n));
    RunKeeps(PlannedLab(n), events);
    EnteredIsEarned(Run(PlannedLab(n), events), e);
  }
}
