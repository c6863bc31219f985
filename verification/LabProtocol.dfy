// scripts/k06-owned-lab.py, `main`: launch, cleanup, export and purge as a crash-tolerant protocol.
//
// The state is what survives a crash (the hosts, the manifest on disk, a leftover temporary file)
// plus the running controller, if any.  `Next` takes one step; `Run` takes any number of them.
//
// Two assumptions.  A remote action has landed or failed by the time the controller sees its reply or
// error, or before the next controller starts.  One controller runs at a time.
module LabProtocol {
  import opened Wrappers
  import opened LabHost

  datatype Phase = Planned | Launching | Launched | StoppedRetained | ExportedPrivate | PurgedRetained

  datatype Manifest = Manifest(phase: Phase, nodes: seq<Node>)

  datatype Kind = ForLaunch | ForCleanup | ForExport | ForPurge

  /** Where the controller is: `Save...` is a pending write of the manifest. */
  datatype Pc =
    | Authorize
    | Baseline(i: nat) | SaveBaseline(i: nat)
    | Announce
    | Build(i: nat, step: Action) | SaveBuild(i: nat, step: Action)
    | Finish
    | Visit(i: nat)
    | Probe(i: nat) | SaveProbe(i: nat)
    | Lookup(i: nat) | SaveLookup(i: nat)
    | Treat(i: nat) | SaveTreat(i: nat)
    | Close

  datatype Controller = Controller(kind: Kind, memory: Manifest, pc: Pc, failed: bool)

  /** `leftover`: the temporary file of an interrupted manifest write is still there. */
  datatype State = State(hosts: seq<Host>, disk: Manifest, leftover: bool, controller: Option<Controller>)

  /**
   * How a manifest write ends: replaced; replaced, then an exception; an exception or a crash with
   * the temporary file left behind; an exception before the file was opened.
   */
  datatype WriteResult = Saved | SavedThenRaised | Torn | NotOpened

  datatype Event = Begin(kind: Kind) | Crash | Turn | Call(chance: Chance) | Save(result: WriteResult)

  // ----- steps -----

  function ActionOf(kind: Kind): Action {
    match kind
    case ForCleanup => Cleanup
    case ForExport => Export
    case ForPurge => Purge
    case ForLaunch => Preflight
  }

  function PhaseAfter(kind: Kind): Phase {
    match kind
    case ForCleanup => StoppedRetained
    case ForExport => ExportedPrivate
    case ForPurge => PurgedRetained
    case ForLaunch => Launched
  }

  /** The action a calling program point sends to node `pc.i`. */
  function CallAt(kind: Kind, pc: Pc): Option<Action> {
    match pc
    case Baseline(_) => Some(Preflight)
    case Build(_, step) => Some(step)
    case Probe(_) => Some(ProbeRoot)
    case Lookup(_) => Some(Recover)
    case Treat(_) => Some(ActionOf(kind))
    case _ => None
  }

  function PendingSave(pc: Pc): Pc {
    match pc
    case Baseline(i) => SaveBaseline(i)
    case Build(i, step) => SaveBuild(i, step)
    case Probe(i) => SaveProbe(i)
    case Lookup(i) => SaveLookup(i)
    case Treat(i) => SaveTreat(i)
    case _ => pc
  }

  predicate Saves(pc: Pc) {
    pc.Authorize? || pc.SaveBaseline? || pc.Announce? || pc.SaveBuild? || pc.Finish?
    || pc.SaveProbe? || pc.SaveLookup? || pc.SaveTreat? || pc.Close?
  }

  predicate InsideTry(pc: Pc) {
    pc.Probe? || pc.SaveProbe? || pc.Lookup? || pc.SaveLookup? || pc.Treat? || pc.SaveTreat?
  }

  /** What is about to be written: three program points change the phase first. */
  function ToWrite(c: Controller): Manifest {
    match c.pc
    case Announce => c.memory.(phase := Launching)
    case Finish => c.memory.(phase := Launched)
    case Close => c.memory.(phase := PhaseAfter(c.kind))
    case _ => c.memory
  }

  /** Where the controller goes after a write; None when it is done or refuses. */
  function AfterSave(kind: Kind, m: Manifest, pc: Pc): Option<Pc> {
    var n := |m.nodes|;
    match pc
    case Authorize =>
      if !kind.ForLaunch? then Some(Visit(0))
      else if m.phase != Planned then None
      else Some(if n == 0 then Announce else Baseline(0))
    case SaveBaseline(i) => Some(if i + 1 < n then Baseline(i + 1) else Announce)
    case Announce => Some(if n == 0 then Finish else Build(0, Claim))
    case SaveBuild(i, step) =>
      Some(if step.Claim? then Build(i, MakeNetwork)
           else if step.MakeNetwork? then Build(i, Create)
           else if step.Create? then Build(i, Start)
           else if i + 1 < n then Build(i + 1, Claim)
           else Finish)
    case SaveProbe(i) => Some(if i < n && m.nodes[i].claimed then Lookup(i) else Visit(i + 1))
    case SaveLookup(i) => Some(Treat(i))
    case SaveTreat(i) => Some(Visit(i + 1))
    case _ => None
  }

  /** An exception: inside the sweep's `try` it is noted, anywhere else it ends the controller. */
  function Raise(s: State, c: Controller): State {
    if InsideTry(c.pc) then s.(controller := Some(c.(failed := true, pc := Visit(c.pc.i + 1))))
    else s.(controller := None)
  }

  function CallStep(s: State, c: Controller, chance: Chance): State
    requires CallAt(c.kind, c.pc).Some? && c.pc.i < |s.hosts| && c.pc.i < |c.memory.nodes|
  {
    var i := c.pc.i;
    Deliver(s, c, Act(CallAt(c.kind, c.pc).value, c.memory.nodes[i], s.hosts[i], chance))
  }

  /** The host has changed; a reply updates the node's row, anything else raises. */
  function Deliver(s: State, c: Controller, o: Outcome): State
    requires CallAt(c.kind, c.pc).Some? && c.pc.i < |s.hosts| && c.pc.i < |c.memory.nodes|
  {
    var i := c.pc.i;
    var s' := s.(hosts := s.hosts[i := o.host]);
    if o.reply.None? then Raise(s', c)
    else
      s'.(controller := Some(c.(memory := c.memory.(nodes := c.memory.nodes[i := o.reply.value]),
                                pc := PendingSave(c.pc))))
  }

  function SaveStep(s: State, c: Controller, result: WriteResult): State {
    var m := ToWrite(c);
    if c.pc.Close? && c.failed then s.(controller := None)
    else if s.leftover || result.NotOpened? then Raise(s, c.(memory := m))
    else if result.Torn? then Raise(s.(leftover := true), c.(memory := m))
    else if result.SavedThenRaised? then Raise(s.(disk := m), c.(memory := m))
    else
      var next := AfterSave(c.kind, m, c.pc);
      s.(disk := m, controller := if next.None? then None else Some(c.(memory := m, pc := next.value)))
  }

  function TurnStep(c: Controller): Controller
    requires c.pc.Visit?
  {
    var i := c.pc.i;
    c.(pc := if i >= |c.memory.nodes| then Close
             else if c.memory.nodes[i].purged then Visit(i + 1)
             else if c.kind.ForCleanup? then Probe(i)
             else Treat(i))
  }

  function Next(s: State, e: Event): State {
    match s.controller
    case None =>
      if e.Begin? then s.(controller := Some(Controller(e.kind, s.disk, Authorize, false))) else s
    case Some(c) =>
      match e
      case Begin(_) => s
      case Crash => s.(controller := None)
      case Turn => if c.pc.Visit? then s.(controller := Some(TurnStep(c))) else s
      case Call(chance) =>
        if CallAt(c.kind, c.pc).Some? && c.pc.i < |s.hosts| && c.pc.i < |c.memory.nodes|
        then CallStep(s, c, chance) else s
      case Save(result) => if Saves(c.pc) then SaveStep(s, c, result) else s
  }

  function Run(s: State, events: seq<Event>): State
    decreases |events|
  {
    if events == [] then s else Run(Next(s, events[0]), events[1..])
  }

  /** A freshly planned campaign. */
  function PlannedLab(n: nat): State {
    State(seq(n, _ => FRESH_HOST), Manifest(Planned, seq(n, _ => FRESH_NODE)), false, None)
  }

  predicate FaithfulEvent(e: Event) { e.Call? ==> SeesAll(e.chance) }

  ghost predicate Faithful(events: seq<Event>) {
    forall k :: 0 <= k < |events| ==> FaithfulEvent(events[k])
  }

  // ----- invariant -----

  predicate HostOk(h: Host) {
    && (h.container.Some? ==> h.network.Some?)
    && (h.network.Some? ==> h.root == Owned)
    && (h.root == Owned ==> h.everOwned)
  }

  /** What a manifest row claims is true of the host. */
  predicate RowTrue(n: Node, h: Host) {
    && (n.stopped ==> h.network.None?)
    && (n.exported.Some? ==> h.archive == n.exported)
    && (n.purged ==> h.root != Owned)
    && (h.container.Some? ==> n.image == Some(h.container.value.image))
    && (n.container.Some? ==> n.image.Some?)
  }

  /** A claimed root survives unharmed, or its recorded export does. */
  predicate Preserved(n: Node, h: Host) {
    h.everOwned ==> (h.root == Owned && h.intact) || (n.exported.Some? && h.archive == n.exported)
  }

  predicate FreshRow(n: Node) {
    !n.stopped && !n.purged && n.exported.None?
  }

  predicate Untouched(n: Node, h: Host) {
    FreshRow(n) && h.root == Missing && !h.everOwned && h.network.None?
  }

  predicate Settled(phase: Phase) {
    phase.StoppedRetained? || phase.ExportedPrivate? || phase.PurgedRetained?
  }

  predicate DiskRow(n: Node, h: Host) {
    HostOk(h) && RowTrue(n, h) && Preserved(n, h)
  }

  predicate MemoryRow(m: Node, d: Node, h: Host) {
    RowTrue(m, h) && (d.exported.Some? ==> m.exported == d.exported)
  }

  /** The row `recover` has just filled in names exactly what the host holds. */
  predicate Recorded(m: Node, h: Host) {
    m.network == h.network && m.container == (if h.container.Some? then Some(h.container.value.id) else None)
  }

  ghost predicate DiskInv(s: State) {
    && |s.disk.nodes| == |s.hosts|
    && (forall i :: 0 <= i < |s.hosts| ==> DiskRow(s.disk.nodes[i], s.hosts[i]))
    && (s.disk.phase.Planned? ==> forall i :: 0 <= i < |s.hosts| ==> Untouched(s.disk.nodes[i], s.hosts[i]))
    && (Settled(s.disk.phase) ==> forall i :: 0 <= i < |s.hosts| ==> s.hosts[i].network.None?)
  }

  ghost predicate MemoryInv(s: State, c: Controller) {
    && |c.memory.nodes| == |s.hosts| == |s.disk.nodes|
    && (forall i :: 0 <= i < |s.hosts| ==> MemoryRow(c.memory.nodes[i], s.disk.nodes[i], s.hosts[i]))
    && (c.kind.ForPurge? ==> forall i :: 0 <= i < |s.hosts| ==> c.memory.nodes[i].exported == s.disk.nodes[i].exported)
    && (c.pc.Authorize? ==> c.memory == s.disk)
  }

  predicate Baselining(pc: Pc) { pc.Baseline? || pc.SaveBaseline? || pc.Announce? }

  predicate Building(pc: Pc) { pc.Build? || pc.SaveBuild? || pc.Finish? }

  predicate LaunchStep(step: Action) { step.Claim? || step.MakeNetwork? || step.Create? || step.Start? }

  ghost predicate AllFresh(nodes: seq<Node>) {
    forall i :: 0 <= i < |nodes| ==> FreshRow(nodes[i])
  }

  ghost predicate LaunchInv(s: State, c: Controller) {
    && (c.pc.Authorize? || Baselining(c.pc) || Building(c.pc))
    && (Baselining(c.pc) ==> s.disk.phase == Planned && c.memory.phase == Planned && AllFresh(c.memory.nodes))
    && (Building(c.pc) ==>
          && s.disk.phase == Launching && c.memory.phase == Launching
          && AllFresh(c.memory.nodes) && AllFresh(s.disk.nodes)
          && (forall i :: 0 <= i < |s.hosts| && i < |c.memory.nodes| && i < |s.disk.nodes| ==>
                c.memory.nodes[i].image == s.disk.nodes[i].image))
    && (c.pc.Build? || c.pc.SaveBuild? ==> LaunchStep(c.pc.step))
  }

  /** Nodes before this index have been dealt with by a sweep that has not failed. */
  function Done(s: State, pc: Pc): nat {
    if pc.Visit? || pc.Probe? || pc.SaveProbe? || pc.Lookup? || pc.SaveLookup? || pc.Treat? then pc.i
    else if pc.SaveTreat? then pc.i + 1
    else if pc.Close? then |s.hosts|
    else 0
  }

  ghost predicate SweepInv(s: State, c: Controller) {
    && (c.pc.Authorize? || c.pc.Visit? || InsideTry(c.pc) || c.pc.Close?)
    && c.memory.phase == s.disk.phase
    && (c.memory.phase == Planned ==> AllFresh(c.memory.nodes))
    && (!c.failed ==> forall j :: 0 <= j < Done(s, c.pc) && j < |s.hosts| ==> s.hosts[j].network.None?)
    && (c.pc.SaveProbe? && c.pc.i < |s.hosts| && c.pc.i < |c.memory.nodes| && !c.memory.nodes[c.pc.i].claimed ==>
          s.hosts[c.pc.i].network.None?)
    && (c.kind.ForCleanup? && (c.pc.SaveLookup? || c.pc.Treat?) && c.pc.i < |s.hosts| && c.pc.i < |c.memory.nodes| ==>
          Recorded(c.memory.nodes[c.pc.i], s.hosts[c.pc.i]))
    && (c.pc.Probe? || c.pc.SaveProbe? || c.pc.Lookup? || c.pc.SaveLookup? ==> c.kind.ForCleanup?)
  }

  ghost predicate Inv(s: State) {
    && DiskInv(s)
    && (s.controller.Some? ==>
          var c := s.controller.value;
          MemoryInv(s, c) && if c.kind.ForLaunch? then LaunchInv(s, c) else SweepInv(s, c))
  }

  // ----- one action on one node -----

  /** What makes an action safe to send, from the controller's side. */
  predicate SafeToSend(action: Action, m: Node, d: Node, h: Host) {
    && (action.Claim? || action.MakeNetwork? || action.Create? || action.Start? ==> FreshRow(m) && FreshRow(d))
    && (action.Create? ==> m.image == d.image)
    && (action.Purge? ==> m.exported == d.exported)
    && (action.Preflight? ==> h.container.None?)
    && (action.Cleanup? ==> Recorded(m, h))
  }

  /** Cut off anywhere, an action leaves the host, its disk row and its memory row consistent. */
  lemma {:induction false} ActKeepsRows(action: Action, m: Node, d: Node, h: Host, c: Chance)
    requires DiskRow(d, h) && MemoryRow(m, d, h) && SafeToSend(action, m, d, h) && SeesAll(c)
    ensures var o := Act(action, m, h, c);
      && DiskRow(d, o.host)
      && MemoryRow(m, d, o.host)
      && (o.reply.Some? ==> MemoryRow(o.reply.value, d, o.host))
  {
    if action.Cleanup? && h.root == Owned {
      CleanupKeepsRows(m, d, h, c);
    }
  }

  /** Cleanup aimed at exactly what the host holds removes the container before the network. */
  lemma {:induction false} CleanupKeepsRows(m: Node, d: Node, h: Host, c: Chance)
    requires DiskRow(d, h) && MemoryRow(m, d, h) && h.root == Owned && Recorded(m, h)
    ensures var o := Act(Cleanup, m, h, c);
      && DiskRow(d, o.host)
      && MemoryRow(m, d, o.host)
      && (o.reply.Some? ==> o.host.network.None? && MemoryRow(o.reply.value, d, o.host))
  {
    var t := CleanupPlan(m, h);
    forall k | 0 <= k < |t.states|
      ensures CleanupState(h, t.states[k])
    {
      if m.container.Some? && !h.log {
        var removed := h.(container := None, log := true);
        assert t.states[3..] == NetworkPlan(m, removed).states;
        assert k >= 3 ==> t.states[k] == NetworkPlan(m, removed).states[k - 3];
      }
    }
  }

  /** A state cleanup can pass through on a host it was aimed at. */
  predicate CleanupState(before: Host, h: Host) {
    && h.root == before.root && h.intact == before.intact && h.everOwned == before.everOwned
    && h.archive == before.archive
    && (h.network == before.network || (h.network.None? && h.container.None?))
    && (h.container.Some? ==> before.container.Some? && h.container.value.image == before.container.value.image)
  }

  // ----- every step keeps the invariant -----

  predicate SweepAction(action: Action) {
    action.ProbeRoot? || action.Recover? || action.Cleanup? || action.Export? || action.Purge?
  }

  lemma {:induction false} SweepActionsCreateNothing(action: Action, m: Node, h: Host, c: Chance)
    requires SweepAction(action)
    ensures var o := Act(action, m, h, c);
      && (o.host.network == h.network || o.host.network.None?)
      && (h.root == Missing ==> o.host == h)
      && (h.root == Missing && o.reply.Some? && FreshRow(m) ==> FreshRow(o.reply.value))
  {
    if action.Cleanup? && h.root == Owned {
      var t := CleanupPlan(m, h);
      assert forall k :: 0 <= k < |t.states| ==> t.states[k].network == h.network || t.states[k].network.None?;
    }
  }

  /** A finished action of the sweep proper leaves its node without a network. */
  lemma {:induction false} TreatedNodeIsSettled(action: Action, m: Node, d: Node, h: Host, c: Chance)
    requires DiskRow(d, h) && MemoryRow(m, d, h) && SafeToSend(action, m, d, h) && SeesAll(c)
    requires action.Cleanup? || action.Export? || action.Purge?
    requires Act(action, m, h, c).reply.Some?
    ensures Act(action, m, h, c).host.network.None?
  {
    if action.Cleanup? && h.root == Owned {
      CleanupKeepsRows(m, d, h, c);
    }
  }

  lemma {:induction false} LaunchActionsKeepRowsFresh(action: Action, m: Node, h: Host, c: Chance)
    requires FreshRow(m) && (action.Preflight? || LaunchStep(action)) && Act(action, m, h, c).reply.Some?
    ensures FreshRow(Act(action, m, h, c).reply.value)
    ensures LaunchStep(action) ==> Act(action, m, h, c).reply.value.image == m.image
    ensures action.Preflight? ==> Act(action, m, h, c).host == h
  {
  }

  /** The rows after the call, all but the called node untouched. */
  lemma {:induction false} DeliverKeepsRows(s: State, c: Controller, o: Outcome)
    requires CallAt(c.kind, c.pc).Some? && c.pc.i < |s.hosts|
    requires DiskInv(s) && MemoryInv(s, c)
    requires var i := c.pc.i; var d := s.disk.nodes[i];
      && DiskRow(d, o.host) && MemoryRow(c.memory.nodes[i], d, o.host)
      && (o.reply.Some? ==> MemoryRow(o.reply.value, d, o.host))
      && (o.reply.Some? && c.kind.ForPurge? ==> o.reply.value.exported == c.memory.nodes[i].exported)
    ensures forall i :: 0 <= i < |s.hosts| ==> DiskRow(s.disk.nodes[i], Deliver(s, c, o).hosts[i])
    ensures var s' := Deliver(s, c, o); s'.controller.Some? ==> MemoryInv(s', s'.controller.value)
  {
    assert !PendingSave(c.pc).Authorize?;
  }

  /** Everything a call can do to a launch keeps what is particular to a launch. */
  lemma {:induction false} DeliverKeepsLaunch(s: State, c: Controller, o: Outcome)
    requires CallAt(c.kind, c.pc).Some? && c.pc.i < |s.hosts|
    requires Inv(s) && s.controller == Some(c) && c.kind.ForLaunch?
    requires c.pc.Baseline? ==> o.host == s.hosts[c.pc.i]
    requires o.reply.Some? ==> FreshRow(o.reply.value)
    requires o.reply.Some? && c.pc.Build? ==> o.reply.value.image == c.memory.nodes[c.pc.i].image
    requires forall i :: 0 <= i < |s.hosts| ==> DiskRow(s.disk.nodes[i], Deliver(s, c, o).hosts[i])
    ensures DiskInv(Deliver(s, c, o))
    ensures var s' := Deliver(s, c, o); s'.controller.Some? ==> LaunchInv(s', s'.controller.value)
  {
    var s' := Deliver(s, c, o);
    if c.pc.Baseline? {
      assert s.hosts[c.pc.i := o.host] == s.hosts;
    }
    assert DiskInv(s');
    if o.reply.Some? {
      assert AllFresh(s'.controller.value.memory.nodes);
      assert LaunchInv(s', s'.controller.value);
    }
  }

  lemma {:induction false} LaunchCallKeepsInv(s: State, c: Controller, chance: Chance)
    requires CallAt(c.kind, c.pc).Some? && c.pc.i < |s.hosts|
    requires Inv(s) && s.controller == Some(c) && c.kind.ForLaunch? && SeesAll(chance)
    ensures Inv(CallStep(s, c, chance))
  {
    var i, action := c.pc.i, CallAt(c.kind, c.pc).value;
    var m, d, h := c.memory.nodes[i], s.disk.nodes[i], s.hosts[i];
    assert DiskRow(d, h) && MemoryRow(m, d, h) && FreshRow(m);
    assert SafeToSend(action, m, d, h) by {
      if c.pc.Baseline? {
        assert Untouched(d, h);
      }
    }
    ActKeepsRows(action, m, d, h, chance);
    var o := Act(action, m, h, chance);
    if o.reply.Some? {
      LaunchActionsKeepRowsFresh(action, m, h, chance);
    }
    CallOutcome(s, c, o);
  }

  lemma {:induction false} CallOutcome(s: State, c: Controller, o: Outcome)
    requires CallAt(c.kind, c.pc).Some? && c.pc.i < |s.hosts|
    requires Inv(s) && s.controller == Some(c) && c.kind.ForLaunch?
    requires c.pc.Baseline? ==> o.host == s.hosts[c.pc.i]
    requires o.reply.Some? ==> FreshRow(o.reply.value)
    requires o.reply.Some? && c.pc.Build? ==> o.reply.value.image == c.memory.nodes[c.pc.i].image
    requires var d := s.disk.nodes[c.pc.i];
      && DiskRow(d, o.host) && MemoryRow(c.memory.nodes[c.pc.i], d, o.host)
      && (o.reply.Some? ==> MemoryRow(o.reply.value, d, o.host))
    ensures Inv(Deliver(s, c, o))
  {
    DeliverKeepsRows(s, c, o);
    DeliverKeepsLaunch(s, c, o);
  }

  /** A sweep never creates a network, and never touches a host without a root. */
  ghost predicate Shrinks(s: State, c: Controller, o: Outcome)
    requires CallAt(c.kind, c.pc).Some? && c.pc.i < |s.hosts|
  {
    var h := s.hosts[c.pc.i];
    && (o.host.network == h.network || o.host.network.None?)
    && (h.root == Missing ==> o.host == h)
    && (h.root == Missing && o.reply.Some? && c.pc.i < |c.memory.nodes| && FreshRow(c.memory.nodes[c.pc.i]) ==>
          FreshRow(o.reply.value))
  }

  lemma {:induction false} DeliverKeepsSweep(s: State, c: Controller, o: Outcome)
    requires CallAt(c.kind, c.pc).Some? && c.pc.i < |s.hosts|
    requires DiskInv(s) && MemoryInv(s, c) && SweepInv(s, c) && !c.kind.ForLaunch? && Shrinks(s, c, o)
    requires o.reply.Some? ==>
      && (c.pc.Treat? ==> o.host.network.None?)
      && (c.pc.Probe? && !o.reply.value.claimed ==> o.host.network.None?)
      && (c.pc.Lookup? ==> Recorded(o.reply.value, o.host))
    ensures var s' := Deliver(s, c, o); s'.controller.Some? && SweepInv(s', s'.controller.value)
  {
    var s' := Deliver(s, c, o);
    var i := c.pc.i;
    assert s.disk.phase.Planned? ==> Untouched(s.disk.nodes[i], s.hosts[i]);
    assert SweepInv(s', s'.controller.value);
  }

  lemma {:induction false} DeliverKeepsDisk(s: State, c: Controller, o: Outcome)
    requires CallAt(c.kind, c.pc).Some? && c.pc.i < |s.hosts|
    requires DiskInv(s) && MemoryInv(s, c) && !c.kind.ForLaunch? && Shrinks(s, c, o)
    requires forall i :: 0 <= i < |s.hosts| ==> DiskRow(s.disk.nodes[i], Deliver(s, c, o).hosts[i])
    ensures DiskInv(Deliver(s, c, o))
  {
    var s' := Deliver(s, c, o);
    if s.disk.phase.Planned? {
      assert Untouched(s.disk.nodes[c.pc.i], s.hosts[c.pc.i]);
      assert s'.hosts == s.hosts;
    }
    assert DiskInv(s');
  }

  lemma {:induction false} SweepCallKeepsInv(s: State, c: Controller, chance: Chance)
    requires CallAt(c.kind, c.pc).Some? && c.pc.i < |s.hosts|
    requires Inv(s) && s.controller == Some(c) && !c.kind.ForLaunch? && SeesAll(chance)
    ensures Inv(CallStep(s, c, chance)) == true
  {
    var i, action := c.pc.i, CallAt(c.kind, c.pc).value;
    var m, d, h := c.memory.nodes[i], s.disk.nodes[i], s.hosts[i];
    assert DiskRow(d, h) && MemoryRow(m, d, h);
    ActKeepsRows(action, m, d, h, chance);
    SweepActionsCreateNothing(action, m, h, chance);
    var o := Act(action, m, h, chance);
    if o.reply.Some? && c.pc.Treat? {
      TreatedNodeIsSettled(action, m, d, h, chance);
    }
    DeliverKeepsRows(s, c, o);
    DeliverKeepsDisk(s, c, o);
    DeliverKeepsSweep(s, c, o);
  }

  // ----- writes and turns -----

  lemma {:induction false} SaveKeepsInv(s: State, c: Controller, result: WriteResult)
    requires Inv(s) && s.controller == Some(c) && Saves(c.pc)
    ensures Inv(SaveStep(s, c, result))
  {
    if !(c.pc.Close? && c.failed) {
      WrittenManifestIsTrue(s, c);
      var s' := SaveStep(s, c, result);
      assert DiskInv(s');
      if s'.controller.Some? {
        SavedMemory(s, c, result);
        if c.kind.ForLaunch? {
          assert s.disk.phase == Planned ==> AllFresh(s.disk.nodes) by {
            assert s.disk.phase == Planned ==> forall i :: 0 <= i < |s.hosts| ==>
              Untouched(s.disk.nodes[i], s.hosts[i]);
          }
          LaunchSaveKeepsInv(s, c, result);
        } else if s'.controller.value.failed && !c.failed {
          assert SweepInv(s', s'.controller.value);
        } else {
          SweepSaveKeepsInv(s, c, result);
        }
      }
    }
  }

  lemma {:induction false} SavedMemory(s: State, c: Controller, result: WriteResult)
    requires Inv(s) && s.controller == Some(c) && Saves(c.pc) && SaveStep(s, c, result).controller.Some?
    ensures var s' := SaveStep(s, c, result); MemoryInv(s', s'.controller.value)
  {
  }

  /** The manifest about to be written is as true of the hosts as the one on disk. */
  lemma {:induction false} WrittenManifestIsTrue(s: State, c: Controller)
    requires Inv(s) && s.controller == Some(c) && Saves(c.pc) && (c.pc.Close? ==> !c.failed)
    ensures DiskInv(s.(disk := ToWrite(c)))
  {
    var m := ToWrite(c);
    forall i | 0 <= i < |s.hosts|
      ensures DiskRow(m.nodes[i], s.hosts[i])
    {
      assert DiskRow(s.disk.nodes[i], s.hosts[i]) && MemoryRow(c.memory.nodes[i], s.disk.nodes[i], s.hosts[i]);
    }
    if m.phase.Planned? {
      forall i | 0 <= i < |s.hosts|
        ensures Untouched(m.nodes[i], s.hosts[i])
      {
        assert Untouched(s.disk.nodes[i], s.hosts[i]);
        assert FreshRow(c.memory.nodes[i]);
      }
    }
    assert DiskInv(s.(disk := m));
  }

  lemma {:induction false} LaunchSaveKeepsInv(s: State, c: Controller, result: WriteResult)
    requires MemoryInv(s, c) && LaunchInv(s, c) && c.kind.ForLaunch? && Saves(c.pc) && !c.pc.Close?
    requires c.pc.Authorize? && s.disk.phase == Planned ==> AllFresh(s.disk.nodes)
    requires SaveStep(s, c, result).controller.Some?
    ensures var s' := SaveStep(s, c, result); LaunchInv(s', s'.controller.value)
  {
    var s' := SaveStep(s, c, result);
    assert LaunchInv(s', s'.controller.value);
  }

  lemma {:induction false} SweepSaveKeepsInv(s: State, c: Controller, result: WriteResult)
    requires MemoryInv(s, c) && SweepInv(s, c) && !c.kind.ForLaunch? && Saves(c.pc)
    requires SaveStep(s, c, result).controller.Some?
    ensures var s' := SaveStep(s, c, result); SweepInv(s', s'.controller.value)
  {
    var s' := SaveStep(s, c, result);
    assert SweepInv(s', s'.controller.value);
  }

  lemma {:induction false} TurnKeepsInv(s: State, c: Controller)
    requires Inv(s) && s.controller == Some(c) && c.pc.Visit?
    ensures Inv(s.(controller := Some(TurnStep(c))))
  {
    var i := c.pc.i;
    if i < |s.hosts| {
      assert MemoryRow(c.memory.nodes[i], s.disk.nodes[i], s.hosts[i]) && HostOk(s.hosts[i]) by {
        assert DiskRow(s.disk.nodes[i], s.hosts[i]);
      }
    }
    var s' := s.(controller := Some(TurnStep(c)));
    assert MemoryInv(s', TurnStep(c));
    assert SweepInv(s', TurnStep(c));
  }

  lemma {:induction false} NextKeepsInv(s: State, e: Event)
    requires Inv(s) && FaithfulEvent(e)
    ensures Inv(Next(s, e))
  {
    match s.controller
    case None =>
      if e.Begin? {
        forall i | 0 <= i < |s.hosts|
          ensures MemoryRow(s.disk.nodes[i], s.disk.nodes[i], s.hosts[i])
        {
          assert DiskRow(s.disk.nodes[i], s.hosts[i]);
        }
        BeginKeepsInv(s, e.kind);
      }
    case Some(c) =>
      if e.Call? && CallAt(c.kind, c.pc).Some? && c.pc.i < |s.hosts| && c.pc.i < |c.memory.nodes| {
        if c.kind.ForLaunch? { LaunchCallKeepsInv(s, c, e.chance); } else { SweepCallKeepsInv(s, c, e.chance); }
      } else if e.Save? && Saves(c.pc) {
        SaveKeepsInv(s, c, e.result);
      } else if e.Turn? && c.pc.Visit? {
        TurnKeepsInv(s, c);
      }
  }

  lemma {:induction false} BeginKeepsInv(s: State, kind: Kind)
    requires Inv(s) && s.controller.None?
    requires forall i :: 0 <= i < |s.hosts| ==> MemoryRow(s.disk.nodes[i], s.disk.nodes[i], s.hosts[i])
    ensures Inv(s.(controller := Some(Controller(kind, s.disk, Authorize, false))))
  {
    if s.disk.phase == Planned {
      forall i | 0 <= i < |s.hosts|
        ensures FreshRow(s.disk.nodes[i])
      {
        assert Untouched(s.disk.nodes[i], s.hosts[i]);
      }
    }
  }
}
