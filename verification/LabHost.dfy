// scripts/k06-owned-lab.py, `worker`: what one remote action does to one lab host.
//
// An action is a list of effects.  It can be cut off after any of them (an exception, a timeout, a
// lost connection), and even a finished action can lose its reply.  `Chance` carries those choices
// together with the values Docker and the archiver come up with.
module LabHost {
  import opened Wrappers

  datatype Root = Missing | Unmarked | Owned

  datatype Archive = Archive(bytes: nat, sha256: int)

  datatype Container = Container(id: int, image: int, running: bool)

  /**
   * One host as the lab sees it.  `intact` says that nothing was deleted beneath the owned root;
   * `everOwned` remembers that this campaign once claimed the root.
   */
  datatype Host = Host(
    root: Root, intact: bool, everOwned: bool, network: Option<int>, container: Option<Container>,
    files: bool, log: bool, archive: Option<Archive>)

  const FRESH_HOST := Host(Missing, false, false, None, None, false, false, None)

  /** A node's row in the manifest. */
  datatype Node = Node(
    image: Option<int>, claimed: bool, network: Option<int>, container: Option<int>, stopped: bool,
    exported: Option<Archive>, purged: bool)

  const FRESH_NODE := Node(None, false, None, None, false, None, false)

  datatype Action = Preflight | Claim | MakeNetwork | Create | Start | ProbeRoot | Recover | Cleanup | Export | Purge

  /**
   * `landed` effects take place before the action is cut off; `replied` says whether a finished
   * action's reply arrives.  `seesNetwork` and `seesContainer` say whether `inspect` finds the object
   * when the host holds it; when it fails, the lookup takes it for absent.
   */
  datatype Chance = Chance(landed: nat, replied: bool, seesNetwork: bool, seesContainer: bool, id: int,
                           partial: Archive, whole: Archive)

  /** `inspect` fails only when the object is absent. */
  predicate SeesAll(c: Chance) { c.seesNetwork && c.seesContainer }

  // ----- specification -----

  /** The hosts an action passes through, and whether it gets to its end. */
  datatype Trace = Trace(states: seq<Host>, finished: bool)

  ghost predicate Proper(t: Trace, h: Host) {
    t.states != [] && t.states[0] == h
  }

  function Last(t: Trace): Host
    requires t.states != []
  {
    t.states[|t.states| - 1]
  }

  function Plan(action: Action, n: Node, h: Host, c: Chance): (t: Trace)
    ensures Proper(t, h)
  {
    var refused := Trace([h], false);
    if !action.Preflight? && !action.Claim? && !action.ProbeRoot? && h.root != Owned then refused
    else match action
      case Preflight => Trace([h], true)
      case Claim =>
        if h.root != Missing then refused
        else Trace([h, h.(root := Unmarked), h.(root := Owned, everOwned := true, intact := true)], true)
      case ProbeRoot => Trace([h], h.root != Unmarked)
      case MakeNetwork =>
        if h.network.Some? then refused else Trace([h, h.(network := Some(c.id))], true)
      case Create =>
        if n.image.None? || n.network.None? || n.network != h.network || h.files then refused
        else if h.container.Some? then Trace([h, h.(files := true)], false)
        else Trace([h, h.(files := true),
                    h.(files := true, container := Some(Container(c.id, n.image.value, false)))], true)
      case Start =>
        if !Identified(n, h) then refused
        else Trace([h, h.(container := Some(h.container.value.(running := true)))], true)
      case Recover => Trace([h], c.seesContainer && h.container.Some? ==> n.image == Some(h.container.value.image))
      case Cleanup => CleanupPlan(n, h)
      case Export =>
        if !n.stopped || h.container.Some? || h.archive.Some? then refused
        else Trace([h, h.(archive := Some(c.partial)), h.(archive := Some(c.whole))], true)
      case Purge =>
        if !n.stopped || n.exported.None? || h.container.Some? || h.archive != n.exported then refused
        else Trace([h, h.(intact := false), h.(intact := false, root := Unmarked),
                    h.(intact := false, root := Missing)], true)
  }

  /** The container the record names is there, under the image the record names. */
  predicate Identified(n: Node, h: Host) {
    h.container.Some? && n.container == Some(h.container.value.id) && n.image == Some(h.container.value.image)
  }

  function CleanupPlan(n: Node, h: Host): (t: Trace)
    ensures Proper(t, h)
  {
    if n.container.Some? && !Identified(n, h) then Trace([h], false)
    else if n.container.Some? then
      var stopped := h.(container := Some(h.container.value.(running := false)));
      if h.log then Trace([h, stopped], false)
      else
        var logged := stopped.(log := true);
        var removed := logged.(container := None);
        var rest := NetworkPlan(n, removed);
        Trace([h, stopped, logged] + rest.states, rest.finished)
    else NetworkPlan(n, h)
  }

  /** The tail of cleanup: remove the network, then check that the owned ports are free. */
  function NetworkPlan(n: Node, h: Host): (t: Trace)
    ensures Proper(t, h)
  {
    if n.network.None? then Trace([h], !Running(h))
    else if n.network != h.network || Running(h) then Trace([h], false)
    else Trace([h, h.(network := None)], true)
  }

  predicate Running(h: Host) {
    h.container.Some? && h.container.value.running
  }

  /** What the reply adds to the node's row. */
  function Reply(action: Action, n: Node, h: Host, c: Chance): Node {
    match action
    case Preflight => n.(image := Some(c.id))
    case Claim => n.(claimed := true)
    case ProbeRoot => n.(claimed := h.root == Owned)
    case MakeNetwork => n.(network := Some(c.id))
    case Create => n.(container := Some(c.id))
    case Start => n
    case Recover =>
      n.(network := if c.seesNetwork then h.network else None,
         container := if c.seesContainer && h.container.Some? then Some(h.container.value.id) else None)
    case Cleanup => n.(stopped := true)
    case Export => n.(exported := Some(c.whole))
    case Purge => n.(purged := true)
  }

  datatype Outcome = Outcome(host: Host, reply: Option<Node>)

  function Act(action: Action, n: Node, h: Host, c: Chance): Outcome {
    var t := Plan(action, n, h, c);
    var steps := |t.states| - 1;
    if c.landed < steps then Outcome(t.states[c.landed], None)
    else Outcome(Last(t), if t.finished && c.replied then Some(Reply(action, n, h, c)) else None)
  }

  // ----- the worker itself -----

  /** A lab host, changed in place by the worker. */
  class LabMachine {
    var root: Root
    var intact: bool
    var everOwned: bool
    var network: Option<int>
    var container: Option<Container>
    var files: bool
    var log: bool
    var archive: Option<Archive>

    function Now(): Host
      reads this
    {
      Host(root, intact, everOwned, network, container, files, log, archive)
    }

    constructor ()
      ensures Now() == FRESH_HOST
    {
      root, intact, everOwned, network, container := Missing, false, false, None, None;
      files, log, archive := false, false, None;
    }

    method Work(action: Action, n: Node, c: Chance) returns (reply: Option<Node>)
      modifies this
      ensures Outcome(Now(), reply) == Act(action, n, old(Now()), c)
    {
      if action.Preflight? {
        reply := if c.replied then Some(n.(image := Some(c.id))) else None;
      } else if action.Claim? {
        reply := ClaimRoot(n, c);
      } else if action.ProbeRoot? {
        reply := if root != Unmarked && c.replied then Some(n.(claimed := root == Owned)) else None;
      } else if root != Owned {
        reply := None;
      } else if action.MakeNetwork? {
        reply := CreateNetwork(n, c);
      } else if action.Create? {
        reply := CreateContainer(n, c);
      } else if action.Start? {
        reply := StartContainer(n, c);
      } else if action.Recover? {
        reply := RecoverIds(n, c);
      } else if action.Cleanup? {
        reply := CleanUp(n, c);
      } else if action.Export? {
        reply := ExportState(n, c);
      } else {
        reply := PurgeRoot(n, c);
      }
    }

    method ClaimRoot(n: Node, c: Chance) returns (reply: Option<Node>)
      modifies this
      ensures Outcome(Now(), reply) == Act(Claim, n, old(Now()), c)
    {
      if root != Missing || c.landed < 1 { return None; }
      root := Unmarked;
      if c.landed < 2 { return None; }
      root, everOwned, intact := Owned, true, true;
      reply := if c.replied then Some(n.(claimed := true)) else None;
    }

    method CreateNetwork(n: Node, c: Chance) returns (reply: Option<Node>)
      requires root == Owned
      modifies this
      ensures Outcome(Now(), reply) == Act(MakeNetwork, n, old(Now()), c)
    {
      if network.Some? || c.landed < 1 { return None; }
      network := Some(c.id);
      reply := if c.replied then Some(n.(network := Some(c.id))) else None;
    }

    method StartContainer(n: Node, c: Chance) returns (reply: Option<Node>)
      requires root == Owned
      modifies this
      ensures Outcome(Now(), reply) == Act(Start, n, old(Now()), c)
    {
      if !Identified(n, Now()) || c.landed < 1 { return None; }
      container := Some(container.value.(running := true));
      reply := if c.replied then Some(n) else None;
    }

    method ExportState(n: Node, c: Chance) returns (reply: Option<Node>)
      requires root == Owned
      modifies this
      ensures Outcome(Now(), reply) == Act(Export, n, old(Now()), c)
    {
      if !n.stopped || container.Some? || archive.Some? || c.landed < 1 { return None; }
      archive := Some(c.partial);
      if c.landed < 2 { return None; }
      archive := Some(c.whole);
      reply := if c.replied then Some(n.(exported := Some(c.whole))) else None;
    }

    method PurgeRoot(n: Node, c: Chance) returns (reply: Option<Node>)
      requires root == Owned
      modifies this
      ensures Outcome(Now(), reply) == Act(Purge, n, old(Now()), c)
    {
      if !n.stopped || n.exported.None? || container.Some? || archive != n.exported || c.landed < 1 { return None; }
      intact := false;
      if c.landed < 2 { return None; }
      root := Unmarked;
      if c.landed < 3 { return None; }
      root := Missing;
      reply := if c.replied then Some(n.(purged := true)) else None;
    }

    method CreateContainer(n: Node, c: Chance) returns (reply: Option<Node>)
      requires root == Owned
      modifies this
      ensures Outcome(Now(), reply) == Act(Create, n, old(Now()), c)
    {
      reply := None;
      if n.image.None? || n.network.None? || n.network != network || files || c.landed < 1 { return; }
      files := true;
      if c.landed < 2 || container.Some? { return; }
      container := Some(Container(c.id, n.image.value, false));
      if c.replied { reply := Some(n.(container := Some(c.id))); }
    }

    method RecoverIds(n: Node, c: Chance) returns (reply: Option<Node>)
      requires root == Owned
      ensures Outcome(Now(), reply) == Act(Recover, n, Now(), c)
    {
      var result := n.(network := None, container := None);
      if c.seesNetwork {
        result := result.(network := network);
      }
      if c.seesContainer && container.Some? {
        if n.image != Some(container.value.image) { return None; }
        result := result.(container := Some(container.value.id));
      }
      reply := if c.replied then Some(result) else None;
    }

    method CleanUp(n: Node, c: Chance) returns (reply: Option<Node>)
      requires root == Owned
      modifies this
      ensures Outcome(Now(), reply) == Act(Cleanup, n, old(Now()), c)
    {
      reply := None;
      var budget: int := c.landed;
      if n.container.Some? {
        if !Identified(n, Now()) || budget < 1 { return; }
        container := Some(container.value.(running := false));
        if log || budget < 2 { return; }
        log := true;
        if budget < 3 { return; }
        container := None;
        budget := budget - 3;
      }
      if n.network.Some? {
        if n.network != network || Running(Now()) || budget < 1 { return; }
        network := None;
      }
      if !Running(Now()) && c.replied { reply := Some(n.(stopped := true)); }
    }
  }
}
