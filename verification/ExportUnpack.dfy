// validation/media_export.py, `unpack`: the passes that build the staging tree, and its publication.
module ExportUnpack {
  import opened Wrappers
  import opened ExportPaths
  import opened ExportInventory
  import opened ExportVolume
  import opened ExportStage
  import opened StableSort

  // ----- what has been placed so far -----

  /** Directories are placed in the first pass, regular files in the second, links in the third. */
  function Rank(h: Header): nat { if h.kind.Directory? then 0 else if h.kind.Regular? then 1 else 2 }

  ghost function Placeable(members: Members, order: seq<Path>, pass: nat, i: nat): set<Path>
    requires i <= |order|
  {
    set p | p in members && (Rank(members[p]) < pass || (Rank(members[p]) == pass && p in order[..i]))
  }

  ghost predicate Orders(order: seq<Path>, members: Members) {
    Distinct(order) && forall p {:trigger p in order} :: p in members <==> p in order
  }

  lemma {:induction false} NextPlaceable(members: Members, order: seq<Path>, pass: nat, i: nat)
    requires Orders(order, members) && i < |order|
    ensures order[i] in members
    ensures Placeable(members, order, pass, i + 1) ==
      Placeable(members, order, pass, i) + (if Rank(members[order[i]]) == pass then {order[i]} else {})
    ensures Rank(members[order[i]]) == pass ==> order[i] !in Placeable(members, order, pass, i)
  {
    assert order[i] in order;
    assert order[..i + 1] == order[..i] + [order[i]];
    assert order[i] !in order[..i];
  }

  lemma {:induction false} PassDone(members: Members, order: seq<Path>, pass: nat)
    requires Orders(order, members)
    ensures Placeable(members, order, pass, |order|) == Placeable(members, order, pass + 1, 0)
  {
    assert order[..|order|] == order;
  }

  /** A listing the inventory lets through. */
  ghost predicate Acceptable(listing: Listing) {
    && Orders(listing.order, listing.members) && GraphOk(listing.members) && |listing.members| <= MAX_MEMBERS
    && forall p {:trigger InPackage(p)} :: p in listing.members ==> InPackage(p) && !listing.members[p].kind.Special?
  }

  predicate InPackage(p: Path) { Ordinary(p) && p[0] == "package" }

  ghost function EndsOf(members: Members): Ends { p => End(members, p) }

  ghost predicate Quiet(v: Volume) { v.faults == {} && Usable(v.newDir) }

  // ----- first pass: directories -----

  ghost predicate DirStage(t: Tree, members: Members, newDir: nat) {
    && [] !in members && [] in t.entries && t.entries[[]] == Dir(STAGE_MODE) && t.inodes == map[]
    && (forall p :: p in t.entries && p != [] ==>
          p in members && members[p].kind.Directory? && t.entries[p] == Dir(newDir) && Parent(p) in t.entries)
  }

  lemma {:induction false} DirStageGrows(t: Tree, members: Members, newDir: nat, p: Path)
    requires DirStage(t, members, newDir) && p in members && members[p].kind.Directory? && AncestorsOk(members, p)
    ensures DirStage(PutDirs(t, p, newDir), members, newDir) && p in PutDirs(t, p, newDir).entries
    ensures t.entries.Keys <= PutDirs(t, p, newDir).entries.Keys
    decreases |p|
  {
    forall q | q in t.entries
      ensures q in PutDirs(t, p, newDir).entries
    {
      PutDirsAt(t, p, newDir, q);
    }
    if p !in t.entries {
      if Parent(p) != [] {
        assert Above(Parent(p), p);
        forall q | Above(q, Parent(p))
          ensures Above(q, p)
        {
        }
        DirStageGrows(t, members, newDir, Parent(p));
      }
    }
  }

  lemma {:induction false} DirStageIsUsable(t: Tree, members: Members, newDir: nat)
    requires DirStage(t, members, newDir) && Usable(newDir)
    ensures AllDirs(t)
  {
  }

  lemma {:induction false} DirStageIsStaged(t: Tree, members: Members, ends: Ends, order: seq<Path>, newDir: nat)
    requires DirStage(t, members, newDir) && Orders(order, members)
    requires forall p :: p in members && members[p].kind.Directory? ==> p in t.entries
    ensures Staged(t, members, ends, Placeable(members, order, 1, 0), {}, newDir)
  {
    assert t.entries.Keys == Placeable(members, order, 1, 0) + {[]};
  }

  method MakeDirectories(v: Volume, listing: Listing, ghost ends: Ends) returns (ok: bool)
    requires v.Valid() && Acceptable(listing) && DirStage(v.tree, listing.members, v.newDir)
    modifies v`clock, v`tree
    ensures v.Valid()
    ensures ok ==> Staged(v.tree, listing.members, ends, Placeable(listing.members, listing.order, 1, 0), {}, v.newDir)
    ensures Quiet(v) ==> ok
  {
    var members, order := listing.members, listing.order;
    var i := 0;
    while i < |order|
      invariant i <= |order| && v.Valid()
      invariant DirStage(v.tree, members, v.newDir)
      invariant forall k :: 0 <= k < i ==> order[k] in members
      invariant forall k :: 0 <= k < i && members[order[k]].kind.Directory? ==> order[k] in v.tree.entries
    {
      NextPlaceable(members, order, 0, i);
      if members[order[i]].kind.Directory? {
        assert MemberOk(members, order[i]);
        DirStageGrows(v.tree, members, v.newDir, order[i]);
        if Quiet(v) {
          DirStageIsUsable(v.tree, members, v.newDir);
        }
        ok := v.MakeDirs(order[i]);
        if !ok { return; }
      }
      i := i + 1;
    }
    ok := true;
    forall p | p in members && members[p].kind.Directory?
      ensures p in v.tree.entries
    {
      assert p in order;
    }
    DirStageIsStaged(v.tree, members, ends, order, v.newDir);
  }

  // ----- second pass: regular files -----

  /** Before any directory is settled, the way to every member is open. */
  lemma {:induction false} FreshWay(members: Members, order: seq<Path>, pass: nat, i: nat, p: Path)
    requires i <= |order| && pass > 0 && p in members && MemberOk(members, p)
    ensures WayOpen(members, Placeable(members, order, pass, i), {}, p)
  {
  }

  lemma {:induction false} ReachAfterPut(t: Tree, p: Path, ino: nat, node: Inode)
    requires CanReach(t, p)
    ensures CanReach(PutFile(t, p, ino, node), p)
  {
    ReachesAll(t, p);
    ReachesAll(PutFile(t, p, ino, node), p);
  }

  method WriteFile(v: Volume, p: Path, h: Header) returns (ok: bool)
    requires v.Valid() && h.size <= |h.payload|
    modifies v`clock, v`tree, v`nextIno
    ensures v.Valid()
    ensures ok ==> old(v.nextIno) !in old(v.tree).inodes && p !in old(v.tree).entries
    ensures ok ==> v.tree == PutFile(old(v.tree), p, old(v.nextIno), Inode(Content(h), h.mode))
    ensures v.faults == {} && CanAdd(old(v.tree), p) ==> ok
  {
    ghost var t, ino := v.tree, v.nextIno;
    ok := v.WriteNew(p, Content(h));
    if !ok || |Content(h)| != h.size { return false; }
    ReachAfterPut(t, p, ino, Inode(Content(h), v.newFile));
    ok := v.Chmod(p, h.mode);
    assert t.inodes[ino := Inode(Content(h), v.newFile)][ino := Inode(Content(h), h.mode)] ==
           t.inodes[ino := Inode(Content(h), h.mode)];
  }

  method WriteFiles(v: Volume, listing: Listing, ghost ends: Ends) returns (ok: bool)
    requires v.Valid() && Acceptable(listing)
    requires Staged(v.tree, listing.members, ends, Placeable(listing.members, listing.order, 1, 0), {}, v.newDir)
    modifies v`clock, v`tree, v`nextIno
    ensures v.Valid()
    ensures ok ==> Staged(v.tree, listing.members, ends, Placeable(listing.members, listing.order, 2, 0), {}, v.newDir)
    ensures Quiet(v) ==> ok
  {
    var members, order := listing.members, listing.order;
    var i := 0;
    while i < |order|
      invariant i <= |order| && v.Valid()
      invariant Staged(v.tree, members, ends, Placeable(members, order, 1, i), {}, v.newDir)
    {
      var p := order[i];
      NextPlaceable(members, order, 1, i);
      if members[p].kind.Regular? {
        FreshWay(members, order, 1, i, p);
        if Quiet(v) {
          OpenWayReaches(v.tree, members, ends, Placeable(members, order, 1, i), {}, v.newDir, p);
        }
        FileStep(v.tree, members, ends, Placeable(members, order, 1, i), v.newDir, p, v.nextIno);
        assert p !in v.tree.entries;
        ok := WriteFile(v, p, members[p]);
        if !ok { return; }
      }
      i := i + 1;
    }
    ok := true;
    PassDone(members, order, 1);
  }

  lemma {:induction false} FileStep(t: Tree, members: Members, ends: Ends, done: set<Path>, newDir: nat, p: Path,
                                    ino: nat)
    requires Staged(t, members, ends, done, {}, newDir)
    requires p in members && p !in done && members[p].kind.Regular?
    ensures p !in t.entries
    ensures ino !in t.inodes ==>
      Staged(PutFile(t, p, ino, Inode(Content(members[p]), members[p].mode)), members, ends, done + {p}, {}, newDir)
  {
    if ino !in t.inodes {
      StepFile(t, members, ends, done, newDir, p, ino);
    }
  }

  // ----- third pass: links -----

  /** The unguarded loop over `link_target`: after acceptance it ends, at a regular file. */
  method HardTarget(members: Members, p: Path) returns (target: Path)
    requires p in members && members[p].kind.Hard? && LinkOk(members, p) && |members| <= MAX_MEMBERS
    ensures End(members, p) == Some(target) && members[target].kind.Regular?
  {
    HardEnds(members, p);
    ghost var fuel: nat := |members| - 1;
    target := Hop(members, p).value;
    assert Follow(members, target, fuel) == End(members, p);
    while !members[target].kind.Regular?
      invariant target in members && Follow(members, target, fuel) == End(members, p)
      decreases fuel
    {
      target := Hop(members, target).value;
      fuel := fuel - 1;
    }
  }

  lemma {:induction false} HardEnds(members: Members, p: Path)
    requires p in members && members[p].kind.Hard? && LinkOk(members, p)
    ensures End(members, p).Some? && members[End(members, p).value].kind.Regular?
  {
    var fuel: nat :| var end := Follow(members, p, fuel);
      end.Some? && members[end.value].kind.Regular? && members[end.value].mode == members[p].mode;
    ShortestFollow(members, p, [p], fuel);
    MoreFuel(members, p, |members| - 1, |members|);
    SameEnd(members, p, fuel);
  }

  method MakeLink(v: Volume, members: Members, p: Path) returns (ok: bool)
    requires v.Valid() && p in members && IsLink(members[p]) && LinkOk(members, p) && |members| <= MAX_MEMBERS
    modifies v`clock, v`tree
    ensures v.Valid()
    ensures ok ==> exists e ::
      v.tree == Put(old(v.tree), p, e) && LinkEntry(old(v.tree), members, EndsOf(members), p, e)
    ensures v.faults == {} && CanAdd(old(v.tree), p) && HardReady(old(v.tree), members, p) ==> ok
  {
    ghost var t := v.tree;
    if members[p].kind.Symbolic? {
      ok := v.Symlink(members[p].text, p);
      if ok {
        assert LinkEntry(t, members, EndsOf(members), p, Link(members[p].text));
      }
    } else {
      var target := HardTarget(members, p);
      ok := v.HardLink(target, p);
      if ok {
        assert LinkEntry(t, members, EndsOf(members), p, t.entries[target]);
      }
    }
  }

  ghost predicate LinkEntry(t: Tree, members: Members, ends: Ends, p: Path, e: Entry)
    requires p in members
  {
    if members[p].kind.Symbolic? then e == Link(members[p].text)
    else ends(p).Some? && ends(p).value in t.entries && e == t.entries[ends(p).value]
  }

  ghost predicate HardReady(t: Tree, members: Members, p: Path)
    requires p in members
  {
    members[p].kind.Hard? ==> End(members, p).Some? && CanLink(t, End(members, p).value)
  }

  lemma {:induction false} LinkStep(t: Tree, members: Members, ends: Ends, done: set<Path>, newDir: nat, p: Path,
                                    e: Entry)
    requires Staged(t, members, ends, done, {}, newDir)
    requires p in members && p !in done && IsLink(members[p]) && LinkEntry(t, members, ends, p, e)
    ensures Staged(Put(t, p, e), members, ends, done + {p}, {}, newDir)
  {
    StepPut(t, members, ends, done, {}, newDir, p, e);
  }

  /** A regular file that is in place can be linked to. */
  lemma {:induction false} ReadyToLink(t: Tree, members: Members, ends: Ends, done: set<Path>, newDir: nat,
                                       target: Path)
    requires Staged(t, members, ends, done, {}, newDir) && Usable(newDir)
    requires target in done && members[target].kind.Regular? && WayOpen(members, done, {}, target)
    ensures CanLink(t, target)
  {
    OpenWayReaches(t, members, ends, done, {}, newDir, target);
    assert Placed(t, members, ends, {}, newDir, target);
  }

  lemma {:induction false} LinkIsReady(t: Tree, listing: Listing, i: nat, newDir: nat, p: Path)
    requires Acceptable(listing) && i <= |listing.order| && Usable(newDir)
    requires p in listing.members && IsLink(listing.members[p])
    requires p !in Placeable(listing.members, listing.order, 2, i)
    requires Staged(t, listing.members, EndsOf(listing.members), Placeable(listing.members, listing.order, 2, i), {},
                    newDir)
    ensures CanAdd(t, p) && HardReady(t, listing.members, p)
  {
    var members, order := listing.members, listing.order;
    assert MemberOk(members, p);
    FreshWay(members, order, 2, i, p);
    OpenWayReaches(t, members, EndsOf(members), Placeable(members, order, 2, i), {}, newDir, p);
    if members[p].kind.Hard? {
      HardEnds(members, p);
      var target := End(members, p).value;
      assert MemberOk(members, target);
      FreshWay(members, order, 2, i, target);
      ReadyToLink(t, members, EndsOf(members), Placeable(members, order, 2, i), newDir, target);
    }
  }

  ghost predicate LinksPlaced(t: Tree, listing: Listing, i: nat, newDir: nat)
    requires i <= |listing.order|
  {
    Staged(t, listing.members, EndsOf(listing.members), Placeable(listing.members, listing.order, 2, i), {}, newDir)
  }

  /** Round `i` of the third pass. */
  method PlaceLink(v: Volume, listing: Listing, i: nat) returns (ok: bool)
    requires v.Valid() && Acceptable(listing) && i < |listing.order|
    requires LinksPlaced(v.tree, listing, i, v.newDir)
    modifies v`clock, v`tree
    ensures v.Valid()
    ensures ok ==> LinksPlaced(v.tree, listing, i + 1, v.newDir)
    ensures Quiet(v) ==> ok
  {
    var members, p := listing.members, listing.order[i];
    NextPlaceable(members, listing.order, 2, i);
    assert InPackage(p);
    if !IsLink(members[p]) {
      assert Placeable(members, listing.order, 2, i + 1) == Placeable(members, listing.order, 2, i);
      return true;
    }
    MemberIsOk(members, p);
    ghost var t, done := v.tree, Placeable(members, listing.order, 2, i);
    if Quiet(v) {
      LinkIsReady(t, listing, i, v.newDir, p);
    }
    ok := MakeLink(v, members, p);
    if ok {
      ghost var e :| v.tree == Put(t, p, e) && LinkEntry(t, members, EndsOf(members), p, e);
      LinkStep(t, members, EndsOf(members), done, v.newDir, p, e);
    }
  }

  method MakeLinks(v: Volume, listing: Listing) returns (ok: bool)
    requires v.Valid() && Acceptable(listing) && LinksPlaced(v.tree, listing, 0, v.newDir)
    modifies v`clock, v`tree
    ensures v.Valid()
    ensures ok ==> LinksPlaced(v.tree, listing, |listing.order|, v.newDir)
    ensures Quiet(v) ==> ok
  {
    var i := 0;
    while i < |listing.order|
      invariant i <= |listing.order| && v.Valid()
      invariant LinksPlaced(v.tree, listing, i, v.newDir)
    {
      ok := PlaceLink(v, listing, i);
      if !ok { return; }
      i := i + 1;
    }
    ok := true;
  }

  lemma {:induction false} MemberIsOk(members: Members, p: Path)
    requires GraphOk(members) && p in members
    ensures MemberOk(members, p)
  {
  }

  // ----- last pass: directory modes, longest name first -----

  const NameLengthOf: Path -> int := p => NameLength(p)

  /** The directories among the first `i` names have their final mode. */
  ghost function SettledBy(members: Members, order: seq<Path>, i: nat): set<Path>
    requires i <= |order|
  {
    set p | p in members && members[p].kind.Directory? && p in order[..i]
  }

  lemma {:induction false} NextSettled(members: Members, order: seq<Path>, i: nat)
    requires i < |order| && order[i] in members
    ensures SettledBy(members, order, i + 1) ==
      SettledBy(members, order, i) + (if members[order[i]].kind.Directory? then {order[i]} else {})
  {
    assert order[..i + 1] == order[..i] + [order[i]];
  }

  /** A directory is settled while everything above it can still be searched. */
  lemma {:induction false} DeepestFirst(members: Members, order: seq<Path>, i: nat)
    requires Descending(NameLengthOf, order) && i < |order| && order[i] in members && AncestorsOk(members, order[i])
    ensures WayOpen(members, members.Keys, SettledBy(members, order, i), order[i])
  {
    forall q | Above(q, order[i])
      ensures q !in SettledBy(members, order, i)
    {
      LongerBelow(q, order[i]);
      assert forall j :: 0 <= j < i ==> NameLength(order[i]) <= NameLength(order[j]);
    }
  }

  ghost predicate ModesSettled(t: Tree, members: Members, order: seq<Path>, i: nat, newDir: nat)
    requires i <= |order|
  {
    Staged(t, members, EndsOf(members), members.Keys, SettledBy(members, order, i), newDir)
  }

  lemma {:induction false} HardLinksEndAtFiles(members: Members, p: Path)
    requires GraphOk(members) && p in members && members[p].kind.Directory?
    ensures forall q :: q in members && members[q].kind.Hard? ==> End(members, q) != Some(p)
  {
    forall q | q in members && members[q].kind.Hard?
      ensures End(members, q) != Some(p)
    {
      assert MemberOk(members, q);
      HardEnds(members, q);
    }
  }

  /** Round `i` of the last pass. */
  method SettleMode(v: Volume, members: Members, order: seq<Path>, i: nat) returns (ok: bool)
    requires v.Valid() && GraphOk(members) == true && Descending(NameLengthOf, order)
    requires i < |order| && order[i] in members
    requires ModesSettled(v.tree, members, order, i, v.newDir) == true
    modifies v`clock, v`tree
    ensures v.Valid()
    ensures ok ==> ModesSettled(v.tree, members, order, i + 1, v.newDir) == true
    ensures Quiet(v) ==> ok
  {
    var p := order[i];
    NextSettled(members, order, i);
    if !members[p].kind.Directory? {
      assert SettledBy(members, order, i + 1) == SettledBy(members, order, i);
      return true;
    }
    assert MemberOk(members, p);
    HardLinksEndAtFiles(members, p);
    ghost var settled := SettledBy(members, order, i);
    StepSettle(v.tree, members, EndsOf(members), members.Keys, settled, v.newDir, p);
    if Quiet(v) {
      DeepestFirst(members, order, i);
      OpenWayReaches(v.tree, members, EndsOf(members), members.Keys, settled, v.newDir, p);
    }
    ok := v.Chmod(p, members[p].mode);
  }

  method SettleInOrder(v: Volume, members: Members, order: seq<Path>) returns (ok: bool)
    requires v.Valid() && GraphOk(members) == true && Descending(NameLengthOf, order)
    requires forall p :: p in order <==> p in members
    requires ModesSettled(v.tree, members, order, 0, v.newDir) == true
    modifies v`clock, v`tree
    ensures v.Valid()
    ensures ok ==> ModesSettled(v.tree, members, order, |order|, v.newDir) == true
    ensures Quiet(v) ==> ok
  {
    var i := 0;
    while i < |order|
      invariant i <= |order| && v.Valid()
      invariant ModesSettled(v.tree, members, order, i, v.newDir) == true
    {
      assert order[i] in order;
      ok := SettleMode(v, members, order, i);
      if !ok { return; }
      i := i + 1;
    }
    ok := true;
  }

  method SettleModes(v: Volume, listing: Listing) returns (ok: bool)
    requires v.Valid() && Acceptable(listing)
    requires LinksPlaced(v.tree, listing, |listing.order|, v.newDir)
    modifies v`clock, v`tree
    ensures v.Valid()
    ensures ok ==> Extracts(v.tree, listing.members, EndsOf(listing.members))
    ensures Quiet(v) ==> ok
  {
    SortedListing(v.tree, listing, v.newDir);
    var order := Descend(NameLengthOf, listing.order);
    ok := SettleInOrder(v, listing.members, order);
    if ok {
      AllSettled(v.tree, listing.members, order, v.newDir);
    }
  }

  lemma {:induction false} SortedListing(t: Tree, listing: Listing, newDir: nat)
    requires Acceptable(listing) && LinksPlaced(t, listing, |listing.order|, newDir)
    ensures Descending(NameLengthOf, Descend(NameLengthOf, listing.order))
    ensures forall p :: p in Descend(NameLengthOf, listing.order) <==> p in listing.members
    ensures GraphOk(listing.members)
    ensures ModesSettled(t, listing.members, Descend(NameLengthOf, listing.order), 0, newDir)
  {
    var order := listing.order;
    DescendSorts(NameLengthOf, order);
    assert order[..|order|] == order;
    assert Placeable(listing.members, order, 2, |order|) == listing.members.Keys;
    assert SettledBy(listing.members, Descend(NameLengthOf, order), 0) == {};
  }

  lemma {:induction false} AllSettled(t: Tree, members: Members, order: seq<Path>, newDir: nat)
    requires ModesSettled(t, members, order, |order|, newDir)
    requires forall p :: p in order <==> p in members
    ensures Extracts(t, members, EndsOf(members))
  {
    assert order[..|order|] == order;
    var settled := SettledBy(members, order, |order|);
    forall p | p in members
      ensures Placed(t, members, EndsOf(members), members.Keys, 0, p)
    {
      assert Placed(t, members, EndsOf(members), settled, newDir, p);
      assert p in settled <==> members[p].kind.Directory?;
    }
  }

  // ----- the whole extraction -----

  /** All four passes on a new staging root. */
  method Build(v: Volume, listing: Listing) returns (ok: bool)
    requires v.Valid() && Acceptable(listing)
    modifies v`clock, v`tree, v`nextIno
    ensures ok ==> v.Valid() && Extracts(v.tree, listing.members, EndsOf(listing.members))
    ensures Quiet(v) ==> ok
  {
    ok := v.MakeRoot();
    if !ok { return; }
    RootOnly(listing, v.newDir);
    ok := MakeDirectories(v, listing, EndsOf(listing.members));
    if !ok { return; }
    ok := WriteFiles(v, listing, EndsOf(listing.members));
    if !ok { return; }
    ok := MakeLinks(v, listing);
    if !ok { return; }
    ok := SettleModes(v, listing);
  }

  lemma {:induction false} RootOnly(listing: Listing, newDir: nat)
    requires Acceptable(listing)
    ensures DirStage(Tree(map[[] := Dir(STAGE_MODE)], map[]), listing.members, newDir)
  {
    assert !InPackage([]);
  }

  lemma {:induction false} SoundIsAcceptable(listing: Listing, headers: seq<Header>)
    requires HeadersOk(NameOf, headers, |headers|) && Sound(NameOf, listing, headers)
    ensures Acceptable(listing)
  {
    forall h: Header, p | NameOf(h) == Some(p)
      ensures InPackage(p)
    {
      MemberPathIsOrdinary(h.name, h.kind.Directory?);
    }
    ListedInPackage(NameOf, listing, headers);
  }

  lemma {:induction false} ListedInPackage(naming: Naming, listing: Listing, headers: seq<Header>)
    requires HeadersOk(naming, headers, |headers|) && Sound(naming, listing, headers)
    requires forall h: Header, p :: naming(h) == Some(p) ==> InPackage(p)
    ensures Acceptable(listing)
  {
    OrderCounts(naming, listing, headers);
    forall p | p in listing.members
      ensures InPackage(p) && !listing.members[p].kind.Special?
    {
      var k :| 0 <= k < |headers| && listing.order[k] == p;
      assert HeaderOk(naming, headers[k]);
    }
  }

  /** The archives the inventory lets through. */
  ghost predicate Admissible(headers: seq<Header>, file: seq<bv8>) {
    && |file| <= MAX_ARCHIVE && HeadersOk(NameOf, headers, |headers|) && Whole(headers, file)
    && exists listing :: Sound(NameOf, listing, headers)
  }

  method Judge(headers: seq<Header>, file: seq<bv8>) returns (r: Result<Listing>)
    ensures r.Ok? == Admissible(headers, file)
    ensures r.Ok? ==> Sound(NameOf, r.value, headers) && Acceptable(r.value)
  {
    if file == [] || |file| > MAX_ARCHIVE { return Refused; }
    r := Inventory(headers, file);
    if r.Ok? {
      SoundIsAcceptable(r.value, headers);
    }
  }

  /** The destination holds the tree these members describe. */
  ghost predicate Delivered(published: Option<Tree>, members: Members) {
    published.Some? && Extracts(published.value, members, EndsOf(members))
  }

  /** Building the stage and moving it into place. */
  method Deliver(v: Volume, listing: Listing, appeared: bool, changed: bool) returns (ok: bool)
    requires v.Valid() && Acceptable(listing)
    modifies v`clock, v`tree, v`nextIno, v`published
    ensures if ok then Delivered(v.published, listing.members) else v.published == old(v.published)
    ensures Quiet(v) && !appeared && !changed ==> ok
  {
    ok := Build(v, listing);
    if !ok || appeared || changed { return false; }
    CanPublish(v.tree, listing.members);
    ok := v.Rename();
  }

  /**
   * `unpack`: either the destination receives, in one step, exactly the tree the archive describes, or it
   * is left as it was.  `appeared` and `changed` are what the final checks of the destination and of the
   * archive find.  Without a fault of the operating system nothing but those checks and an unacceptable
   * archive can stop it: in particular no permission the archive asks for gets in the way of a later step.
   */
  method Unpack(v: Volume, headers: seq<Header>, file: seq<bv8>, appeared: bool, changed: bool)
    returns (r: Result<Listing>)
    requires v.Valid()
    modifies v`clock, v`tree, v`nextIno, v`published
    ensures r.Refused? ==> v.published == old(v.published)
    ensures r.Ok? ==> old(v.published).None? && Sound(NameOf, r.value, headers)
    ensures r.Ok? ==> Delivered(v.published, r.value.members)
    ensures Quiet(v) && old(v.published).None? && !appeared && !changed && Admissible(headers, file) ==> r.Ok?
  {
    if v.published.Some? { return Refused; }
    r := Judge(headers, file);
    if r.Refused? { return; }
    var ok := Deliver(v, r.value, appeared, changed);
    if !ok { return Refused; }
  }

  lemma {:induction false} CanPublish(t: Tree, members: Members)
    requires Extracts(t, members, EndsOf(members))
    ensures CanMove(t)
  {
  }
}
