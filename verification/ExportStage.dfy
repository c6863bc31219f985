// What the staging tree of validation/media_export.py, `unpack`, holds after each step.
module ExportStage {
  import opened Wrappers
  import opened ExportPaths
  import opened ExportInventory
  import opened ExportVolume

  /** Where a member's chain of links ends. */
  type Ends = Path -> Option<Path>

  const STAGE_MODE: nat := 0x1c0

  function Content(h: Header): seq<bv8> { if h.size <= |h.payload| then h.payload[..h.size] else h.payload }

  /** Member `p` stands in the tree as the archive describes it; directories in `settled` have their final mode. */
  ghost predicate Placed(t: Tree, members: Members, ends: Ends, settled: set<Path>, newDir: nat, p: Path)
    requires p in members && p in t.entries
  {
    var h, e := members[p], t.entries[p];
    && (h.kind.Directory? ==> e == Dir(if p in settled then h.mode else newDir))
    && (h.kind.Regular? ==> e.File? && e.ino in t.inodes && t.inodes[e.ino] == Inode(Content(h), h.mode))
    && (h.kind.Symbolic? ==> e == Link(h.text))
    && (h.kind.Hard? ==> ends(p).Some? && ends(p).value in t.entries && e == t.entries[ends(p).value])
    && !h.kind.Special?
  }

  ghost predicate AllPlaced(t: Tree, members: Members, ends: Ends, settled: set<Path>, newDir: nat) {
    forall p {:trigger Placed(t, members, ends, settled, newDir, p)} ::
      p in t.entries && p in members ==> Placed(t, members, ends, settled, newDir, p)
  }

  ghost predicate RegularAt(t: Tree, members: Members, p: Path) {
    p in members && p in t.entries && members[p].kind.Regular?
  }

  /** Regular members have inodes of their own, and there are no other inodes. */
  ghost predicate OwnInodes(t: Tree, members: Members) {
    && (forall p, q :: RegularAt(t, members, p) && RegularAt(t, members, q) && t.entries[p] == t.entries[q] ==> p == q)
    && (forall i :: i in t.inodes ==> exists p :: RegularAt(t, members, p) && t.entries[p] == File(i))
  }

  /** The stage holds exactly the members in `done`, under its private root. */
  ghost predicate Staged(t: Tree, members: Members, ends: Ends, done: set<Path>, settled: set<Path>, newDir: nat) {
    && [] !in members && done <= members.Keys && t.entries.Keys == done + {[]}
    && t.entries[[]] == Dir(STAGE_MODE)
    && AllPlaced(t, members, ends, settled, newDir) && OwnInodes(t, members)
  }

  /** The published tree is the archive: every member, nothing else, each as described. */
  ghost predicate Extracts(t: Tree, members: Members, ends: Ends) {
    && [] !in members && t.entries.Keys == members.Keys + {[]}
    && t.entries[[]] == Dir(STAGE_MODE)
    && OwnInodes(t, members)
    && forall p {:trigger Placed(t, members, ends, members.Keys, 0, p)} ::
         p in members ==> Placed(t, members, ends, members.Keys, 0, p)
  }

  // ----- single steps -----

  lemma {:induction false} RegularsIn(t: Tree, members: Members, p: Path, e: Entry)
    requires p in members && p !in t.entries && !members[p].kind.Regular? && OwnInodes(t, members)
    ensures OwnInodes(Put(t, p, e), members)
  {
    var after := Put(t, p, e);
    forall i | i in after.inodes
      ensures exists q :: RegularAt(after, members, q) && after.entries[q] == File(i)
    {
      var q :| RegularAt(t, members, q) && t.entries[q] == File(i);
      assert RegularAt(after, members, q) && after.entries[q] == File(i);
    }
    forall a, b | RegularAt(after, members, a) && RegularAt(after, members, b) && after.entries[a] == after.entries[b]
      ensures a == b
    {
      assert RegularAt(t, members, a) && RegularAt(t, members, b);
    }
  }

  lemma {:induction false} StepPut(t: Tree, members: Members, ends: Ends, done: set<Path>, settled: set<Path>,
                                   newDir: nat, p: Path, e: Entry)
    requires Staged(t, members, ends, done, settled, newDir)
    requires p in members && p !in done && !members[p].kind.Regular?
    requires Placed(Put(t, p, e), members, ends, settled, newDir, p)
    ensures Staged(Put(t, p, e), members, ends, done + {p}, settled, newDir)
  {
    RegularsIn(t, members, p, e);
    var after := Put(t, p, e);
    forall q | q in after.entries && q in members && q != p
      ensures Placed(after, members, ends, settled, newDir, q)
    {
      assert Placed(t, members, ends, settled, newDir, q);
    }
  }

  lemma {:induction false} StepFile(t: Tree, members: Members, ends: Ends, done: set<Path>, newDir: nat, p: Path,
                                    ino: nat)
    requires Staged(t, members, ends, done, {}, newDir)
    requires p in members && p !in done && members[p].kind.Regular? && ino !in t.inodes
    ensures Staged(PutFile(t, p, ino, Inode(Content(members[p]), members[p].mode)), members, ends, done + {p}, {},
                   newDir)
  {
    var node := Inode(Content(members[p]), members[p].mode);
    var after := PutFile(t, p, ino, node);
    forall q | q in after.entries && q in members && q != p
      ensures Placed(after, members, ends, {}, newDir, q)
    {
      assert Placed(t, members, ends, {}, newDir, q);
    }
    FileInodes(t, members, ends, newDir, p, ino, node);
  }

  lemma {:induction false} FileInodes(t: Tree, members: Members, ends: Ends, newDir: nat, p: Path, ino: nat,
                                      node: Inode)
    requires OwnInodes(t, members) && AllPlaced(t, members, ends, {}, newDir)
    requires p in members && p !in t.entries && members[p].kind.Regular? && ino !in t.inodes
    ensures OwnInodes(PutFile(t, p, ino, node), members)
  {
    var after := PutFile(t, p, ino, node);
    forall q | RegularAt(t, members, q)
      ensures RegularAt(after, members, q) && after.entries[q] == t.entries[q] != File(ino)
    {
      assert Placed(t, members, ends, {}, newDir, q);
    }
    forall i | i in after.inodes
      ensures exists q :: RegularAt(after, members, q) && after.entries[q] == File(i)
    {
      if i == ino {
        assert RegularAt(after, members, p) && after.entries[p] == File(i);
      } else {
        var q :| RegularAt(t, members, q) && t.entries[q] == File(i);
        assert RegularAt(after, members, q) && after.entries[q] == File(i);
      }
    }
    forall a, b | RegularAt(after, members, a) && RegularAt(after, members, b) && after.entries[a] == after.entries[b]
      ensures a == b
    {
      if a != p { assert RegularAt(t, members, a); }
      if b != p { assert RegularAt(t, members, b); }
    }
  }

  lemma {:induction false} StepSettle(t: Tree, members: Members, ends: Ends, done: set<Path>, settled: set<Path>,
                                      newDir: nat, p: Path)
    requires Staged(t, members, ends, done, settled, newDir)
    requires p in done && members[p].kind.Directory?
    requires forall q :: q in members && members[q].kind.Hard? ==> ends(q) != Some(p)
    ensures CanChmod(t, p)
    ensures Staged(Chmodded(t, p, members[p].mode), members, ends, done, settled + {p}, newDir)
  {
    assert Placed(t, members, ends, settled, newDir, p);
    var after := Chmodded(t, p, members[p].mode);
    forall q | q in after.entries && q in members
      ensures Placed(after, members, ends, settled + {p}, newDir, q)
    {
      assert Placed(t, members, ends, settled, newDir, q);
    }
    forall i | i in after.inodes
      ensures exists q :: RegularAt(after, members, q) && after.entries[q] == File(i)
    {
      var q :| RegularAt(t, members, q) && t.entries[q] == File(i);
      assert RegularAt(after, members, q) && after.entries[q] == File(i);
    }
    forall a, b | RegularAt(after, members, a) && RegularAt(after, members, b) && after.entries[a] == after.entries[b]
      ensures a == b
    {
      assert RegularAt(t, members, a) && RegularAt(t, members, b);
    }
    assert after.entries.Keys == t.entries.Keys;
  }

  // ----- getting to a member -----

  /** The directories on the way to `p` are in place and keep the mode they were made with. */
  ghost predicate WayOpen(members: Members, done: set<Path>, settled: set<Path>, p: Path) {
    AncestorsOk(members, p) && forall q :: Above(q, p) ==> q in done && q !in settled
  }

  lemma {:induction false} OpenWayReaches(t: Tree, members: Members, ends: Ends, done: set<Path>, settled: set<Path>,
                                          newDir: nat, p: Path)
    requires Staged(t, members, ends, done, settled, newDir) && WayOpen(members, done, settled, p) && Usable(newDir)
    ensures CanReach(t, p)
    ensures p != [] && p !in t.entries ==> CanAdd(t, p)
  {
    forall n | 0 <= n < |p|
      ensures p[..n] in t.entries && t.entries[p[..n]].Dir? && Usable(t.entries[p[..n]].mode)
    {
      if n > 0 {
        assert Above(p[..n], p);
        assert Placed(t, members, ends, settled, newDir, p[..n]);
      }
    }
    ReachesAll(t, p);
    if p != [] {
      assert Parent(p) == p[..|p| - 1];
    }
  }
}
