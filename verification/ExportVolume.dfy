// The part of a POSIX volume that validation/media_export.py, `unpack`, writes to: a private staging
// tree, owned by the unprivileged process, and the destination it is renamed to.
module ExportVolume {
  import opened Wrappers
  import opened ExportPaths

  datatype Inode = Inode(bytes: seq<bv8>, mode: nat)
  datatype Entry = Dir(mode: nat) | File(ino: nat) | Link(text: string)

  /** Directory entries by path, the root being [], and the inodes that File entries share. */
  datatype Tree = Tree(entries: map<Path, Entry>, inodes: map<nat, Inode>)

  datatype Errno = Done | NoEntry | Exists | Other

  // ----- permission bits of the owner -----

  predicate Searchable(mode: nat) { mode / 0x40 % 2 == 1 }

  predicate Writable(mode: nat) { mode / 0x80 % 2 == 1 }

  predicate Usable(mode: nat) { Searchable(mode) && Writable(mode) }

  /** Every directory on the way to `p`, the root included, exists and may be searched. */
  predicate CanReach(t: Tree, p: Path) {
    p == [] ||
    var up := Parent(p);
    CanReach(t, up) && up in t.entries && t.entries[up].Dir? && Searchable(t.entries[up].mode)
  }

  predicate CanAdd(t: Tree, p: Path) {
    p != [] && CanReach(t, p) && p !in t.entries && Writable(t.entries[Parent(p)].mode)
  }

  function Put(t: Tree, p: Path, e: Entry): Tree { t.(entries := t.entries[p := e]) }

  function PutFile(t: Tree, p: Path, ino: nat, node: Inode): Tree {
    Tree(t.entries[p := File(ino)], t.inodes[ino := node])
  }

  /** `p` and its missing ancestors, made as directories of one mode. */
  function PutDirs(t: Tree, p: Path, mode: nat): Tree {
    if p == [] || p in t.entries then t else Put(PutDirs(t, Parent(p), mode), p, Dir(mode))
  }

  lemma {:induction false} ReachesAll(t: Tree, p: Path)
    ensures CanReach(t, p) <==>
      forall n :: 0 <= n < |p| ==> p[..n] in t.entries && t.entries[p[..n]].Dir? && Searchable(t.entries[p[..n]].mode)
    decreases |p|
  {
    if p != [] {
      ReachesAll(t, Parent(p));
      assert forall n :: 0 <= n < |p| - 1 ==> Parent(p)[..n] == p[..n];
      assert Parent(p) == p[..|p| - 1];
    }
  }

  lemma {:induction false} PutDirsAt(t: Tree, p: Path, mode: nat, q: Path)
    ensures [] in t.entries ==> p in PutDirs(t, p, mode).entries
    ensures q in t.entries ==> q in PutDirs(t, p, mode).entries && PutDirs(t, p, mode).entries[q] == t.entries[q]
    ensures q in PutDirs(t, p, mode).entries && q !in t.entries ==>
      (q == p || Above(q, p)) && PutDirs(t, p, mode).entries[q] == Dir(mode)
    ensures PutDirs(t, p, mode).inodes == t.inodes
    decreases |p|
  {
    if p != [] && p !in t.entries {
      PutDirsAt(t, Parent(p), mode, q);
      if q != p && q in PutDirs(t, p, mode).entries && q !in t.entries {
        assert q == Parent(p) || Above(q, Parent(p));
        assert q == p[..|q|];
        assert q != [];
      }
    }
  }

  predicate CanChmod(t: Tree, p: Path) {
    p in t.entries && (t.entries[p].Dir? || (t.entries[p].File? && t.entries[p].ino in t.inodes))
  }

  function Chmodded(t: Tree, p: Path, mode: nat): Tree
    requires CanChmod(t, p)
  {
    if t.entries[p].Dir? then Put(t, p, Dir(mode))
    else t.(inodes := t.inodes[t.entries[p].ino := t.inodes[t.entries[p].ino].(mode := mode)])
  }

  predicate CanLink(t: Tree, source: Path) {
    CanReach(t, source) && source in t.entries && t.entries[source].File?
  }

  /** Moving a directory to another parent rewrites it, so it must be writable. */
  predicate CanMove(t: Tree) { [] in t.entries && t.entries[[]].Dir? && Writable(t.entries[[]].mode) }

  // ----- a tree of usable directories only -----

  ghost predicate AllDirs(t: Tree) {
    && [] in t.entries
    && (forall p :: p in t.entries ==> t.entries[p].Dir? && Usable(t.entries[p].mode))
    && (forall p :: p in t.entries && p != [] ==> Parent(p) in t.entries)
  }

  lemma {:induction false} UsableParent(t: Tree, p: Path, mode: nat)
    requires AllDirs(t) && Usable(mode)
    ensures AllDirs(PutDirs(t, p, mode)) && p in PutDirs(t, p, mode).entries
    ensures CanReach(PutDirs(t, p, mode), p)
    decreases |p|
  {
    if p != [] {
      UsableParent(t, Parent(p), mode);
      var below := PutDirs(t, Parent(p), mode);
      var after := PutDirs(t, p, mode);
      if p in t.entries {
        PutDirsAt(t, Parent(p), mode, p);
        AllReachable(t, p);
      } else {
        assert after == Put(below, p, Dir(mode));
        AllReachable(after, p);
      }
    }
  }

  lemma {:induction false} AllReachable(t: Tree, p: Path)
    requires AllDirs(t) && p in t.entries
    ensures CanReach(t, p)
    decreases |p|
  {
    if p != [] {
      AllReachable(t, Parent(p));
    }
  }

  /** Once the missing ancestors are made, `p` itself is still to be made and can be. */
  lemma {:induction false} SecondTry(t: Tree, p: Path, mode: nat)
    requires p != [] && Parent(p) !in t.entries && p !in t.entries
    ensures var below := PutDirs(t, Parent(p), mode);
      && p !in below.entries && PutDirs(t, p, mode) == Put(below, p, Dir(mode))
      && (AllDirs(t) && Usable(mode) ==> CanAdd(below, p))
  {
    PutDirsAt(t, Parent(p), mode, p);
    if AllDirs(t) && Usable(mode) {
      UsableParent(t, Parent(p), mode);
    }
  }

  class Volume {
    /** The moments at which the operating system reports an error of its own. */
    const faults: set<nat>
    /** What the process's umask leaves of the mode of a new directory and of a new file. */
    const newDir: nat
    const newFile: nat

    var clock: nat
    var nextIno: nat
    var tree: Tree
    var published: Option<Tree>

    ghost predicate Valid()
      reads this
    {
      forall i :: i in tree.inodes ==> i < nextIno
    }

    constructor (faults: set<nat>, newDir: nat, newFile: nat, published: Option<Tree>)
      ensures Valid() && this.faults == faults && this.newDir == newDir && this.newFile == newFile
      ensures this.published == published && tree == Tree(map[], map[]) && clock == 0
    {
      this.faults, this.newDir, this.newFile := faults, newDir, newFile;
      this.published, tree, clock, nextIno := published, Tree(map[], map[]), 0, 0;
    }

    method Tick() returns (ok: bool)
      modifies `clock
      ensures clock == old(clock) + 1 && ok == (old(clock) !in faults)
    {
      ok := clock !in faults;
      clock := clock + 1;
    }

    /** `mkdir(mode=0o700)` on the staging root. */
    method MakeRoot() returns (ok: bool)
      modifies `clock, `tree
      ensures ok <==> old(clock) !in faults
      ensures tree == if ok then Tree(map[[] := Dir(0x1c0)], map[]) else old(tree)
      ensures ok ==> Valid()
    {
      ok := Tick();
      if ok {
        tree := Tree(map[[] := Dir(0x1c0)], map[]);
      }
    }

    /** The system call behind `Path.mkdir`. */
    method Mkdir(p: Path) returns (e: Errno)
      requires Valid()
      modifies `clock, `tree
      ensures Valid()
      ensures e == Done <==> old(clock) !in faults && CanAdd(old(tree), p)
      ensures tree == if e == Done then Put(old(tree), p, Dir(newDir)) else old(tree)
      ensures e == NoEntry ==> p != [] && Parent(p) !in tree.entries && p !in tree.entries
      ensures old(clock) !in faults && p != [] && Parent(p) !in tree.entries && p !in tree.entries ==> e == NoEntry
    {
      var quiet := Tick();
      if !quiet {
        e := Other;
      } else if p == [] || p in tree.entries {
        e := Exists;
      } else if Parent(p) !in tree.entries {
        e := NoEntry;
      } else if CanAdd(tree, p) {
        tree := Put(tree, p, Dir(newDir));
        e := Done;
      } else {
        e := Other;
      }
    }

    /** `Path.mkdir(parents=True, exist_ok=True)`. */
    method MakeDirs(p: Path) returns (ok: bool)
      requires Valid()
      modifies `clock, `tree
      ensures Valid()
      ensures ok ==> tree == PutDirs(old(tree), p, newDir)
      ensures faults == {} && AllDirs(old(tree)) && Usable(newDir) ==> ok
      decreases |p|
    {
      if AllDirs(tree) && p != [] && Parent(p) in tree.entries {
        AllReachable(tree, Parent(p));
      }
      var e := Mkdir(p);
      if e == Done {
        assert PutDirs(old(tree), p, newDir) == Put(PutDirs(old(tree), Parent(p), newDir), p, Dir(newDir));
        return true;
      }
      if e == NoEntry {
        SecondTry(tree, p, newDir);
        ok := MakeDirs(Parent(p));
        if !ok { return; }
        e := Mkdir(p);
      }
      ok := e == Done || (p in tree.entries && tree.entries[p].Dir?);
    }

    /** `open('xb')` followed by the copy; a fault in the copy leaves a file that is cut short. */
    method WriteNew(p: Path, bytes: seq<bv8>) returns (ok: bool)
      requires Valid()
      modifies `clock, `tree, `nextIno
      ensures Valid()
      ensures ok ==> CanAdd(old(tree), p) && old(nextIno) !in old(tree).inodes
      ensures ok ==> tree == PutFile(old(tree), p, old(nextIno), Inode(bytes, newFile))
      ensures faults == {} && CanAdd(old(tree), p) ==> ok
    {
      ok := Tick();
      if !ok || !CanAdd(tree, p) {
        return false;
      }
      var ino := nextIno;
      nextIno := nextIno + 1;
      tree := PutFile(tree, p, ino, Inode([], newFile));
      ok := Tick();
      if ok {
        assert tree.entries[p := File(ino)] == tree.entries;
        assert old(tree).inodes[ino := Inode([], newFile)][ino := Inode(bytes, newFile)] ==
               old(tree).inodes[ino := Inode(bytes, newFile)];
        tree := PutFile(tree, p, ino, Inode(bytes, newFile));
      }
    }

    /** `os.chmod` by the owner. */
    method Chmod(p: Path, mode: nat) returns (ok: bool)
      requires Valid()
      modifies `clock, `tree
      ensures Valid()
      ensures ok <==> old(clock) !in faults && CanReach(old(tree), p) && CanChmod(old(tree), p)
      ensures tree == if ok then Chmodded(old(tree), p, mode) else old(tree)
    {
      ok := Tick();
      ok := ok && CanReach(tree, p) && CanChmod(tree, p);
      if ok {
        tree := Chmodded(tree, p, mode);
      }
    }

    method Symlink(text: string, p: Path) returns (ok: bool)
      requires Valid()
      modifies `clock, `tree
      ensures Valid()
      ensures ok <==> old(clock) !in faults && CanAdd(old(tree), p)
      ensures tree == if ok then Put(old(tree), p, Link(text)) else old(tree)
    {
      ok := Tick();
      ok := ok && CanAdd(tree, p);
      if ok {
        tree := Put(tree, p, Link(text));
      }
    }

    /** `os.link` on a regular file. */
    method HardLink(source: Path, p: Path) returns (ok: bool)
      requires Valid()
      modifies `clock, `tree
      ensures Valid()
      ensures ok <==> old(clock) !in faults && CanAdd(old(tree), p) && CanLink(old(tree), source)
      ensures tree == if ok then Put(old(tree), p, old(tree).entries[source]) else old(tree)
    {
      ok := Tick();
      ok := ok && CanAdd(tree, p) && CanLink(tree, source);
      if ok {
        tree := Put(tree, p, tree.entries[source]);
      }
    }

    /** One rename makes the whole tree appear at the destination. */
    method Rename() returns (ok: bool)
      requires Valid()
      modifies `clock, `tree, `published
      ensures ok <==> old(clock) !in faults && CanMove(old(tree))
      ensures if ok then published == Some(old(tree)) else published == old(published) && tree == old(tree)
    {
      ok := Tick();
      ok := ok && CanMove(tree);
      if ok {
        published := Some(tree);
        tree := Tree(map[], map[]);
      }
    }
  }
}
