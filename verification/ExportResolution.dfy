// Opening a member of the published tree: the operating system's own link resolution arrives where the
// lexical resolution of validation/media_export.py said it would.
module ExportResolution {
  import opened Wrappers
  import opened ExportPaths
  import opened ExportInventory
  import opened ExportVolume
  import opened ExportStage
  import opened ExportUnpack

  /** Path resolution as open(2) does it: from directory `at`, following at most `hops` symbolic links. */
  function Walk(t: Tree, at: Path, rest: seq<string>, hops: nat): Option<Path>
    decreases hops, |rest|
  {
    if rest == [] then Some(at)
    else if at !in t.entries || !t.entries[at].Dir? then None
    else if rest[0] == "." || rest[0] == "" then Walk(t, at, rest[1..], hops)
    else if rest[0] == ".." then Walk(t, if at == [] then [] else Parent(at), rest[1..], hops)
    else
      var next := at + [rest[0]];
      if next !in t.entries then None
      else if !t.entries[next].Link? then Walk(t, next, rest[1..], hops)
      else if hops == 0 then None
      else Walk(t, at, Split(t.entries[next].text) + rest[1..], hops - 1)
  }

  function Last(p: Path): string
    requires p != []
  {
    p[|p| - 1]
  }

  ghost predicate DirsAbove(t: Tree, p: Path, n: nat) {
    forall k :: n <= k < |p| ==> p[..k] in t.entries && t.entries[p[..k]].Dir?
  }

  /** Walking down through directories reaches the last of them. */
  lemma {:induction false} WalkDown(t: Tree, p: Path, n: nat, hops: nat)
    requires Ordinary(p) && n < |p| && DirsAbove(t, p, n)
    ensures Walk(t, p[..n], p[n..], hops) == Walk(t, Parent(p), [Last(p)], hops)
    decreases |p| - n
  {
    if n == |p| - 1 {
      assert p[n..] == [Last(p)];
    } else {
      assert p[..n] + [p[n]] == p[..n + 1] && p[n..][1..] == p[n + 1..] && p[n..][0] == p[n];
      assert OrdinaryPart(p[n]);
      WalkDown(t, p, n + 1, hops);
    }
  }

  /** What the walk needs to know of a member. */
  ghost predicate SitedAt(t: Tree, members: Members, ends: Ends, p: Path)
    requires p in members
  {
    && Ordinary(p) && p in t.entries && DirsAbove(t, p, 0)
    && (members[p].kind.Symbolic? ==> t.entries[p] == Link(members[p].text))
    && (!members[p].kind.Symbolic? ==>
          && !t.entries[p].Link? && ends(p).Some? && ends(p).value in t.entries
          && t.entries[p] == t.entries[ends(p).value] && (members[p].kind.Hard? || ends(p).value == p))
    && (forall f: nat :: Follow(members, p, f).Some? ==> Follow(members, p, f) == ends(p))
  }

  ghost predicate Sited(t: Tree, members: Members, ends: Ends) {
    forall p {:trigger SitedAt(t, members, ends, p)} :: p in members ==> SitedAt(t, members, ends, p)
  }

  /** The last component of a member that is no symbolic link is the member itself. */
  lemma {:induction false} WalkStays(t: Tree, p: Path, hops: nat)
    requires Ordinary(p) && DirsAbove(t, p, |p| - 1) && p in t.entries && !t.entries[p].Link?
    ensures Walk(t, Parent(p), [Last(p)], hops) == Some(p)
  {
    assert OrdinaryPart(Last(p));
    assert Parent(p) + [Last(p)] == p;
  }

  /** At a symbolic link the walk continues from the link's directory along its text. */
  lemma {:induction false} WalkHops(t: Tree, p: Path, text: string, hops: nat)
    requires Ordinary(p) && DirsAbove(t, p, |p| - 1) && p in t.entries && t.entries[p] == Link(text) && hops > 0
    ensures Walk(t, Parent(p), [Last(p)], hops) == Walk(t, Parent(p), Split(text), hops - 1)
  {
    assert OrdinaryPart(Last(p));
    assert Parent(p) + [Last(p)] == p;
    assert Split(text) + [Last(p)][1..] == Split(text);
  }

  /** The walk has found what `end` is: `end` itself, or a hard link to it. */
  ghost predicate Arrives(t: Tree, members: Members, w: Option<Path>, end: Path) {
    && w.Some? && w.value in t.entries && end in t.entries && t.entries[w.value] == t.entries[end]
    && (w.value == end || (w.value in members && members[w.value].kind.Hard?))
  }

  /** One symbolic link: the walk goes on at the last component of the lexical target. */
  lemma {:induction false} WalkLikeHop(t: Tree, p: Path, q: Path, text: string, fuel: nat)
    requires Ordinary(p) && DirsAbove(t, p, 0) && p in t.entries && t.entries[p] == Link(text) && fuel > 0
    requires q == Parent(p) + Split(text) && Ordinary(q) && DirsAbove(t, q, 0)
    ensures Walk(t, Parent(p), [Last(p)], fuel) == Walk(t, Parent(q), [Last(q)], fuel - 1)
  {
    WalkHops(t, p, text, fuel);
    assert q[..|p| - 1] == Parent(p) && q[|p| - 1..] == Split(text);
    WalkDown(t, q, |p| - 1, fuel - 1);
  }

  /** The two resolutions agree link by link. */
  lemma {:induction false} WalkFollows(t: Tree, members: Members, ends: Ends, p: Path, fuel: nat)
    requires Sited(t, members, ends) && p in members && Follow(members, p, fuel).Some?
    ensures p != [] && Arrives(t, members, Walk(t, Parent(p), [Last(p)], fuel), Follow(members, p, fuel).value)
    decreases fuel
  {
    assert SitedAt(t, members, ends, p);
    if members[p].kind.Symbolic? {
      var q := Hop(members, p).value;
      assert q in members && Follow(members, q, fuel - 1) == Follow(members, p, fuel);
      assert SitedAt(t, members, ends, q);
      WalkLikeHop(t, p, q, members[p].text, fuel);
      WalkFollows(t, members, ends, q, fuel - 1);
    } else {
      WalkStays(t, p, fuel);
    }
  }

  // ----- the published tree -----

  /** What `Unpack` publishes. */
  ghost predicate Built(t: Tree, listing: Listing) {
    Acceptable(listing) && Extracts(t, listing.members, EndsOf(listing.members))
  }

  lemma {:induction false} DirsAboveMember(t: Tree, listing: Listing, p: Path)
    requires Built(t, listing) && p in listing.members
    ensures Ordinary(p) && DirsAbove(t, p, 0)
  {
    assert InPackage(p);
    assert MemberOk(listing.members, p);
    forall k | 0 <= k < |p|
      ensures p[..k] in t.entries && t.entries[p[..k]].Dir?
    {
      if k > 0 {
        assert Above(p[..k], p);
        assert Placed(t, listing.members, EndsOf(listing.members), listing.members.Keys, 0, p[..k]);
      }
    }
  }

  lemma {:induction false} EveryFuelAgrees(members: Members, p: Path)
    requires p in members
    ensures forall f: nat :: Follow(members, p, f).Some? ==> Follow(members, p, f) == End(members, p)
  {
    forall f: nat | Follow(members, p, f).Some?
      ensures Follow(members, p, f) == End(members, p)
    {
      if IsLink(members[p]) {
        ShortestFollow(members, p, [p], f);
        MoreFuel(members, p, |members| - 1, |members|);
      }
      SameEnd(members, p, f);
    }
  }

  lemma {:induction false} AcceptedEnd(listing: Listing, p: Path)
    requires Acceptable(listing) && p in listing.members
    ensures |listing.members| > 0 && End(listing.members, p).Some?
    ensures Follow(listing.members, p, |listing.members| - 1) == End(listing.members, p)
    ensures var end := End(listing.members, p).value;
      end in listing.members && !IsLink(listing.members[end]) && (!IsLink(listing.members[p]) ==> end == p)
  {
    var members := listing.members;
    assert MemberOk(members, p) && InPackage(p);
    forall q | q in members
      ensures q != [] && q[0] == "package"
    {
      assert InPackage(q);
    }
    AcceptedLinksEnd(members, p);
  }

  lemma {:induction false} EndIsNoLink(t: Tree, listing: Listing, end: Path)
    requires Built(t, listing) && end in listing.members && !IsLink(listing.members[end])
    ensures end in t.entries
    ensures t.entries[end].Dir? || (t.entries[end].File? && t.entries[end].ino in t.inodes)
  {
    assert Placed(t, listing.members, EndsOf(listing.members), listing.members.Keys, 0, end);
  }

  lemma {:induction false} BuiltIsSited(t: Tree, listing: Listing)
    requires Built(t, listing)
    ensures Sited(t, listing.members, EndsOf(listing.members))
  {
    var members := listing.members;
    forall p | p in members
      ensures SitedAt(t, members, EndsOf(members), p)
    {
      DirsAboveMember(t, listing, p);
      EveryFuelAgrees(members, p);
      AcceptedEnd(listing, p);
      EndIsNoLink(t, listing, End(members, p).value);
      assert Placed(t, members, EndsOf(members), members.Keys, 0, p);
    }
  }

  /**
   * Opening any member of the published tree, with fewer symbolic links followed than there are members,
   * gives the very inode or directory that the archive's own resolution names.
   */
  lemma {:induction false} OpeningReachesTheEnd(t: Tree, listing: Listing, p: Path) returns (found: Path)
    requires Built(t, listing) && p in listing.members
    ensures Walk(t, [], p, |listing.members| - 1) == Some(found)
    ensures End(listing.members, p).Some?
    ensures SameObject(t, found, End(listing.members, p).value)
  {
    AcceptedEnd(listing, p);
    BuiltIsSited(t, listing);
    found := WalkFromRoot(t, listing.members, EndsOf(listing.members), p, |listing.members| - 1);
    var end := End(listing.members, p).value;
    EndIsNoLink(t, listing, end);
    ArrivedAtObject(t, listing.members, found, end);
  }

  /** Two names of one directory, or of one inode that exists. */
  ghost predicate SameObject(t: Tree, found: Path, end: Path) {
    && found in t.entries && end in t.entries && t.entries[found] == t.entries[end]
    && (t.entries[end].Dir? || (t.entries[end].File? && t.entries[end].ino in t.inodes))
  }

  lemma {:induction false} ArrivedAtObject(t: Tree, members: Members, found: Path, end: Path)
    requires Arrives(t, members, Some(found), end)
    requires t.entries[end].Dir? || (t.entries[end].File? && t.entries[end].ino in t.inodes)
    ensures SameObject(t, found, end)
  {
  }

  lemma {:induction false} WalkFromRoot(t: Tree, members: Members, ends: Ends, p: Path, hops: nat) returns (found: Path)
    requires Sited(t, members, ends) && p in members && Follow(members, p, hops).Some?
    ensures Walk(t, [], p, hops) == Some(found)
    ensures Arrives(t, members, Some(found), Follow(members, p, hops).value)
  {
    WalkFollows(t, members, ends, p, hops);
    assert SitedAt(t, members, ends, p);
    WalkDown(t, p, 0, hops);
    assert p[..0] == [] && p[0..] == p;
    found := Walk(t, [], p, hops).value;
  }

  /** A regular member of the published tree holds the first `size` bytes of its payload, under its own mode. */
  lemma {:induction false} FileHoldsItsPayload(t: Tree, listing: Listing, p: Path)
    requires Built(t, listing) && p in listing.members && listing.members[p].kind.Regular?
    ensures p in t.entries && t.entries[p].File? && t.entries[p].ino in t.inodes
    ensures var h, node := listing.members[p], t.inodes[t.entries[p].ino];
      h.size <= |h.payload| && node.bytes == h.payload[..h.size] && node.mode == h.mode
  {
    assert MemberOk(listing.members, p);
    assert Placed(t, listing.members, EndsOf(listing.members), listing.members.Keys, 0, p);
  }

  // ----- hard links by their texts -----

  /** A hard link that names a member by its text hops to it. */
  lemma {:induction false} HardLinkHops(members: Members, p: Path, q: Path)
    requires p in members && q in members && members[p].kind.Hard? && p != [] && Ordinary(q)
    requires Hop(members, p).Some? && Join(q) == members[p].text
    ensures Hop(members, p) == Some(q)
  {
    HardLinkNamesItsText(p, members[p].text, q);
    HardLinkNamesItsText(p, members[p].text, Hop(members, p).value);
    SplitOfJoin(q);
  }

  lemma {:induction false} HopKeepsEnd(members: Members, p: Path, q: Path, n: nat)
    requires p in members && q in members && IsLink(members[p]) && Hop(members, p) == Some(q)
    requires Follow(members, p, n).Some?
    ensures End(members, p) == End(members, q)
  {
    EveryFuelAgrees(members, p);
    EveryFuelAgrees(members, q);
    assert n > 0 && Follow(members, q, n - 1) == Follow(members, p, n);
  }

  /** A resolving hard link has the end of the member its text names. */
  lemma {:induction false} HardLinkEnds(members: Members, p: Path, q: Path, n: nat)
    requires p in members && q in members && members[p].kind.Hard? && p != [] && Ordinary(q)
    requires Follow(members, p, n).Some? && Hop(members, p).Some? && Join(q) == members[p].text
    ensures End(members, p) == End(members, q)
  {
    HardLinkHops(members, p, q);
    HopKeepsEnd(members, p, q, n);
  }

  lemma {:induction false} AcceptedMember(listing: Listing, p: Path)
    requires Acceptable(listing) == true && p in listing.members
    ensures Ordinary(p) && |listing.members| > 0 && Follow(listing.members, p, |listing.members| - 1).Some?
    ensures IsLink(listing.members[p]) ==> Hop(listing.members, p).Some?
  {
    AcceptedEnd(listing, p);
    assert InPackage(p);
  }

  lemma {:induction false} HardLinkHasMember(listing: Listing, p: Path) returns (q: Path)
    requires Acceptable(listing) && p in listing.members && listing.members[p].kind.Hard?
    ensures q in listing.members && Join(q) == listing.members[p].text
  {
    var members := listing.members;
    AcceptedMember(listing, p);
    q := Hop(members, p).value;
    HardLinkNamesItsText(p, members[p].text, q);
  }

  /**
   * In the published tree a hard link is the very file its text names: the member of that name exists, and
   * unless it is a symbolic link the two are one entry.
   */
  lemma {:induction false} HardLinkIsItsNamesake(t: Tree, listing: Listing, p: Path) returns (q: Path)
    requires Built(t, listing) && p in listing.members && listing.members[p].kind.Hard?
    ensures q in listing.members && Join(q) == listing.members[p].text
    ensures p in t.entries && q in t.entries && !listing.members[q].kind.Directory?
    ensures !listing.members[q].kind.Symbolic? ==> t.entries[p] == t.entries[q]
    ensures listing.members[q].kind.Regular? ==>
      t.entries[q].File? && t.entries[q].ino in t.inodes
      && t.inodes[t.entries[q].ino] == Inode(Content(listing.members[q]), listing.members[q].mode)
  {
    q := HardLinkHasMember(listing, p);
    AcceptedMember(listing, p);
    AcceptedMember(listing, q);
    HardLinkEnds(listing.members, p, q, |listing.members| - 1);
    BuiltIsSited(t, listing);
    var members, ends := listing.members, EndsOf(listing.members);
    assert SitedAt(t, members, ends, p) && SitedAt(t, members, ends, q);
    AcceptedEnd(listing, q);
    assert Placed(t, members, ends, members.Keys, 0, q);
    assert MemberOk(members, p) && InPackage(p);
    HardEnds(members, p);
  }

  /** An archive with an ordinary hard link, one that names a regular member of its own mode, is not refused for it. */
  lemma {:induction false} OrdinaryHardLinkIsOk(members: Members, p: Path, q: Path)
    requires p in members && p != [] && members[p].kind.Hard? && q in members && members[q].kind.Regular?
    requires InPackage(q) && Printable(Join(q)) && members[p].text == Join(q) && members[p].mode == members[q].mode
    ensures LinkOk(members, p)
  {
    HardLinkNamesItsText(p, members[p].text, q);
    assert Hop(members, p) == Some(q);
    assert Follow(members, q, 0) == Some(q);
    assert Follow(members, p, 1) == Some(q);
  }
}
