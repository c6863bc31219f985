// validation/media_export.py, `inventory`: the archive is judged whole before anything is written.
module ExportInventory {
  import opened Wrappers
  import opened ExportPaths

  const MAX_MEMBERS := 65536
  const MAX_EXPANDED := 2 * 1024 * 1024 * 1024
  const MAX_ARCHIVE := MAX_EXPANDED + 64 * 1024 * 1024

  datatype Kind = Regular | Directory | Symbolic | Hard | Special

  /** One tar header, where its payload starts, and as much of that payload as the archive holds. */
  datatype Header = Header(name: string, kind: Kind, mode: nat, size: nat, text: string, payload: seq<bv8>,
                           finiteTime: bool, sparse: bool, offset: nat)

  type Members = map<Path, Header>

  /** The members in archive order. */
  datatype Listing = Listing(order: seq<Path>, members: Members)

  // ----- headers -----

  function NameOf(h: Header): Option<Path> { MemberPath(h.name, h.kind.Directory?) }

  /** How a header is named; the archive's headers are named by `NameOf`. */
  type Naming = Header -> Option<Path>

  predicate HeaderOk(naming: Naming, h: Header) { naming(h).Some? && ShapeOk(h) }

  predicate ShapeOk(h: Header) {
    && !h.kind.Special?
    && (h.kind.Regular? || h.size == 0) && h.mode <= 0x1ff && h.finiteTime
    && (h.kind.Symbolic? ==> h.mode == 0x1ff)
    && !h.sparse
  }

  function TotalSize(headers: seq<Header>, n: nat): nat
    requires n <= |headers|
  {
    if n == 0 then 0 else TotalSize(headers, n - 1) + headers[n - 1].size
  }

  ghost predicate HeadersOk(naming: Naming, headers: seq<Header>, n: nat)
    requires n <= |headers|
  {
    && n <= MAX_MEMBERS
    && EachOk(naming, headers, n)
    && NamesDistinct(naming, headers, n)
    && TotalSize(headers, n) <= MAX_EXPANDED
  }

  ghost predicate EachOk(naming: Naming, headers: seq<Header>, n: nat)
    requires n <= |headers|
  {
    forall k :: 0 <= k < n ==> HeaderOk(naming, headers[k])
  }

  ghost predicate NamesDistinct(naming: Naming, headers: seq<Header>, n: nat)
    requires n <= |headers|
  {
    forall j, k :: 0 <= j < k < n ==> naming(headers[j]) != naming(headers[k])
  }

  /** `listing` holds exactly the first `n` headers, each under its own name. */
  ghost predicate Lists(naming: Naming, listing: Listing, headers: seq<Header>, n: nat)
    requires n <= |headers|
  {
    && |listing.order| == n
    && (forall k :: 0 <= k < n ==> naming(headers[k]) == Some(listing.order[k]))
    && (forall j, k :: 0 <= j < k < n ==> listing.order[j] != listing.order[k])
    && (forall p :: p in listing.members <==> p in listing.order)
    && (forall k :: 0 <= k < n ==> listing.members[listing.order[k]] == headers[k])
  }

  // ----- the link graph -----

  predicate IsLink(h: Header) { h.kind.Symbolic? || h.kind.Hard? }

  /** One hop along a link. */
  function Hop(members: Members, p: Path): Option<Path>
    requires p in members
  {
    if p == [] then None else LinkTarget(p, members[p].kind.Symbolic?, members[p].text)
  }

  /** The non-link member reached from `p` in at most `fuel` hops. */
  function Follow(members: Members, p: Path, fuel: nat): (end: Option<Path>)
    ensures end.Some? ==> end.value in members && !IsLink(members[end.value])
    decreases fuel
  {
    if p !in members then None
    else if !IsLink(members[p]) then Some(p)
    else if fuel == 0 || Hop(members, p).None? then None
    else Follow(members, Hop(members, p).value, fuel - 1)
  }

  /** Following links from `p` ends at a member that is no link. */
  ghost predicate Resolves(members: Members, p: Path) {
    exists fuel: nat :: Follow(members, p, fuel).Some?
  }

  lemma {:induction false} MoreFuel(members: Members, p: Path, f: nat, g: nat)
    requires f <= g && Follow(members, p, f).Some?
    ensures Follow(members, p, g) == Follow(members, p, f)
    decreases f
  {
    if f > 0 && IsLink(members[p]) {
      MoreFuel(members, Hop(members, p).value, f - 1, g - 1);
    }
  }

  /** Successive links, each naming the next. */
  ghost predicate IsTrail(members: Members, trail: seq<Path>) {
    && (forall k :: 0 <= k < |trail| ==> trail[k] in members && IsLink(members[trail[k]]))
    && (forall j, k :: 0 <= j && k == j + 1 < |trail| ==> Hop(members, trail[j]) == Some(trail[k]))
  }

  ghost predicate Distinct(trail: seq<Path>) {
    forall j, k :: 0 <= j < k < |trail| ==> trail[j] != trail[k]
  }

  lemma {:induction false} TrailGrows(members: Members, trail: seq<Path>, next: Path)
    requires IsTrail(members, trail) && Distinct(trail) && trail != [] && next !in trail
    requires next in members && IsLink(members[next]) && Hop(members, trail[|trail| - 1]) == Some(next)
    ensures IsTrail(members, trail + [next]) && Distinct(trail + [next])
  {
  }

  /** Walking a trail uses one hop for each of its links. */
  lemma {:induction false} FollowTrail(members: Members, trail: seq<Path>, next: Option<Path>, i: nat, fuel: nat)
    requires IsTrail(members, trail) && i < |trail| && Hop(members, trail[|trail| - 1]) == next
    ensures Follow(members, trail[i], fuel) ==
      if fuel < |trail| - i || next.None? then None else Follow(members, next.value, fuel - (|trail| - i))
    decreases fuel
  {
    if fuel > 0 && i + 1 < |trail| {
      assert Hop(members, trail[i]) == Some(trail[i + 1]);
      FollowTrail(members, trail, next, i + 1, fuel - 1);
    }
  }

  /** A trail that runs back into itself never ends. */
  lemma {:induction false} CycleNeverEnds(members: Members, trail: seq<Path>, back: nat, i: nat, fuel: nat)
    requires IsTrail(members, trail) && back < |trail| && Hop(members, trail[|trail| - 1]) == Some(trail[back])
    requires i < |trail|
    ensures Follow(members, trail[i], fuel).None?
    decreases fuel
  {
    if fuel > 0 {
      var next := if i + 1 < |trail| then i + 1 else back;
      assert Hop(members, trail[i]) == Some(trail[next]);
      CycleNeverEnds(members, trail, back, next, fuel - 1);
    }
  }

  lemma {:induction false} DistinctTrailIsShort(members: Members, trail: seq<Path>)
    requires forall k :: 0 <= k < |trail| ==> trail[k] in members
    requires Distinct(trail)
    ensures |trail| <= |members|
    decreases |trail|
  {
    if trail != [] {
      var n := |trail| - 1;
      var rest := members - {trail[n]};
      assert rest.Keys == members.Keys - {trail[n]};
      assert |rest| == |rest.Keys| && |members| == |members.Keys|;
      DistinctTrailIsShort(rest, trail[..n]);
    }
  }

  lemma {:induction false} DistinctTrailMissesOne(members: Members, trail: seq<Path>, other: Path)
    requires forall k :: 0 <= k < |trail| ==> trail[k] in members && trail[k] != other
    requires Distinct(trail)
    requires other in members
    ensures |trail| < |members|
  {
    DistinctTrailIsShort(members, trail + [other]);
  }

  /**
   * The cycle check.  It succeeds exactly when the chain resolves, always within fewer hops than there
   * are members, so its cap on `seen` never refuses an acyclic chain.
   */
  method ResolveLink(members: Members, name: Path) returns (end: Option<Path>)
    requires name in members && IsLink(members[name]) && |members| <= MAX_MEMBERS
    ensures end.Some? <==> Resolves(members, name)
    ensures end.Some? ==> Follow(members, name, |members| - 1) == end
  {
    var target := Hop(members, name);
    var seen := {name};
    ghost var trail := [name];
    if target.None? {
      FollowNothing(members, trail);
      return None;
    }
    while target.Some? && target.value in members && IsLink(members[target.value])
      invariant IsTrail(members, trail) && Distinct(trail)
      invariant trail != [] && trail[0] == name && Hop(members, trail[|trail| - 1]) == target
      invariant Holds(seen, trail)
      decreases |members| - |trail|
    {
      SeenIsShort(members, seen, trail, target.value);
      if target.value in seen || |seen| >= MAX_MEMBERS {
        CycleFound(members, trail, target.value);
        return None;
      }
      TrailGrows(members, trail, target.value);
      HoldsMore(seen, trail, target.value);
      seen := seen + {target.value};
      trail := trail + [target.value];
      target := Hop(members, target.value);
    }
    if target.None? || target.value !in members {
      FollowNothing(members, trail);
      return None;
    }
    DistinctTrailMissesOne(members, trail, target.value);
    FollowTrail(members, trail, target, 0, |members| - 1);
    end := target;
  }

  ghost predicate Holds(seen: set<Path>, trail: seq<Path>) {
    |seen| == |trail| && forall p :: p in seen <==> p in trail
  }

  lemma {:induction false} HoldsMore(seen: set<Path>, trail: seq<Path>, next: Path)
    requires Holds(seen, trail) && next !in seen
    ensures Holds(seen + {next}, trail + [next])
  {
  }

  /** A link not yet seen leaves room under the cap. */
  lemma {:induction false} SeenIsShort(members: Members, seen: set<Path>, trail: seq<Path>, next: Path)
    requires IsTrail(members, trail) && Distinct(trail) && Holds(seen, trail) && next in members
    ensures next !in seen ==> |trail| < |members|
  {
    if next !in seen {
      DistinctTrailMissesOne(members, trail, next);
    }
  }

  lemma {:induction false} CycleFound(members: Members, trail: seq<Path>, next: Path)
    requires IsTrail(members, trail) && next in trail && Hop(members, trail[|trail| - 1]) == Some(next)
    ensures !Resolves(members, trail[0])
  {
    var back :| 0 <= back < |trail| && trail[back] == next;
    forall fuel: nat
      ensures Follow(members, trail[0], fuel).None?
    {
      CycleNeverEnds(members, trail, back, 0, fuel);
    }
  }

  lemma {:induction false} FollowNothing(members: Members, trail: seq<Path>)
    requires IsTrail(members, trail) && trail != []
    requires var next := Hop(members, trail[|trail| - 1]); next.None? || next.value !in members
    ensures !Resolves(members, trail[0])
  {
    var next := Hop(members, trail[|trail| - 1]);
    forall fuel: nat
      ensures Follow(members, trail[0], fuel).None?
    {
      FollowTrail(members, trail, next, 0, fuel);
    }
  }

  // ----- the whole judgement -----

  ghost predicate AncestorsOk(members: Members, p: Path) {
    forall q :: Above(q, p) ==> q in members && members[q].kind.Directory?
  }

  ghost predicate LinkOk(members: Members, p: Path)
    requires p in members
  {
    IsLink(members[p]) ==>
      && Resolves(members, p)
      && (members[p].kind.Hard? ==>
            exists fuel: nat ::
              var end := Follow(members, p, fuel);
              end.Some? && members[end.value].kind.Regular? && members[end.value].mode == members[p].mode)
  }

  ghost predicate MemberOk(members: Members, p: Path)
    requires p in members
  {
    && AncestorsOk(members, p) && LinkOk(members, p)
    && (members[p].kind.Regular? ==> |members[p].payload| >= members[p].size)
  }

  const PACKAGE: Path := ["package"]

  ghost predicate GraphOk(members: Members) {
    && PACKAGE in members && members[PACKAGE].kind.Directory?
    && forall p {:trigger MemberOk(members, p)} :: p in members ==> MemberOk(members, p)
  }

  /** What the inventory promises of a listing it returns. */
  ghost predicate Sound(naming: Naming, listing: Listing, headers: seq<Header>) {
    Lists(naming, listing, headers, |headers|) && GraphOk(listing.members)
  }

  ghost predicate Admits(naming: Naming, h: Header, members: Members, total: nat) {
    |members| < MAX_MEMBERS && HeaderOk(naming, h) && naming(h).value !in members && total + h.size <= MAX_EXPANDED
  }

  /** One round of the header loop: the tests on one member, and its name. */
  method AdmitHeader(naming: Naming, h: Header, members: Members, total: nat) returns (name: Option<Path>)
    ensures name == if Admits(naming, h, members, total) then naming(h) else None
    ensures Admits(naming, h, members, total) ==> naming(h).Some?
  {
    if |members| >= MAX_MEMBERS {
      return None;
    }
    name := naming(h);
    if name.None? {
      return;
    }
    if name.value in members || h.kind.Special? {
      return None;
    }
    if !(h.kind.Regular? || h.size == 0) || h.mode > 0x1ff || !h.finiteTime {
      return None;
    }
    if (h.kind.Symbolic? && h.mode != 0x1ff) || h.sparse {
      return None;
    }
    if total + h.size > MAX_EXPANDED {
      return None;
    }
  }

  method ReadHeaders(naming: Naming, headers: seq<Header>) returns (r: Result<Listing>)
    ensures r.Ok? <==> HeadersOk(naming, headers, |headers|)
    ensures r.Ok? ==> Lists(naming, r.value, headers, |headers|)
  {
    var members: Members, order: seq<Path>, total: nat := map[], [], 0;
    var i := 0;
    while i < |headers|
      invariant i <= |headers|
      invariant ReadSoFar(naming, headers, i, Listing(order, members), total) == true
    {
      NextRound(naming, headers, i, Listing(order, members), total);
      var name := AdmitHeader(naming, headers[i], members, total);
      if name.None? {
        return Refused;
      }
      total := total + headers[i].size;
      order := order + [name.value];
      members := members[name.value := headers[i]];
      i := i + 1;
    }
    r := Ok(Listing(order, members));
  }

  ghost predicate ReadSoFar(naming: Naming, headers: seq<Header>, i: nat, listing: Listing, total: nat)
    requires i <= |headers|
  {
    && Lists(naming, listing, headers, i) && HeadersOk(naming, headers, i)
    && total == TotalSize(headers, i) && |listing.members| == i
  }

  lemma {:induction false} NextRound(naming: Naming, headers: seq<Header>, i: nat, listing: Listing, total: nat)
    requires i < |headers| && ReadSoFar(naming, headers, i, listing, total)
    ensures HeadersOk(naming, headers, |headers|) ==> Admits(naming, headers[i], listing.members, total)
    ensures Admits(naming, headers[i], listing.members, total) ==>
      var p := naming(headers[i]).value;
      ReadSoFar(naming, headers, i + 1, Listing(listing.order + [p], listing.members[p := headers[i]]),
                total + headers[i].size)
  {
    NextHeader(naming, headers, i, listing);
  }

  /** One more header is acceptable exactly when it passes the tests of one round of the loop. */
  lemma {:induction false} NextHeader(naming: Naming, headers: seq<Header>, i: nat, listing: Listing)
    requires i < |headers| && Lists(naming, listing, headers, i) && HeadersOk(naming, headers, i)
      && |listing.members| == i
    ensures HeadersOk(naming, headers, i + 1) <==> Admits(naming, headers[i], listing.members, TotalSize(headers, i))
    ensures HeadersOk(naming, headers, |headers|) ==> HeadersOk(naming, headers, i + 1)
    ensures Admits(naming, headers[i], listing.members, TotalSize(headers, i)) ==>
      var p := naming(headers[i]).value;
      Lists(naming, Listing(listing.order + [p], listing.members[p := headers[i]]), headers, i + 1)
  {
    Prefixes(naming, headers, i + 1);
    assert EachOk(naming, headers, i + 1) <==> EachOk(naming, headers, i) && HeaderOk(naming, headers[i]);
    if HeaderOk(naming, headers[i]) {
      FreshName(naming, headers, i, listing, naming(headers[i]).value);
    }
  }

  lemma {:induction false} FreshName(naming: Naming, headers: seq<Header>, i: nat, listing: Listing, name: Path)
    requires i < |headers| && Lists(naming, listing, headers, i) && NamesDistinct(naming, headers, i)
    requires naming(headers[i]) == Some(name)
    ensures NamesDistinct(naming, headers, i + 1) <==> name !in listing.members
    ensures name !in listing.members ==>
      Lists(naming, Listing(listing.order + [name], listing.members[name := headers[i]]), headers, i + 1)
  {
    NewName(naming, headers, i, listing, name);
    if name !in listing.members {
      ListsMore(naming, headers, i, listing);
    }
  }

  lemma {:induction false} Prefixes(naming: Naming, headers: seq<Header>, n: nat)
    requires n <= |headers|
    ensures HeadersOk(naming, headers, |headers|) ==> HeadersOk(naming, headers, n)
  {
    TotalGrows(headers, n, |headers|);
  }

  /** A name is new to the members exactly when no earlier header carries it. */
  lemma {:induction false} NewName(naming: Naming, headers: seq<Header>, i: nat, listing: Listing, name: Path)
    requires i < |headers| && Lists(naming, listing, headers, i) && NamesDistinct(naming, headers, i)
    requires naming(headers[i]) == Some(name)
    ensures NamesDistinct(naming, headers, i + 1) <==> name !in listing.members
  {
    if name in listing.members {
      var k :| 0 <= k < i && listing.order[k] == name;
      assert naming(headers[k]) == naming(headers[i]);
    } else {
      forall k | 0 <= k < i
        ensures naming(headers[k]) != naming(headers[i])
      {
        assert listing.order[k] in listing.members;
      }
    }
  }

  lemma {:induction false} ListsMore(naming: Naming, headers: seq<Header>, i: nat, listing: Listing)
    requires i < |headers| && Lists(naming, listing, headers, i)
    requires naming(headers[i]).Some? && naming(headers[i]).value !in listing.members
    ensures var p := naming(headers[i]).value;
      Lists(naming, Listing(listing.order + [p], listing.members[p := headers[i]]), headers, i + 1)
  {
    var p := naming(headers[i]).value;
    forall k | 0 <= k < i
      ensures listing.order[k] != p
    {
      assert listing.order[k] in listing.members;
    }
  }

  lemma {:induction false} TotalGrows(headers: seq<Header>, m: nat, n: nat)
    requires m <= n <= |headers|
    ensures TotalSize(headers, m) <= TotalSize(headers, n)
    decreases n
  {
    if m < n {
      TotalGrows(headers, m, n - 1);
    }
  }

  /** Every proper ancestor of `p` is a directory member. */
  method CheckAncestors(members: Members, p: Path) returns (ok: bool)
    ensures ok <==> AncestorsOk(members, p)
  {
    var n := 1;
    while n < |p|
      invariant 1 <= n
      invariant forall k :: 1 <= k < n && k < |p| ==> p[..k] in members && members[p[..k]].kind.Directory?
    {
      if p[..n] !in members || !members[p[..n]].kind.Directory? {
        assert Above(p[..n], p);
        return false;
      }
      n := n + 1;
    }
    forall q | Above(q, p)
      ensures q in members && members[q].kind.Directory?
    {
      assert q == p[..|q|];
    }
    ok := true;
  }

  method CheckMember(members: Members, p: Path) returns (ok: bool)
    requires p in members && |members| <= MAX_MEMBERS
    ensures ok <==> MemberOk(members, p)
  {
    ok := CheckAncestors(members, p);
    if !ok { return; }
    if IsLink(members[p]) {
      var end := ResolveLink(members, p);
      if end.None? { return false; }
      if members[p].kind.Hard? {
        var target := members[end.value];
        SameEnd(members, p, |members| - 1);
        if !target.kind.Regular? || members[p].mode != target.mode { return false; }
        assert Follow(members, p, |members| - 1) == end;
      }
    }
    if members[p].kind.Regular? {
      ok := |members[p].payload| >= members[p].size;
    }
  }

  /** All fuels that suffice give the same end. */
  lemma {:induction false} SameEnd(members: Members, p: Path, f: nat)
    requires Follow(members, p, f).Some?
    ensures forall g: nat :: Follow(members, p, g).Some? ==> Follow(members, p, g) == Follow(members, p, f)
  {
    forall g: nat | Follow(members, p, g).Some?
      ensures Follow(members, p, g) == Follow(members, p, f)
    {
      if f <= g { MoreFuel(members, p, f, g); } else { MoreFuel(members, p, g, f); }
    }
  }

  // ----- where the archive ends -----

  const BLOCK := 512

  /** Payloads take up whole blocks. */
  function PaddedEnd(h: Header): nat { h.offset + (h.size + BLOCK - 1) / BLOCK * BLOCK }

  /** A payload that starts on a block ends within the last of its blocks. */
  lemma {:induction false} PaddedEndIsNextBlock(h: Header)
    requires h.offset % BLOCK == 0
    ensures PaddedEnd(h) % BLOCK == 0 && h.offset + h.size <= PaddedEnd(h) < h.offset + h.size + BLOCK
  {
    var blocks := (h.size + BLOCK - 1) / BLOCK;
    assert PaddedEnd(h) == h.offset + blocks * BLOCK;
    assert h.offset == h.offset / BLOCK * BLOCK;
  }

  /** Every payload lies in the file, and after the last one there are at least two blocks, all zero. */
  ghost predicate Whole(headers: seq<Header>, file: seq<bv8>) {
    && (forall k :: 0 <= k < |headers| ==> headers[k].offset + headers[k].size <= |file|)
    && |file| % BLOCK == 0
    && exists end: nat :: LastEnd(headers, |headers|, end) && ZerosFrom(file, end)
  }

  ghost predicate LastEnd(headers: seq<Header>, n: nat, end: nat)
    requires n <= |headers|
  {
    (forall k :: 0 <= k < n ==> PaddedEnd(headers[k]) <= end) && exists k :: 0 <= k < n && PaddedEnd(headers[k]) == end
  }

  ghost predicate ZerosFrom(file: seq<bv8>, end: nat) {
    end + 2 * BLOCK <= |file| && forall i :: end <= i < |file| ==> file[i] == 0
  }

  /** The bounds of each payload, and the end marker. */
  method CheckExtent(headers: seq<Header>, file: seq<bv8>) returns (ok: bool)
    ensures ok <==> Whole(headers, file)
  {
    var end: nat, n := 0, 0;
    while n < |headers|
      invariant n <= |headers| && (if n == 0 then end == 0 else LastEnd(headers, n, end))
      invariant forall k :: 0 <= k < n ==> headers[k].offset + headers[k].size <= |file|
    {
      if headers[n].offset + headers[n].size > |file| { return false; }
      if PaddedEnd(headers[n]) > end { end := PaddedEnd(headers[n]); }
      n := n + 1;
    }
    if headers == [] || |file| % BLOCK != 0 || end + 2 * BLOCK > |file| { return false; }
    var i := end;
    while i < |file|
      invariant end <= i <= |file| && forall j :: end <= j < i ==> file[j] == 0
    {
      if file[i] != 0 { return false; }
      i := i + 1;
    }
    ok := true;
  }

  method Inventory(headers: seq<Header>, file: seq<bv8>) returns (r: Result<Listing>)
    ensures r.Ok? ==> HeadersOk(NameOf, headers, |headers|) && Sound(NameOf, r.value, headers) && Whole(headers, file)
    ensures r.Refused? ==> !(HeadersOk(NameOf, headers, |headers|) && Whole(headers, file)
                             && exists listing :: Sound(NameOf, listing, headers))
  {
    r := ReadHeaders(NameOf, headers);
    if r.Refused? { return; }
    OrderCounts(NameOf, r.value, headers);
    SoundIsGraph(NameOf, r.value, headers);
    r := CheckGraph(r.value);
    if r.Ok? {
      var whole := CheckExtent(headers, file);
      if !whole { return Refused; }
    }
  }

  /** Nothing is left over: a byte of an accepted archive that is not zero lies before the end of the last payload. */
  lemma {:induction false} NothingTrails(headers: seq<Header>, file: seq<bv8>, i: nat)
    requires Whole(headers, file) && i < |file| && file[i] != 0
    ensures i + 2 * BLOCK < |file| && exists k :: 0 <= k < |headers| && i < PaddedEnd(headers[k])
  {
    var end: nat :| LastEnd(headers, |headers|, end) && ZerosFrom(file, end);
    assert i < end;
  }

  lemma {:induction false} SoundIsGraph(naming: Naming, read: Listing, headers: seq<Header>)
    requires Lists(naming, read, headers, |headers|)
    ensures (exists listing :: Sound(naming, listing, headers)) <==> GraphOk(read.members)
  {
    if listing :| Sound(naming, listing, headers) {
      OneListing(naming, listing, read, headers);
    }
    if GraphOk(read.members) {
      assert Sound(naming, read, headers);
    }
  }

  method CheckGraph(listing: Listing) returns (r: Result<Listing>)
    requires |listing.members| <= MAX_MEMBERS && forall p :: p in listing.members <==> p in listing.order
    ensures r.Ok? <==> GraphOk(listing.members)
    ensures r.Ok? ==> r.value == listing
  {
    var members, order := listing.members, listing.order;
    if PACKAGE !in members || !members[PACKAGE].kind.Directory? {
      return Refused;
    }
    var i := 0;
    while i < |order|
      invariant i <= |order|
      invariant forall k :: 0 <= k < i ==> order[k] in members && MemberOk(members, order[k])
    {
      assert order[i] in order;
      var ok := CheckMember(members, order[i]);
      if !ok { return Refused; }
      i := i + 1;
    }
    forall p | p in members
      ensures MemberOk(members, p)
    {
      var k :| 0 <= k < |order| && order[k] == p;
    }
    r := Ok(listing);
  }

  lemma {:induction false} OneListing(naming: Naming, a: Listing, b: Listing, headers: seq<Header>)
    requires Lists(naming, a, headers, |headers|) && Lists(naming, b, headers, |headers|)
    ensures a == b
  {
    forall k | 0 <= k < |headers|
      ensures a.order[k] == b.order[k]
    {
      assert naming(headers[k]) == Some(a.order[k]) == Some(b.order[k]);
    }
    assert a.order == b.order;
    forall p | p in a.members
      ensures a.members[p] == b.members[p]
    {
      var k :| 0 <= k < |headers| && a.order[k] == p;
    }
    assert a.members.Keys == b.members.Keys;
    assert a.members == b.members;
  }

  lemma {:induction false} OrderCounts(naming: Naming, listing: Listing, headers: seq<Header>)
    requires HeadersOk(naming, headers, |headers|) && Lists(naming, listing, headers, |headers|)
    ensures |listing.members| == |headers| <= MAX_MEMBERS
  {
    DistinctKeys(listing.order, listing.members.Keys);
  }

  lemma {:induction false} DistinctKeys(order: seq<Path>, keys: set<Path>)
    requires Distinct(order)
    requires forall p :: p in keys <==> p in order
    ensures |keys| == |order|
    decreases |order|
  {
    if order == [] {
      assert keys == {};
    } else {
      var n := |order| - 1;
      var rest := keys - {order[n]};
      forall p
        ensures p in rest <==> p in order[..n]
      {
        if p in order[..n] { assert p != order[n]; }
      }
      DistinctKeys(order[..n], rest);
      assert order[n] in keys;
    }
  }

  // ----- consequences -----

  /** The end of a link's chain, the member itself when it is no link. */
  function End(members: Members, p: Path): Option<Path> { Follow(members, p, |members|) }

  /**
   * After acceptance every member leads, by `link_target` alone, to a non-link member under
   * "package", in fewer hops than there are members.
   */
  lemma {:induction false} AcceptedLinksEnd(members: Members, p: Path)
    requires p in members && LinkOk(members, p) && |members| <= MAX_MEMBERS
    requires forall q :: q in members ==> q != [] && q[0] == "package"
    ensures Follow(members, p, |members| - 1).Some?
    ensures var end := End(members, p);
      end.Some? && end.value in members && !IsLink(members[end.value]) && end.value[0] == "package"
    ensures Follow(members, p, |members| - 1) == End(members, p)
  {
    var fuel: nat :| Follow(members, p, fuel).Some? || !IsLink(members[p]);
    assert |members| > 0 by {
      assert members != map[];
    }
    if IsLink(members[p]) {
      ShortestFollow(members, p, [p], fuel);
    }
    MoreFuel(members, p, |members| - 1, |members|);
  }

  /** Whatever fuel suffices, fewer hops than members do. */
  lemma {:induction false} ShortestFollow(members: Members, p: Path, trail: seq<Path>, fuel: nat)
    requires IsTrail(members, trail) && trail != [] && trail[0] == p
    requires Distinct(trail)
    requires Follow(members, p, fuel).Some?
    ensures Follow(members, p, |members| - 1).Some?
    ensures |members| > 0
    decreases |members| - |trail|
  {
    DistinctTrailIsShort(members, trail);
    var next := Hop(members, trail[|trail| - 1]);
    FollowTrail(members, trail, next, 0, fuel);
    var q := next.value;
    if IsLink(members[q]) {
      if q in trail {
        var back :| 0 <= back < |trail| && trail[back] == q;
        CycleNeverEnds(members, trail, back, 0, fuel);
      } else {
        DistinctTrailMissesOne(members, trail, q);
        ShortestFollow(members, p, trail + [q], fuel);
      }
    } else {
      DistinctTrailMissesOne(members, trail, q);
      FollowTrail(members, trail, next, 0, |members| - 1);
    }
  }
}
