// validation/media_export.py, `member_path` and `link_target`: names in an archive as paths.
module ExportPaths {
  import opened Wrappers

  /** The components of a relative path. */
  type Path = seq<string>

  // ----- splitting and joining -----

  /** What splitting at every slash gives: always at least one component. */
  function Split(s: string): (parts: seq<string>)
    ensures parts != []
    ensures forall k :: 0 <= k < |parts| ==> '/' !in parts[k]
  {
    if s == "" then [""]
    else
      var rest := Split(s[1..]);
      if s[0] == '/' then [""] + rest else [[s[0]] + rest[0]] + rest[1..]
  }

  function Join(parts: seq<string>): string {
    if parts == [] then "" else if |parts| == 1 then parts[0] else parts[0] + "/" + Join(parts[1..])
  }

  lemma {:induction false} JoinSplit(s: string)
    ensures Join(Split(s)) == s
  {
    if s != "" {
      JoinSplit(s[1..]);
      var rest := Split(s[1..]);
      if s[0] == '/' {
        assert ([""] + rest)[1..] == rest;
      } else {
        var parts := [[s[0]] + rest[0]] + rest[1..];
        assert parts[1..] == rest[1..];
        assert s == [s[0]] + s[1..];
      }
    }
  }

  lemma {:induction false} SplitJoin(parts: seq<string>)
    requires parts != [] && forall k :: 0 <= k < |parts| ==> '/' !in parts[k]
    ensures Split(Join(parts)) == parts
    decreases |parts|, |parts[0]|
  {
    var s := Join(parts);
    if parts[0] == "" {
      if |parts| > 1 {
        SplitJoin(parts[1..]);
        assert s == "/" + Join(parts[1..]);
        assert s[1..] == Join(parts[1..]);
        assert parts == [""] + parts[1..];
      }
    } else {
      var first := parts[0];
      var shorter := [first[1..]] + parts[1..];
      assert shorter[1..] == parts[1..];
      SplitJoin(shorter);
      assert s[0] == first[0] != '/';
      assert s[1..] == Join(shorter);
      assert first == [first[0]] + first[1..];
      assert parts == [[first[0]] + shorter[0]] + shorter[1..];
    }
  }

  // ----- PurePosixPath -----

  function DropIdle(parts: seq<string>): seq<string> {
    if parts == [] then []
    else if parts[0] == "" || parts[0] == "." then DropIdle(parts[1..])
    else [parts[0]] + DropIdle(parts[1..])
  }

  /** The components Python keeps: empty ones and "." are dropped. */
  function PureParts(value: string): seq<string> { DropIdle(Split(value)) }

  /** The text Python gives back for a relative path. */
  function PureText(value: string): string {
    if PureParts(value) == [] then "." else Join(PureParts(value))
  }

  predicate PlainText(value: string) {
    '\\' !in value && ':' !in value
    && forall k :: 0 <= k < |value| ==> value[k] as int >= 32 && value[k] as int != 127
  }

  /** `value` names a path by exactly its own components. */
  predicate Canonical(value: string) {
    && value != "" && value[0] != '/' && PureText(value) == value && ".." !in PureParts(value) && PlainText(value)
  }

  predicate OrdinaryPart(part: string) {
    part != "" && part != "." && part != ".." && '/' !in part
  }

  lemma {:induction false} DropIdleShortens(parts: seq<string>)
    ensures |DropIdle(parts)| <= |parts|
    ensures |DropIdle(parts)| == |parts| ==> DropIdle(parts) == parts
    ensures forall x :: x in DropIdle(parts) ==> x in parts && x != "" && x != "."
  {
    if parts != [] {
      DropIdleShortens(parts[1..]);
      assert parts == [parts[0]] + parts[1..];
    }
  }

  /** A canonical text other than "." is the join of ordinary components, and splitting it keeps them all. */
  lemma {:induction false} CanonicalParts(value: string)
    requires Canonical(value) && value != "."
    ensures PureParts(value) == Split(value)
    ensures forall k :: 0 <= k < |Split(value)| ==> OrdinaryPart(Split(value)[k])
  {
    var parts := PureParts(value);
    DropIdleShortens(Split(value));
    forall k | 0 <= k < |parts|
      ensures '/' !in parts[k]
    {
      assert parts[k] in Split(value);
    }
    SplitJoin(parts);
    assert Split(value) == parts;
    forall k | 0 <= k < |parts|
      ensures OrdinaryPart(parts[k])
    {
      assert parts[k] in parts;
    }
  }

  // ----- member names -----

  /** `member_path`: a directory may carry one trailing slash; anything else unusual is refused. */
  function MemberPath(name: string, directory: bool): (r: Option<Path>)
  {
    var value := if directory && name != "" && name[|name| - 1] == '/' then name[..|name| - 1] else name;
    if Canonical(value) && PureParts(value) != [] && PureParts(value)[0] == "package" then Some(Split(value)) else None
  }

  lemma {:induction false} DotIsIdle()
    ensures PureParts(".") == []
  {
    assert "."[1..] == "" && Split("") == [""];
    assert Split(".") == [['.'] + ""] + [""][1..];
    assert Split(".") == ["."] by {
      assert ['.'] + "" == ".";
    }
    assert ["."][1..] == [];
  }

  /** Members are named by ordinary components under "package", and the text can be rebuilt from them. */
  lemma {:induction false} MemberPathIsOrdinary(name: string, directory: bool)
    requires MemberPath(name, directory).Some?
    ensures var p := MemberPath(name, directory).value;
      && Ordinary(p) && p[0] == "package"
      && (Join(p) == name || (directory && Join(p) + "/" == name))
  {
    var value := if directory && name != "" && name[|name| - 1] == '/' then name[..|name| - 1] else name;
    assert value != "." by {
      DotIsIdle();
    }
    CanonicalParts(value);
    JoinSplit(value);
    if value != name {
      assert name == value + "/";
    }
  }

  predicate Ordinary(p: Path) {
    p != [] && forall k :: 0 <= k < |p| ==> OrdinaryPart(p[k])
  }

  function Parent(p: Path): Path
    requires p != []
  {
    p[..|p| - 1]
  }

  /** `p` is a proper ancestor of `q`, the root excluded. */
  predicate Above(p: Path, q: Path) {
    0 < |p| < |q| && q[..|p|] == p
  }

  /** Length of the text of a member's name, the key the directories are sorted by. */
  function NameLength(p: Path): nat { |Join(p)| }

  lemma {:induction false} LongerBelow(p: Path, q: Path)
    requires Above(p, q)
    ensures NameLength(p) < NameLength(q)
    decreases |p|
  {
    if |p| == 1 {
      assert Join(q) == q[0] + "/" + Join(q[1..]);
      assert p[0] == q[0];
    } else {
      assert q[1..][..|p| - 1] == p[1..];
      LongerBelow(p[1..], q[1..]);
      assert p[0] == q[0];
    }
  }

  // ----- links -----

  /** `link_target`: a symbolic link's text is relative to its directory, a hard link's to the root. */
  function LinkTarget(name: Path, symbolic: bool, text: string): Option<Path>
    requires name != []
  {
    if !Canonical(text) then None
    else
      var parts := (if symbolic then Parent(name) else []) + Split(text);
      if parts[0] == "package" then Some(parts) else None
  }

  // ----- names and link texts, written out -----

  /** Printable, without the separators of other systems. */
  predicate Printable(value: string) {
    forall k :: 0 <= k < |value| ==> value[k] >= ' ' && value[k] as int != 127 && value[k] != '\\' && value[k] != ':'
  }

  lemma {:induction false} OrdinaryStays(parts: seq<string>)
    requires forall k :: 0 <= k < |parts| ==> OrdinaryPart(parts[k])
    ensures DropIdle(parts) == parts
  {
    if parts != [] {
      assert OrdinaryPart(parts[0]);
      OrdinaryStays(parts[1..]);
    }
  }

  /** The texts of ordinary paths are canonical, and each splits into its own path. */
  lemma {:induction false} OrdinaryIsCanonical(p: Path)
    requires Ordinary(p) && Printable(Join(p))
    ensures Canonical(Join(p)) && Join(p) != "." && PureParts(Join(p)) == Split(Join(p)) == p
  {
    assert forall k :: 0 <= k < |p| ==> OrdinaryPart(p[k]);
    SplitJoin(p);
    OrdinaryStays(p);
    assert OrdinaryPart(p[0]);
    assert Join(p) != "" && Join(p)[0] == p[0][0];
    DotIsIdle();
  }

  /** A member that is no directory is admitted exactly under the printable text of an ordinary path below "package". */
  lemma {:induction false} MemberPathExactly(name: string, p: Path)
    ensures MemberPath(name, false) == Some(p) <==>
      Ordinary(p) && p[0] == "package" && Join(p) == name && Printable(name)
  {
    if MemberPath(name, false) == Some(p) {
      MemberPathIsOrdinary(name, false);
    }
    if Ordinary(p) && p[0] == "package" && Join(p) == name && Printable(name) {
      OrdinaryIsCanonical(p);
    }
  }

  lemma {:induction false} SplitOfJoin(p: Path)
    requires Ordinary(p)
    ensures Split(Join(p)) == p
  {
    assert forall k :: 0 <= k < |p| ==> OrdinaryPart(p[k]);
    SplitJoin(p);
  }

  /** A canonical text is a dot, or the printable text of an ordinary path. */
  lemma {:induction false} CanonicalExactly(text: string)
    ensures Canonical(text) <==> text == "." || (Ordinary(Split(text)) && Printable(text))
  {
    JoinSplit(text);
    DotIsIdle();
    if Canonical(text) && text != "." {
      CanonicalParts(text);
    }
    if Ordinary(Split(text)) && Printable(text) {
      OrdinaryIsCanonical(Split(text));
    }
  }

  /** Which link texts are admitted, and what they name. */
  lemma {:induction false} LinkTargetExactly(name: Path, symbolic: bool, text: string, q: Path)
    requires name != []
    ensures LinkTarget(name, symbolic, text) == Some(q) <==>
      && (text == "." || (Ordinary(Split(text)) && Printable(text)))
      && q == (if symbolic then name[..|name| - 1] else []) + Split(text) && q[0] == "package"
  {
    CanonicalExactly(text);
  }

  /** A hard link names a path by its whole text, from the root of the archive. */
  lemma {:induction false} HardLinkNamesItsText(name: Path, text: string, q: Path)
    requires name != []
    ensures LinkTarget(name, false, text) == Some(q) ==> Join(q) == text
    ensures Ordinary(q) && q[0] == "package" && Join(q) == text && Printable(text) ==>
      LinkTarget(name, false, text) == Some(q)
  {
    JoinSplit(text);
    assert [] + Split(text) == Split(text);
    if Ordinary(q) && q[0] == "package" && Join(q) == text && Printable(text) {
      OrdinaryIsCanonical(q);
    }
  }

  /** So a hard link whose text is the name of a member names that member. */
  lemma {:induction false} HardLinkNamesMember(name: string, directory: bool, p: Path, link: Path)
    requires MemberPath(name, directory) == Some(p) && link != []
    ensures LinkTarget(link, false, Join(p)) == Some(p)
  {
    MemberPathIsOrdinary(name, directory);
    var value := if directory && name != "" && name[|name| - 1] == '/' then name[..|name| - 1] else name;
    JoinSplit(value);
    assert PlainText(value) && Join(p) == value;
    HardLinkNamesItsText(link, Join(p), p);
  }

  lemma {:induction false} JoinAppends(p: Path, q: Path)
    requires p != [] && q != []
    ensures Join(p + q) == Join(p) + "/" + Join(q)
  {
    if |p| == 1 {
      assert (p + q)[1..] == q;
    } else {
      assert (p + q)[1..] == p[1..] + q;
      JoinAppends(p[1..], q);
    }
  }

  /** A symbolic link's text is read from the directory the link is in. */
  lemma {:induction false} SymbolicLinkNamesFromItsDirectory(name: Path, text: string, q: Path)
    requires |name| > 1 && name[0] == "package"
    ensures LinkTarget(name, true, text) == Some(q) ==> Join(q) == Join(Parent(name)) + "/" + text
    ensures Ordinary(q) && Join(q) == text && Printable(text) ==>
      LinkTarget(name, true, text) == Some(Parent(name) + q)
  {
    JoinSplit(text);
    JoinAppends(Parent(name), Split(text));
    if Ordinary(q) && Join(q) == text && Printable(text) {
      OrdinaryIsCanonical(q);
    }
  }
}
