// validation/main_preflight_adoption.py, `witness`: the one reviewed family a test's inputs come from.
module InputWitness {
  import opened Wrappers

  datatype Family = Family(prefix: string, reason: string, inputs: seq<string>)

  const NODE := "node:"

  /** A prefix that ends in a dot covers everything that starts with it, any other only itself. */
  predicate Covers(f: Family, id: string) {
    if f.prefix != "" && f.prefix[|f.prefix| - 1] == '.' then f.prefix <= id else id == f.prefix
  }

  /** Family `k` covers `id` more closely than every other. */
  ghost predicate Closest(families: seq<Family>, id: string, k: nat) {
    && k < |families| && Covers(families[k], id)
    && forall j :: 0 <= j < |families| && j != k && Covers(families[j], id) ==>
         |families[j].prefix| < |families[k].prefix|
  }

  predicate Usable(f: Family) { f.reason != "" && f.inputs != [] }

  /** A node test depends on its own script too. */
  function Widened(f: Family, id: string): Family {
    if NODE <= id && id[|NODE|..] !in f.inputs then f.(inputs := f.inputs + [id[|NODE|..]]) else f
  }

  /** A family with a final dot covers what begins so, any other one only the test it names. */
  lemma {:induction false} CoversExactly(f: Family, id: string)
    ensures Covers(f, id) <==> id == f.prefix || (f.prefix != "" && f.prefix[|f.prefix| - 1] == '.' && f.prefix <= id)
  {
  }

  /** A node test's script is among its inputs, and nothing else of its family changes. */
  lemma {:induction false} ScriptIsAmongInputs(f: Family, id: string)
    ensures Widened(f, id).prefix == f.prefix && Widened(f, id).reason == f.reason
    ensures forall x :: x in Widened(f, id).inputs <==> x in f.inputs || (NODE <= id && x == id[|NODE|..])
    ensures f.inputs <= Widened(f, id).inputs && |Widened(f, id).inputs| <= |f.inputs| + 1
  {
  }

  ghost predicate Largest(families: seq<Family>, id: string, n: nat, size: nat)
    requires n <= |families|
  {
    && (forall j :: 0 <= j < n && Covers(families[j], id) ==> |families[j].prefix| <= size)
    && exists k :: 0 <= k < n && Covers(families[k], id) && |families[k].prefix| == size
  }

  method Witness(id: string, families: seq<Family>) returns (r: Result<Family>)
    ensures r.Ok? <==>
      exists k: nat :: Closest(families, id, k) && families[k].reason != "" && families[k].inputs != []
    ensures forall k: nat :: Closest(families, id, k) && Usable(families[k]) ==> r == Ok(Widened(families[k], id))
  {
    var size: nat, found, n := 0, false, 0;
    while n < |families|
      invariant n <= |families|
      invariant found <==> exists j :: 0 <= j < n && Covers(families[j], id)
      invariant found ==> Largest(families, id, n, size)
    {
      if Covers(families[n], id) && (!found || |families[n].prefix| > size) {
        size, found := |families[n].prefix|, true;
      }
      n := n + 1;
    }
    if !found { return Refused; }
    var exact: seq<nat> := [];
    n := 0;
    while n < |families|
      invariant n <= |families|
      invariant forall k :: k in exact <==> 0 <= k < n && Covers(families[k], id) && |families[k].prefix| == size
      invariant forall i, j :: 0 <= i < j < |exact| ==> exact[i] < exact[j]
    {
      if Covers(families[n], id) && |families[n].prefix| == size {
        assert forall i :: 0 <= i < |exact| ==> exact[i] in exact;
        exact := exact + [n];
      }
      n := n + 1;
    }
    OnlyExact(families, id, size, exact);
    if |exact| != 1 || !Usable(families[exact[0]]) { return Refused; }
    assert exact[0] in exact;
    r := Ok(Widened(families[exact[0]], id));
  }

  lemma {:induction false} OnlyExact(families: seq<Family>, id: string, size: nat, exact: seq<nat>)
    requires Largest(families, id, |families|, size)
    requires forall k :: k in exact <==> 0 <= k < |families| && Covers(families[k], id) && |families[k].prefix| == size
    requires forall i, j :: 0 <= i < j < |exact| ==> exact[i] < exact[j]
    ensures exact != [] && forall k :: k in exact ==> k < |families|
    ensures forall i :: 0 <= i < |exact| ==> exact[i] < |families|
    ensures forall k: nat :: Closest(families, id, k) <==> |exact| == 1 && exact[0] == k
  {
    var top :| 0 <= top < |families| && Covers(families[top], id) && |families[top].prefix| == size;
    assert top in exact;
    assert forall i :: 0 <= i < |exact| ==> exact[i] in exact;
    assert |exact| > 1 ==> exact[0] < exact[1];
    forall k: nat | Closest(families, id, k)
      ensures |exact| == 1 && exact[0] == k
    {
      assert forall i :: 0 <= i < |exact| ==> exact[i] == k;
    }
    if |exact| == 1 {
      forall j | 0 <= j < |families| && j != exact[0] && Covers(families[j], id)
        ensures |families[j].prefix| < size
      {
        assert j !in exact;
      }
    }
  }
}
