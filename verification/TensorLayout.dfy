// scripts/subtitle-text-weight-layout.py, `rebuild`, `persistent_load` and the tiling loop of `layout`.
module TensorLayout {
  import opened Wrappers

  const BYTES := 310385901

  datatype Storage = Storage(key: string, count: nat)

  datatype Tensor = Tensor(storage: Storage, offset: nat, shape: seq<nat>, strides: seq<nat>)

  // ----- index boxes -----

  function Volume(shape: seq<nat>): nat { if shape == [] then 1 else shape[0] * Volume(shape[1..]) }

  /** A multi-index into a box of this shape. */
  predicate InBox(shape: seq<nat>, index: seq<nat>) {
    |index| == |shape| && forall k :: 0 <= k < |shape| ==> index[k] < shape[k]
  }

  function Place(strides: seq<nat>, index: seq<nat>): nat
    requires |index| == |strides|
  {
    if index == [] then 0 else index[0] * strides[0] + Place(strides[1..], index[1..])
  }

  /** Each stride is the volume of what comes after it, and no side is empty. */
  ghost predicate Contiguous(shape: seq<nat>, strides: seq<nat>) {
    |strides| == |shape| && forall k :: 0 <= k < |shape| ==> shape[k] > 0 && strides[k] == Volume(shape[k + 1..])
  }

  predicate Bounded(values: seq<int>) { forall k :: 0 <= k < |values| ==> 0 <= values[k] <= BYTES }

  lemma {:induction false} BoundedExactly(values: seq<int>)
    ensures Bounded(values) <==> forall v :: v in values ==> 0 <= v < 310385902
  {
    assert forall k :: 0 <= k < |values| ==> values[k] in values;
  }

  predicate Nats(values: seq<int>) { forall k :: 0 <= k < |values| ==> values[k] >= 0 }

  function AsNats(values: seq<int>): (r: seq<nat>)
    requires Nats(values)
    ensures |r| == |values| && forall k :: 0 <= k < |r| ==> r[k] == values[k]
  {
    seq(|values|, k requires 0 <= k < |values| => values[k])
  }

  /** `rebuild`. */
  method Rebuild(storage: Storage, offset: int, shape: seq<int>, strides: seq<int>) returns (r: Result<Tensor>)
    ensures r.Ok? <==> Admitted(storage, offset, shape, strides)
    ensures r.Ok? ==> r.value == Tensor(storage, offset, AsNats(shape), AsNats(strides))
  {
    if |shape| != |strides| || !(1 <= |shape| <= 4) || !Bounded(shape) || !Bounded(strides) { return Refused; }
    var s, t := AsNats(shape), AsNats(strides);
    var expected := Expected(s, t);
    if expected.None? || !(0 <= offset <= BYTES) || offset + expected.value > storage.count { return Refused; }
    r := Ok(Tensor(storage, offset, s, t));
  }

  ghost predicate Admitted(storage: Storage, offset: int, shape: seq<int>, strides: seq<int>) {
    && |shape| == |strides| && 1 <= |shape| <= 4 && Bounded(shape) && Bounded(strides) && 0 <= offset <= BYTES
    && Contiguous(AsNats(shape), AsNats(strides)) && offset + Volume(AsNats(shape)) <= storage.count
  }

  /** The loop over sizes and strides from the last dimension to the first. */
  method Expected(shape: seq<nat>, strides: seq<nat>) returns (expected: Option<nat>)
    requires |shape| == |strides|
    ensures expected == if Contiguous(shape, strides) then Some(Volume(shape)) else None
  {
    var volume: nat, k := 1, |shape|;
    assert shape[k..] == [];
    while k > 0
      invariant k <= |shape| && volume == Volume(shape[k..])
      invariant forall j :: k <= j < |shape| ==> shape[j] > 0 && strides[j] == Volume(shape[j + 1..])
    {
      k := k - 1;
      if shape[k] == 0 || strides[k] != volume { return None; }
      assert shape[k..][1..] == shape[k + 1..];
      volume := volume * shape[k];
    }
    assert shape[0..] == shape;
    expected := Some(volume);
  }

  // ----- the strides of a contiguous tensor number its elements -----

  /** The multi-index at position `n`. */
  function Unplace(shape: seq<nat>, n: nat): seq<nat>
    requires forall k :: 0 <= k < |shape| ==> shape[k] > 0
  {
    if shape == [] then []
    else
      VolumePositive(shape[1..]);
      var rest := Volume(shape[1..]);
      [n / rest] + Unplace(shape[1..], n % rest)
  }

  lemma {:induction false} VolumePositive(shape: seq<nat>)
    requires forall k :: 0 <= k < |shape| ==> shape[k] > 0
    ensures Volume(shape) > 0
  {
    if shape != [] {
      VolumePositive(shape[1..]);
      assert shape[0] * Volume(shape[1..]) > 0;
    }
  }

  lemma {:induction false} ContiguousTail(shape: seq<nat>, strides: seq<nat>)
    requires Contiguous(shape, strides) && shape != []
    ensures Contiguous(shape[1..], strides[1..]) && strides[0] == Volume(shape[1..]) && shape[0] > 0
  {
    forall k | 0 <= k < |shape| - 1
      ensures shape[1..][k] > 0 && strides[1..][k] == Volume(shape[1..][k + 1..])
    {
      assert shape[1..][k + 1..] == shape[k + 2..];
      assert strides[1..][k] == strides[k + 1];
    }
  }

  lemma {:induction false} AtLeast(d: nat, m: nat)
    requires m >= 1
    ensures d * m >= d
  {
  }

  lemma {:induction false} OneDivision(d: nat, q: nat, r: nat, other: int, rest: int)
    requires r < d && 0 <= rest < d && d * q + r == d * other + rest
    ensures q == other && r == rest
  {
    assert d * (q - other) == rest - r;
    if q > other {
      AtLeast(d, q - other);
    } else if q < other {
      AtLeast(d, other - q);
    }
  }

  lemma {:induction false} Quotient(a: nat, b: nat, d: nat)
    requires b < d
    ensures (a * d + b) / d == a && (a * d + b) % d == b
  {
    var x := a * d + b;
    assert x == d * (x / d) + x % d;
    OneDivision(d, a, b, x / d, x % d);
  }

  lemma {:induction false} Scaled(a: nat, b: nat, d: nat)
    requires a <= b
    ensures a * d <= b * d
  {
  }

  lemma {:induction false} BelowProduct(a: nat, b: nat, n: nat, d: nat)
    requires a < n && b < d
    ensures a * d + b < n * d
  {
    Scaled(a + 1, n, d);
    assert a * d + d == (a + 1) * d;
  }

  lemma {:induction false} QuotientBelow(n: nat, m: nat, d: nat)
    requires d > 0 && n < m * d
    ensures n / d < m
  {
    assert n == d * (n / d) + n % d;
    if m <= n / d {
      Scaled(m, n / d, d);
    }
  }

  /** Every index has a position inside the volume, and the position gives the index back. */
  lemma {:induction false} UnplacePlace(shape: seq<nat>, strides: seq<nat>, index: seq<nat>)
    requires Contiguous(shape, strides) && InBox(shape, index)
    ensures Place(strides, index) < Volume(shape)
    ensures Unplace(shape, Place(strides, index)) == index
  {
    if shape == [] {
    } else {
      ContiguousTail(shape, strides);
      UnplacePlace(shape[1..], strides[1..], index[1..]);
      var rest, low := Volume(shape[1..]), Place(strides[1..], index[1..]);
      BelowProduct(index[0], low, shape[0], rest);
      Quotient(index[0], low, rest);
      assert index == [index[0]] + index[1..];
    }
  }

  /** Every position inside the volume is the place of an index. */
  lemma {:induction false} PlaceUnplace(shape: seq<nat>, strides: seq<nat>, n: nat)
    requires Contiguous(shape, strides) && n < Volume(shape)
    ensures InBox(shape, Unplace(shape, n)) && Place(strides, Unplace(shape, n)) == n
  {
    if shape == [] {
    } else {
      ContiguousTail(shape, strides);
      VolumePositive(shape[1..]);
      var rest := Volume(shape[1..]);
      PlaceUnplace(shape[1..], strides[1..], n % rest);
      QuotientBelow(n, shape[0], rest);
      var index := Unplace(shape, n);
      assert index[1..] == Unplace(shape[1..], n % rest);
      assert n / rest * rest + n % rest == n;
    }
  }

  ghost predicate Numbers(shape: seq<nat>, strides: seq<nat>, n: nat)
    requires |strides| == |shape|
  {
    exists i :: InBox(shape, i) && Place(strides, i) == n
  }

  /** The stride check makes the index map a bijection from the box onto 0..volume. */
  lemma {:induction false} StridesNumberTheBox(shape: seq<nat>, strides: seq<nat>)
    requires Contiguous(shape, strides)
    ensures forall i :: InBox(shape, i) ==> Place(strides, i) < Volume(shape)
    ensures forall i, j :: InBox(shape, i) && InBox(shape, j) && Place(strides, i) == Place(strides, j) ==> i == j
    ensures forall n: nat :: n < Volume(shape) ==> Numbers(shape, strides, n)
  {
    forall i | InBox(shape, i)
      ensures Place(strides, i) < Volume(shape) && Unplace(shape, Place(strides, i)) == i
    {
      UnplacePlace(shape, strides, i);
    }
    forall n: nat | n < Volume(shape)
      ensures Numbers(shape, strides, n)
    {
      PlaceUnplace(shape, strides, n);
    }
  }

  // ----- storages -----

  /** A storage reference as unpickled. */
  datatype Reference = Reference(kind: string, dtype: string, key: string, location: string, count: int, view: bool)

  predicate PlainKey(key: string) { key != "" && |key| <= 32 && forall k :: 0 <= k < |key| ==> '0' <= key[k] <= '9' }

  lemma {:induction false} PlainKeysAreDigits(key: string)
    ensures PlainKey(key) <==> 1 <= |key| <= 32 && forall c :: c in key ==> c in "0123456789"
  {
    assert forall k :: 0 <= k < |key| ==> key[k] in key;
  }

  class Metadata {
    var storages: map<string, Storage>

    ghost predicate Valid()
      reads this
    {
      forall k :: k in storages ==> storages[k].key == k && PlainKey(k) && 0 < storages[k].count <= BYTES
    }

    constructor ()
      ensures Valid() && storages == map[]
    {
      storages := map[];
    }

    /** `persistent_load`: one storage per key, the same every time it is named. */
    method PersistentLoad(ref: Reference) returns (r: Result<Storage>)
      requires Valid()
      modifies this
      ensures Valid()
      ensures r.Ok? <==>
        && ref.kind == "storage" && ref.dtype == "float32-le" && ref.location == "cpu" && !ref.view
        && PlainKey(ref.key) && 0 < ref.count <= BYTES
        && (ref.key in old(storages) ==> old(storages)[ref.key].count == ref.count)
      ensures r.Ok? ==> r.value == Storage(ref.key, ref.count) && storages == old(storages)[ref.key := r.value]
      ensures forall k :: k in old(storages) ==> k in storages && storages[k] == old(storages)[k]
    {
      if ref.kind != "storage" || ref.dtype != "float32-le" || ref.location != "cpu" || ref.view { return Refused; }
      if !PlainKey(ref.key) || !(0 <= ref.count <= BYTES) { return Refused; }
      var current := Storage(ref.key, ref.count);
      if current.count == 0 { return Refused; }
      if ref.key !in storages {
        storages := storages[ref.key := current];
      }
      if storages[ref.key] != current { return Refused; }
      assert storages == old(storages)[ref.key := current];
      r := Ok(current);
    }
  }

  // ----- the tiling of the file -----

  type Byte = n: nat | n < 256

  /** Little-endian number in `n` bytes from `at` on. */
  function Little(file: seq<Byte>, at: nat, n: nat): nat
    requires at + n <= |file|
    decreases n
  {
    if n == 0 then 0 else file[at] + 256 * Little(file, at + 1, n - 1)
  }

  /** Digit `k` of a number to base 256, the lowest first. */
  function Digit(value: nat, k: nat): nat { if k == 0 then value % 256 else Digit(value / 256, k - 1) }

  /** The bytes are the digits of the count, the lowest first. */
  lemma {:induction false} DigitsOfLittle(file: seq<Byte>, at: nat, n: nat, k: nat)
    requires at + n <= |file| && k < n
    ensures Digit(Little(file, at, n), k) == file[at + k]
    decreases n
  {
    var low: nat, rest := file[at], Little(file, at + 1, n - 1);
    assert (low + 256 * rest) / 256 == rest && (low + 256 * rest) % 256 == low;
    if n > 1 {
      DigitsOfLittle(file, at + 1, n - 1, if k == 0 then 0 else k - 1);
    }
  }

  datatype Raw = Raw(offset: nat, elements: nat)

  const HEADER := 8

  /** Where the storage before raw storage `i` ends, or the metadata if there is none. */
  function StartOf(raw: seq<Raw>, start: nat, i: nat): nat
    requires i <= |raw|
  {
    if i == 0 then start else raw[i - 1].offset + 4 * raw[i - 1].elements
  }

  /** Each raw storage follows the one before, behind a header that holds its count. */
  ghost predicate Tiled(file: seq<Byte>, start: nat, order: seq<string>, counts: map<string, Storage>, raw: seq<Raw>)
  {
    && |raw| <= |order|
    && forall i :: 0 <= i < |raw| ==> TileOk(file, start, order, counts, raw, i)
  }

  ghost predicate TileOk(file: seq<Byte>, start: nat, order: seq<string>, counts: map<string, Storage>, raw: seq<Raw>,
                         i: nat)
    requires i < |raw| <= |order|
  {
    var at := StartOf(raw, start, i);
    && raw[i].offset == at + HEADER && at + HEADER <= |file|
    && order[i] in counts && raw[i].elements == counts[order[i]].count == Little(file, at, HEADER)
    && raw[i].offset + 4 * raw[i].elements <= |file|
  }

  /** A storage for every key of the order, tiling the file to its end. */
  ghost predicate Tiles(file: seq<Byte>, start: nat, order: seq<string>, counts: map<string, Storage>, raw: seq<Raw>) {
    && |raw| == |order| && Tiled(file, start, order, counts, raw) && StartOf(raw, start, |raw|) == |file|
  }

  /** The loop of `layout` over the storages in file order. */
  method Tile(file: seq<Byte>, start: nat, order: seq<string>, counts: map<string, Storage>)
    returns (r: Result<seq<Raw>>)
    requires forall k :: k in order ==> k in counts
    ensures r.Ok? ==> Tiles(file, start, order, counts, r.value)
    ensures r.Refused? ==> forall raw :: !Tiles(file, start, order, counts, raw)
  {
    var raw: seq<Raw>, at := [], start;
    while |raw| < |order|
      invariant |raw| <= |order| && Tiled(file, start, order, counts, raw) && at == StartOf(raw, start, |raw|)
      decreases |order| - |raw|
    {
      var n := |raw|;
      assert order[n] in order;
      if at + HEADER > |file| {
        OnlyTiling(file, start, order, counts, raw);
        return Refused;
      }
      var count := Little(file, at, HEADER);
      if count != counts[order[n]].count || at + HEADER + 4 * count > |file| {
        OnlyTiling(file, start, order, counts, raw);
        return Refused;
      }
      ghost var before := raw;
      raw := raw + [Raw(at + HEADER, count)];
      TiledMore(file, start, order, counts, before, raw[n]);
      at := at + HEADER + 4 * count;
    }
    if at != |file| {
      OnlyTiling(file, start, order, counts, raw);
      return Refused;
    }
    r := Ok(raw);
  }

  lemma {:induction false} TiledMore(file: seq<Byte>, start: nat, order: seq<string>, counts: map<string, Storage>,
                                     raw: seq<Raw>, next: Raw)
    requires Tiled(file, start, order, counts, raw) && |raw| < |order|
    requires TileOk(file, start, order, counts, raw + [next], |raw|)
    ensures Tiled(file, start, order, counts, raw + [next])
  {
    var more := raw + [next];
    forall i | 0 <= i < |more|
      ensures TileOk(file, start, order, counts, more, i)
    {
      if i < |raw| {
        assert TileOk(file, start, order, counts, raw, i);
      }
    }
  }

  /** The counts in the file leave no choice: any tiling extends the one built so far. */
  lemma {:induction false} OnlyTiling(file: seq<Byte>, start: nat, order: seq<string>, counts: map<string, Storage>,
                                      raw: seq<Raw>)
    requires Tiled(file, start, order, counts, raw)
    ensures forall other :: |other| == |order| && Tiled(file, start, order, counts, other) ==> raw <= other
    ensures forall other :: |other| == |order| && Tiled(file, start, order, counts, other) && |raw| < |order| ==>
      TileOk(file, start, order, counts, other, |raw|)
  {
    forall other | |other| == |order| && Tiled(file, start, order, counts, other)
      ensures raw <= other
    {
      SameTiles(file, start, order, counts, raw, other, |raw|);
    }
  }

  lemma {:induction false} SameTiles(file: seq<Byte>, start: nat, order: seq<string>, counts: map<string, Storage>,
                                     raw: seq<Raw>, other: seq<Raw>, n: nat)
    requires Tiled(file, start, order, counts, raw) && Tiled(file, start, order, counts, other)
    requires n <= |raw| <= |other|
    ensures forall i :: 0 <= i < n ==> raw[i] == other[i]
  {
    if n > 0 {
      SameTiles(file, start, order, counts, raw, other, n - 1);
      assert TileOk(file, start, order, counts, raw, n - 1) && TileOk(file, start, order, counts, other, n - 1);
      assert StartOf(raw, start, n - 1) == StartOf(other, start, n - 1);
    }
  }

  /** Byte `b` of the file belongs to raw storage `i`, header included. */
  predicate Owns(raw: seq<Raw>, i: nat, b: nat)
    requires i < |raw|
  {
    raw[i].offset <= b + HEADER && b < raw[i].offset + 4 * raw[i].elements
  }

  ghost predicate Owned(raw: seq<Raw>, b: nat) { exists i :: 0 <= i < |raw| && Owns(raw, i, b) }

  lemma {:induction false} TilesAscend(file: seq<Byte>, start: nat, order: seq<string>, counts: map<string, Storage>,
                                       raw: seq<Raw>, i: nat, j: nat)
    requires Tiled(file, start, order, counts, raw) && i <= j <= |raw|
    ensures StartOf(raw, start, i) <= StartOf(raw, start, j)
    decreases j
  {
    if i < j {
      assert TileOk(file, start, order, counts, raw, j - 1);
      TilesAscend(file, start, order, counts, raw, i, j - 1);
    }
  }

  /** The raw storages and their headers tile the rest of the file exactly: each byte belongs to one of them. */
  lemma {:induction false} TilesCoverOnce(file: seq<Byte>, start: nat, order: seq<string>, counts: map<string, Storage>,
                                          raw: seq<Raw>)
    requires Tiles(file, start, order, counts, raw)
    ensures forall b: nat :: Owned(raw, b) <==> start <= b < |file|
    ensures forall i, j, b: nat :: 0 <= i < j < |raw| && Owns(raw, i, b) ==> !Owns(raw, j, b)
  {
    forall b: nat
      ensures Owned(raw, b) <==> start <= b < |file|
    {
      if i :| 0 <= i < |raw| && Owns(raw, i, b) {
        assert TileOk(file, start, order, counts, raw, i);
        TilesAscend(file, start, order, counts, raw, 0, i);
        TilesAscend(file, start, order, counts, raw, i + 1, |raw|);
      }
      if start <= b < |file| {
        var i := OwnerOf(file, start, order, counts, raw, b, |raw|);
      }
    }
    forall i, j, b: nat | 0 <= i < j < |raw| && Owns(raw, i, b)
      ensures !Owns(raw, j, b)
    {
      TilesAscend(file, start, order, counts, raw, i + 1, j);
      assert TileOk(file, start, order, counts, raw, j);
    }
  }

  lemma {:induction false} OwnerOf(file: seq<Byte>, start: nat, order: seq<string>, counts: map<string, Storage>,
                                   raw: seq<Raw>, b: nat, n: nat) returns (i: nat)
    requires Tiled(file, start, order, counts, raw) && n <= |raw| && start <= b < StartOf(raw, start, n)
    ensures i < |raw| && Owns(raw, i, b)
    decreases n
  {
    assert TileOk(file, start, order, counts, raw, n - 1);
    if b < StartOf(raw, start, n - 1) {
      i := OwnerOf(file, start, order, counts, raw, b, n - 1);
    } else {
      i := n - 1;
    }
  }

  // ----- elements in the file -----

  /** The first of the four bytes of one element. */
  function ElementAt(raw: seq<Raw>, s: nat, t: Tensor, index: seq<nat>): nat
    requires s < |raw| && |index| == |t.strides|
  {
    raw[s].offset + 4 * (t.offset + Place(t.strides, index))
  }

  /** A tensor that `rebuild` accepted, on raw storage `s`. */
  ghost predicate LaidOut(raw: seq<Raw>, s: nat, t: Tensor) {
    && s < |raw| && raw[s].elements == t.storage.count
    && Contiguous(t.shape, t.strides) && t.offset + Volume(t.shape) <= t.storage.count
  }

  /** Every element lies inside its storage, and two elements of a tensor share no byte. */
  lemma {:induction false} ElementsAreApart(raw: seq<Raw>, s: nat, t: Tensor, i: seq<nat>, j: seq<nat>)
    requires LaidOut(raw, s, t) && InBox(t.shape, i) && InBox(t.shape, j)
    ensures raw[s].offset <= ElementAt(raw, s, t, i)
    ensures ElementAt(raw, s, t, i) + 4 <= raw[s].offset + 4 * raw[s].elements
    ensures i != j ==>
      ElementAt(raw, s, t, i) + 4 <= ElementAt(raw, s, t, j) || ElementAt(raw, s, t, j) + 4 <= ElementAt(raw, s, t, i)
  {
    UnplacePlace(t.shape, t.strides, i);
    UnplacePlace(t.shape, t.strides, j);
  }
}
