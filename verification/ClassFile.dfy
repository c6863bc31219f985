// validation/jvm_unit_discovery.py, `class_header` and `native_class_details`: two scanners of the constant
// pool of section 4.4 of the Java Virtual Machine Specification.
module ClassFile {
  import opened Wrappers
  import opened Base64
  import opened ModifiedUtf8

  type Bytes = seq<Byte>

  /** How the bytes of a UTF-8 constant become text; `Text` in both programs. */
  type Decoder = Bytes -> Option<seq<Point>>

  const MAX_CLASS := 8 * 1024 * 1024

  // ----- constants as they are written -----

  datatype Entry = Utf8(text: Bytes) | ClassRef(name: nat) | Fixed(tag: Byte, payload: Bytes)

  /** The sizes of the constants that are only skipped. */
  function FixedSize(tag: nat): Option<nat> {
    if tag in {3, 4, 9, 10, 11, 12, 17, 18} then Some(4)
    else if tag in {5, 6} then Some(8)
    else if tag in {8, 16, 19, 20} then Some(2)
    else if tag == 15 then Some(3)
    else None
  }

  function Two(n: nat): Bytes
    requires n < 0x10000
  {
    [n / 256, n % 256]
  }

  predicate EntryOk(decode: Decoder, e: Entry) {
    match e
    case Utf8(text) => |text| < 0x10000 && decode(text).Some?
    case ClassRef(name) => name < 0x10000
    case Fixed(tag, payload) => FixedSize(tag) == Some(|payload|)
  }

  predicate Sized(e: Entry) { (e.Utf8? ==> |e.text| < 0x10000) && (e.ClassRef? ==> e.name < 0x10000) }

  function Written(e: Entry): Bytes
    requires Sized(e)
  {
    match e
    case Utf8(text) => [1] + Two(|text|) + text
    case ClassRef(name) => [7] + Two(name)
    case Fixed(tag, payload) => [tag] + payload
  }

  /** Long and double constants take two indices. */
  function Slots(e: Entry): nat { if e.Fixed? && e.tag in {5, 6} then 2 else 1 }

  // ----- reading one constant -----

  function U2At(raw: Bytes, at: nat): nat
    requires at + 2 <= |raw|
  {
    var high: nat := raw[at];
    high * 256 + raw[at + 1]
  }

  function ReadUtf8(decode: Decoder, raw: Bytes, at: nat): Option<Entry> {
    if at + 3 > |raw| || at + 3 + U2At(raw, at + 1) > |raw| then None
    else
      var text := raw[at + 3..at + 3 + U2At(raw, at + 1)];
      if decode(text).None? then None else Some(Utf8(text))
  }

  function ReadClass(raw: Bytes, at: nat): Option<Entry> {
    if at + 3 > |raw| then None else Some(ClassRef(U2At(raw, at + 1)))
  }

  function ReadFixed(raw: Bytes, at: nat): Option<Entry>
    requires at < |raw|
  {
    if FixedSize(raw[at]).None? || at + 1 + FixedSize(raw[at]).value > |raw| then None
    else Some(Fixed(raw[at], raw[at + 1..at + 1 + FixedSize(raw[at]).value]))
  }

  function ReadEntry(decode: Decoder, raw: Bytes, at: nat): Option<Entry> {
    if at >= |raw| then None
    else if raw[at] == 1 then ReadUtf8(decode, raw, at)
    else if raw[at] == 7 then ReadClass(raw, at)
    else ReadFixed(raw, at)
  }

  ghost predicate StandsAt(raw: Bytes, at: nat, part: Bytes) { at + |part| <= |raw| && raw[at..at + |part|] == part }

  lemma {:induction false} StandsApart(raw: Bytes, at: nat, x: Bytes, y: Bytes)
    ensures StandsAt(raw, at, x + y) <==> StandsAt(raw, at, x) && StandsAt(raw, at + |x|, y)
  {
    if at + |x| + |y| <= |raw| {
      var whole := raw[at..at + |x| + |y|];
      assert whole == raw[at..at + |x|] + raw[at + |x|..at + |x| + |y|];
      if whole == x + y {
        assert raw[at..at + |x|] == whole[..|x|] == x;
        assert raw[at + |x|..at + |x| + |y|] == whole[|x|..] == y;
      }
    }
  }

  /** Reading finds exactly the constant that is written there. */
  lemma {:induction false} TwoStands(raw: Bytes, at: nat)
    requires at + 2 <= |raw|
    ensures StandsAt(raw, at, Two(U2At(raw, at)))
  {
    assert raw[at..at + 2] == [raw[at], raw[at + 1]];
  }

  lemma {:induction false} OneStands(raw: Bytes, at: nat)
    requires at < |raw|
    ensures StandsAt(raw, at, [raw[at]])
  {
  }

  ghost predicate ReadRight(decode: Decoder, raw: Bytes, at: nat, e: Entry) {
    EntryOk(decode, e) && Sized(e) && StandsAt(raw, at, Written(e))
  }

  lemma {:induction false} Utf8Written(decode: Decoder, raw: Bytes, at: nat)
    requires at < |raw| && raw[at] == 1 && ReadUtf8(decode, raw, at).Some?
    ensures ReadRight(decode, raw, at, ReadUtf8(decode, raw, at).value) == true
  {
    var n := U2At(raw, at + 1);
    OneStands(raw, at);
    TwoStands(raw, at + 1);
    StandsApart(raw, at, [1], Two(n));
    StandsApart(raw, at, [1] + Two(n), raw[at + 3..at + 3 + n]);
  }

  lemma {:induction false} ClassWritten(decode: Decoder, raw: Bytes, at: nat)
    requires at < |raw| && raw[at] == 7 && ReadClass(raw, at).Some?
    ensures ReadRight(decode, raw, at, ReadClass(raw, at).value)
  {
    OneStands(raw, at);
    TwoStands(raw, at + 1);
    StandsApart(raw, at, [7], Two(U2At(raw, at + 1)));
  }

  lemma {:induction false} FixedWritten(decode: Decoder, raw: Bytes, at: nat)
    requires at < |raw| && ReadFixed(raw, at).Some?
    ensures ReadRight(decode, raw, at, ReadFixed(raw, at).value)
  {
    OneStands(raw, at);
    StandsApart(raw, at, [raw[at]], raw[at + 1..at + 1 + FixedSize(raw[at]).value]);
  }

  lemma {:induction false} ReadIsWritten(decode: Decoder, raw: Bytes, at: nat)
    requires ReadEntry(decode, raw, at).Some?
    ensures ReadRight(decode, raw, at, ReadEntry(decode, raw, at).value)
  {
    if raw[at] == 1 {
      Utf8Written(decode, raw, at);
    } else if raw[at] == 7 {
      ClassWritten(decode, raw, at);
    } else {
      FixedWritten(decode, raw, at);
    }
  }

  lemma {:induction false} FirstStands(raw: Bytes, at: nat, b: Byte, rest: Bytes)
    requires StandsAt(raw, at, [b] + rest)
    ensures at < |raw| && raw[at] == b && StandsAt(raw, at + 1, rest)
  {
    StandsApart(raw, at, [b], rest);
    assert raw[at..at + 1][0] == b;
  }

  lemma {:induction false} TwoRead(raw: Bytes, at: nat, n: nat)
    requires n < 0x10000 && StandsAt(raw, at, Two(n))
    ensures U2At(raw, at) == n
  {
    assert raw[at..at + 2][0] == n / 256 && raw[at..at + 2][1] == n % 256;
  }

  lemma {:induction false} TextIsRead(decode: Decoder, raw: Bytes, at: nat, text: Bytes)
    requires decode(text).Some? && StandsAt(raw, at + 3, text) && U2At(raw, at + 1) == |text|
    ensures ReadUtf8(decode, raw, at) == Some(Utf8(text))
  {
    assert raw[at + 3..at + 3 + U2At(raw, at + 1)] == text;
  }

  lemma {:induction false} Utf8Parts(raw: Bytes, at: nat, n: nat, text: Bytes)
    requires n == |text| < 0x10000 && StandsAt(raw, at, [1] + Two(n) + text)
    ensures at < |raw| && raw[at] == 1 && at + 3 <= |raw| && U2At(raw, at + 1) == n && StandsAt(raw, at + 3, text)
  {
    StandsApart(raw, at, [1] + Two(n), text);
    FirstStands(raw, at, 1, Two(n));
    TwoRead(raw, at + 1, n);
  }

  lemma {:induction false} Utf8IsRead(decode: Decoder, raw: Bytes, at: nat, text: Bytes)
    requires |text| < 0x10000 && decode(text).Some? && StandsAt(raw, at, [1] + Two(|text|) + text)
    ensures at < |raw| && raw[at] == 1 && ReadUtf8(decode, raw, at) == Some(Utf8(text))
  {
    Utf8Parts(raw, at, |text|, text);
    TextIsRead(decode, raw, at, text);
  }

  lemma {:induction false} ClassIsRead(decode: Decoder, raw: Bytes, at: nat, name: nat)
    requires ReadRight(decode, raw, at, ClassRef(name))
    ensures at < |raw| && raw[at] == 7 && ReadClass(raw, at) == Some(ClassRef(name))
  {
    FirstStands(raw, at, 7, Two(name));
    TwoRead(raw, at + 1, name);
  }

  lemma {:induction false} FixedIsRead(raw: Bytes, at: nat, tag: Byte, payload: Bytes)
    requires FixedSize(tag) == Some(|payload|) && StandsAt(raw, at, [tag] + payload)
    ensures at < |raw| && raw[at] == tag && tag != 1 && tag != 7 && ReadFixed(raw, at) == Some(Fixed(tag, payload))
  {
    FirstStands(raw, at, tag, payload);
    assert raw[at + 1..at + 1 + |payload|] == payload;
  }

  lemma {:induction false} WrittenIsRead(decode: Decoder, raw: Bytes, at: nat, e: Entry)
    requires ReadRight(decode, raw, at, e)
    ensures ReadEntry(decode, raw, at) == Some(e)
  {
    if e.Utf8? {
      Utf8IsRead(decode, raw, at, e.text);
    } else if e.ClassRef? {
      ClassIsRead(decode, raw, at, e.name);
    } else {
      FixedIsRead(raw, at, e.tag, e.payload);
    }
  }

  // ----- a whole pool -----

  /** What stands at a position of some class file, which constants are valid, and how one is written. */
  type Source = nat -> Option<Entry>
  type Valid = Entry -> bool
  type Writer = Entry -> Bytes

  function Reader(decode: Decoder, raw: Bytes): Source { (at: nat) => ReadEntry(decode, raw, at) }

  function EntryValid(decode: Decoder): Valid { (e: Entry) => EntryOk(decode, e) && Sized(e) }

  function Write(e: Entry): Bytes { if Sized(e) then Written(e) else [] }

  function WrittenAll(write: Writer, es: seq<Entry>): Bytes {
    if es == [] then [] else write(es[0]) + WrittenAll(write, es[1..])
  }

  function SlotsOf(es: seq<Entry>): nat { if es == [] then 0 else Slots(es[0]) + SlotsOf(es[1..]) }

  /** The constants from index `slot` on, read from `at`; refused when the last one crosses the count. */
  function ScanPool(read: Source, write: Writer, at: nat, slot: nat, count: nat): Option<seq<Entry>>
    decreases count - slot
  {
    if slot >= count then if slot == count then Some([]) else None
    else
      var e := read(at);
      if e.None? then None
      else
        var rest := ScanPool(read, write, at + |write(e.value)|, slot + Slots(e.value), count);
        if rest.None? then None else Some([e.value] + rest.value)
  }

  ghost predicate EntriesOk(ok: Valid, es: seq<Entry>) { forall k :: 0 <= k < |es| ==> ok(es[k]) }

  /** `e` is read at a position exactly when it is valid and written there. */
  ghost predicate Agrees(read: Source, ok: Valid, write: Writer, raw: Bytes, at: nat, e: Entry) {
    ok(e) && StandsAt(raw, at, write(e)) <==> read(at) == Some(e)
  }

  ghost predicate Faithful(read: Source, ok: Valid, write: Writer, raw: Bytes) {
    forall at: nat, e: Entry {:trigger Agrees(read, ok, write, raw, at, e)} :: Agrees(read, ok, write, raw, at, e)
  }

  lemma {:induction false} ReaderIsFaithful(decode: Decoder, raw: Bytes)
    ensures Faithful(Reader(decode, raw), EntryValid(decode), Write, raw)
  {
    forall at: nat, e: Entry
      ensures Agrees(Reader(decode, raw), EntryValid(decode), Write, raw, at, e)
    {
      if ReadEntry(decode, raw, at) == Some(e) {
        ReadIsWritten(decode, raw, at);
      }
      if ReadRight(decode, raw, at, e) {
        WrittenIsRead(decode, raw, at, e);
      }
    }
  }

  /** These constants, written out, stand at `at` and fill exactly the indices from `slot` to `count`. */
  ghost predicate PoolStands(ok: Valid, write: Writer, raw: Bytes, at: nat, slot: nat, count: nat, es: seq<Entry>) {
    EntriesOk(ok, es) && StandsAt(raw, at, WrittenAll(write, es)) && slot + SlotsOf(es) == count
  }

  /** A scan succeeds exactly on what the serializer writes, and returns what was written. */
  lemma {:induction false} ScanInvertsWriting(read: Source, ok: Valid, write: Writer, raw: Bytes, at: nat, slot: nat,
                                              count: nat, es: seq<Entry>)
    requires Faithful(read, ok, write, raw) && at <= |raw|
    ensures ScanPool(read, write, at, slot, count) == Some(es) <==> PoolStands(ok, write, raw, at, slot, count, es)
    decreases |es|
  {
    if es == [] {
      assert raw[at..at + |WrittenAll(write, es)|] == [];
    } else if slot >= count {
      assert SlotsOf(es) > 0;
    } else {
      PoolCons(ok, write, raw, at, slot, count, es);
      HeadIsRead(read, ok, write, raw, at, es[0]);
      if read(at) == Some(es[0]) {
        ScanInvertsWriting(read, ok, write, raw, at + |write(es[0])|, slot + Slots(es[0]), count, es[1..]);
        ScanCons(read, write, at, slot, count, es);
      } else {
        ScanReadsHead(read, write, at, slot, count, es);
      }
    }
  }

  lemma {:induction false} HeadIsRead(read: Source, ok: Valid, write: Writer, raw: Bytes, at: nat, e: Entry)
    requires Faithful(read, ok, write, raw)
    ensures ok(e) && StandsAt(raw, at, write(e)) <==> read(at) == Some(e)
    ensures read(at) == Some(e) ==> at + |write(e)| <= |raw|
  {
    assert Agrees(read, ok, write, raw, at, e);
  }

  lemma {:induction false} ScanReadsHead(read: Source, write: Writer, at: nat, slot: nat, count: nat, es: seq<Entry>)
    requires es != [] && slot < count
    ensures ScanPool(read, write, at, slot, count) == Some(es) ==> read(at) == Some(es[0])
  {
  }

  lemma {:induction false} ScanCons(read: Source, write: Writer, at: nat, slot: nat, count: nat, es: seq<Entry>)
    requires es != [] && slot < count && read(at) == Some(es[0])
    ensures ScanPool(read, write, at, slot, count) == Some(es) <==>
            ScanPool(read, write, at + |write(es[0])|, slot + Slots(es[0]), count) == Some(es[1..])
  {
    var rest := ScanPool(read, write, at + |write(es[0])|, slot + Slots(es[0]), count);
    assert es == [es[0]] + es[1..];
    if rest.Some? {
      assert ([es[0]] + rest.value)[1..] == rest.value;
    }
  }

  lemma {:induction false} ConsOk(ok: Valid, es: seq<Entry>)
    requires es != []
    ensures EntriesOk(ok, es) <==> ok(es[0]) && EntriesOk(ok, es[1..])
  {
    assert forall k :: 0 <= k < |es| - 1 ==> es[1..][k] == es[k + 1];
    assert forall k :: 0 < k < |es| ==> es[k] == es[1..][k - 1];
  }

  lemma {:induction false} PoolCons(ok: Valid, write: Writer, raw: Bytes, at: nat, slot: nat, count: nat,
                                    es: seq<Entry>)
    requires es != []
    ensures PoolStands(ok, write, raw, at, slot, count, es) <==>
      && ok(es[0]) && StandsAt(raw, at, write(es[0]))
      && PoolStands(ok, write, raw, at + |write(es[0])|, slot + Slots(es[0]), count, es[1..])
  {
    ConsOk(ok, es);
    StandsApart(raw, at, write(es[0]), WrittenAll(write, es[1..]));
  }

  // ----- a scan that keeps something of each constant -----

  /** The scan loop: `add` puts a constant into the pool kept so far. */
  function Scan<P>(read: Source, write: Writer, add: (P, nat, Entry) -> P, at: nat, slot: nat, count: nat, pool: P)
    : Option<(P, nat)>
    decreases count - slot
  {
    if slot >= count then if slot == count then Some((pool, at)) else None
    else
      var e := read(at);
      if e.None? then None
      else Scan(read, write, add, at + |write(e.value)|, slot + Slots(e.value), count, add(pool, slot, e.value))
  }

  lemma {:induction false} ScanStep<P>(read: Source, write: Writer, add: (P, nat, Entry) -> P, at: nat, slot: nat,
                                       count: nat, pool: P)
    requires slot < count
    ensures Scan(read, write, add, at, slot, count, pool) ==
      if read(at).None? then None
      else
        var e := read(at).value;
        Scan(read, write, add, at + |write(e)|, slot + Slots(e), count, add(pool, slot, e))
  {
  }

  function AddAll<P>(add: (P, nat, Entry) -> P, pool: P, slot: nat, es: seq<Entry>): P
    decreases |es|
  {
    if es == [] then pool else AddAll(add, add(pool, slot, es[0]), slot + Slots(es[0]), es[1..])
  }

  /** The loop keeps every constant of the pool and ends where the written pool ends. */
  lemma {:induction false} ScanKeepsAll<P>(read: Source, write: Writer, add: (P, nat, Entry) -> P, at: nat, slot: nat,
                                           count: nat, pool: P)
    ensures Scan(read, write, add, at, slot, count, pool) ==
      var es := ScanPool(read, write, at, slot, count);
      if es.None? then None else Some((AddAll(add, pool, slot, es.value), at + |WrittenAll(write, es.value)|))
    decreases count - slot
  {
    if slot < count && read(at).Some? {
      var e := read(at).value;
      var next := at + |write(e)|;
      ScanKeepsAll(read, write, add, next, slot + Slots(e), count, add(pool, slot, e));
      var rest := ScanPool(read, write, next, slot + Slots(e), count);
      if rest.Some? {
        assert ([e] + rest.value)[1..] == rest.value;
      }
    }
  }

  // ----- the byte reader both scanners have -----

  class ByteReader {
    const raw: Bytes
    var offset: nat

    ghost predicate Valid()
      reads this
    {
      offset <= |raw|
    }

    constructor (raw: Bytes)
      ensures Valid() && this.raw == raw && offset == 0
    {
      this.raw, offset := raw, 0;
    }

    method Take(size: nat) returns (part: Option<Bytes>)
      requires Valid()
      modifies this
      ensures Valid()
      ensures part.Some? <==> old(offset) + size <= |raw|
      ensures part.Some? ==> offset == old(offset) + size && part.value == raw[old(offset)..offset]
      ensures part.None? ==> offset == old(offset)
    {
      if size > |raw| - offset { return None; }
      part := Some(raw[offset..offset + size]);
      offset := offset + size;
    }

    method U1() returns (b: Option<nat>)
      requires Valid()
      modifies this
      ensures Valid()
      ensures b.Some? <==> old(offset) < |raw|
      ensures b.Some? ==> b.value == raw[old(offset)] && offset == old(offset) + 1
    {
      var part := Take(1);
      b := if part.None? then None else Some(part.value[0]);
    }

    method U2() returns (n: Option<nat>)
      requires Valid()
      modifies this
      ensures Valid()
      ensures n.Some? <==> old(offset) + 2 <= |raw|
      ensures n.Some? ==> n.value == U2At(raw, old(offset)) && offset == old(offset) + 2
    {
      var part := Take(2);
      if part.None? { return None; }
      var high: nat := part.value[0];
      n := Some(high * 256 + part.value[1]);
    }
  }

  // ----- `class_header` -----

  datatype Constant = Name(text: seq<Point>) | Class(index: nat)

  type HeaderPool = map<nat, Constant>

  function AddHeader(decode: Decoder): (HeaderPool, nat, Entry) -> HeaderPool {
    (pool: HeaderPool, slot: nat, e: Entry) =>
      if e.Utf8? && decode(e.text).Some? then pool[slot := Name(decode(e.text).value)]
      else if e.ClassRef? then pool[slot := Class(e.name)]
      else pool
  }

  /** One round of the loop: reads a constant at the offset, keeps text and class references. */
  method HeaderRound(r: ByteReader, decode: Decoder, slot: nat, pool: HeaderPool)
    returns (ok: bool, after: HeaderPool, slots: nat)
    requires r.Valid()
    modifies r
    ensures r.Valid()
    ensures ok <==> ReadEntry(decode, r.raw, old(r.offset)).Some?
    ensures ok ==> var e := ReadEntry(decode, r.raw, old(r.offset)).value;
      r.offset == old(r.offset) + |Write(e)| && slots == Slots(e) && after == AddHeader(decode)(pool, slot, e)
  {
    ok, after, slots := false, pool, 1;
    var tag := r.U1();
    if tag.None? { return; }
    if tag.value == 1 {
      var n := r.U2();
      if n.None? { return; }
      var text := r.Take(n.value);
      if text.None? { return; }
      var points := decode(text.value);
      if points.None? { return; }
      after := pool[slot := Name(points.value)];
    } else if tag.value == 7 {
      var n := r.U2();
      if n.None? { return; }
      after := pool[slot := Class(n.value)];
    } else if tag.value in {3, 4, 9, 10, 11, 12, 17, 18} {
      var part := r.Take(4);
      if part.None? { return; }
    } else if tag.value in {5, 6} {
      var part := r.Take(8);
      if part.None? { return; }
      slots := 2;
    } else if tag.value in {8, 16, 19, 20} {
      var part := r.Take(2);
      if part.None? { return; }
    } else if tag.value == 15 {
      var part := r.Take(3);
      if part.None? { return; }
    } else {
      return;
    }
    ok := true;
  }

  // ----- `native_class_details` -----

  type DetailsPool = map<nat, seq<Point>>

  function AddDetails(decode: Decoder): (DetailsPool, nat, Entry) -> DetailsPool {
    (pool: DetailsPool, slot: nat, e: Entry) =>
      if e.Utf8? && decode(e.text).Some? then pool[slot := decode(e.text).value] else pool
  }

  /** The other scanner's round: class references are skipped with their two bytes. */
  method DetailsRound(r: ByteReader, decode: Decoder, slot: nat, pool: DetailsPool)
    returns (ok: bool, after: DetailsPool, slots: nat)
    requires r.Valid()
    modifies r
    ensures r.Valid()
    ensures ok <==> ReadEntry(decode, r.raw, old(r.offset)).Some?
    ensures ok ==> var e := ReadEntry(decode, r.raw, old(r.offset)).value;
      r.offset == old(r.offset) + |Write(e)| && slots == Slots(e) && after == AddDetails(decode)(pool, slot, e)
  {
    ok, after, slots := false, pool, 1;
    var tag := r.U1();
    if tag.None? { return; }
    if tag.value == 1 {
      var n := r.U2();
      if n.None? { return; }
      var text := r.Take(n.value);
      if text.None? { return; }
      var points := decode(text.value);
      if points.None? { return; }
      after := pool[slot := points.value];
    } else if tag.value == 7 {
      var part := r.Take(2);
      if part.None? { return; }
    } else if tag.value in {3, 4, 9, 10, 11, 12, 17, 18} {
      var part := r.Take(4);
      if part.None? { return; }
    } else if tag.value in {5, 6} {
      var part := r.Take(8);
      if part.None? { return; }
      slots := 2;
    } else if tag.value in {8, 16, 19, 20} {
      var part := r.Take(2);
      if part.None? { return; }
    } else if tag.value == 15 {
      var part := r.Take(3);
      if part.None? { return; }
    } else {
      return;
    }
    ok := true;
  }

  // ----- both scans -----

  const MAGIC: Bytes := [0xCA, 0xFE, 0xBA, 0xBE]

  predicate Prelude(raw: Bytes) { 10 < |raw| <= MAX_CLASS && raw[..4] == MAGIC }

  /** The bytes before the pool: magic, two versions, and the number of indices. */
  method ReadPrelude(r: ByteReader) returns (count: Option<nat>)
    requires r.Valid() && r.offset == 0
    modifies r
    ensures r.Valid()
    ensures count == if Prelude(r.raw) then Some(U2At(r.raw, 8)) else None
    ensures count.Some? ==> r.offset == 10
  {
    if !(10 < |r.raw| <= MAX_CLASS) { return None; }
    var magic := r.Take(4);
    if magic != Some(MAGIC) { return None; }
    var minor := r.U2();
    var major := r.U2();
    count := r.U2();
  }

  ghost function HeaderResult(decode: Decoder, raw: Bytes): Option<(HeaderPool, nat)> {
    if !Prelude(raw) then None else Scan(Reader(decode, raw), Write, AddHeader(decode), 10, 1, U2At(raw, 8), map[])
  }

  ghost function DetailsResult(decode: Decoder, raw: Bytes): Option<(DetailsPool, nat)> {
    if !Prelude(raw) then None else Scan(Reader(decode, raw), Write, AddDetails(decode), 10, 1, U2At(raw, 8), map[])
  }

  /** `read`, `write` and `add` do at this point what the scanner's round does. */
  ghost predicate HeaderStepAt(read: Source, write: Writer, add: (HeaderPool, nat, Entry) -> HeaderPool,
                               decode: Decoder, raw: Bytes,
                              at: nat, slot: nat, pool: HeaderPool)
  {
    && read(at) == ReadEntry(decode, raw, at)
    && forall e :: write(e) == Write(e) && add(pool, slot, e) == AddHeader(decode)(pool, slot, e)
  }

  ghost predicate HeaderSteps(read: Source, write: Writer, add: (HeaderPool, nat, Entry) -> HeaderPool, decode: Decoder,
                              raw: Bytes) {
    forall at: nat, slot: nat, pool: HeaderPool
      {:trigger HeaderStepAt(read, write, add, decode, raw, at, slot, pool)} ::
      HeaderStepAt(read, write, add, decode, raw, at, slot, pool)
  }

  method HeaderStep(r: ByteReader, decode: Decoder, slot: nat, pool: HeaderPool, ghost read: Source,
                    ghost write: Writer,
                   ghost add: (HeaderPool, nat, Entry) -> HeaderPool)
    returns (ok: bool, after: HeaderPool, slots: nat)
    requires r.Valid() && HeaderSteps(read, write, add, decode, r.raw)
    modifies r
    ensures r.Valid() && (ok <==> read(old(r.offset)).Some?)
    ensures ok ==> var e := read(old(r.offset)).value;
      r.offset == old(r.offset) + |write(e)| && slots == Slots(e) && after == add(pool, slot, e)
  {
    assert HeaderStepAt(read, write, add, decode, r.raw, r.offset, slot, pool);
    ok, after, slots := HeaderRound(r, decode, slot, pool);
  }

  method HeaderLoop(r: ByteReader, decode: Decoder, count: nat, ghost read: Source, ghost write: Writer,
                   ghost add: (HeaderPool, nat, Entry) -> HeaderPool)
    returns (result: Option<(HeaderPool, nat)>)
    requires r.Valid() && HeaderSteps(read, write, add, decode, r.raw)
    modifies r
    ensures result == Scan(read, write, add, old(r.offset), 1, count, map[])
  {
    var pool: HeaderPool, slot := map[], 1;
    while slot < count
      invariant r.Valid() && slot <= count + 1
      invariant Scan(read, write, add, old(r.offset), 1, count, map[])
        == Scan(read, write, add, r.offset, slot, count, pool)
      decreases count + 1 - slot
    {
      ScanStep(read, write, add, r.offset, slot, count, pool);
      var ok, after, slots := HeaderStep(r, decode, slot, pool, read, write, add);
      if !ok { return None; }
      pool, slot := after, slot + slots;
    }
    result := if slot == count then Some((pool, r.offset)) else None;
  }

  method HeaderScan(decode: Decoder, raw: Bytes) returns (result: Option<(HeaderPool, nat)>)
    ensures result == HeaderResult(decode, raw)
  {
    var r := new ByteReader(raw);
    var count := ReadPrelude(r);
    if count.None? { return None; }
    assert HeaderSteps(Reader(decode, raw), Write, AddHeader(decode), decode, raw);
    result := HeaderLoop(r, decode, count.value, Reader(decode, raw), Write, AddHeader(decode));
  }

  /** `read`, `write` and `add` do at this point what the scanner's round does. */
  ghost predicate DetailsStepAt(read: Source, write: Writer, add: (DetailsPool, nat, Entry) -> DetailsPool,
                                decode: Decoder, raw: Bytes,
                              at: nat, slot: nat, pool: DetailsPool)
  {
    && read(at) == ReadEntry(decode, raw, at)
    && forall e :: write(e) == Write(e) && add(pool, slot, e) == AddDetails(decode)(pool, slot, e)
  }

  ghost predicate DetailsSteps(read: Source, write: Writer, add: (DetailsPool, nat, Entry) -> DetailsPool,
                               decode: Decoder, raw: Bytes) {
    forall at: nat, slot: nat, pool: DetailsPool
      {:trigger DetailsStepAt(read, write, add, decode, raw, at, slot, pool)} ::
      DetailsStepAt(read, write, add, decode, raw, at, slot, pool)
  }

  method DetailsStep(r: ByteReader, decode: Decoder, slot: nat, pool: DetailsPool, ghost read: Source,
                     ghost write: Writer,
                   ghost add: (DetailsPool, nat, Entry) -> DetailsPool)
    returns (ok: bool, after: DetailsPool, slots: nat)
    requires r.Valid() && DetailsSteps(read, write, add, decode, r.raw)
    modifies r
    ensures r.Valid() && (ok <==> read(old(r.offset)).Some?)
    ensures ok ==> var e := read(old(r.offset)).value;
      r.offset == old(r.offset) + |write(e)| && slots == Slots(e) && after == add(pool, slot, e)
  {
    assert DetailsStepAt(read, write, add, decode, r.raw, r.offset, slot, pool);
    ok, after, slots := DetailsRound(r, decode, slot, pool);
  }

  method DetailsLoop(r: ByteReader, decode: Decoder, count: nat, ghost read: Source, ghost write: Writer,
                   ghost add: (DetailsPool, nat, Entry) -> DetailsPool)
    returns (result: Option<(DetailsPool, nat)>)
    requires r.Valid() && DetailsSteps(read, write, add, decode, r.raw)
    modifies r
    ensures result == Scan(read, write, add, old(r.offset), 1, count, map[])
  {
    var pool: DetailsPool, slot := map[], 1;
    while slot < count
      invariant r.Valid() && slot <= count + 1
      invariant Scan(read, write, add, old(r.offset), 1, count, map[])
        == Scan(read, write, add, r.offset, slot, count, pool)
      decreases count + 1 - slot
    {
      ScanStep(read, write, add, r.offset, slot, count, pool);
      var ok, after, slots := DetailsStep(r, decode, slot, pool, read, write, add);
      if !ok { return None; }
      pool, slot := after, slot + slots;
    }
    result := if slot == count then Some((pool, r.offset)) else None;
  }

  method DetailsScan(decode: Decoder, raw: Bytes) returns (result: Option<(DetailsPool, nat)>)
    ensures result == DetailsResult(decode, raw)
  {
    var r := new ByteReader(raw);
    var count := ReadPrelude(r);
    if count.None? { return None; }
    assert DetailsSteps(Reader(decode, raw), Write, AddDetails(decode), decode, raw);
    result := DetailsLoop(r, decode, count.value, Reader(decode, raw), Write, AddDetails(decode));
  }

  /** The texts a header pool holds. */
  ghost predicate SameTexts(header: HeaderPool, details: DetailsPool) {
    forall slot: nat :: (slot in details <==> slot in header && header[slot].Name?)
      && (slot in details && slot in header && header[slot].Name? ==> details[slot] == header[slot].text)
  }

  lemma {:induction false} SameTextsAll(decode: Decoder, header: HeaderPool, details: DetailsPool, slot: nat,
                                        es: seq<Entry>)
    requires SameTexts(header, details) && forall k: nat :: k in header ==> k < slot
    ensures SameTexts(AddAll(AddHeader(decode), header, slot, es), AddAll(AddDetails(decode), details, slot, es))
    decreases |es|
  {
    if es != [] {
      var h, d := AddHeader(decode)(header, slot, es[0]), AddDetails(decode)(details, slot, es[0]);
      assert SameTexts(h, d);
      SameTextsAll(decode, h, d, slot + Slots(es[0]), es[1..]);
    }
  }

  /**
   * On every byte string both scanners accept the constant pool or neither does; they end at one place and hold
   * the same texts at the same indices.
   */
  lemma {:induction false} ScannersAgree(decode: Decoder, raw: Bytes)
    ensures HeaderResult(decode, raw).Some? <==> DetailsResult(decode, raw).Some?
    ensures HeaderResult(decode, raw).Some? ==>
      var h, d := HeaderResult(decode, raw).value, DetailsResult(decode, raw).value;
      h.1 == d.1 && SameTexts(h.0, d.0)
  {
    if Prelude(raw) {
      var read := Reader(decode, raw);
      var none: HeaderPool, empty: DetailsPool := map[], map[];
      ScanKeepsAll(read, Write, AddHeader(decode), 10, 1, U2At(raw, 8), none);
      ScanKeepsAll(read, Write, AddDetails(decode), 10, 1, U2At(raw, 8), empty);
      var es := ScanPool(read, Write, 10, 1, U2At(raw, 8));
      if es.Some? {
        SameTextsAll(decode, none, empty, 1, es.value);
      }
    }
  }

  /** Both accept exactly the class files whose pool is some list of valid constants, written one after another. */
  lemma {:induction false} AcceptedIsWritten(decode: Decoder, raw: Bytes)
    requires Prelude(raw)
    ensures HeaderResult(decode, raw).Some? <==>
      exists es :: PoolStands(EntryValid(decode), Write, raw, 10, 1, U2At(raw, 8), es)
    ensures forall es :: PoolStands(EntryValid(decode), Write, raw, 10, 1, U2At(raw, 8), es) ==>
      HeaderResult(decode, raw) == Some((AddAll(AddHeader(decode), map[], 1, es), 10 + |WrittenAll(Write, es)|))
  {
    var read, ok := Reader(decode, raw), EntryValid(decode);
    var none: HeaderPool := map[];
    ReaderIsFaithful(decode, raw);
    ScanKeepsAll(read, Write, AddHeader(decode), 10, 1, U2At(raw, 8), none);
    forall es
      ensures ScanPool(read, Write, 10, 1, U2At(raw, 8)) == Some(es) <==>
        PoolStands(ok, Write, raw, 10, 1, U2At(raw, 8), es)
    {
      ScanInvertsWriting(read, ok, Write, raw, 10, 1, U2At(raw, 8), es);
    }
  }
}
