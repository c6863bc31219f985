// validation/main_unit_receipts.py, `emit_snapshot` and `read_snapshots`: journals framed in a job log.
module UnitLog {
  import opened Wrappers
  import opened Base64

  const MAX_BYTES := 4 * 1024 * 1024
  const CHUNK := 2048

  type Bytes = seq<Byte>

  /** The hexadecimal SHA-256 of a byte string, and whether it is acceptable JSON. */
  type Sha = Bytes -> string
  type Json = Bytes -> bool

  datatype Phase = Start | Final

  // ----- decimal numbers -----

  predicate IsDigit(c: char) { '0' <= c <= '9' }

  predicate Digits(s: string) { forall k :: 0 <= k < |s| ==> IsDigit(s[k]) }

  function Decimal(n: nat): (s: string)
    ensures Digits(s) && s != ""
  {
    if n < 10 then [('0' as int + n) as char] else Decimal(n / 10) + [('0' as int + n % 10) as char]
  }

  function Number(s: string): nat
    requires Digits(s)
  {
    if s == "" then 0 else Number(s[..|s| - 1]) * 10 + (s[|s| - 1] as int - '0' as int)
  }

  lemma {:induction false} NumberOfDecimal(n: nat)
    ensures Number(Decimal(n)) == n
    ensures Decimal(n)[0] == '0' <==> n == 0
  {
    var s := Decimal(n);
    if n < 10 {
      assert s[..|s| - 1] == "";
    } else {
      NumberOfDecimal(n / 10);
      assert s[..|s| - 1] == Decimal(n / 10);
      assert s[0] == Decimal(n / 10)[0];
    }
  }

  // ----- the lines -----

  const MARK := "MAIN-UNIT-"

  function Word(p: Phase): string { if p.Start? then "start" else "final" }

  function JournalPrefix(p: Phase): string { MARK + "JOURNAL " + Word(p) + " " }

  function JournalLine(p: Phase, count: nat, digest: string): string {
    JournalPrefix(p) + Decimal(count) + " " + digest
  }

  function ChunkPrefix(p: Phase, i: nat): string { MARK + "CHUNK " + Word(p) + " " + Decimal(i) + " " }

  function EndLine(p: Phase): string { MARK + "END " + Word(p) }

  predicate HexDigit(c: char) { '0' <= c <= '9' || 'a' <= c <= 'f' }

  predicate HexDigest(s: string) { |s| == 64 && forall k :: 0 <= k < 64 ==> HexDigit(s[k]) }

  lemma {:induction false} HexDigitsExactly(c: char)
    ensures HexDigit(c) <==> c in "0123456789abcdef"
    ensures IsDigit(c) <==> c in "0123456789"
  {
  }

  datatype Heading = Heading(phase: Phase, count: nat, digest: string)

  /** A count without leading zero, a space and 64 hexadecimal digits. */
  function ParseTail(p: Phase, tail: string): Option<Heading> {
    if |tail| < 66 || !HexDigest(tail[|tail| - 64..]) || tail[|tail| - 65] != ' ' then None
    else
      var digits := tail[..|tail| - 65];
      if Digits(digits) && digits[0] != '0' then Some(Heading(p, Number(digits), tail[|tail| - 64..])) else None
  }

  /** The full match of the journal line's pattern. */
  function ParseJournal(line: string): Option<Heading> {
    if JournalPrefix(Start) <= line then ParseTail(Start, line[|JournalPrefix(Start)|..])
    else if JournalPrefix(Final) <= line then ParseTail(Final, line[|JournalPrefix(Final)|..])
    else None
  }

  /** The full match of the pattern for chunk `i`. */
  function ParseChunk(p: Phase, i: nat, line: string): Option<string> {
    if !(ChunkPrefix(p, i) <= line) then None
    else
      var part := line[|ChunkPrefix(p, i)|..];
      if 1 <= |part| <= CHUNK && Encoded(part) then Some(part) else None
  }

  predicate Encoded(s: string) { forall k :: 0 <= k < |s| ==> Alphabet(s[k]) }

  lemma {:induction false} NotPrefix(a: string, b: string, at: nat)
    requires at < |a| && at < |b| && a[at] != b[at]
    ensures !(a <= b)
  {
  }

  lemma {:induction false} PrefixesDiffer(line: string)
    ensures !(JournalPrefix(Start) <= JournalPrefix(Final) + line)
  {
    var at := |MARK| + 8;
    assert JournalPrefix(Start)[at] == 's' && (JournalPrefix(Final) + line)[at] == 'f';
    NotPrefix(JournalPrefix(Start), JournalPrefix(Final) + line, at);
  }

  lemma {:induction false} TailReads(p: Phase, count: nat, digest: string)
    requires HexDigest(digest)
    ensures ParseTail(p, Decimal(count) + " " + digest) == if count == 0 then None else Some(Heading(p, count, digest))
  {
    var tail := Decimal(count) + " " + digest;
    assert tail[..|tail| - 65] == Decimal(count) && tail[|tail| - 64..] == digest;
    NumberOfDecimal(count);
  }

  /** Reading a heading undoes writing it, except that a count of zero is not accepted. */
  lemma {:induction false} HeadingReads(p: Phase, count: nat, digest: string)
    requires HexDigest(digest)
    ensures ParseJournal(JournalLine(p, count, digest)) == if count == 0 then None else Some(Heading(p, count, digest))
    ensures MARK <= JournalLine(p, count, digest)
  {
    var tail := Decimal(count) + " " + digest;
    assert JournalLine(p, count, digest) == JournalPrefix(p) + tail;
    PrefixReads(p, tail);
    TailReads(p, count, digest);
  }

  lemma {:induction false} PrefixReads(p: Phase, tail: string)
    ensures ParseJournal(JournalPrefix(p) + tail) == ParseTail(p, tail)
    ensures MARK <= JournalPrefix(p) + tail
  {
    var line := JournalPrefix(p) + tail;
    assert line[|JournalPrefix(p)|..] == tail;
    if p.Final? {
      PrefixesDiffer(tail);
    }
  }

  lemma {:induction false} ChunkReads(p: Phase, i: nat, part: string)
    requires 1 <= |part| <= CHUNK && Encoded(part)
    ensures ParseChunk(p, i, ChunkPrefix(p, i) + part) == Some(part)
  {
    var line := ChunkPrefix(p, i) + part;
    assert line[|ChunkPrefix(p, i)|..] == part;
  }

  // ----- writing -----

  function Chunks(text: string): seq<string>
  {
    if text == "" then [] else if |text| <= CHUNK then [text] else [text[..CHUNK]] + Chunks(text[CHUNK..])
  }

  function ChunkLines(p: Phase, parts: seq<string>, i: nat): (lines: seq<string>)
    ensures |lines| == |parts|
  {
    if parts == [] then [] else [ChunkPrefix(p, i) + parts[0]] + ChunkLines(p, parts[1..], i + 1)
  }

  function Frame(p: Phase, raw: Bytes, sha: Sha): seq<string> {
    var parts := Chunks(Encode(raw));
    [JournalLine(p, |parts|, sha(raw))] + ChunkLines(p, parts, 0) + [EndLine(p)]
  }

  lemma {:induction false} ChunkLinesAppend(p: Phase, parts: seq<string>, part: string, i: nat)
    ensures ChunkLines(p, parts + [part], i) == ChunkLines(p, parts, i) + [ChunkPrefix(p, i + |parts|) + part]
  {
    if parts == [] {
      assert [part][1..] == [];
    } else {
      ChunkLinesAppend(p, parts[1..], part, i + 1);
      assert (parts + [part])[1..] == parts[1..] + [part];
    }
  }

  function NextCut(text: string, at: nat): nat { if at + CHUNK < |text| then at + CHUNK else |text| }

  lemma {:induction false} ChunksFrom(text: string, at: nat)
    requires at < |text|
    ensures at < NextCut(text, at) <= |text|
    ensures Chunks(text[at..]) == [text[at..NextCut(text, at)]] + Chunks(text[NextCut(text, at)..])
  {
    if at + CHUNK < |text| {
      assert text[at..][..CHUNK] == text[at..at + CHUNK];
      assert text[at..][CHUNK..] == text[at + CHUNK..];
    } else {
      assert text[|text|..] == "";
      assert text[at..|text|] == text[at..];
    }
  }

  lemma {:induction false} Regroup<T>(a: seq<T>, b: seq<T>, c: seq<T>)
    ensures a + (b + c) == (a + b) + c
  {
  }

  method Cut(text: string) returns (parts: seq<string>)
    ensures parts == Chunks(text)
  {
    parts := [];
    var at := 0;
    ghost var rest := Chunks(text);
    assert text[0..] == text;
    while at < |text|
      invariant at <= |text| && rest == Chunks(text[at..]) && parts + rest == Chunks(text)
    {
      ChunksFrom(text, at);
      var next := NextCut(text, at);
      Regroup(parts, [text[at..next]], Chunks(text[next..]));
      parts := parts + [text[at..next]];
      at := next;
      rest := Chunks(text[at..]);
    }
    assert text[at..] == "" && rest == [];
  }

  /** `emit_snapshot`: the lines it prints. */
  method EmitSnapshot(raw: Bytes, p: Phase, sha: Sha) returns (r: Result<seq<string>>)
    ensures r == if |raw| <= MAX_BYTES then Ok(Frame(p, raw, sha)) else Refused
  {
    if |raw| > MAX_BYTES { return Refused; }
    var parts := Cut(Encode(raw));
    var heading := JournalLine(p, |parts|, sha(raw));
    var lines, i := [], 0;
    while i < |parts|
      invariant i <= |parts| && lines == ChunkLines(p, parts[..i], 0)
    {
      ChunkLinesAppend(p, parts[..i], parts[i], 0);
      assert parts[..i] + [parts[i]] == parts[..i + 1];
      lines := lines + [ChunkPrefix(p, i) + parts[i]];
      i := i + 1;
    }
    assert parts[..i] == parts;
    r := Ok([heading] + lines + [EndLine(p)]);
  }

  // ----- reading -----

  datatype Snapshots = Snapshots(start: Option<Bytes>, final: Option<Bytes>)

  datatype Framed = Framed(phase: Phase, raw: Bytes, next: nat)

  const CAP := MAX_BYTES * 2 / CHUNK + 1

  predicate InOrder(p: Phase, s: Snapshots) {
    if p.Start? then s == Snapshots(None, None) else s.start.Some? && s.final.None?
  }

  function Keep(s: Snapshots, p: Phase, raw: Bytes): Snapshots {
    if p.Start? then s.(start := Some(raw)) else s.(final := Some(raw))
  }

  /** The joined chunks i.. of a frame, the first of them on line `at`. */
  function ReadChunks(lines: seq<string>, at: nat, p: Phase, i: nat, count: nat): Option<string>
    requires i <= count
    decreases count - i
  {
    if i == count then Some("")
    else if at >= |lines| || ParseChunk(p, i, lines[at]).None? then None
    else
      var rest := ReadChunks(lines, at + 1, p, i + 1, count);
      if rest.None? then None else Some(ParseChunk(p, i, lines[at]).value + rest.value)
  }

  /** The frame whose heading stands on line `at`. */
  function ReadFrame(lines: seq<string>, at: nat, s: Snapshots, sha: Sha, json: Json): Result<Framed>
    requires at < |lines|
  {
    var heading := ParseJournal(lines[at]);
    if heading.None? || !InOrder(heading.value.phase, s) || heading.value.count > CAP then Refused
    else
      var h := heading.value;
      var text := ReadChunks(lines, at + 1, h.phase, 0, h.count);
      var last := at + 1 + h.count;
      if text.None? || last >= |lines| || lines[last] != EndLine(h.phase) || Decode(text.value).None? then Refused
      else
        var raw := Decode(text.value).value;
        if sha(raw) == h.digest && |raw| <= MAX_BYTES && json(raw) then Ok(Framed(h.phase, raw, last + 1)) else Refused
  }

  /** What a frame on a line reads as, given the snapshots before it. */
  type Reader = (nat, Snapshots) -> Result<Framed>

  function Frames(lines: seq<string>, sha: Sha, json: Json): Reader {
    (at: nat, s: Snapshots) => if at < |lines| then ReadFrame(lines, at, s, sha, json) else Refused
  }

  function Read(lines: seq<string>, at: nat, s: Snapshots, frames: Reader): Result<Snapshots>
    decreases |lines| - at
  {
    if at >= |lines| then Ok(s)
    else if !(MARK <= lines[at]) then Read(lines, at + 1, s, frames)
    else
      var f := frames(at, s);
      if f.Refused? || f.value.next <= at then Refused
      else Read(lines, f.value.next, Keep(s, f.value.phase, f.value.raw), frames)
  }

  const NOTHING := Snapshots(None, None)

  function Glue(joined: string, rest: Option<string>): Option<string> {
    if rest.None? then None else Some(joined + rest.value)
  }

  lemma {:induction false} GlueNothing(rest: Option<string>)
    ensures Glue("", rest) == rest
  {
    if rest.Some? {
      assert "" + rest.value == rest.value;
    }
  }

  lemma {:induction false} GlueChunk(joined: string, lines: seq<string>, at: nat, p: Phase, i: nat, count: nat)
    requires i < count && at < |lines| && ParseChunk(p, i, lines[at]).Some?
    ensures Glue(joined, ReadChunks(lines, at, p, i, count)) ==
            Glue(joined + ParseChunk(p, i, lines[at]).value, ReadChunks(lines, at + 1, p, i + 1, count))
  {
    var rest := ReadChunks(lines, at + 1, p, i + 1, count);
    if rest.Some? {
      Regroup(joined, ParseChunk(p, i, lines[at]).value, rest.value);
    }
  }

  /** The inner loop over the chunk lines. */
  method CollectChunks(lines: seq<string>, at: nat, p: Phase, count: nat) returns (text: Option<string>)
    ensures text == ReadChunks(lines, at, p, 0, count)
  {
    var joined, i := "", 0;
    GlueNothing(ReadChunks(lines, at, p, 0, count));
    while i < count
      invariant i <= count
      invariant ReadChunks(lines, at, p, 0, count) == Glue(joined, ReadChunks(lines, at + i, p, i, count))
    {
      if at + i >= |lines| { return None; }
      var part := ParseChunk(p, i, lines[at + i]);
      if part.None? { return None; }
      GlueChunk(joined, lines, at + i, p, i, count);
      joined := joined + part.value;
      i := i + 1;
    }
    assert joined + "" == joined;
    text := Some(joined);
  }

  method ReadOne(lines: seq<string>, at: nat, s: Snapshots, sha: Sha, json: Json) returns (f: Result<Framed>)
    requires at < |lines|
    ensures f == ReadFrame(lines, at, s, sha, json)
  {
    var heading := ParseJournal(lines[at]);
    if heading.None? { return Refused; }
    var h := heading.value;
    if !InOrder(h.phase, s) || h.count > CAP { return Refused; }
    var text := CollectChunks(lines, at + 1, h.phase, h.count);
    if text.None? { return Refused; }
    var last := at + 1 + h.count;
    if last >= |lines| || lines[last] != EndLine(h.phase) { return Refused; }
    var raw := Decode(text.value);
    if raw.None? { return Refused; }
    if sha(raw.value) != h.digest || |raw.value| > MAX_BYTES || !json(raw.value) { return Refused; }
    f := Ok(Framed(h.phase, raw.value, last + 1));
  }

  /** `read_snapshots`. */
  method ReadSnapshots(lines: seq<string>, sha: Sha, json: Json) returns (r: Result<Snapshots>)
    ensures r == Read(lines, 0, NOTHING, Frames(lines, sha, json))
  {
    var s, at := NOTHING, 0;
    while at < |lines|
      invariant Read(lines, 0, NOTHING, Frames(lines, sha, json)) == Read(lines, at, s, Frames(lines, sha, json))
      decreases |lines| - at
    {
      if !(MARK <= lines[at]) {
        at := at + 1;
      } else {
        var f := ReadOne(lines, at, s, sha, json);
        if f.Refused? { return Refused; }
        s := Keep(s, f.value.phase, f.value.raw);
        at := f.value.next;
      }
    }
    r := Ok(s);
  }

  // ----- what is written reads back -----

  function Joined(parts: seq<string>): string { if parts == [] then "" else parts[0] + Joined(parts[1..]) }

  ghost predicate Parts(parts: seq<string>) {
    forall k :: 0 <= k < |parts| ==> 1 <= |parts[k]| <= CHUNK && Encoded(parts[k])
  }

  lemma {:induction false} ChunksJoin(text: string)
    requires Encoded(text)
    ensures Joined(Chunks(text)) == text && Parts(Chunks(text))
    ensures |Chunks(text)| == (|text| + CHUNK - 1) / CHUNK
  {
    if |text| > CHUNK {
      ChunksJoin(text[CHUNK..]);
      var rest := Chunks(text[CHUNK..]);
      assert Chunks(text) == [text[..CHUNK]] + rest;
      assert Chunks(text)[1..] == rest;
      assert text == text[..CHUNK] + text[CHUNK..];
    } else if text != "" {
      assert [text][1..] == [];
      assert Joined([text]) == text + Joined([]);
    }
  }

  /** The reader's cap never refuses what the writer may emit. */
  lemma {:induction false} CapIsEnough(raw: Bytes)
    requires |raw| <= MAX_BYTES
    ensures |Chunks(Encode(raw))| <= CAP
    ensures |Chunks(Encode(raw))| == 0 <==> raw == []
  {
    ChunksJoin(Encode(raw));
  }

  lemma {:induction false} ChunksReadBack(lines: seq<string>, at: nat, p: Phase, parts: seq<string>, i: nat)
    requires Parts(parts) && at + |parts| <= |lines| && lines[at..at + |parts|] == ChunkLines(p, parts, i)
    ensures ReadChunks(lines, at, p, i, i + |parts|) == Some(Joined(parts))
    decreases |parts|
  {
    if parts != [] {
      var block := lines[at..at + |parts|];
      assert lines[at] == block[0] == ChunkPrefix(p, i) + parts[0];
      assert lines[at + 1..at + 1 + |parts[1..]|] == block[1..] == ChunkLines(p, parts[1..], i + 1);
      ChunkReads(p, i, parts[0]);
      ChunksReadBack(lines, at + 1, p, parts[1..], i + 1);
    }
  }

  ghost predicate ShaIsHex(sha: Sha) { forall raw :: HexDigest(sha(raw)) }

  /** `frame` stands in `lines` from line `at` on. */
  ghost predicate FrameAt(lines: seq<string>, at: nat, frame: seq<string>) {
    at + |frame| <= |lines| && lines[at..at + |frame|] == frame
  }

  lemma {:induction false} Sections<T>(lines: seq<T>, at: nat, head: T, middle: seq<T>, tail: T)
    requires at + |middle| + 2 <= |lines| && lines[at..at + |middle| + 2] == [head] + middle + [tail]
    ensures lines[at] == head && lines[at + 1..at + 1 + |middle|] == middle && lines[at + 1 + |middle|] == tail
  {
    var block := lines[at..at + |middle| + 2];
    var frame := [head] + middle + [tail];
    assert block == frame;
    assert block[0] == lines[at] && frame[0] == head;
    assert block[1 + |middle|] == lines[at + 1 + |middle|] && frame[1 + |middle|] == tail;
    forall k | 0 <= k < |middle|
      ensures lines[at + 1..at + 1 + |middle|][k] == middle[k]
    {
      assert block[1 + k] == lines[at + 1 + k] && frame[1 + k] == middle[k];
    }
  }

  /** The reader's checks on one frame, passed one by one. */
  lemma {:induction false} FrameAccepted(lines: seq<string>, at: nat, line: string, h: Heading, parts: seq<string>,
                                         text: string, raw: Bytes, s: Snapshots, sha: Sha, json: Json)
    requires FrameAt(lines, at, [line] + ChunkLines(h.phase, parts, 0) + [EndLine(h.phase)])
    requires ParseJournal(line) == Some(h) && InOrder(h.phase, s) && h.count == |parts| <= CAP
    requires Parts(parts) && Joined(parts) == text
    requires Decode(text) == Some(raw) && sha(raw) == h.digest && |raw| <= MAX_BYTES && json(raw)
    ensures at < |lines| && ReadFrame(lines, at, s, sha, json) == Ok(Framed(h.phase, raw, at + h.count + 2))
  {
    Sections(lines, at, line, ChunkLines(h.phase, parts, 0), EndLine(h.phase));
    ChunksReadBack(lines, at + 1, h.phase, parts, 0);
    ChecksPass(lines, at, h, text, raw, s, sha, json);
  }

  lemma {:induction false} ChecksPass(lines: seq<string>, at: nat, h: Heading, text: string, raw: Bytes, s: Snapshots,
                                      sha: Sha, json: Json)
    requires at + 1 + h.count < |lines| && ParseJournal(lines[at]) == Some(h) && InOrder(h.phase, s) && h.count <= CAP
    requires ReadChunks(lines, at + 1, h.phase, 0, h.count) == Some(text) && lines[at + 1 + h.count] == EndLine(h.phase)
    requires Decode(text) == Some(raw) && sha(raw) == h.digest && |raw| <= MAX_BYTES && json(raw)
    ensures ReadFrame(lines, at, s, sha, json) == Ok(Framed(h.phase, raw, at + h.count + 2))
  {
  }

  /** Wherever `frame` stands in a log and a frame of its phase is due, it is read as `raw`. */
  ghost predicate ReadsAs(frame: seq<string>, p: Phase, raw: Bytes, sha: Sha, json: Json) {
    && frame != [] && MARK <= frame[0]
    && forall lines, at: nat, s {:trigger ReadFrame(lines, at, s, sha, json)} ::
         FrameAt(lines, at, frame) && at < |lines| && InOrder(p, s) ==>
           ReadFrame(lines, at, s, sha, json) == (if raw == [] then Refused else Ok(Framed(p, raw, at + |frame|)))
  }

  lemma {:induction false} FrameReadsBack(p: Phase, raw: Bytes, sha: Sha, json: Json)
    requires ShaIsHex(sha) && |raw| <= MAX_BYTES && json(raw)
    ensures ReadsAs(Frame(p, raw, sha), p, raw, sha, json)
  {
    var text := Encode(raw);
    var parts := Chunks(text);
    var line := JournalLine(p, |parts|, sha(raw));
    HeadingReads(p, |parts|, sha(raw));
    CapIsEnough(raw);
    ChunksJoin(text);
    DecodeEncode(raw);
    FrameReads(Frame(p, raw, sha), p, line, parts, text, raw, sha, json);
  }

  lemma {:induction false} FrameReads(frame: seq<string>, p: Phase, line: string, parts: seq<string>, text: string,
                                      raw: Bytes, sha: Sha, json: Json)
    requires frame == [line] + ChunkLines(p, parts, 0) + [EndLine(p)] && MARK <= line
    requires ParseJournal(line) == if |parts| == 0 then None else Some(Heading(p, |parts|, sha(raw)))
    requires raw == [] <==> |parts| == 0
    requires |parts| <= CAP && Parts(parts) && Joined(parts) == text
    requires Decode(text) == Some(raw) && |raw| <= MAX_BYTES && json(raw)
    ensures ReadsAs(frame, p, raw, sha, json)
  {
    forall lines, at: nat, s | FrameAt(lines, at, frame) && at < |lines| && InOrder(p, s)
      ensures ReadFrame(lines, at, s, sha, json) == if raw == [] then Refused else Ok(Framed(p, raw, at + |frame|))
    {
      Sections(lines, at, line, ChunkLines(p, parts, 0), EndLine(p));
      if raw != [] {
        FrameAccepted(lines, at, line, Heading(p, |parts|, sha(raw)), parts, text, raw, s, sha, json);
      }
    }
  }

  ghost predicate Noise(lines: seq<string>, a: nat, b: nat) {
    a <= b <= |lines| && forall k :: a <= k < b ==> !(MARK <= lines[k])
  }

  lemma {:induction false} NoiseIsSkipped(lines: seq<string>, a: nat, b: nat, s: Snapshots, frames: Reader)
    requires Noise(lines, a, b)
    ensures Read(lines, a, s, frames) == Read(lines, b, s, frames)
    decreases b - a
  {
    if a < b {
      NoiseIsSkipped(lines, a + 1, b, s, frames);
    }
  }

  /** A log that holds one frame at `a` and another at `b`, and otherwise no marked line. */
  ghost predicate Logged(lines: seq<string>, a: nat, first: seq<string>, b: nat, second: seq<string>) {
    && Noise(lines, 0, a) && FrameAt(lines, a, first)
    && Noise(lines, a + |first|, b) && FrameAt(lines, b, second)
    && Noise(lines, b + |second|, |lines|)
  }

  lemma {:induction false} FrameStands(lines: seq<string>, at: nat, frame: seq<string>, p: Phase, raw: Bytes,
                                       s: Snapshots, sha: Sha, json: Json)
    requires ReadsAs(frame, p, raw, sha, json) && FrameAt(lines, at, frame) && InOrder(p, s)
    ensures at < |lines| && MARK <= lines[at] && frame != []
    ensures Frames(lines, sha, json)(at, s) == if raw == [] then Refused else Ok(Framed(p, raw, at + |frame|))
  {
    assert lines[at] == lines[at..at + |frame|][0] == frame[0];
    var f := ReadFrame(lines, at, s, sha, json);
  }

  /** Two frames, each read by `frames` as a journal, and noise around them. */
  lemma {:induction false} FramesReadBack(lines: seq<string>, a: nat, next: nat, start: Bytes, b: nat, last: nat,
                                          final: Bytes, frames: Reader)
    requires Noise(lines, 0, a) && a < |lines| && MARK <= lines[a] && a < next && Noise(lines, next, b)
    requires b < |lines| && MARK <= lines[b] && b < last && Noise(lines, last, |lines|)
    requires frames(a, NOTHING) == if start == [] then Refused else Ok(Framed(Start, start, next))
    requires frames(b, Snapshots(Some(start), None)) == if final == [] then Refused else Ok(Framed(Final, final, last))
    ensures Read(lines, 0, NOTHING, frames) ==
      if start == [] || final == [] then Refused else Ok(Snapshots(Some(start), Some(final)))
  {
    NoiseIsSkipped(lines, 0, a, NOTHING, frames);
    if start != [] {
      var s := Snapshots(Some(start), None);
      NoiseIsSkipped(lines, next, b, s, frames);
      if final != [] {
        NoiseIsSkipped(lines, last, |lines|, Keep(s, Final, final), frames);
      }
    }
  }

  /** A log gives back the two journals framed in it exactly when neither is empty; otherwise it is refused. */
  lemma {:induction false} LogReadsBack(lines: seq<string>, a: nat, start: Bytes, b: nat, final: Bytes, sha: Sha,
                                        json: Json)
    requires ShaIsHex(sha) && |start| <= MAX_BYTES && |final| <= MAX_BYTES && json(start) && json(final)
    requires Logged(lines, a, Frame(Start, start, sha), b, Frame(Final, final, sha))
    ensures Read(lines, 0, NOTHING, Frames(lines, sha, json)) ==
      if start == [] || final == [] then Refused else Ok(Snapshots(Some(start), Some(final)))
  {
    FrameReadsBack(Start, start, sha, json);
    FrameReadsBack(Final, final, sha, json);
    LoggedFramesRead(lines, a, Frame(Start, start, sha), start, b, Frame(Final, final, sha), final, sha, json);
  }

  lemma {:induction false} LoggedFramesRead(lines: seq<string>, a: nat, first: seq<string>, start: Bytes, b: nat,
                                            second: seq<string>, final: Bytes, sha: Sha, json: Json)
    requires Logged(lines, a, first, b, second)
    requires ReadsAs(first, Start, start, sha, json) == ReadsAs(second, Final, final, sha, json) == true
    ensures Read(lines, 0, NOTHING, Frames(lines, sha, json)) ==
      if start == [] || final == [] then Refused else Ok(Snapshots(Some(start), Some(final)))
  {
    FrameStands(lines, a, first, Start, start, NOTHING, sha, json);
    FrameStands(lines, b, second, Final, final, Snapshots(Some(start), None), sha, json);
    StandingFramesRead(lines, a, first, start, b, second, final, Frames(lines, sha, json));
  }

  lemma {:induction false} StandingFramesRead(lines: seq<string>, a: nat, first: seq<string>, start: Bytes, b: nat,
                                              second: seq<string>, final: Bytes, frames: Reader)
    requires Logged(lines, a, first, b, second) && first != [] && second != []
    requires a < |lines| && MARK <= lines[a] && b < |lines| && MARK <= lines[b]
    requires frames(a, NOTHING) == if start == [] then Refused else Ok(Framed(Start, start, a + |first|))
    requires frames(b, Snapshots(Some(start), None))
      == if final == [] then Refused else Ok(Framed(Final, final, b + |second|))
    ensures Read(lines, 0, NOTHING, frames) ==
      if start == [] || final == [] then Refused else Ok(Snapshots(Some(start), Some(final)))
  {
    FramesReadBack(lines, a, a + |first|, start, b, b + |second|, final, frames);
  }

  /** Whatever chunk lines a log holds, an accepted frame decodes to the very bytes its heading was made for. */
  lemma {:induction false} AcceptedFrameIsGenuine(lines: seq<string>, at: nat, s: Snapshots, raw: Bytes, sha: Sha,
                                                  json: Json)
    requires at < |lines| && ReadFrame(lines, at, s, sha, json).Ok?
    requires ParseJournal(lines[at]).value.digest == sha(raw)
    requires forall x, y :: sha(x) == sha(y) ==> x == y
    ensures ReadFrame(lines, at, s, sha, json).value.raw == raw
  {
    var f := ReadFrame(lines, at, s, sha, json).value;
    assert sha(f.raw) == sha(raw);
  }

  // ----- exactly which logs are read -----

  /** The lines of a frame: a heading with a count of chunks, that many chunk lines in order, and the end line. */
  ghost predicate FrameLines(lines: seq<string>, at: nat, p: Phase, digits: string, digest: string, parts: seq<string>)
  {
    && at + |parts| + 2 <= |lines| && lines[at] == JournalPrefix(p) + (digits + " " + digest) && HexDigest(digest)
    && Digits(digits) && digits != "" && digits[0] != '0' && Number(digits) == |parts| && Parts(parts)
    && (forall k :: 0 <= k < |parts| ==> lines[at + 1 + k] == ChunkPrefix(p, k) + parts[k])
    && lines[at + 1 + |parts|] == EndLine(p)
  }

  /** A frame whose chunks are no more than the cap and decode to JSON of the announced digest. */
  ghost predicate IsFrame(lines: seq<string>, at: nat, f: Framed, sha: Sha, json: Json) {
    exists digits, parts :: FrameLines(lines, at, f.phase, digits, sha(f.raw), parts) && Holds(parts, at, f, json)
  }

  ghost predicate Holds(parts: seq<string>, at: nat, f: Framed, json: Json) {
    && f.next == at + |parts| + 2 && |parts| <= CAP
    && Decode(Joined(parts)) == Some(f.raw) && |f.raw| <= MAX_BYTES && json(f.raw)
  }

  lemma {:induction false} TailExactly(p: Phase, tail: string, h: Heading)
    ensures ParseTail(p, tail) == Some(h) <==>
      h.phase == p && HexDigest(h.digest) && |tail| > 65 && tail == tail[..|tail| - 65] + " " + h.digest
      && Digits(tail[..|tail| - 65]) && tail[0] != '0' && Number(tail[..|tail| - 65]) == h.count
  {
    if |tail| > 65 && tail == tail[..|tail| - 65] + " " + h.digest && HexDigest(h.digest) {
      assert tail[|tail| - 64..] == h.digest && tail[|tail| - 65] == ' ';
    }
    if ParseTail(p, tail) == Some(h) {
      assert tail == tail[..|tail| - 65] + [tail[|tail| - 65]] + tail[|tail| - 64..];
    }
  }

  lemma {:induction false} TailIsRead(p: Phase, digits: string, h: Heading)
    requires h.phase == p && HexDigest(h.digest)
    requires Digits(digits) && digits != "" && digits[0] != '0' && Number(digits) == h.count
    ensures ParseTail(p, digits + " " + h.digest) == Some(h)
  {
    var tail := digits + " " + h.digest;
    assert tail[..|tail| - 65] == digits && tail[|tail| - 64..] == h.digest && tail[|tail| - 65] == ' ';
  }

  lemma {:induction false} HeadingIsRead(line: string, h: Heading, digits: string)
    requires IsHeading(line, h, digits)
    ensures ParseJournal(line) == Some(h)
  {
    PrefixReads(h.phase, digits + " " + h.digest);
    TailIsRead(h.phase, digits, h);
  }

  lemma {:induction false} ReadIsHeading(line: string, h: Heading) returns (digits: string)
    requires ParseJournal(line) == Some(h)
    ensures IsHeading(line, h, digits)
  {
    if JournalPrefix(Start) <= line {
      digits := HeadingOf(line, Start, h);
    } else {
      digits := HeadingOf(line, Final, h);
    }
  }

  ghost predicate IsHeading(line: string, h: Heading, digits: string) {
    && line == JournalPrefix(h.phase) + (digits + " " + h.digest) && HexDigest(h.digest)
    && Digits(digits) && digits != "" && digits[0] != '0' && Number(digits) == h.count
  }

  lemma {:induction false} HeadingOf(line: string, p: Phase, h: Heading) returns (digits: string)
    requires JournalPrefix(p) <= line && ParseTail(p, line[|JournalPrefix(p)|..]) == Some(h)
    ensures IsHeading(line, h, digits)
  {
    var tail := line[|JournalPrefix(p)|..];
    TailExactly(p, tail, h);
    assert line == JournalPrefix(p) + tail;
    digits := tail[..|tail| - 65];
  }

  /** Chunks are read exactly when each line is its prefix and a part, and then give the parts joined. */
  lemma {:induction false} ChunksExactly(lines: seq<string>, at: nat, p: Phase, i: nat, count: nat)
    returns (parts: seq<string>)
    requires i <= count && at <= |lines| && ReadChunks(lines, at, p, i, count).Some?
    ensures |parts| == count - i && at + |parts| <= |lines| && Parts(parts)
    ensures ReadChunks(lines, at, p, i, count) == Some(Joined(parts))
    ensures forall k :: 0 <= k < |parts| ==> lines[at + k] == ChunkPrefix(p, i + k) + parts[k]
    decreases count - i
  {
    if i == count {
      parts := [];
    } else {
      var rest := ChunksExactly(lines, at + 1, p, i + 1, count);
      var part := ParseChunk(p, i, lines[at]).value;
      parts := [part] + rest;
      assert parts[1..] == rest && lines[at] == ChunkPrefix(p, i) + part;
      forall k | 0 <= k < |parts|
        ensures lines[at + k] == ChunkPrefix(p, i + k) + parts[k]
      {
        if k > 0 { assert lines[at + 1 + (k - 1)] == ChunkPrefix(p, i + 1 + (k - 1)) + rest[k - 1]; }
      }
    }
  }

  lemma {:induction false} ChunksRead(lines: seq<string>, at: nat, p: Phase, i: nat, parts: seq<string>)
    requires Parts(parts) && at + |parts| <= |lines|
    requires forall k :: 0 <= k < |parts| ==> lines[at + k] == ChunkPrefix(p, i + k) + parts[k]
    ensures ReadChunks(lines, at, p, i, i + |parts|) == Some(Joined(parts))
    decreases |parts|
  {
    if parts != [] {
      assert lines[at + 0] == ChunkPrefix(p, i + 0) + parts[0];
      ChunkReads(p, i, parts[0]);
      forall k | 0 <= k < |parts| - 1
        ensures lines[at + 1 + k] == ChunkPrefix(p, i + 1 + k) + parts[1..][k]
      {
        assert lines[at + (k + 1)] == ChunkPrefix(p, i + (k + 1)) + parts[k + 1];
      }
      ChunksRead(lines, at + 1, p, i + 1, parts[1..]);
    }
  }

  lemma {:induction false} HeadOfFrame(lines: seq<string>, at: nat, p: Phase, digits: string, digest: string,
                                       parts: seq<string>)
    requires FrameLines(lines, at, p, digits, digest, parts)
    ensures ParseJournal(lines[at]) == Some(Heading(p, |parts|, digest))
    ensures ReadChunks(lines, at + 1, p, 0, |parts|) == Some(Joined(parts))
    ensures at + 1 + |parts| < |lines| && lines[at + 1 + |parts|] == EndLine(p)
  {
    HeadingIsRead(lines[at], Heading(p, |parts|, digest), digits);
    ChunksRead(lines, at + 1, p, 0, parts);
  }

  lemma {:induction false} FrameChecks(lines: seq<string>, at: nat, s: Snapshots, f: Framed, parts: seq<string>,
                                       sha: Sha, json: Json)
    requires at + 1 + |parts| < |lines| && lines[at + 1 + |parts|] == EndLine(f.phase)
    requires ParseJournal(lines[at]) == Some(Heading(f.phase, |parts|, sha(f.raw)))
    requires ReadChunks(lines, at + 1, f.phase, 0, |parts|) == Some(Joined(parts))
    requires Holds(parts, at, f, json) && InOrder(f.phase, s)
    ensures ReadFrame(lines, at, s, sha, json) == Ok(f)
  {
    ChecksPass(lines, at, Heading(f.phase, |parts|, sha(f.raw)), Joined(parts), f.raw, s, sha, json);
  }

  lemma {:induction false} FrameIsRead(lines: seq<string>, at: nat, s: Snapshots, f: Framed, digits: string,
                                       parts: seq<string>, sha: Sha, json: Json)
    requires FrameLines(lines, at, f.phase, digits, sha(f.raw), parts) == true && Holds(parts, at, f, json) == true
    requires InOrder(f.phase, s)
    ensures at < |lines| && ReadFrame(lines, at, s, sha, json) == Ok(f)
  {
    HeadOfFrame(lines, at, f.phase, digits, sha(f.raw), parts);
    FrameChecks(lines, at, s, f, parts, sha, json);
  }

  lemma {:induction false} FrameFacts(lines: seq<string>, at: nat, s: Snapshots, f: Framed, sha: Sha, json: Json)
    requires at < |lines| && ReadFrame(lines, at, s, sha, json) == Ok(f)
    ensures ParseJournal(lines[at]).Some? && InOrder(f.phase, s)
    ensures var h := ParseJournal(lines[at]).value; var text := ReadChunks(lines, at + 1, h.phase, 0, h.count);
      && h.phase == f.phase && h.digest == sha(f.raw) && h.count <= CAP && f.next == at + h.count + 2 <= |lines|
      && text.Some? && lines[at + 1 + h.count] == EndLine(h.phase)
      && Decode(text.value) == Some(f.raw) && |f.raw| <= MAX_BYTES && json(f.raw)
  {
  }

  lemma {:induction false} ReadIsFrame(lines: seq<string>, at: nat, s: Snapshots, f: Framed, sha: Sha, json: Json)
    requires at < |lines| && ReadFrame(lines, at, s, sha, json) == Ok(f)
    ensures InOrder(f.phase, s) && IsFrame(lines, at, f, sha, json)
  {
    FrameFacts(lines, at, s, f, sha, json);
    MakeFrame(lines, at, f, ParseJournal(lines[at]).value, sha, json);
  }

  lemma {:induction false} MakeFrame(lines: seq<string>, at: nat, f: Framed, h: Heading, sha: Sha, json: Json)
    requires at < |lines| && ParseJournal(lines[at]) == Some(h)
    requires h.phase == f.phase && h.digest == sha(f.raw) && h.count <= CAP && f.next == at + h.count + 2 <= |lines|
    requires ReadChunks(lines, at + 1, h.phase, 0, h.count).Some? && lines[at + 1 + h.count] == EndLine(h.phase)
    requires Decode(ReadChunks(lines, at + 1, h.phase, 0, h.count).value) == Some(f.raw)
    requires |f.raw| <= MAX_BYTES && json(f.raw)
    ensures IsFrame(lines, at, f, sha, json)
  {
    var digits := ReadIsHeading(lines[at], h);
    var parts := ChunksExactly(lines, at + 1, h.phase, 0, h.count);
    assert FrameLines(lines, at, f.phase, digits, sha(f.raw), parts);
    assert Holds(parts, at, f, json);
  }

  /** A frame is read exactly when it is one and is due. */
  lemma {:induction false} FrameExactly(lines: seq<string>, at: nat, s: Snapshots, f: Framed, sha: Sha, json: Json)
    requires at < |lines|
    ensures ReadFrame(lines, at, s, sha, json) == Ok(f) <==> InOrder(f.phase, s) && IsFrame(lines, at, f, sha, json)
  {
    if ReadFrame(lines, at, s, sha, json) == Ok(f) {
      ReadIsFrame(lines, at, s, f, sha, json);
    }
    if InOrder(f.phase, s) && IsFrame(lines, at, f, sha, json) {
      var digits, parts :| FrameLines(lines, at, f.phase, digits, sha(f.raw), parts) && Holds(parts, at, f, json);
      FrameIsRead(lines, at, s, f, digits, parts, sha, json);
    }
  }

  /** From line `at` on there is a frame at `a`, which is read, and before it only noise. */
  ghost predicate NextFrame(lines: seq<string>, at: nat, a: nat, f: Framed, sha: Sha, json: Json) {
    Noise(lines, at, a) && IsFrame(lines, a, f, sha, json) && a < f.next <= |lines|
  }

  /** What a log says: nothing, a start frame, or a start frame and a final one after it; all else is noise. */
  ghost predicate Says(lines: seq<string>, s: Snapshots, sha: Sha, json: Json) {
    if s.start.None? then s.final.None? && Noise(lines, 0, |lines|)
    else
      exists a, f :: NextFrame(lines, 0, a, f, sha, json) && f.phase == Start && f.raw == s.start.value
        && SaysAfter(lines, f.next, s.final, sha, json)
  }

  ghost predicate SaysAfter(lines: seq<string>, at: nat, final: Option<Bytes>, sha: Sha, json: Json) {
    if final.None? then Noise(lines, at, |lines|)
    else
      exists b, g :: NextFrame(lines, at, b, g, sha, json) && g.phase == Final && g.raw == final.value
        && Noise(lines, g.next, |lines|)
  }

  lemma {:induction false} FrameIsMarked(lines: seq<string>, at: nat, f: Framed, sha: Sha, json: Json)
    requires IsFrame(lines, at, f, sha, json)
    ensures at < |lines| && MARK <= lines[at] && at < f.next <= |lines|
  {
    var digits, parts :| FrameLines(lines, at, f.phase, digits, sha(f.raw), parts) && Holds(parts, at, f, json);
    PrefixReads(f.phase, digits + " " + sha(f.raw));
  }

  /** Reading goes on to the next frame that is due, or finds only noise. */
  lemma {:induction false} ReadOn(lines: seq<string>, at: nat, s: Snapshots, t: Snapshots, sha: Sha, json: Json)
    returns (a: nat, f: Option<Framed>)
    requires at <= |lines| && Read(lines, at, s, Frames(lines, sha, json)) == Ok(t)
    ensures f.None? ==> t == s && Noise(lines, at, |lines|)
    ensures f.Some? ==> NextFrame(lines, at, a, f.value, sha, json) && InOrder(f.value.phase, s)
    ensures f.Some? ==>
      Read(lines, f.value.next, Keep(s, f.value.phase, f.value.raw), Frames(lines, sha, json)) == Ok(t)
    decreases |lines| - at
  {
    if at == |lines| {
      a, f := at, None;
    } else if MARK <= lines[at] {
      var g := ReadFrame(lines, at, s, sha, json);
      ReadIsFrame(lines, at, s, g.value, sha, json);
      FrameIsMarked(lines, at, g.value, sha, json);
      a, f := at, Some(g.value);
    } else {
      a, f := ReadOn(lines, at + 1, s, t, sha, json);
    }
  }

  lemma {:induction false} ReadNext(lines: seq<string>, at: nat, a: nat, f: Framed, s: Snapshots, sha: Sha, json: Json)
    requires NextFrame(lines, at, a, f, sha, json) && InOrder(f.phase, s)
    ensures Read(lines, at, s, Frames(lines, sha, json))
      == Read(lines, f.next, Keep(s, f.phase, f.raw), Frames(lines, sha, json))
  {
    NoiseIsSkipped(lines, at, a, s, Frames(lines, sha, json));
    FrameIsMarked(lines, a, f, sha, json);
    FrameExactly(lines, a, s, f, sha, json);
    assert Frames(lines, sha, json)(a, s) == Ok(f);
  }

  lemma {:induction false} ReadFinal(lines: seq<string>, at: nat, start: Bytes, t: Snapshots, sha: Sha, json: Json)
    requires at <= |lines| && Read(lines, at, Snapshots(Some(start), None), Frames(lines, sha, json)) == Ok(t)
    ensures t.start == Some(start) && SaysAfter(lines, at, t.final, sha, json)
  {
    var s := Snapshots(Some(start), None);
    var b, g := ReadOn(lines, at, s, t, sha, json);
    if g.Some? {
      var c, h := ReadOn(lines, g.value.next, Keep(s, g.value.phase, g.value.raw), t, sha, json);
    }
  }

  lemma {:induction false} FinalIsRead(lines: seq<string>, at: nat, start: Bytes, final: Option<Bytes>, sha: Sha,
                                       json: Json)
    requires SaysAfter(lines, at, final, sha, json)
    ensures Read(lines, at, Snapshots(Some(start), None), Frames(lines, sha, json)) == Ok(Snapshots(Some(start), final))
  {
    var s := Snapshots(Some(start), None);
    if final.None? {
      NoiseIsSkipped(lines, at, |lines|, s, Frames(lines, sha, json));
    } else {
      var b, g :| NextFrame(lines, at, b, g, sha, json) && g.phase == Final && g.raw == final.value
        && Noise(lines, g.next, |lines|);
      ReadNext(lines, at, b, g, s, sha, json);
      NoiseIsSkipped(lines, g.next, |lines|, Snapshots(Some(start), final), Frames(lines, sha, json));
    }
  }

  /** A log is read exactly when that is what it says; in particular a phase out of order or twice refuses it. */
  lemma {:induction false} LogExactly(lines: seq<string>, t: Snapshots, sha: Sha, json: Json)
    ensures Read(lines, 0, NOTHING, Frames(lines, sha, json)) == Ok(t) <==> Says(lines, t, sha, json)
  {
    if Read(lines, 0, NOTHING, Frames(lines, sha, json)) == Ok(t) {
      var a, f := ReadOn(lines, 0, NOTHING, t, sha, json);
      if f.Some? {
        ReadFinal(lines, f.value.next, f.value.raw, t, sha, json);
      }
    }
    if Says(lines, t, sha, json) {
      if t.start.None? {
        NoiseIsSkipped(lines, 0, |lines|, NOTHING, Frames(lines, sha, json));
      } else {
        var a, f :| NextFrame(lines, 0, a, f, sha, json) && f.phase == Start && f.raw == t.start.value
          && SaysAfter(lines, f.next, t.final, sha, json);
        ReadNext(lines, 0, a, f, NOTHING, sha, json);
        FinalIsRead(lines, f.next, f.raw, t.final, sha, json);
      }
    }
  }
}
