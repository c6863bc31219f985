// scripts/playback-frame-clock.js: the optical clock painted into video, and its decoder.
//
// A frame number is painted as forty cells: eight guard bits, twenty-four frame bits and eight
// checksum bits.  The decoder samples the centre column of each cell in a 336 by 4 reduction.
module FrameClockCells {
  import opened Wrappers

  type byte = x: int | 0 <= x < 256

  const GUARD := 211
  const READ_WIDTH := 336
  const READ_HEIGHT := 4
  const CELLS := 40
  const FRAME_LIMIT := 0x100_0000

  function Pow2(n: nat): (p: nat)
    ensures p > 0
  {
    if n == 0 then 1 else 2 * Pow2(n - 1)
  }

  /** Bit `i` of `value`, least significant first. */
  function BitOf(value: nat, i: nat): (bit: nat)
    ensures bit < 2
    decreases i
  {
    if i == 0 then value % 2 else BitOf(value / 2, i - 1)
  }

  // ----- checksum -----

  function Checksum(frame: nat): (sum: byte)
  {
    (frame % 256 + (frame / 256) % 256 * 31 + (frame / 65536) % 256 * 17 + 17) % 256
  }

  /** The expression the video filter evaluates: its top byte is not reduced first. */
  function FilterChecksum(frame: nat): (sum: byte)
  {
    (frame % 256 + (frame / 256) % 256 * 31 + (frame / 65536) * 17 + 17) % 256
  }

  /** Encoder and decoder agree on the checksum of every frame number, not only of 24-bit ones. */
  lemma FilterAgreesOnChecksum(frame: nat)
    ensures FilterChecksum(frame) == Checksum(frame)
  {
    var top := frame / 65536;
    assert top == 256 * (top / 256) + top % 256;
    var low := frame % 256 + (frame / 256) % 256 * 31 + 17;
    AddMultiple(low + (top % 256) * 17, 17 * (top / 256));
  }

  lemma AddMultiple(x: nat, k: nat)
    ensures (x + 256 * k) % 256 == x % 256
  {
  }

  /** 31 and 17 are units modulo 256: multiplying by them never hides a changed byte. */
  lemma UnitsModulo256(d: int, k: int)
    requires -256 < d < 256
    ensures 31 * d == 256 * k ==> d == 0
    ensures 17 * d == 256 * k ==> d == 0
  {
    if 31 * d == 256 * k {
      assert d == 256 * (4 * d - 33 * k);
    }
    if 17 * d == 256 * k {
      assert d == 256 * (241 * k - 16 * d);
    }
  }

  // ----- words and their bits -----

  lemma BitsDetermineWord(x: nat, y: nat, length: nat)
    requires x < Pow2(length) && y < Pow2(length)
    requires forall i: nat :: i < length ==> BitOf(x, i) == BitOf(y, i)
    ensures x == y
    decreases length
  {
    if length > 0 {
      assert BitOf(x, 0) == BitOf(y, 0);
      forall i: nat | i < length - 1
        ensures BitOf(x / 2, i) == BitOf(y / 2, i)
      {
        assert BitOf(x, i + 1) == BitOf(y, i + 1);
      }
      BitsDetermineWord(x / 2, y / 2, length - 1);
    }
  }

  /** Setting the next bit of a word leaves its lower bits alone. */
  lemma {:induction false} AppendBit(word: nat, length: nat, bit: nat, i: nat)
    requires word < Pow2(length) && bit < 2 && i <= length
    ensures BitOf(word + bit * Pow2(length), i) == if i == length then bit else BitOf(word, i)
    ensures word + bit * Pow2(length) < Pow2(length + 1)
    decreases length
  {
    if length > 0 {
      var half := bit * Pow2(length - 1);
      assert bit * Pow2(length) == 2 * half;
      assert (word + 2 * half) / 2 == word / 2 + half;
      if i > 0 {
        AppendBit(word / 2, length - 1, bit, i - 1);
      }
    }
    if bit == 1 { assert bit * Pow2(length) == Pow2(length); } else { assert bit * Pow2(length) == 0; }
  }

  /** The low byte of a number holds its first eight bits; dividing by 256 drops them. */
  lemma ByteBits(value: nat, i: nat)
    ensures i < 8 ==> BitOf(value % 256, i) == BitOf(value, i)
    ensures BitOf(value / 256, i) == BitOf(value, 8 + i)
  {
    if i < 8 {
      LowBits(value, 256, 8, i);
    }
    assert value / 256 == value / 2 / 2 / 2 / 2 / 2 / 2 / 2 / 2;
    var v4 := value / 2 / 2 / 2 / 2;
    assert BitOf(value, 8 + i) == BitOf(value / 2, 7 + i) == BitOf(value / 2 / 2, 6 + i);
    assert BitOf(value / 2 / 2, 6 + i) == BitOf(value / 2 / 2 / 2, 5 + i) == BitOf(v4, 4 + i);
    assert BitOf(v4, 4 + i) == BitOf(v4 / 2, 3 + i) == BitOf(v4 / 2 / 2, 2 + i);
    assert BitOf(v4 / 2 / 2, 2 + i) == BitOf(v4 / 2 / 2 / 2, 1 + i) == BitOf(v4 / 2 / 2 / 2 / 2, i);
  }

  lemma LowBits(value: nat, modulus: nat, length: nat, i: nat)
    requires modulus == Pow2(length) && i < length <= 8
    ensures BitOf(value % modulus, i) == BitOf(value, i)
    decreases length
  {
    var half := Pow2(length - 1);
    var q, r := value / modulus, value % modulus;
    assert value == 2 * (half * q) + r by { assert modulus * q == 2 * (half * q); }
    assert value % 2 == r % 2;
    if i > 0 {
      assert value / 2 == half * q + r / 2;
      QuotientUnique(value / 2, half, q, r / 2);
      LowBits(value / 2, half, length - 1, i - 1);
    }
  }

  lemma QuotientUnique(x: nat, d: nat, q: nat, r: nat)
    requires d > 0 && r < d && x == d * q + r
    ensures x / d == q && x % d == r
  {
    SameQuotient(d, q, r, x / d, x % d);
  }

  lemma SameQuotient(d: nat, q: nat, r: nat, q': int, r': int)
    requires r < d && 0 <= r' < d && d * q + r == d * q' + r'
    ensures q == q' && r == r'
  {
    assert d * (q - q') == r' - r;
    if q > q' {
      Multiple(d, q - q');
    } else if q < q' {
      Multiple(d, q' - q);
    }
  }

  lemma Multiple(d: nat, m: nat)
    requires m >= 1
    ensures d * m >= d
  {
  }

  // ----- the painted picture -----

  /** What cell `cell` of the picture for `frame` shows; the filter's nested conditionals. */
  function CellBit(frame: nat, cell: nat): (bit: nat)
    requires cell < CELLS
  {
    if cell < 8 then BitOf(GUARD, cell)
    else if cell < 32 then BitOf(frame, cell - 8)
    else BitOf(FilterChecksum(frame), cell - 32)
  }

  /** Luma of source column `x` of the 42 column clock: a dark border column on each side. */
  function PaintedLuma(frame: nat, x: nat): nat
  {
    if x < 1 || x >= 41 then 16 else if CellBit(frame, x - 1) == 1 then 235 else 16
  }

  // ----- sampling -----

  ghost predicate WellSized(bytes: seq<byte>) {
    |bytes| == READ_WIDTH * READ_HEIGHT * 3
  }

  function SampleAt(bytes: seq<byte>, x: nat, row: nat, channel: nat): nat
    requires |bytes| == READ_WIDTH * READ_HEIGHT * 3 && x < READ_WIDTH && row < READ_HEIGHT && channel < 3
  {
    bytes[(row * READ_WIDTH + x) * 3 + channel]
  }

  /** The buffer is row after row, each row pixel after pixel, three channels to a pixel. */
  lemma SamplesAreRowMajor(bytes: seq<byte>, x: nat, row: nat, channel: nat)
    requires WellSized(bytes) && x < READ_WIDTH && row < READ_HEIGHT && channel < 3
    ensures var line := bytes[row * |bytes| / READ_HEIGHT..(row + 1) * |bytes| / READ_HEIGHT];
      |line| == 3 * READ_WIDTH && line[3 * x..3 * x + 3][channel] == SampleAt(bytes, x, row, channel)
  {
  }

  /** The 16 pixel border and cells are 8 pixels wide in the reduction. */
  function CentreColumn(cell: nat): nat { 8 + cell * 8 + 4 }

  /** That is halfway across a cell's eight columns. */
  lemma CentreIsMiddle(cell: nat)
    ensures 2 * CentreColumn(cell) == 8 * (cell + 1) + 8 * (cell + 2)
  {
  }

  ghost function RowTotal(bytes: seq<byte>, cell: nat, row: nat): nat
    requires WellSized(bytes) && cell < CELLS && row < READ_HEIGHT
  {
    var x := CentreColumn(cell);
    SampleAt(bytes, x, row, 0) + SampleAt(bytes, x, row, 1) + SampleAt(bytes, x, row, 2)
  }

  /** The twelve bytes of a cell's centre column, summed. */
  ghost function CellTotal(bytes: seq<byte>, cell: nat): nat
    requires WellSized(bytes) && cell < CELLS
  {
    RowTotal(bytes, cell, 0) + RowTotal(bytes, cell, 1) + RowTotal(bytes, cell, 2) + RowTotal(bytes, cell, 3)
  }

  /** A cell that averages at most 60 is dark, at least 195 bright, and anything between unknown. */
  ghost function Reading(bytes: seq<byte>, cell: nat): (r: Option<nat>)
    requires WellSized(bytes) && cell < CELLS
    ensures r.Some? ==> r.value < 2
  {
    var average := CellTotal(bytes, cell) as real / 12.0;
    if average <= 60.0 then Some(0) else if average >= 195.0 then Some(1) else None
  }

  /** All forty readings. */
  ghost function Readings(bytes: seq<byte>): (r: seq<Option<nat>>)
    requires WellSized(bytes)
    ensures |r| == CELLS
  {
    seq(CELLS, cell requires 0 <= cell < CELLS => Reading(bytes, cell))
  }

  /** The pixels show `frame`: every cell reads as the encoder paints it. */
  ghost predicate Shows(bytes: seq<byte>, frame: nat)
    requires WellSized(bytes)
  {
    forall cell: nat :: cell < CELLS ==> Readings(bytes)[cell] == Some(CellBit(frame, cell))
  }

  // ----- decoder -----

  method Bit(bytes: seq<byte>, cell: nat) returns (bit: Option<nat>)
    requires WellSized(bytes) && cell < CELLS
    ensures bit == Readings(bytes)[cell]
  {
    var total: nat := 0;
    var y := 0;
    while y < READ_HEIGHT
      invariant y <= READ_HEIGHT
      invariant y == 0 ==> total == 0
      invariant y == 1 ==> total == RowTotal(bytes, cell, 0)
      invariant y == 2 ==> total == RowTotal(bytes, cell, 0) + RowTotal(bytes, cell, 1)
      invariant y == 3 ==> total == RowTotal(bytes, cell, 0) + RowTotal(bytes, cell, 1) + RowTotal(bytes, cell, 2)
      invariant y == 4 ==> total == CellTotal(bytes, cell)
    {
      var before := total;
      var channel := 0;
      while channel < 3
        invariant channel <= 3
        invariant channel == 0 ==> total == before
        invariant channel == 1 ==> total == before + SampleAt(bytes, CentreColumn(cell), y, 0)
        invariant channel == 2 ==>
          total == before + SampleAt(bytes, CentreColumn(cell), y, 0) + SampleAt(bytes, CentreColumn(cell), y, 1)
        invariant channel == 3 ==> total == before + RowTotal(bytes, cell, y)
      {
        total := total + SampleAt(bytes, CentreColumn(cell), y, channel);
        channel := channel + 1;
      }
      y := y + 1;
    }
    var average := total as real / 12.0;
    bit := if average <= 60.0 then Some(0) else if average >= 195.0 then Some(1) else None;
  }

  /** `word` spells out the cells from `offset` on, or is absent because one of them is uncertain. */
  ghost predicate WordAt(readings: seq<Option<nat>>, offset: nat, length: nat, word: Option<nat>)
    requires offset + length <= |readings|
  {
    match word
    case None => exists cell: nat :: offset <= cell < offset + length && readings[cell].None?
    case Some(value) => value < Pow2(length) && Spells(readings, offset, length, value)
  }

  ghost predicate Spells(readings: seq<Option<nat>>, offset: nat, length: nat, value: nat)
    requires offset + length <= |readings|
  {
    forall cell: nat :: offset <= cell < offset + length ==> readings[cell] == Some(BitOf(value, cell - offset))
  }

  method Word(bytes: seq<byte>, offset: nat, length: nat) returns (word: Option<nat>)
    requires WellSized(bytes) && offset + length <= CELLS
    ensures WordAt(Readings(bytes), offset, length, word)
  {
    var value: nat := 0;
    var i := 0;
    while i < length
      invariant i <= length
      invariant value < Pow2(i)
      invariant Spells(Readings(bytes), offset, i, value)
    {
      var valueBit := Bit(bytes, offset + i);
      if valueBit.None? {
        return None;
      }
      SpellOneMore(Readings(bytes), offset, i, value, valueBit.value);
      value := value + valueBit.value * Pow2(i);
      i := i + 1;
    }
    word := Some(value);
  }

  lemma SpellOneMore(readings: seq<Option<nat>>, offset: nat, i: nat, value: nat, bit: nat)
    requires offset + i < |readings| && bit < 2 && readings[offset + i] == Some(bit)
    requires value < Pow2(i) && Spells(readings, offset, i, value)
    ensures value + bit * Pow2(i) < Pow2(i + 1)
    ensures Spells(readings, offset, i + 1, value + bit * Pow2(i))
  {
    AppendBit(value, i, bit, i);
    forall cell: nat | offset <= cell <= offset + i
      ensures readings[cell] == Some(BitOf(value + bit * Pow2(i), cell - offset))
    {
      AppendBit(value, i, bit, cell - offset);
    }
  }

  /** The frame comes back exactly when all forty cells read as that frame is painted. */
  method DecodeFrameClockRgb(bytes: seq<byte>) returns (frame: Option<nat>)
    ensures !WellSized(bytes) ==> frame.None?
    ensures WellSized(bytes) ==>
      forall f: nat :: frame == Some(f) <==> f < FRAME_LIMIT && Shows(bytes, f)
  {
    if |bytes| != READ_WIDTH * READ_HEIGHT * 3 {
      return None;
    }
    var guard := Word(bytes, 0, 8);
    var value := Word(bytes, 8, 24);
    var checksum := Word(bytes, 32, 8);
    SmallPowers();
    var readings := Readings(bytes);
    forall f: nat | f < FRAME_LIMIT && Shows(bytes, f)
      ensures guard == Some(GUARD) && value == Some(f) && checksum == Some(Checksum(f))
    {
      ShownWords(readings, f, guard, value, checksum);
    }
    if guard != Some(GUARD) || value.None? || checksum != Some(Checksum(value.value)) {
      return None;
    }
    FilterAgreesOnChecksum(value.value);
    assert Shows(bytes, value.value) by {
      assert forall cell: nat :: cell < CELLS ==> readings[cell] == Some(CellBit(value.value, cell));
    }
    frame := value;
  }

  lemma SmallPowers()
    ensures Pow2(8) == 256 && Pow2(24) == FRAME_LIMIT
  {
    assert Pow2(4) == 16;
    assert Pow2(8) == 16 * Pow2(4);
    assert Pow2(12) == 16 * Pow2(8);
    assert Pow2(16) == 16 * Pow2(12);
    assert Pow2(20) == 16 * Pow2(16);
    assert Pow2(24) == 16 * Pow2(20);
  }

  /** The three words read off pixels that show `f`. */
  lemma ShownWords(readings: seq<Option<nat>>, f: nat, guard: Option<nat>, value: Option<nat>, checksum: Option<nat>)
    requires |readings| == CELLS && f < FRAME_LIMIT
    requires forall cell: nat :: cell < CELLS ==> readings[cell] == Some(CellBit(f, cell))
    requires WordAt(readings, 0, 8, guard) && WordAt(readings, 8, 24, value) && WordAt(readings, 32, 8, checksum)
    ensures guard == Some(GUARD) && value == Some(f) && checksum == Some(Checksum(f))
  {
    SmallPowers();
    WordIs(readings, 0, 8, guard, GUARD);
    WordIs(readings, 8, 24, value, f);
    WordIs(readings, 32, 8, checksum, FilterChecksum(f));
    FilterAgreesOnChecksum(f);
  }

  lemma WordIs(readings: seq<Option<nat>>, offset: nat, length: nat, word: Option<nat>, expected: nat)
    requires offset + length <= |readings| && WordAt(readings, offset, length, word)
    requires expected < Pow2(length) && Spells(readings, offset, length, expected)
    ensures word == Some(expected)
  {
    if word.Some? {
      forall i: nat | i < length
        ensures BitOf(word.value, i) == BitOf(expected, i)
      {
        assert readings[offset + i] == Some(BitOf(word.value, offset + i - offset));
        assert readings[offset + i] == Some(BitOf(expected, offset + i - offset));
      }
      BitsDetermineWord(word.value, expected, length);
    }
  }

  // ----- what the decoder is for -----

  /** The twelve bytes of a cell average at most 60 where the picture is dark, at least 195 where it is bright. */
  ghost predicate ClearCell(bytes: seq<byte>, frame: nat, cell: nat)
    requires WellSized(bytes) && cell < CELLS
  {
    if PaintedLuma(frame, CentreColumn(cell) / 8) == 235 then CellTotal(bytes, cell) >= 12 * 195
    else CellTotal(bytes, cell) <= 12 * 60
  }

  /**
   * Decoding inverts painting.  The centre column of a cell in the reduction lies in source column
   * cell + 1, so pixels show a frame exactly when each cell averages to the side of its painted luma.
   */
  lemma PaintedPixelsShowFrame(bytes: seq<byte>, frame: nat)
    requires WellSized(bytes)
    ensures Shows(bytes, frame) <==> forall cell: nat :: cell < CELLS ==> ClearCell(bytes, frame, cell)
  {
    forall cell: nat | cell < CELLS
      ensures ClearCell(bytes, frame, cell) <==> Readings(bytes)[cell] == Some(CellBit(frame, cell))
    {
      PaintedCell(bytes, frame, cell);
    }
  }

  lemma PaintedCell(bytes: seq<byte>, frame: nat, cell: nat)
    requires WellSized(bytes) && cell < CELLS
    ensures ClearCell(bytes, frame, cell) <==> Reading(bytes, cell) == Some(CellBit(frame, cell))
  {
    assert CentreColumn(cell) / 8 == cell + 1;
    assert PaintedLuma(frame, cell + 1) == if CellBit(frame, cell) == 1 then 235 else 16;
    Thresholds(CellTotal(bytes, cell));
  }

  lemma Thresholds(total: nat)
    ensures total as real / 12.0 <= 60.0 <==> total <= 12 * 60
    ensures total as real / 12.0 >= 195.0 <==> total >= 12 * 195
  {
  }

  /** In particular when no single sample crosses the threshold of its painted luma. */
  lemma ClearSamplesShowFrame(bytes: seq<byte>, frame: nat)
    requires WellSized(bytes)
    requires forall x: nat, row: nat, channel: nat {:trigger SampleAt(bytes, x, row, channel)} ::
      x < READ_WIDTH && row < READ_HEIGHT && channel < 3 ==>
        if PaintedLuma(frame, x / 8) == 235 then SampleAt(bytes, x, row, channel) >= 195
        else SampleAt(bytes, x, row, channel) <= 60
    ensures Shows(bytes, frame)
  {
    PaintedPixelsShowFrame(bytes, frame);
  }

  /** The five painted bytes: guard, three frame bytes, checksum. */
  function ByteOfCell(cell: nat): nat { cell / 8 }

  /**
   * Damage confined to the cells of one painted byte is never read as some other frame: as soon as
   * one cell of that byte reads differently, no frame at all is shown.
   */
  lemma OneDamagedByteIsNeverAFrame(bytes: seq<byte>, damaged: seq<byte>, frame: nat, which: nat, other: nat)
    requires WellSized(bytes) && WellSized(damaged)
    requires frame < FRAME_LIMIT && other < FRAME_LIMIT && Shows(bytes, frame)
    requires forall cell: nat :: cell < CELLS && ByteOfCell(cell) != which ==>
      Readings(damaged)[cell] == Readings(bytes)[cell]
    requires exists cell: nat ::
      cell < CELLS && ByteOfCell(cell) == which && Readings(damaged)[cell] != Readings(bytes)[cell]
    ensures !Shows(damaged, other)
  {
    var hit: nat :| hit < CELLS && ByteOfCell(hit) == which && Readings(damaged)[hit] != Readings(bytes)[hit];
    if Shows(damaged, other) {
      assert CellBit(other, hit) != CellBit(frame, hit);
      assert forall cell: nat :: cell < CELLS && ByteOfCell(cell) != which ==>
        CellBit(other, cell) == CellBit(frame, cell);
      SameButOneByte(frame, other, which);
      assert false;
    }
  }

  /** Frames whose pictures agree outside one painted byte are the same frame. */
  lemma {:induction false} SameButOneByte(frame: nat, other: nat, which: nat)
    requires frame < FRAME_LIMIT && other < FRAME_LIMIT && which <= 4
    requires forall cell: nat :: cell < CELLS && ByteOfCell(cell) != which ==>
      CellBit(other, cell) == CellBit(frame, cell)
    ensures frame == other
  {
    SameOtherBytes(frame, other, which);
    if which == 4 {
      SameFrame(frame, other, 4);
    } else {
      FilterAgreesOnChecksum(frame);
      FilterAgreesOnChecksum(other);
      SmallPowers();
      forall i: nat | i < 8
        ensures BitOf(Checksum(frame), i) == BitOf(Checksum(other), i)
      {
        assert CellBit(other, 32 + i) == CellBit(frame, 32 + i);
      }
      BitsDetermineWord(Checksum(frame), Checksum(other), 8);
      ChecksumSeesOneByte(frame, other, which);
    }
  }

  /** Byte `k` of a frame number, numbered as painted: 1, 2, 3. */
  function FrameByte(frame: nat, k: nat): byte
    requires 1 <= k <= 3
  {
    if k == 1 then frame % 256 else if k == 2 then (frame / 256) % 256 else (frame / 65536) % 256
  }

  lemma FrameByteBits(frame: nat, k: nat, i: nat)
    requires 1 <= k <= 3 && i < 8
    ensures BitOf(FrameByte(frame, k), i) == BitOf(frame, 8 * (k - 1) + i)
  {
    ByteBits(frame, i);
    ByteBits(frame / 256, i);
    ByteBits(frame / 65536, i);
    ByteBits(frame, 8 + i);
    assert frame / 256 / 256 == frame / 65536;
  }

  lemma SameOtherBytes(frame: nat, other: nat, which: nat)
    requires which <= 4
    requires forall cell: nat :: cell < CELLS && ByteOfCell(cell) != which ==>
      CellBit(other, cell) == CellBit(frame, cell)
    ensures forall k :: 1 <= k <= 3 && k != which ==> FrameByte(frame, k) == FrameByte(other, k)
  {
    forall k | 1 <= k <= 3 && k != which
      ensures FrameByte(frame, k) == FrameByte(other, k)
    {
      SmallPowers();
      forall i: nat | i < 8
        ensures BitOf(FrameByte(frame, k), i) == BitOf(FrameByte(other, k), i)
      {
        FrameByteBits(frame, k, i);
        FrameByteBits(other, k, i);
        var cell := 8 * k + i;
        assert ByteOfCell(cell) == k;
        assert CellBit(other, cell) == CellBit(frame, cell);
      }
      BitsDetermineWord(FrameByte(frame, k), FrameByte(other, k), 8);
    }
  }

  lemma SameFrame(frame: nat, other: nat, which: nat)
    requires frame < FRAME_LIMIT && other < FRAME_LIMIT && (which == 0 || which == 4)
    requires forall cell: nat :: cell < CELLS && ByteOfCell(cell) != which ==>
      CellBit(other, cell) == CellBit(frame, cell)
    ensures frame == other
  {
    SameOtherBytes(frame, other, which);
    assert FrameByte(frame, 1) == FrameByte(other, 1);
    assert FrameByte(frame, 2) == FrameByte(other, 2);
    assert FrameByte(frame, 3) == FrameByte(other, 3);
    JoinBytes(frame);
    JoinBytes(other);
  }

  /** Bytes whose weighted sums agree are the same when two of the three are. */
  lemma {:induction false} SameSum(a1: byte, a2: byte, a3: byte, b1: byte, b2: byte, b3: byte)
    requires (a1 + a2 * 31 + a3 * 17 + 17) % 256 == (b1 + b2 * 31 + b3 * 17 + 17) % 256
    requires (a2 == b2 && a3 == b3) || (a1 == b1 && a3 == b3) || (a1 == b1 && a2 == b2)
    ensures a1 == b1 && a2 == b2 && a3 == b3
  {
    var k := ChecksumDifference(a1 + a2 * 31 + a3 * 17 + 17, b1 + b2 * 31 + b3 * 17 + 17);
    UnitsModulo256(a2 - b2, k);
    UnitsModulo256(a3 - b3, k);
  }

  lemma {:induction false} ChecksumOfBytes(frame: nat)
    ensures Checksum(frame) == (FrameByte(frame, 1) + FrameByte(frame, 2) * 31 + FrameByte(frame, 3) * 17 + 17) % 256
  {
  }

  /** Two frames that differ in at most one byte and share a checksum are the same frame. */
  lemma ChecksumSeesOneByte(frame: nat, other: nat, which: nat)
    requires frame < FRAME_LIMIT && other < FRAME_LIMIT && which <= 4
    requires forall k :: 1 <= k <= 3 && k != which ==> FrameByte(frame, k) == FrameByte(other, k)
    requires Checksum(frame) == Checksum(other)
    ensures frame == other
  {
    ChecksumOfBytes(frame);
    ChecksumOfBytes(other);
    SameSum(FrameByte(frame, 1), FrameByte(frame, 2), FrameByte(frame, 3),
            FrameByte(other, 1), FrameByte(other, 2), FrameByte(other, 3));
    JoinBytes(frame);
    JoinBytes(other);
  }

  lemma ChecksumDifference(s: nat, t: nat) returns (k: int)
    requires s % 256 == t % 256
    ensures s - t == 256 * k
  {
    k := s / 256 - t / 256;
  }

  lemma JoinBytes(frame: nat)
    requires frame < FRAME_LIMIT
    ensures frame == FrameByte(frame, 1) as int + 256 * FrameByte(frame, 2) as int + 65536 * FrameByte(frame, 3) as int
  {
    assert frame / 65536 == frame / 256 / 256;
  }
}
