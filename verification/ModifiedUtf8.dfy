// validation/jvm_unit_discovery.py, `modified_utf8`, against section 4.4.7 of the Java Virtual Machine
// Specification.
module ModifiedUtf8 {
  import opened Wrappers
  import opened Base64

  /** A UTF-16 code unit and a Unicode code point, surrogates included. */
  type Unit = n: nat | n < 0x10000
  type Point = n: nat | n < 0x110000

  // ----- the encoding of section 4.4.7 -----

  /** One code unit in one, two or three bytes; zero takes two. */
  function EncodeUnit(u: Unit): seq<Byte> {
    if 0 < u < 0x80 then [u]
    else if u < 0x800 then [0xC0 + u / 0x40, 0x80 + u % 0x40]
    else [0xE0 + u / 0x1000, 0x80 + u / 0x40 % 0x40, 0x80 + u % 0x40]
  }

  function Encode(units: seq<Unit>): seq<Byte> {
    if units == [] then [] else EncodeUnit(units[0]) + Encode(units[1..])
  }

  // ----- what Python does -----

  /** `replace(b'\xc0\x80', b'\x00')`. */
  function ReplaceZero(raw: seq<Byte>): seq<Byte> {
    if raw == [] then []
    else if |raw| >= 2 && raw[0] == 0xC0 && raw[1] == 0x80 then [0] + ReplaceZero(raw[2..])
    else [raw[0]] + ReplaceZero(raw[1..])
  }

  predicate Continues(b: Byte) { 0x80 <= b < 0xC0 }

  /** How many bytes a UTF-8 sequence has, by its first byte; zero when none begins so. */
  function Width(b: Byte): nat {
    if b < 0x80 then 1
    else if 0xC2 <= b < 0xE0 then 2
    else if 0xE0 <= b < 0xF0 then 3
    else if 0xF0 <= b < 0xF5 then 4
    else 0
  }

  function Low(b: Byte): nat { b % 0x40 }

  /** The code point of a sequence; `None` for overlong forms and beyond the last code point. */
  function Decoded(s: seq<Byte>): Option<Point>
    requires 1 <= |s| <= 4
  {
    if |s| == 1 then Some(s[0])
    else if !(forall k :: 1 <= k < |s| ==> Continues(s[k])) then None
    else if |s| == 2 then Some(s[0] % 0x20 * 0x40 + Low(s[1]))
    else if |s| == 3 then
      var p := s[0] % 0x10 * 0x1000 + Low(s[1]) * 0x40 + Low(s[2]);
      if p < 0x800 then None else Some(p)
    else
      var p := s[0] % 0x08 * 0x40000 + Low(s[1]) * 0x1000 + Low(s[2]) * 0x40 + Low(s[3]);
      if p < 0x10000 || p >= 0x110000 then None else Some(p)
  }

  /** `decode('utf-8', errors='surrogatepass')`: surrogates pass as code points of their own. */
  function DecodeUtf8(s: seq<Byte>): Option<seq<Point>> {
    if s == [] then Some([])
    else
      var n := Width(s[0]);
      if n == 0 || n > |s| || Decoded(s[..n]).None? then None
      else
        var rest := DecodeUtf8(s[n..]);
        if rest.None? then None else Some([Decoded(s[..n]).value] + rest.value)
  }

  predicate High(u: nat) { 0xD800 <= u < 0xDC00 }

  predicate Trailing(u: nat) { 0xDC00 <= u < 0xE000 }

  /** One code point in UTF-16. */
  function UnitsOf(p: Point): seq<Unit> {
    if p < 0x10000 then [p]
    else
      var above: nat := p - 0x10000;
      [0xD800 + above / 0x400, 0xDC00 + above % 0x400]
  }

  /** `encode('utf-16-le', errors='surrogatepass')`, in code units. */
  function ToUnits(points: seq<Point>): seq<Unit> {
    if points == [] then [] else UnitsOf(points[0]) + ToUnits(points[1..])
  }

  /** The code point that a high and a trailing surrogate make. */
  function Pair(high: nat, trailing: nat): Point
    requires High(high) && Trailing(trailing)
  {
    0x10000 + (high - 0xD800) * 0x400 + (trailing - 0xDC00)
  }

  /** `decode('utf-16-le', errors='surrogatepass')`: pairs become one code point, the rest stays. */
  function ToPoints(units: seq<Unit>): seq<Point> {
    if units == [] then []
    else if |units| >= 2 && High(units[0]) && Trailing(units[1]) then
      [Pair(units[0], units[1])] + ToPoints(units[2..])
    else [units[0]] + ToPoints(units[1..])
  }

  /** `modified_utf8`. */
  function Text(raw: seq<Byte>): Option<seq<Point>> {
    var points := DecodeUtf8(ReplaceZero(raw));
    if points.None? then None else Some(ToPoints(ToUnits(points.value)))
  }

  // ----- it undoes the encoding -----

  /** The same encoding with zero as itself: ordinary UTF-8, surrogates passed. */
  function PlainUnit(u: Unit): seq<Byte> { if u == 0 then [0] else EncodeUnit(u) }

  function Plain(units: seq<Unit>): seq<Byte> {
    if units == [] then [] else PlainUnit(units[0]) + Plain(units[1..])
  }

  /** A byte that is not 0xC0 stays, whatever follows. */
  lemma {:induction false} KeepOne(b: Byte, rest: seq<Byte>)
    requires b != 0xC0
    ensures ReplaceZero([b] + rest) == [b] + ReplaceZero(rest)
  {
    assert ([b] + rest)[1..] == rest;
  }

  lemma {:induction false} ReplaceUnit(u: Unit, rest: seq<Byte>)
    ensures ReplaceZero(EncodeUnit(u) + rest) == PlainUnit(u) + ReplaceZero(rest)
  {
    var s := EncodeUnit(u);
    if u == 0 {
      assert (s + rest)[2..] == rest;
    } else if u < 0x80 {
      KeepOne(s[0], rest);
    } else if u < 0x800 {
      KeepOne(s[1], rest);
      KeepOne(s[0], [s[1]] + rest);
      assert s + rest == [s[0]] + ([s[1]] + rest);
    } else {
      KeepOne(s[2], rest);
      KeepOne(s[1], [s[2]] + rest);
      KeepOne(s[0], [s[1]] + ([s[2]] + rest));
      assert s + rest == [s[0]] + ([s[1]] + ([s[2]] + rest));
    }
  }

  lemma {:induction false} ReplaceEncoded(units: seq<Unit>)
    ensures ReplaceZero(Encode(units)) == Plain(units)
  {
    if units != [] {
      ReplaceUnit(units[0], Encode(units[1..]));
      ReplaceEncoded(units[1..]);
    }
  }

  lemma {:induction false} DecodeUnit(u: Unit)
    ensures var s := PlainUnit(u); 1 <= |s| <= 3 && Width(s[0]) == |s| && Decoded(s) == Some(u)
  {
    if 0x80 <= u < 0x800 {
      assert (0xC0 + u / 0x40) % 0x20 == u / 0x40 && (0x80 + u % 0x40) % 0x40 == u % 0x40;
    } else if u >= 0x800 {
      var x, y, z := u / 0x1000, u / 0x40 % 0x40, u % 0x40;
      assert (0xE0 + x) % 0x10 == x && (0x80 + y) % 0x40 == y && (0x80 + z) % 0x40 == z;
      Above(u);
      assert u == u / 0x40 * 0x40 + z && u / 0x40 == x * 0x40 + y;
    }
  }

  lemma {:induction false} DecodePlain(units: seq<Unit>)
    ensures DecodeUtf8(Plain(units)) == Some(units)
  {
    if units != [] {
      DecodePlain(units[1..]);
      DecodeNext(units[0], Plain(units[1..]), units[1..]);
      assert units == [units[0]] + units[1..];
    }
  }

  lemma {:induction false} DecodeNext(u: Unit, s: seq<Byte>, points: seq<Point>)
    requires DecodeUtf8(s) == Some(points)
    ensures DecodeUtf8(PlainUnit(u) + s) == Some([u] + points)
  {
    var p := PlainUnit(u);
    DecodeUnit(u);
    assert (p + s)[..|p|] == p && (p + s)[|p|..] == s && (p + s)[0] == p[0];
  }

  lemma {:induction false} UnitsStay(units: seq<Unit>)
    ensures ToUnits(units) == units
  {
    if units != [] {
      UnitsStay(units[1..]);
      assert units == [units[0]] + units[1..];
    }
  }

  /** Joining surrogate pairs loses nothing: the units can be had back. */
  lemma {:induction false} PairsSplitAgain(units: seq<Unit>)
    ensures ToUnits(ToPoints(units)) == units
    decreases |units|
  {
    if units == [] {
    } else if |units| >= 2 && High(units[0]) && Trailing(units[1]) {
      PairsSplitAgain(units[2..]);
      var p := Pair(units[0], units[1]);
      var above: nat := p - 0x10000;
      assert above / 0x400 == units[0] - 0xD800 && above % 0x400 == units[1] - 0xDC00;
      assert UnitsOf(p) == [units[0], units[1]];
      assert ToPoints(units) == [p] + ToPoints(units[2..]);
      assert ToPoints(units)[1..] == ToPoints(units[2..]);
      assert units == [units[0], units[1]] + units[2..];
    } else {
      PairsSplitAgain(units[1..]);
      assert ToPoints(units)[1..] == ToPoints(units[1..]);
      assert units == [units[0]] + units[1..];
    }
  }

  /** For every string of UTF-16 code units, zeros and lone surrogates included, decoding undoes the encoding. */
  lemma {:induction false} TextUndoesEncode(units: seq<Unit>)
    ensures Text(Encode(units)).Some?
    ensures Text(Encode(units)).value == ToPoints(units) && ToUnits(Text(Encode(units)).value) == units
  {
    ReplaceEncoded(units);
    DecodePlain(units);
    UnitsStay(units);
    PairsSplitAgain(units);
  }

  // ----- exactly what the decoder takes -----

  /** UTF-8, with surrogates encoded like any other point. */
  function Utf8(p: Point): seq<Byte> {
    if p < 0x80 then [p]
    else if p < 0x800 then [0xC0 + p / 0x40, 0x80 + p % 0x40]
    else if p < 0x10000 then [0xE0 + p / 0x1000, 0x80 + p / 0x40 % 0x40, 0x80 + p % 0x40]
    else [0xF0 + p / 0x40000, 0x80 + p / 0x1000 % 0x40, 0x80 + p / 0x40 % 0x40, 0x80 + p % 0x40]
  }

  /** Points one after the other, each encoded by `encode`; `Utf8` in what follows. */
  function EncodeAll(encode: Point -> seq<Byte>, points: seq<Point>): seq<Byte> {
    if points == [] then [] else encode(points[0]) + EncodeAll(encode, points[1..])
  }

  lemma {:induction false} DecodesOwn(p: Point)
    ensures var s := Utf8(p); 1 <= |s| <= 4 && Width(s[0]) == |s| && Decoded(s) == Some(p)
  {
    if p >= 0x10000 {
      var a, b, c, d := p / 0x40000, p / 0x1000 % 0x40, p / 0x40 % 0x40, p % 0x40;
      LowBits(0xF0 + a, 0x80 + b, 0x80 + c, 0x80 + d);
      Above(p);
      assert p == p / 0x40 * 0x40 + d && p / 0x40 == p / 0x1000 * 0x40 + c && p / 0x1000 == a * 0x40 + b;
    } else if p >= 0x80 {
      DecodeUnit(p);
    }
  }

  lemma {:induction false} TwoBytes(a: Byte, b: Byte, p: Point)
    requires Width(a) == 2 && Continues(b) && p == a % 0x20 * 0x40 + Low(b)
    ensures Utf8(p) == [a, b]
  {
    assert a % 0x20 == a - 0xC0 && Low(b) == b - 0x80;
  }

  lemma {:induction false} ThreeBytes(a: Byte, b: Byte, c: Byte, p: Point)
    requires Width(a) == 3 && Continues(b) && Continues(c) && p >= 0x800
    requires p == a % 0x10 * 0x1000 + Low(b) * 0x40 + Low(c)
    ensures Utf8(p) == [a, b, c]
  {
    assert a % 0x10 == a - 0xE0 && Low(b) == b - 0x80 && Low(c) == c - 0x80;
    ThreeDigits(a - 0xE0, Low(b), Low(c));
  }

  lemma {:induction false} FourBytes(a: Byte, b: Byte, c: Byte, d: Byte, p: Point)
    requires Width(a) == 4 && Continues(b) && Continues(c) && Continues(d) && p >= 0x10000
    requires p == a % 0x08 * 0x40000 + Low(b) * 0x1000 + Low(c) * 0x40 + Low(d)
    ensures Utf8(p) == [a, b, c, d]
  {
    var x, y, z, w := a - 0xF0, b - 0x80, c - 0x80, d - 0x80;
    LowBits(a, b, c, d);
    assert p == x * 0x40000 + y * 0x1000 + z * 0x40 + w;
    FourDigits(x, y, z, w);
  }

  lemma {:induction false} LowBits(a: Byte, b: Byte, c: Byte, d: Byte)
    ensures Width(a) == 4 ==> a % 0x08 == a - 0xF0
    ensures (Continues(b) ==> Low(b) == b - 0x80) && (Continues(c) ==> Low(c) == c - 0x80)
    ensures Continues(d) ==> Low(d) == d - 0x80
  {
  }

  /** A sequence that decodes to a point is the point's UTF-8. */
  lemma {:induction false} DecodedIsUtf8(s: seq<Byte>, p: Point)
    requires 1 <= |s| <= 4 && Width(s[0]) == |s| && Decoded(s) == Some(p)
    ensures s == Utf8(p)
  {
    assert forall k :: 1 <= k < |s| ==> Continues(s[k]);
    if |s| == 2 {
      TwoBytes(s[0], s[1], p);
    } else if |s| == 3 {
      ThreeBytes(s[0], s[1], s[2], p);
    } else if |s| == 4 {
      FourBytes(s[0], s[1], s[2], s[3], p);
    }
  }

  /** The lowest digit to base 64, and what is above it. */
  lemma {:induction false} LastDigit(q: nat, d: nat)
    requires d < 0x40
    ensures (q * 0x40 + d) / 0x40 == q && (q * 0x40 + d) % 0x40 == d
  {
  }

  lemma {:induction false} Above(p: nat)
    ensures p / 0x1000 == p / 0x40 / 0x40 && p / 0x40000 == p / 0x1000 / 0x40
  {
  }

  lemma {:induction false} ThreeDigits(a: nat, b: nat, c: nat)
    requires b < 0x40 && c < 0x40
    ensures var p := a * 0x1000 + b * 0x40 + c; p / 0x1000 == a && p / 0x40 % 0x40 == b && p % 0x40 == c
  {
    LastDigit(a * 0x40 + b, c);
    LastDigit(a, b);
    Above(a * 0x1000 + b * 0x40 + c);
    assert a * 0x1000 + b * 0x40 + c == (a * 0x40 + b) * 0x40 + c;
  }

  lemma {:induction false} FourDigits(a: nat, b: nat, c: nat, d: nat)
    requires b < 0x40 && c < 0x40 && d < 0x40
    ensures var p := a * 0x40000 + b * 0x1000 + c * 0x40 + d;
      p / 0x40000 == a && p / 0x1000 % 0x40 == b && p / 0x40 % 0x40 == c && p % 0x40 == d
  {
    var q := a * 0x1000 + b * 0x40 + c;
    LastDigit(q, d);
    ThreeDigits(a, b, c);
    Above(q * 0x40 + d);
    Above(q);
    assert a * 0x40000 + b * 0x1000 + c * 0x40 + d == q * 0x40 + d;
  }

  /** One sequence at the front of a text. */
  lemma {:induction false} DecodeFront(s: seq<Byte>, rest: seq<Byte>, p: Point)
    requires 1 <= |s| <= 4 && Width(s[0]) == |s| && Decoded(s) == Some(p)
    ensures DecodeUtf8(s + rest) ==
      if DecodeUtf8(rest).None? then None else Some([p] + DecodeUtf8(rest).value)
  {
    assert (s + rest)[..|s|] == s && (s + rest)[|s|..] == rest && (s + rest)[0] == s[0];
  }

  lemma {:induction false} FrontOf(s: seq<Byte>) returns (n: nat, p: Point)
    requires s != [] && DecodeUtf8(s).Some?
    ensures 1 <= n <= |s| && n <= 4 && Width(s[0]) == n && Decoded(s[..n]) == Some(p)
    ensures DecodeUtf8(s[n..]).Some? && DecodeUtf8(s).value == [p] + DecodeUtf8(s[n..]).value
  {
    n := Width(s[0]);
    p := Decoded(s[..n]).value;
  }

  /** A sequence that decodes to a point is what `encode` makes of it. */
  ghost predicate Inverts(encode: Point -> seq<Byte>) {
    forall s: seq<Byte>, p: Point {:trigger Decoded(s), encode(p)} ::
      1 <= |s| <= 4 && Width(s[0]) == |s| && Decoded(s) == Some(p) ==> s == encode(p)
  }

  lemma {:induction false} DecodesToPoints(encode: Point -> seq<Byte>, s: seq<Byte>)
    requires Inverts(encode) && DecodeUtf8(s).Some?
    ensures s == EncodeAll(encode, DecodeUtf8(s).value)
    decreases |s|
  {
    if s != [] {
      var n, p := FrontOf(s);
      assert s[..n] == encode(p);
      DecodesToPoints(encode, s[n..]);
      PutFirst(encode, p, DecodeUtf8(s[n..]).value);
      assert s == s[..n] + s[n..];
    }
  }

  lemma {:induction false} PutFirst(encode: Point -> seq<Byte>, p: Point, points: seq<Point>)
    ensures EncodeAll(encode, [p] + points) == encode(p) + EncodeAll(encode, points)
  {
    assert ([p] + points)[1..] == points;
  }

  lemma {:induction false} PointsDecode(points: seq<Point>)
    ensures DecodeUtf8(EncodeAll(Utf8, points)) == Some(points)
  {
    if points != [] {
      DecodesOwn(points[0]);
      PointsDecode(points[1..]);
      DecodeFront(Utf8(points[0]), EncodeAll(Utf8, points[1..]), points[0]);
      assert points == [points[0]] + points[1..];
    }
  }

  /** Bytes are decoded exactly when they are the UTF-8 of points: no overlong form, nothing beyond the last one. */
  lemma {:induction false} DecodesExactly(s: seq<Byte>, points: seq<Point>)
    ensures DecodeUtf8(s) == Some(points) <==> s == EncodeAll(Utf8, points)
  {
    forall t: seq<Byte>, p: Point | 1 <= |t| <= 4 && Width(t[0]) == |t| && Decoded(t) == Some(p)
      ensures t == Utf8(p)
    {
      DecodedIsUtf8(t, p);
    }
    if DecodeUtf8(s) == Some(points) { DecodesToPoints(Utf8, s); }
    PointsDecode(points);
  }
}
