// Base 64 as section 4 of RFC 4648 defines it, with the strict decoding Python does when asked to validate.
module Base64 {
  import opened Wrappers

  type Byte = n: nat | n < 256
  type Sextet = n: nat | n < 64

  function Letter(v: Sextet): char {
    if v < 26 then ('A' as int + v) as char
    else if v < 52 then ('a' as int + (v - 26)) as char
    else if v < 62 then ('0' as int + (v - 52)) as char
    else if v == 62 then '+' else '/'
  }

  function Value(c: char): Option<Sextet> {
    if 'A' <= c <= 'Z' then Some(c as int - 'A' as int)
    else if 'a' <= c <= 'z' then Some(c as int - 'a' as int + 26)
    else if '0' <= c <= '9' then Some(c as int - '0' as int + 52)
    else if c == '+' then Some(62) else if c == '/' then Some(63) else None
  }

  const PAD := '='

  /** The characters that can occur in an encoding. */
  predicate Alphabet(c: char) { Value(c).Some? || c == PAD }

  lemma {:induction false} LetterHasValue(v: Sextet)
    ensures Value(Letter(v)) == Some(v) && Letter(v) != PAD
  {
  }

  /** Three bytes as four letters. */
  function Quad(a: Byte, b: Byte, c: Byte): string {
    [Letter(a / 4), Letter(a % 4 * 16 + b / 16), Letter(b % 16 * 4 + c / 64), Letter(c % 64)]
  }

  function Encode(bytes: seq<Byte>): (s: string)
    ensures forall k :: 0 <= k < |s| ==> Alphabet(s[k])
    ensures |s| == (|bytes| + 2) / 3 * 4
  {
    if bytes == [] then ""
    else if |bytes| == 1 then Quad(bytes[0], 0, 0)[..2] + [PAD, PAD]
    else if |bytes| == 2 then Quad(bytes[0], bytes[1], 0)[..3] + [PAD]
    else Quad(bytes[0], bytes[1], bytes[2]) + Encode(bytes[3..])
  }

  /** The bytes that four letters stand for. */
  function Triple(p: Sextet, q: Sextet, r: Sextet, s: Sextet): seq<Byte> {
    [p * 4 + q / 16, q % 16 * 16 + r / 4, r % 4 * 64 + s]
  }

  /** Padding may only end the text, and nothing outside the alphabet is skipped. */
  function Decode(text: string): Option<seq<Byte>> {
    if text == "" then Some([])
    else if |text| < 4 || Value(text[0]).None? || Value(text[1]).None? then None
    else
      var p, q := Value(text[0]).value, Value(text[1]).value;
      if text[2] == PAD then
        if text[3] == PAD && |text| == 4 then Some(Triple(p, q, 0, 0)[..1]) else None
      else if Value(text[2]).None? then None
      else if text[3] == PAD then
        if |text| == 4 then Some(Triple(p, q, Value(text[2]).value, 0)[..2]) else None
      else if Value(text[3]).None? || Decode(text[4..]).None? then None
      else Some(Triple(p, q, Value(text[2]).value, Value(text[3]).value) + Decode(text[4..]).value)
  }

  lemma {:induction false} QuadTriple(a: Byte, b: Byte, c: Byte)
    ensures Triple(a / 4, a % 4 * 16 + b / 16, b % 16 * 4 + c / 64, c % 64) == [a, b, c]
  {
  }

  lemma {:induction false} QuadValues(a: Byte, b: Byte, c: Byte)
    ensures Value(Quad(a, b, c)[0]) == Some(a / 4) && Value(Quad(a, b, c)[1]) == Some(a % 4 * 16 + b / 16)
    ensures Value(Quad(a, b, c)[2]) == Some(b % 16 * 4 + c / 64) && Value(Quad(a, b, c)[3]) == Some(c % 64)
    ensures forall k :: 0 <= k < 4 ==> Quad(a, b, c)[k] != PAD
  {
    LetterHasValue(a / 4);
    LetterHasValue(a % 4 * 16 + b / 16);
    LetterHasValue(b % 16 * 4 + c / 64);
    LetterHasValue(c % 64);
  }

  lemma {:induction false} DecodeFull(a: Byte, b: Byte, c: Byte, rest: string)
    ensures Decode(Quad(a, b, c) + rest) == if Decode(rest).None? then None else Some([a, b, c] + Decode(rest).value)
  {
    QuadValues(a, b, c);
    QuadTriple(a, b, c);
    var text := Quad(a, b, c) + rest;
    assert text[4..] == rest;
    assert text[0] == Quad(a, b, c)[0] && text[1] == Quad(a, b, c)[1];
    assert text[2] == Quad(a, b, c)[2] && text[3] == Quad(a, b, c)[3];
  }

  lemma {:induction false} DecodeTwo(a: Byte, b: Byte)
    ensures Decode(Quad(a, b, 0)[..3] + [PAD]) == Some([a, b])
  {
    QuadValues(a, b, 0);
    QuadTriple(a, b, 0);
    var text := Quad(a, b, 0)[..3] + [PAD];
    assert text[0] == Quad(a, b, 0)[0] && text[1] == Quad(a, b, 0)[1] && text[2] == Quad(a, b, 0)[2];
    assert Triple(a / 4, a % 4 * 16 + b / 16, b % 16 * 4, 0)[..2] == [a, b];
  }

  lemma {:induction false} DecodeOne(a: Byte)
    ensures Decode(Quad(a, 0, 0)[..2] + [PAD, PAD]) == Some([a])
  {
    QuadValues(a, 0, 0);
    QuadTriple(a, 0, 0);
    var text := Quad(a, 0, 0)[..2] + [PAD, PAD];
    assert text[0] == Quad(a, 0, 0)[0] && text[1] == Quad(a, 0, 0)[1];
    assert Triple(a / 4, a % 4 * 16, 0, 0)[..1] == [a];
  }

  /** Decoding undoes encoding, for every byte string. */
  lemma {:induction false} DecodeEncode(bytes: seq<Byte>)
    ensures Decode(Encode(bytes)) == Some(bytes)
    decreases |bytes|, 1
  {
    if |bytes| == 0 {
    } else if |bytes| == 1 {
      assert Encode(bytes) == Quad(bytes[0], 0, 0)[..2] + [PAD, PAD];
      DecodeOne(bytes[0]);
      assert bytes == [bytes[0]];
    } else if |bytes| == 2 {
      assert Encode(bytes) == Quad(bytes[0], bytes[1], 0)[..3] + [PAD];
      DecodeTwo(bytes[0], bytes[1]);
      assert bytes == [bytes[0], bytes[1]];
    } else {
      DecodeEncodeMore(bytes, Encode(bytes[3..]));
    }
  }

  lemma {:induction false} DecodeEncodeMore(bytes: seq<Byte>, rest: string)
    requires |bytes| > 2 && rest == Encode(bytes[3..])
    ensures Decode(Encode(bytes)) == Some(bytes)
    decreases |bytes|, 0
  {
    var a, b, c := bytes[0], bytes[1], bytes[2];
    assert Encode(bytes) == Quad(a, b, c) + rest;
    DecodeEncode(bytes[3..]);
    DecodeFull(a, b, c, rest);
    assert bytes == [a, b, c] + bytes[3..];
  }

  /** A character stands for a sextet only as its own letter. */
  lemma {:induction false} ValueHasLetter(c: char, v: Sextet)
    ensures Value(c) == Some(v) <==> c == Letter(v)
  {
  }

  /** Whole groups of four letters, the last of them ending in no more than two padding characters. */
  ghost predicate Padded(text: string, pads: nat) {
    && pads <= 2 && pads <= |text| && |text| % 4 == 0
    && (forall k :: 0 <= k < |text| - pads ==> Value(text[k]).Some?)
    && (forall k :: |text| - pads <= k < |text| ==> text[k] == PAD)
  }

  lemma {:induction false} PaddedTail(text: string, pads: nat)
    requires |text| >= 4 && forall k :: 0 <= k < 4 ==> Value(text[k]).Some?
    ensures Padded(text, pads) <==> Padded(text[4..], pads)
  {
    var rest := text[4..];
    assert Value(text[0]).Some? && Value(text[1]).Some? && Value(text[2]).Some? && Value(text[3]).Some?;
    assert forall k :: 4 <= k < |text| ==> text[k] == rest[k - 4];
    if Padded(rest, pads) {
      assert forall k :: 0 <= k < |rest| ==> rest[k] == text[k + 4];
    }
  }

  /** Decoding accepts exactly the padded texts. */
  lemma {:induction false} DecodeAcceptsPadded(text: string)
    ensures Decode(text).Some? <==> exists pads: nat :: Padded(text, pads)
    decreases |text|
  {
    if text == "" {
      assert Padded(text, 0);
    } else if |text| >= 4 && forall k :: 0 <= k < 4 ==> Value(text[k]).Some? {
      DecodeAcceptsPadded(text[4..]);
      forall pads: nat
        ensures Padded(text, pads) <==> Padded(text[4..], pads)
      {
        PaddedTail(text, pads);
      }
    } else if Decode(text).Some? {
      assert Padded(text, if text[2] == PAD then 2 else 1);
    }
  }
}
