// scripts/continuous-sha256.c, `compress`, against the hash computation of section 6.2.2 of FIPS 180-4.
module Sha256 {
  type Word = bv32
  type Byte = bv8

  newtype U32 = x: int | 0 <= x < 0x1_0000_0000

  /** Section 4.2.2 of FIPS 180-4. */
  const K: seq<Word> := [
    0x428a2f98, 0x71374491, 0xb5c0fbcf, 0xe9b5dba5, 0x3956c25b, 0x59f111f1, 0x923f82a4, 0xab1c5ed5,
    0xd807aa98, 0x12835b01, 0x243185be, 0x550c7dc3, 0x72be5d74, 0x80deb1fe, 0x9bdc06a7, 0xc19bf174,
    0xe49b69c1, 0xefbe4786, 0x0fc19dc6, 0x240ca1cc, 0x2de92c6f, 0x4a7484aa, 0x5cb0a9dc, 0x76f988da,
    0x983e5152, 0xa831c66d, 0xb00327c8, 0xbf597fc7, 0xc6e00bf3, 0xd5a79147, 0x06ca6351, 0x14292967,
    0x27b70a85, 0x2e1b2138, 0x4d2c6dfc, 0x53380d13, 0x650a7354, 0x766a0abb, 0x81c2c92e, 0x92722c85,
    0xa2bfe8a1, 0xa81a664b, 0xc24b8b70, 0xc76c51a3, 0xd192e819, 0xd6990624, 0xf40e3585, 0x106aa070,
    0x19a4c116, 0x1e376c08, 0x2748774c, 0x34b0bcb5, 0x391c0cb3, 0x4ed8aa4a, 0x5b9cca4f, 0x682e6ff3,
    0x748f82ee, 0x78a5636f, 0x84c87814, 0x8cc70208, 0x90befffa, 0xa4506ceb, 0xbef9a3f7, 0xc67178f2]

  // ----- section 4.1.2: the functions on words -----

  function Rotr(x: Word, n: nat): Word
    requires 0 < n < 32
  {
    (x >> n) | (x << (32 - n))
  }

  function Ch(x: Word, y: Word, z: Word): Word { (x & y) ^ (!x & z) }

  function Maj(x: Word, y: Word, z: Word): Word { (x & y) ^ (x & z) ^ (y & z) }

  function BigSigma0(x: Word): Word { Rotr(x, 2) ^ Rotr(x, 13) ^ Rotr(x, 22) }

  function BigSigma1(x: Word): Word { Rotr(x, 6) ^ Rotr(x, 11) ^ Rotr(x, 25) }

  function SmallSigma0(x: Word): Word { Rotr(x, 7) ^ Rotr(x, 18) ^ (x >> 3) }

  function SmallSigma1(x: Word): Word { Rotr(x, 17) ^ Rotr(x, 19) ^ (x >> 10) }

  /** A word of the message, its first byte the most significant. */
  function BigEndian(a: Byte, b: Byte, c: Byte, d: Byte): Word {
    ((a as Word) << 24) | ((b as Word) << 16) | ((c as Word) << 8) | (d as Word)
  }

  /** The four terms of a schedule word, added as the program adds them and as the standard does. */
  function ScheduleSum(w16: Word, s0: Word, w7: Word, s1: Word): (sum: Word)
    ensures sum == s1 + w7 + s0 + w16
  {
    w16 + s0 + w7 + s1
  }

  /** What the computation does with words; the loops below hold for any such operations. */
  datatype Arithmetic = Arithmetic(
    add: (Word, Word) -> Word, schedule: (Word, Word, Word, Word) -> Word,
    join: (Byte, Byte, Byte, Byte) -> Word, constants: seq<Word>,
    big0: Word -> Word, big1: Word -> Word, small0: Word -> Word, small1: Word -> Word,
    ch: (Word, Word, Word) -> Word, maj: (Word, Word, Word) -> Word)

  const FIPS := Arithmetic((x: Word, y: Word) => x + y, ScheduleSum, BigEndian, K, BigSigma0, BigSigma1, SmallSigma0,
                           SmallSigma1, Ch, Maj)

  // ----- section 6.2.2: one block -----

  /** Step 1, the message schedule. */
  function W(m: Arithmetic, block: seq<Byte>, t: nat): Word
    requires |block| == 64 && t < 64
  {
    if t < 16 then m.join(block[4 * t], block[4 * t + 1], block[4 * t + 2], block[4 * t + 3])
    else
      m.schedule(W(m, block, t - 16), m.small0(W(m, block, t - 15)), W(m, block, t - 7), m.small1(W(m, block, t - 2)))
  }

  /** The eight working variables, and the hash value they start from. */
  datatype State = State(a: Word, b: Word, c: Word, d: Word, e: Word, f: Word, g: Word, h: Word)

  /** Step 3. */
  function Round(m: Arithmetic, s: State, k: Word, w: Word): State {
    var t1 := m.add(m.add(m.add(m.add(s.h, m.big1(s.e)), m.ch(s.e, s.f, s.g)), k), w);
    var t2 := m.add(m.big0(s.a), m.maj(s.a, s.b, s.c));
    State(m.add(t1, t2), s.a, s.b, s.c, m.add(s.d, t1), s.e, s.f, s.g)
  }

  function Rounds(m: Arithmetic, block: seq<Byte>, s: State, n: nat): State
    requires |block| == 64 && n <= 64 == |m.constants|
  {
    if n == 0 then s else Round(m, Rounds(m, block, s, n - 1), m.constants[n - 1], W(m, block, n - 1))
  }

  function Sum(m: Arithmetic, s: State, t: State): State {
    State(m.add(s.a, t.a), m.add(s.b, t.b), m.add(s.c, t.c), m.add(s.d, t.d),
          m.add(s.e, t.e), m.add(s.f, t.f), m.add(s.g, t.g), m.add(s.h, t.h))
  }

  /** Steps 1 to 4 for one block. */
  function HashBlock(m: Arithmetic, block: seq<Byte>, s: State): State
    requires |block| == 64 == |m.constants|
  {
    Sum(m, s, Rounds(m, block, s, |m.constants|))
  }

  type Block = b: seq<Byte> | |b| == 64 witness seq(64, i => 0)

  type Step = (Block, State) -> State

  /** What one block does to the hash value. */
  function BlockStep(m: Arithmetic): Step
    requires |m.constants| == 64
  {
    (b: Block, s: State) => HashBlock(m, b, s)
  }

  /** The hash computation over the first `n` blocks of a message. */
  function Hash(step: Step, message: seq<Byte>, n: nat, s: State): State
    requires 64 * n <= |message|
  {
    if n == 0 then s else step(message[64 * (n - 1)..64 * n], Hash(step, message, n - 1, s))
  }

  lemma {:induction false} HashPrefix(step: Step, x: seq<Byte>, y: seq<Byte>, j: nat, s: State)
    requires 64 * j <= |x|
    ensures Hash(step, x + y, j, s) == Hash(step, x, j, s)
    decreases j
  {
    if j > 0 {
      HashPrefix(step, x, y, j - 1, s);
      assert (x + y)[64 * (j - 1)..64 * j] == x[64 * (j - 1)..64 * j];
    }
  }

  /** Compressing a message and then another is compressing their concatenation. */
  lemma {:induction false} HashConcatenation(step: Step, x: seq<Byte>, j: nat, y: seq<Byte>, k: nat, s: State)
    requires |x| == 64 * j && 64 * k <= |y|
    ensures Hash(step, x + y, j + k, s) == Hash(step, y, k, Hash(step, x, j, s))
    decreases k
  {
    if k == 0 {
      HashPrefix(step, x, y, j, s);
    } else {
      HashConcatenation(step, x, j, y, k - 1, s);
      var n := j + k;
      assert n - 1 == j + (k - 1);
      assert (x + y)[64 * (n - 1)..64 * n] == y[64 * (k - 1)..64 * k];
    }
  }

  // ----- the loops -----

  ghost function StateIn(state: seq<Word>): State
    requires |state| == 8
  {
    State(state[0], state[1], state[2], state[3], state[4], state[5], state[6], state[7])
  }

  ghost predicate Scheduled(m: Arithmetic, block: seq<Byte>, w: seq<Word>, n: nat)
    requires |block| == 64 && n <= 64 <= |w|
  {
    forall t :: 0 <= t < n ==> w[t] == W(m, block, t)
  }

  /** The two loops that fill the schedule. */
  method Expand(m: Arithmetic, data: array<Byte>, offset: nat, w: array<Word>, ghost block: seq<Byte>)
    requires |m.constants| == 64 && w.Length == 64 && offset + 64 <= data.Length && block == data[offset..offset + 64]
    modifies w
    ensures Scheduled(m, block, w[..], 64)
  {
    for i := 0 to 16
      invariant Scheduled(m, block, w[..], i)
    {
      var p := offset + 4 * i;
      assert data[p] == block[4 * i] && data[p + 1] == block[4 * i + 1];
      assert data[p + 2] == block[4 * i + 2] && data[p + 3] == block[4 * i + 3];
      w[i] := m.join(data[p], data[p + 1], data[p + 2], data[p + 3]);
    }
    for i := 16 to 64
      invariant Scheduled(m, block, w[..], i)
    {
      ghost var before := w[..];
      w[i] := m.schedule(w[i - 16], m.small0(w[i - 15]), w[i - 7], m.small1(w[i - 2]));
      assert w[..] == before[i := w[i]];
      ScheduledMore(m, block, before, i, w[i]);
    }
  }

  lemma {:induction false} ScheduledMore(m: Arithmetic, block: seq<Byte>, w: seq<Word>, i: nat, next: Word)
    requires |block| == 64 == |w| && 16 <= i < 64 && Scheduled(m, block, w, i)
    requires next == m.schedule(w[i - 16], m.small0(w[i - 15]), w[i - 7], m.small1(w[i - 2]))
    ensures Scheduled(m, block, w[i := next], i + 1)
  {
  }

  /** The round loop over the eight registers. */
  method Mix(m: Arithmetic, w: array<Word>, s: State, ghost block: seq<Byte>) returns (r: State)
    requires |m.constants| == 64 && w.Length == 64 && |block| == 64 && Scheduled(m, block, w[..], 64)
    ensures r == Rounds(m, block, s, |m.constants|)
  {
    var a, b, c, d, e, f, g, h := s.a, s.b, s.c, s.d, s.e, s.f, s.g, s.h;
    for i := 0 to |m.constants|
      invariant State(a, b, c, d, e, f, g, h) == Rounds(m, block, s, i)
    {
      assert w[i] == w[..][i] == W(m, block, i);
      var t1 := m.add(m.add(m.add(m.add(h, m.big1(e)), m.ch(e, f, g)), m.constants[i]), w[i]);
      var t2 := m.add(m.big0(a), m.maj(a, b, c));
      h := g; g := f; f := e; e := m.add(d, t1); d := c; c := b; b := a; a := m.add(t1, t2);
    }
    r := State(a, b, c, d, e, f, g, h);
  }

  method AddInto(m: Arithmetic, state: array<Word>, r: State)
    requires state.Length == 8
    modifies state
    ensures StateIn(state[..]) == Sum(m, StateIn(old(state[..])), r)
  {
    state[0] := m.add(state[0], r.a);
    state[1] := m.add(state[1], r.b);
    state[2] := m.add(state[2], r.c);
    state[3] := m.add(state[3], r.d);
    state[4] := m.add(state[4], r.e);
    state[5] := m.add(state[5], r.f);
    state[6] := m.add(state[6], r.g);
    state[7] := m.add(state[7], r.h);
  }

  /** Schedule and rounds for the block at `offset`. */
  method MixBlock(m: Arithmetic, data: array<Byte>, offset: nat, w: array<Word>, s: State, ghost block: seq<Byte>)
    returns (r: State)
    requires |m.constants| == 64 && w.Length == 64 && offset + 64 <= data.Length && block == data[offset..offset + 64]
    modifies w
    ensures r == Rounds(m, block, s, |m.constants|)
  {
    Expand(m, data, offset, w, block);
    r := Mix(m, w, s, block);
  }

  ghost predicate StepAt(m: Arithmetic, step: Step, block: Block, s: State)
    requires |m.constants| == 64
  {
    step(block, s) == HashBlock(m, block, s)
  }

  ghost predicate Computes(m: Arithmetic, step: Step)
    requires |m.constants| == 64
  {
    forall b: Block, s: State {:trigger StepAt(m, step, b, s)} :: StepAt(m, step, b, s)
  }

  lemma {:induction false} StepIsSum(m: Arithmetic, step: Step, block: Block, s: State, r: State)
    requires |m.constants| == 64 && r == Rounds(m, block, s, |m.constants|) && Computes(m, step)
    ensures step(block, s) == Sum(m, s, r)
  {
    assert StepAt(m, step, block, s);
  }

  /** One round of the outer loop. */
  method CompressBlock(m: Arithmetic, data: array<Byte>, offset: nat, w: array<Word>, state: array<Word>,
                       ghost block: Block, ghost step: Step)
    requires |m.constants| == 64 && Computes(m, step) && offset + 64 <= data.Length && w.Length == 64
      && state.Length == 8 && w != state
    requires block == data[offset..offset + 64]
    modifies w, state
    ensures StateIn(state[..]) == step(block, StateIn(old(state[..])))
  {
    ghost var before := StateIn(state[..]);
    var s := State(state[0], state[1], state[2], state[3], state[4], state[5], state[6], state[7]);
    var r := MixBlock(m, data, offset, w, s, block);
    assert s == before;
    assert StateIn(state[..]) == before;
    AddInto(m, state, r);
    StepIsSum(m, step, block, s, r);
  }

  lemma {:induction false} HashMore(step: Step, message: seq<Byte>, n: nat, s: State)
    requires 64 * (n + 1) <= |message|
    ensures Hash(step, message, n + 1, s) == step(message[64 * n..64 * n + 64], Hash(step, message, n, s))
  {
    assert 64 * (n + 1) == 64 * n + 64;
  }

  /** The outer loop, for any word operations. */
  method CompressBlocks(m: Arithmetic, data: array<Byte>, length: U32, state: array<Word>, ghost blocks: nat,
                        ghost message: seq<Byte>, ghost step: Step)
    requires |m.constants| == 64 && state.Length == 8 && length as int == 64 * blocks <= data.Length
    requires message == data[..64 * blocks] && Computes(m, step)
    modifies state
    ensures StateIn(state[..]) == Hash(step, message, blocks, StateIn(old(state[..])))
  {
    var w := new Word[64];
    ghost var start := StateIn(state[..]);
    var offset: U32 := 0;
    ghost var n: nat := 0;
    while offset < length
      invariant offset as int == 64 * n && n <= blocks
      invariant StateIn(state[..]) == Hash(step, message, n, start)
      decreases blocks - n
    {
      HashMore(step, message, n, start);
      ghost var block := data[64 * n..64 * n + 64];
      assert message[64 * n..64 * n + 64] == block;
      CompressBlock(m, data, offset as int, w, state, block, step);
      n := n + 1;
      offset := offset + 64;
    }
    assert n == blocks;
  }

  /**
   * `compress`: in bounds for every whole number of blocks, without its counter wrapping, and the state
   * ends as the standard's computation over those blocks.
   */
  method Compress(data: array<Byte>, length: U32, state: array<Word>)
    requires state.Length == 8 && length as int <= data.Length && length % 64 == 0
    modifies state
    ensures |FIPS.constants| == 64
    ensures StateIn(state[..]) == Hash(BlockStep(FIPS), data[..length as int], length as int / 64,
                                       StateIn(old(state[..])))
  {
    ghost var blocks: nat := length as int / 64;
    assert length as int == 64 * blocks;
    assert Computes(FIPS, BlockStep(FIPS));
    CompressBlocks(FIPS, data, length, state, blocks, data[..length as int], BlockStep(FIPS));
  }

  // ----- the operations, said another way -----

  /** "Choose" takes the bits of `y` where `x` has ones and those of `z` elsewhere. */
  lemma {:induction false} ChChooses(x: Word, y: Word, z: Word)
    ensures Ch(x, y, z) & x == y & x && Ch(x, y, z) & !x == z & !x
  {
  }

  /** "Majority" takes the bits on which `x` and `y` agree, and those of `z` elsewhere. */
  lemma {:induction false} MajDecides(x: Word, y: Word, z: Word)
    ensures Maj(x, y, z) & !(x ^ y) == x & !(x ^ y) && Maj(x, y, z) & (x ^ y) == z & (x ^ y)
  {
  }

  lemma {:induction false} RotrRotates(x: Word)
    ensures Rotr(x, 2) == x.RotateRight(2) && Rotr(x, 13) == x.RotateRight(13) && Rotr(x, 22) == x.RotateRight(22)
    ensures Rotr(x, 6) == x.RotateRight(6) && Rotr(x, 11) == x.RotateRight(11) && Rotr(x, 25) == x.RotateRight(25)
    ensures Rotr(x, 7) == x.RotateRight(7) && Rotr(x, 18) == x.RotateRight(18)
    ensures Rotr(x, 17) == x.RotateRight(17) && Rotr(x, 19) == x.RotateRight(19)
  {
  }

  /** The four sums of rotations and shifts. */
  lemma {:induction false} SigmasAreStandard(x: Word)
    ensures BigSigma0(x) == Rotr(x, 2) ^ Rotr(x, 13) ^ Rotr(x, 22)
    ensures BigSigma1(x) == Rotr(x, 6) ^ Rotr(x, 11) ^ Rotr(x, 25)
    ensures SmallSigma0(x) == Rotr(x, 7) ^ Rotr(x, 18) ^ (x >> 3)
    ensures SmallSigma1(x) == Rotr(x, 17) ^ Rotr(x, 19) ^ (x >> 10)
  {
  }

  /** The first byte of four is the most significant. */
  lemma {:induction false} BytesOfWord(a: Byte, b: Byte, c: Byte, d: Byte)
    ensures (BigEndian(a, b, c, d) >> 24) as Byte == a
    ensures ((BigEndian(a, b, c, d) >> 16) & 0xff) as Byte == b
    ensures ((BigEndian(a, b, c, d) >> 8) & 0xff) as Byte == c
    ensures (BigEndian(a, b, c, d) & 0xff) as Byte == d
  {
  }

  /** Which operation the standard puts where. */
  lemma {:induction false} StandardOperations()
    ensures FIPS.big0 == BigSigma0 && FIPS.big1 == BigSigma1 && FIPS.small0 == SmallSigma0 && FIPS.small1 == SmallSigma1
    ensures FIPS.ch == Ch && FIPS.maj == Maj && FIPS.join == BigEndian && FIPS.constants == K
    ensures FIPS.schedule == ScheduleSum
  {
  }

  /** One round as section 6.2.2 writes it. */
  lemma {:induction false} RoundIsStandard(m: Arithmetic, s: State, k: Word, w: Word, t1: Word, t2: Word)
    requires t1 == m.add(m.add(m.add(m.add(s.h, m.big1(s.e)), m.ch(s.e, s.f, s.g)), k), w)
    requires t2 == m.add(m.big0(s.a), m.maj(s.a, s.b, s.c))
    ensures var r := Round(m, s, k, w);
      && r.a == m.add(t1, t2) && r.b == s.a && r.c == s.b && r.d == s.c
      && r.e == m.add(s.d, t1) && r.f == s.e && r.g == s.f && r.h == s.g
  {
  }
}
