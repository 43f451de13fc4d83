/** Streaming SHA-256, against the definition in FIPS 180-4. */
module Sha256 {
  import opened Wire
  import opened Words
  import Sequences

  type Octet = byte

  // ---------------------------------------------------------------------
  // FIPS 180-4, sections 4.1.2, 4.2.2, 5.1.1, 5.3.3 and 6.2.2
  // ---------------------------------------------------------------------

  const K: seq<Word> :=
    [0x428a2f98, 0x71374491, 0xb5c0fbcf, 0xe9b5dba5, 0x3956c25b, 0x59f111f1, 0x923f82a4, 0xab1c5ed5]
    + [0xd807aa98, 0x12835b01, 0x243185be, 0x550c7dc3, 0x72be5d74, 0x80deb1fe, 0x9bdc06a7, 0xc19bf174]
    + [0xe49b69c1, 0xefbe4786, 0x0fc19dc6, 0x240ca1cc, 0x2de92c6f, 0x4a7484aa, 0x5cb0a9dc, 0x76f988da]
    + [0x983e5152, 0xa831c66d, 0xb00327c8, 0xbf597fc7, 0xc6e00bf3, 0xd5a79147, 0x06ca6351, 0x14292967]
    + [0x27b70a85, 0x2e1b2138, 0x4d2c6dfc, 0x53380d13, 0x650a7354, 0x766a0abb, 0x81c2c92e, 0x92722c85]
    + [0xa2bfe8a1, 0xa81a664b, 0xc24b8b70, 0xc76c51a3, 0xd192e819, 0xd6990624, 0xf40e3585, 0x106aa070]
    + [0x19a4c116, 0x1e376c08, 0x2748774c, 0x34b0bcb5, 0x391c0cb3, 0x4ed8aa4a, 0x5b9cca4f, 0x682e6ff3]
    + [0x748f82ee, 0x78a5636f, 0x84c87814, 0x8cc70208, 0x90befffa, 0xa4506ceb, 0xbef9a3f7, 0xc67178f2]

  const INITIAL: seq<Word> := [
    0x6a09e667, 0xbb67ae85, 0x3c6ef372, 0xa54ff53a, 0x510e527f, 0x9b05688c, 0x1f83d9ab, 0x5be0cd19]

  function BigSigma0(x: Word): Word {
    Xor(Xor(Rotr(x, 2), Rotr(x, 13)), Rotr(x, 22))
  }

  function BigSigma1(x: Word): Word {
    Xor(Xor(Rotr(x, 6), Rotr(x, 11)), Rotr(x, 25))
  }

  function SmallSigma0(x: Word): Word {
    Xor(Xor(Rotr(x, 7), Rotr(x, 18)), Shr(x, 3))
  }

  function SmallSigma1(x: Word): Word {
    Xor(Xor(Rotr(x, 17), Rotr(x, 19)), Shr(x, 10))
  }

  function Ch(x: Word, y: Word, z: Word): Word {
    Xor(And(x, y), And(Not(x), z))
  }

  function Maj(x: Word, y: Word, z: Word): Word {
    Xor(Xor(And(x, y), And(x, z)), And(y, z))
  }

  function WordAt(b: seq<Octet>, i: nat): Word
    requires i + 4 <= |b|
  {
    ReadU32(b, i) as Word
  }

  /** The message schedule of one block. */
  function Schedule(block: seq<Octet>, t: nat): Word
    requires |block| == 64 && t < 64
  {
    if t < 16 then WordAt(block, 4 * t)
    else
      Plus(Plus(Plus(SmallSigma1(Schedule(block, t - 2)), Schedule(block, t - 7)),
                SmallSigma0(Schedule(block, t - 15))), Schedule(block, t - 16))
  }

  datatype Vars = Vars(a: Word, b: Word, c: Word, d: Word, e: Word, f: Word, g: Word, h: Word)

  function Round(v: Vars, k: Word, w: Word): Vars {
    var t1 := Plus(Plus(Plus(Plus(v.h, BigSigma1(v.e)), Ch(v.e, v.f, v.g)), k), w);
    var t2 := Plus(BigSigma0(v.a), Maj(v.a, v.b, v.c));
    Vars(Plus(t1, t2), v.a, v.b, v.c, Plus(v.d, t1), v.e, v.f, v.g)
  }

  /** The working variables after `t` rounds. */
  function Rounds(v: Vars, block: seq<Octet>, t: nat): Vars
    requires |block| == 64 && t <= 64
  {
    if t == 0 then v else Round(Rounds(v, block, t - 1), K[t - 1], Schedule(block, t - 1))
  }

  function Working(state: seq<Word>): Vars
    requires |state| == 8
  {
    Vars(state[0], state[1], state[2], state[3], state[4], state[5], state[6], state[7])
  }

  function Added(state: seq<Word>, v: Vars): (r: seq<Word>)
    requires |state| == 8
    ensures |r| == 8
  {
    [Plus(state[0], v.a), Plus(state[1], v.b), Plus(state[2], v.c), Plus(state[3], v.d),
     Plus(state[4], v.e), Plus(state[5], v.f), Plus(state[6], v.g), Plus(state[7], v.h)]
  }

  function Compress(state: seq<Word>, block: seq<Octet>): (r: seq<Word>)
    requires |state| == 8 && |block| == 64
    ensures |r| == 8
  {
    Added(state, Rounds(Working(state), block, 64))
  }

  /** The hash value after all complete blocks of `data`; what is left over is not looked at. */
  function Digested(state: seq<Word>, data: seq<Octet>): (r: seq<Word>)
    requires |state| == 8
    ensures |r| == 8
    decreases |data|
  {
    if |data| < 64 then state else Digested(Compress(state, data[..64]), data[64..])
  }

  const TWO_64: nat := 0x1_0000_0000_0000_0000
  const TWO_61: nat := 0x2000_0000_0000_0000

  function LengthOctets(x: nat, n: nat): (s: seq<Octet>)
    ensures |s| == n
  {
    if n == 0 then [] else LengthOctets(x / 0x100, n - 1) + [x % 0x100]
  }

  function Zeros(n: nat): (s: seq<Octet>)
    ensures |s| == n
  {
    seq(n, _ => 0)
  }

  /** The least number of zero octets that brings a message of `n` octets and its marker to 56 modulo 64. */
  function ZeroCount(n: nat): (k: nat)
    ensures (n + 1 + k) % 64 == 56 && k < 64
  {
    (119 - n % 64) % 64
  }

  function Padding(n: nat, bits: nat): seq<Octet> {
    [0x80] + Zeros(ZeroCount(n)) + LengthOctets(bits, 8)
  }

  function WordOctets(w: Word): (s: seq<Octet>)
    ensures |s| == 4
  {
    U32(w as u32)
  }

  function WordsOctets(ws: seq<Word>): (s: seq<Octet>)
    ensures |s| == 4 * |ws|
  {
    if ws == [] then [] else WordsOctets(ws[..|ws| - 1]) + WordOctets(ws[|ws| - 1])
  }

  /** The digest of a message when `bits` is written as its length. */
  function DigestWithLength(m: seq<Octet>, bits: nat): seq<Octet> {
    WordsOctets(Digested(INITIAL, m + Padding(|m|, bits)))
  }

  /** SHA-256 proper, defined below 2^64 bits. */
  function Digest(m: seq<Octet>): (d: seq<Octet>)
    requires |m| < TWO_61
  {
    DigestWithLength(m, 8 * |m|)
  }

  // ---------------------------------------------------------------------
  // Block arithmetic
  // ---------------------------------------------------------------------

  lemma {:induction false} DigestedConcat(state: seq<Word>, a: seq<Octet>, b: seq<Octet>)
    requires |state| == 8 && |a| % 64 == 0
    ensures Digested(state, a + b) == Digested(Digested(state, a), b)
    decreases |a|
  {
    hide Compress;
    if a == [] {
      assert a + b == b;
    } else {
      assert (a + b)[..64] == a[..64] && (a + b)[64..] == a[64..] + b;
      DigestedConcat(Compress(state, a[..64]), a[64..], b);
    }
  }

  lemma {:induction false} DigestedBlock(state: seq<Word>, done: seq<Octet>, block: seq<Octet>)
    requires |state| == 8 && |done| % 64 == 0 && |block| == 64
    ensures Digested(state, done + block) == Compress(Digested(state, done), block)
  {
    hide Compress;
    DigestedConcat(state, done, block);
    assert block[..64] == block && block[64..] == [];
  }

  /** The order in which the code adds up a schedule word. */
  lemma {:induction false} ScheduleStep(block: seq<Octet>, i: nat)
    requires |block| == 64 && 16 <= i < 64
    ensures Schedule(block, i) == Plus(Plus(Plus(Schedule(block, i - 16), SmallSigma0(Schedule(block, i - 15))),
                                            Schedule(block, i - 7)), SmallSigma1(Schedule(block, i - 2)))
  {
    hide SmallSigma0, SmallSigma1, WordAt, Plus;
    PlusReverses(SmallSigma1(Schedule(block, i - 2)), Schedule(block, i - 7),
                 SmallSigma0(Schedule(block, i - 15)), Schedule(block, i - 16));
  }

  lemma {:induction false} RoundsStep(v: Vars, block: seq<Octet>, t: nat)
    requires |block| == 64 && t < 64
    ensures Rounds(v, block, 0) == v
    ensures Rounds(v, block, t + 1) == Round(Rounds(v, block, t), K[t], Schedule(block, t))
  {
    hide Round, Schedule;
  }

  /** One round, written out the way the code computes it. */
  lemma {:induction false} RoundWrittenOut(v: Vars, k: Word, w: Word)
    ensures var s1 := Xor(Xor(Rotr(v.e, 6), Rotr(v.e, 11)), Rotr(v.e, 25));
            var ch := Xor(And(v.e, v.f), And(Not(v.e), v.g));
            var t1 := Plus(Plus(Plus(Plus(v.h, s1), ch), k), w);
            var s0 := Xor(Xor(Rotr(v.a, 2), Rotr(v.a, 13)), Rotr(v.a, 22));
            var maj := Xor(Xor(And(v.a, v.b), And(v.a, v.c)), And(v.b, v.c));
            Round(v, k, w) == Vars(Plus(t1, Plus(s0, maj)), v.a, v.b, v.c, Plus(v.d, t1), v.e, v.f, v.g)
  {
    hide Rotr, Xor, And, Not, Plus;
  }

  lemma {:induction false} ScheduleStart(block: seq<Octet>)
    requires |block| == 64
    ensures forall t :: 0 <= t < 16 ==> Schedule(block, t) == WordAt(block, t * 4)
  {
    hide WordAt;
  }

  // ---------------------------------------------------------------------
  // The hasher
  // ---------------------------------------------------------------------

  class Hasher {
    const state: array<Word>
    const buffer: array<Octet>
    var buffered: nat
    var totalBits: nat
    /** The complete blocks compressed so far. */
    ghost var blocks: seq<Octet>

    ghost predicate Valid()
      reads this, state, buffer
    {
      && state.Length == 8 && buffer.Length == 64 && buffered < 64
      && |blocks| % 64 == 0
      && state[..] == Digested(INITIAL, blocks)
    }

    /** Everything fed in, in order. */
    ghost function Absorbed(): seq<Octet>
      requires Valid()
      reads this, state, buffer
    {
      blocks + buffer[..buffered]
    }

    constructor ()
      ensures Valid() && fresh(state) && fresh(buffer)
      ensures Absorbed() == [] && totalBits == 0
    {
      state := new Word[8](i requires 0 <= i < 8 => INITIAL[i]);
      buffer := new Octet[64](_ => 0);
      buffered := 0;
      totalBits := 0;
      blocks := [];
      new;
      assert state[..] == INITIAL;
    }

    /** Expands the message schedule of a block. */
    method Expand(block: seq<Octet>) returns (w: array<Word>)
      requires |block| == 64
      ensures w.Length == 64 && fresh(w)
      ensures forall t :: 0 <= t < 64 ==> w[t] == Schedule(block, t)
    {
      hide Schedule, WordAt, Rotr, Xor, Shr, Plus;
      ScheduleStart(block);
      w := new Word[64](_ => 0);
      for i := 0 to 16
        invariant forall t :: 0 <= t < i ==> w[t] == Schedule(block, t)
      {
        w[i] := WordAt(block, i * 4);
      }
      for i := 16 to 64
        invariant forall t :: 0 <= t < i ==> w[t] == Schedule(block, t)
      {
        ScheduleStep(block, i);
        var s0 := Xor(Xor(Rotr(w[i - 15], 7), Rotr(w[i - 15], 18)), Shr(w[i - 15], 3));
        var s1 := Xor(Xor(Rotr(w[i - 2], 17), Rotr(w[i - 2], 19)), Shr(w[i - 2], 10));
        w[i] := Plus(Plus(Plus(w[i - 16], s0), w[i - 7]), s1);
      }
    }

    /** Runs the sixty-four rounds on the working variables. */
    method Mix(block: seq<Octet>) returns (v: Vars)
      requires state.Length == 8 && |block| == 64
      ensures v == Rounds(Working(state[..]), block, 64)
    {
      hide Schedule, Rotr, Xor, And, Not, Plus, Round, Rounds;
      RoundsStep(Working(state[..]), block, 0);
      var w := Expand(block);
      var a, b, c, d := state[0], state[1], state[2], state[3];
      var e, f, g, h := state[4], state[5], state[6], state[7];
      for i := 0 to 64
        invariant forall t :: 0 <= t < 64 ==> w[t] == Schedule(block, t)
        invariant Vars(a, b, c, d, e, f, g, h) == Rounds(Working(state[..]), block, i)
      {
        RoundsStep(Working(state[..]), block, i);
        RoundWrittenOut(Vars(a, b, c, d, e, f, g, h), K[i], w[i]);
        var s1 := Xor(Xor(Rotr(e, 6), Rotr(e, 11)), Rotr(e, 25));
        var ch := Xor(And(e, f), And(Not(e), g));
        var t1 := Plus(Plus(Plus(Plus(h, s1), ch), K[i]), w[i]);
        var s0 := Xor(Xor(Rotr(a, 2), Rotr(a, 13)), Rotr(a, 22));
        var maj := Xor(Xor(And(a, b), And(a, c)), And(b, c));
        var t2 := Plus(s0, maj);
        h := g;
        g := f;
        f := e;
        e := Plus(d, t1);
        d := c;
        c := b;
        b := a;
        a := Plus(t1, t2);
      }
      return Vars(a, b, c, d, e, f, g, h);
    }

    method AddIn(v: Vars)
      requires state.Length == 8
      modifies state
      ensures state[..] == Added(old(state[..]), v)
    {
      hide Plus;
      var mixed := [v.a, v.b, v.c, v.d, v.e, v.f, v.g, v.h];
      forall i | 0 <= i < 8 {
        state[i] := Plus(state[i], mixed[i]);
      }
    }

    method CompressBlock(block: seq<Octet>)
      requires Valid() && |block| == 64
      modifies this`blocks, state
      ensures Valid() && blocks == old(blocks) + block
    {
      hide Digested, Rounds, Added;
      ghost var before := state[..];
      var v := Mix(block);
      AddIn(v);
      assert state[..] == Compress(before, block);
      DigestedBlock(INITIAL, blocks, block);
      blocks := blocks + block;
    }

    /** Feeds `data` in, whatever lengths came before. */
    method Update(data: seq<Octet>)
      requires Valid()
      modifies this, state, buffer
      ensures Valid() && Absorbed() == old(Absorbed()) + data
      ensures totalBits == (old(totalBits) + 8 * |data|) % TWO_64
    {
      hide Digested;
      totalBits := (totalBits + 8 * |data|) % TWO_64;
      var rest := data;
      if buffered > 0 {
        var want := 64 - buffered;
        var take := if want < |data| then want else |data|;
        Fill(data[..take]);
        rest := data[take..];
        assert data == data[..take] + rest;
      }
      ghost var start := Absorbed();
      assert start + rest == old(Absorbed()) + data;
      if rest != [] {
        TakeBlocks(rest);
      }
    }

    /** Tops the buffer up, compressing it when it is full. */
    method Fill(data: seq<Octet>)
      requires Valid() && buffered + |data| <= 64
      modifies this`buffered, this`blocks, state, buffer
      ensures Valid() && Absorbed() == old(Absorbed()) + data
      ensures buffered == (old(buffered) + |data|) % 64
    {
      hide Digested;
      forall i | 0 <= i < |data| {
        buffer[buffered + i] := data[i];
      }
      ghost var filled := old(buffer[..buffered]) + data;
      assert buffer[..buffered + |data|] == filled;
      buffered := buffered + |data|;
      if buffered == 64 {
        ghost var before := blocks;
        assert buffer[..] == filled;
        buffered := 0;
        CompressBlock(buffer[..]);
        assert blocks + buffer[..0] == before + filled;
        assert before + filled == old(Absorbed()) + data;
      } else {
        assert blocks + filled == old(Absorbed()) + data;
      }
    }

    /** With an empty buffer: compresses the complete blocks and keeps the remainder. */
    method TakeBlocks(data: seq<Octet>)
      requires Valid() && buffered == 0
      modifies this`buffered, this`blocks, state, buffer
      ensures Valid() && Absorbed() == old(Absorbed()) + data
    {
      hide Digested;
      ghost var before := blocks;
      var n := 0;
      while n + 64 <= |data|
        invariant n <= |data| && n % 64 == 0
        invariant Valid() && buffered == 0
        invariant blocks == before + data[..n]
      {
        assert data[..n + 64] == data[..n] + data[n..n + 64];
        CompressBlock(data[n..n + 64]);
        n := n + 64;
      }
      var rest := data[n..];
      if rest != [] {
        forall i | 0 <= i < |rest| {
          buffer[i] := rest[i];
        }
        buffered := |rest|;
      }
      assert buffer[..buffered] == rest;
      assert data == data[..n] + rest;
    }

    /** `Padding` for every message that leaves `buffered` octets over, in the first `used` places of the array. */
    method Tail(bits: nat) returns (tail: array<Octet>, used: nat)
      requires buffered < 64
      ensures fresh(tail) && used <= tail.Length == 128
      ensures forall n: nat :: n % 64 == buffered ==> tail[..used] == Padding(n, bits)
    {
      hide LengthOctets;
      tail := new Octet[128](_ => 0);
      tail[0] := 0x80;
      var padLength := if buffered < 56 then 56 - buffered else 120 - buffered;
      var length := LengthOctets(bits, 8);
      forall i | 0 <= i < 8 {
        tail[padLength + i] := length[i];
      }
      used := padLength + 8;
      forall n: nat | n % 64 == buffered ensures tail[..used] == Padding(n, bits) {
        assert padLength == 1 + ZeroCount(n);
      }
    }

    /** The state, word by word, most significant octet first. */
    method WriteState() returns (out: array<Octet>)
      requires state.Length == 8
      ensures out.Length == 32 && out[..] == WordsOctets(state[..])
    {
      hide WordOctets;
      out := new Octet[32](_ => 0);
      for i := 0 to 8
        invariant out[..4 * i] == WordsOctets(state[..i])
      {
        ghost var words := state[..i + 1];
        assert words[..|words| - 1] == state[..i] && words[|words| - 1] == state[i];
        ghost var done := out[..4 * i];
        var word := WordOctets(state[i]);
        forall j | 0 <= j < 4 {
          out[4 * i + j] := word[j];
        }
        assert out[..4 * i] == done;
        assert out[4 * i..4 * i + 4] == word;
        assert out[..4 * (i + 1)] == done + word;
        assert state[..i + 1] == words && WordsOctets(words) == done + word;
      }
      assert state[..8] == state[..] && out[..32] == out[..];
    }

    /** Pads, compresses the last blocks and writes the state out. */
    method Finish() returns (digest: seq<Octet>)
      requires Valid()
      modifies this, state, buffer
      ensures digest == DigestWithLength(old(Absorbed()), old(totalBits))
    {
      hide Digested, Padding, WordsOctets;
      var bits := totalBits;
      ghost var message := Absorbed();
      var tail, used := Tail(bits);
      assert |message| % 64 == buffered;
      assert tail[..used] == Padding(|message|, bits);
      var saved := totalBits;
      Update(tail[..used]);
      totalBits := saved;
      PaddedLength(|message|, bits);
      assert buffered == 0 && buffer[..0] == [];
      assert blocks == message + Padding(|message|, bits);
      var out := WriteState();
      digest := out[..];
    }
  }

  /** Padding lands on a block boundary. */
  lemma {:induction false} PaddedLength(n: nat, bits: nat)
    ensures (n + |Padding(n, bits)|) % 64 == 0
  {
    hide ZeroCount, Zeros, LengthOctets;
    var k := ZeroCount(n);
    assert |Padding(n, bits)| == 1 + k + 8;
    assert n + 1 + k == 64 * ((n + 1 + k) / 64) + 56;
    assert n + 1 + k + 8 == 64 * ((n + 1 + k) / 64 + 1);
  }

  lemma {:induction false} WrapOnce(a: nat, b: nat)
    ensures (a % TWO_64 + b) % TWO_64 == (a + b) % TWO_64
  {
    assert a == a / TWO_64 * TWO_64 + a % TWO_64;
    assert a + b == a / TWO_64 * TWO_64 + (a % TWO_64 + b);
  }

  // ---------------------------------------------------------------------
  // Reading a file in chunks
  // ---------------------------------------------------------------------

  function Flatten(chunks: seq<seq<Octet>>): seq<Octet> {
    if chunks == [] then [] else Flatten(chunks[..|chunks| - 1]) + chunks[|chunks| - 1]
  }

  /** The chunks before the first empty one: a read of nothing is the end of the file. */
  function UntilEnd(pieces: seq<seq<Octet>>): seq<seq<Octet>> {
    if pieces == [] || pieces[0] == [] then [] else [pieces[0]] + UntilEnd(pieces[1..])
  }

  lemma {:induction false} FlattenSnoc(chunks: seq<seq<Octet>>, chunk: seq<Octet>)
    ensures Flatten(chunks + [chunk]) == Flatten(chunks) + chunk
  {
    assert (chunks + [chunk])[..|chunks|] == chunks;
  }

  lemma {:induction false} UntilEndStep(pieces: seq<seq<Octet>>, n: nat)
    requires n <= |pieces|
    ensures UntilEnd(pieces[n..])
         == if n < |pieces| && pieces[n] != [] then [pieces[n]] + UntilEnd(pieces[n + 1..]) else []
  {
    if n < |pieces| {
      assert pieces[n..][1..] == pieces[n + 1..];
    }
  }

  /** Hashes what a file yields read by read, and counts it. */
  method HashReads(pieces: seq<seq<Octet>>) returns (digest: seq<Octet>, total: nat)
    ensures var m := Flatten(UntilEnd(pieces));
            && total == |m| && digest == DigestWithLength(m, 8 * |m| % TWO_64)
            && (|m| < TWO_61 ==> digest == Digest(m))
  {
    hide DigestWithLength, Digested, Flatten, UntilEnd;
    var hasher := new Hasher();
    total := 0;
    var n := 0;
    ghost var chunks: seq<seq<Octet>> := [];
    NothingRead();
    Sequences.Whole(pieces);
    Sequences.Empty(UntilEnd(pieces));
    while n < |pieces| && pieces[n] != []
      invariant n <= |pieces|
      invariant hasher.Valid() && fresh(hasher) && fresh(hasher.state) && fresh(hasher.buffer)
      invariant chunks + UntilEnd(pieces[n..]) == UntilEnd(pieces)
      invariant hasher.Absorbed() == Flatten(chunks)
      invariant total == |Flatten(chunks)| && hasher.totalBits == 8 * total % TWO_64
    {
      UntilEndStep(pieces, n);
      Sequences.Assoc(chunks, [pieces[n]], UntilEnd(pieces[n + 1..]));
      WrapOnce(8 * total, 8 * |pieces[n]|);
      hasher.Update(pieces[n]);
      total := total + |pieces[n]|;
      FlattenSnoc(chunks, pieces[n]);
      chunks := chunks + [pieces[n]];
      n := n + 1;
    }
    UntilEndStep(pieces, n);
    Sequences.Empty(chunks);
    digest := hasher.Finish();
  }

  lemma {:induction false} NothingRead()
    ensures Flatten([]) == []
  {
  }
}
