/** BLAKE2s as specified in sections 3.1 to 3.3 of RFC 7693, over a whole input. */
module Blake2sSpec {
  import opened Numbers
  import opened Words

  type State = h: seq<u32> | |h| == 8 witness seq(8, _ => 0)
  type Work = v: seq<u32> | |v| == 16 witness seq(16, _ => 0)

  const IV: State := [
    0x6A09E667, 0xBB67AE85, 0x3C6EF372, 0xA54FF53A,
    0x510E527F, 0x9B05688C, 0x1F83D9AB, 0x5BE0CD19]

  const SIGMA: seq<seq<nat>> := [
    [0, 1, 2, 3, 4, 5, 6, 7, 8, 9, 10, 11, 12, 13, 14, 15],
    [14, 10, 4, 8, 9, 15, 13, 6, 1, 12, 0, 2, 11, 7, 5, 3],
    [11, 8, 12, 0, 5, 2, 15, 13, 10, 14, 3, 6, 7, 1, 9, 4],
    [7, 9, 3, 1, 13, 12, 11, 14, 2, 6, 5, 10, 4, 0, 15, 8],
    [9, 0, 5, 7, 2, 4, 10, 15, 14, 1, 11, 12, 6, 8, 3, 13],
    [2, 12, 6, 10, 0, 11, 8, 3, 4, 13, 7, 5, 15, 14, 1, 9],
    [12, 5, 1, 15, 14, 13, 4, 10, 0, 7, 6, 3, 9, 2, 8, 11],
    [13, 11, 7, 14, 12, 1, 3, 9, 5, 0, 15, 4, 8, 6, 2, 10],
    [6, 15, 14, 9, 11, 3, 0, 8, 12, 2, 13, 7, 1, 4, 10, 5],
    [10, 2, 8, 4, 7, 6, 1, 5, 15, 11, 9, 14, 3, 12, 13, 0]]

  /** Message word index `i` of round `r`. */
  function Schedule(r: nat, i: nat): (j: nat)
    requires r < 10 && i < 16
    ensures j < 16
  {
    SIGMA[r][i]
  }

  datatype Quad = Quad(a: u32, b: u32, c: u32, d: u32)

  /** Section 3.1: the mixing function on four words. */
  function Mix(q: Quad, x: u32, y: u32): Quad {
    var a1 := Add32(Add32(q.a, q.b), x);
    var d1 := Rotr32(Xor32(q.d, a1), 16);
    var c1 := Add32(q.c, d1);
    var b1 := Rotr32(Xor32(q.b, c1), 12);
    var a2 := Add32(Add32(a1, b1), y);
    var d2 := Rotr32(Xor32(d1, a2), 8);
    var c2 := Add32(c1, d2);
    var b2 := Rotr32(Xor32(b1, c2), 7);
    Quad(a2, b2, c2, d2)
  }

  function MixAt(v: Work, a: nat, b: nat, c: nat, d: nat, x: u32, y: u32): Work
    requires a < 16 && b < 16 && c < 16 && d < 16
  {
    var q := Mix(Quad(v[a], v[b], v[c], v[d]), x, y);
    v[a := q.a][b := q.b][c := q.c][d := q.d]
  }

  /** Mixing step `i` of round `r`: four columns, then four diagonals. */
  function MixStep(v: Work, m: Work, r: nat, i: nat): Work
    requires r < 10 && i < 8
  {
    var x, y := m[Schedule(r, 2 * i)], m[Schedule(r, 2 * i + 1)];
    if i < 4 then MixAt(v, i, 4 + i, 8 + i, 12 + i, x, y)
    else MixAt(v, i - 4, 4 + (i - 3) % 4, 8 + (i - 2) % 4, 12 + (i - 1) % 4, x, y)
  }

  function MixSteps(v: Work, m: Work, r: nat, n: nat): Work
    requires r < 10 && n <= 8
  {
    if n == 0 then v else MixStep(MixSteps(v, m, r, n - 1), m, r, n - 1)
  }

  function Rounds(v: Work, m: Work, n: nat): Work
    requires n <= 10
  {
    if n == 0 then v else MixSteps(Rounds(v, m, n - 1), m, n - 1, 8)
  }

  function LowWord(t: nat): u32 {
    t % 0x1_0000_0000
  }

  function HighWord(t: nat): u32 {
    t / 0x1_0000_0000 % 0x1_0000_0000
  }

  /** Section 3.2: the work vector before the rounds; `t` is the 64-bit byte count. */
  function Initial(h: State, t: nat, last: bool): Work {
    h + IV[..4] + [Xor32(IV[4], LowWord(t)), Xor32(IV[5], HighWord(t)),
                   if last then Xor32(IV[6], 0xffff_ffff) else IV[6], IV[7]]
  }

  /** Section 3.2: the compression function. */
  function Compress(h: State, block: seq<byte>, t: nat, last: bool): State
    requires |block| == 64
  {
    var v := Rounds(Initial(h, t, last), WordsOf(block), 10);
    seq(8, i requires 0 <= i < 8 => Xor32(h[i], Xor32(v[i], v[8 + i])))
  }

  function Zeros(n: nat): (z: seq<byte>)
    ensures |z| == n
  {
    seq(n, _ => 0)
  }

  /** Section 3.3: the state after the first `n` blocks, none of them the last. */
  function Absorb(h: State, input: seq<byte>, n: nat): State
    requires 64 * n <= |input|
  {
    if n == 0 then h
    else Compress(Absorb(h, input, n - 1), input[64 * (n - 1)..64 * n], 64 * n, false)
  }

  /** How many blocks come before the last one: the last block is never empty unless
      the whole input is. */
  function FullBlocks(n: nat): (k: nat)
    ensures n > 0 ==> 64 * k < n <= 64 * k + 64
    ensures n == 0 ==> k == 0
  {
    if n == 0 then 0 else (n - 1) / 64
  }

  /** Section 3.3: the parameter word folded into the initial state. */
  function Start(outLen: nat, keyLen: nat): State
    requires outLen <= 32 && keyLen <= 32
  {
    IV[0 := Xor32(IV[0], 0x0101_0000 + 256 * keyLen + outLen)]
  }

  /** Section 3.3: a key is a zero-padded block in front of the data. */
  function KeyedInput(key: seq<byte>, data: seq<byte>): seq<byte>
    requires |key| <= 32
  {
    if key == [] then data else key + Zeros(64 - |key|) + data
  }

  function Digest(h: State, input: seq<byte>, outLen: nat): (d: seq<byte>)
    requires outLen <= 32
    ensures |d| == outLen
  {
    var k := FullBlocks(|input|);
    var last := input[64 * k..];
    var final := Compress(Absorb(h, input, k), last + Zeros(64 - |last|), |input|, true);
    BytesOf(final)[..outLen]
  }

  /** The hash of `data`, with an optional key. */
  function Blake2s(outLen: nat, key: seq<byte>, data: seq<byte>): (d: seq<byte>)
    requires outLen <= 32 && |key| <= 32
    ensures |d| == outLen
  {
    Digest(Start(outLen, |key|), KeyedInput(key, data), outLen)
  }

  /** What the state absorbs of a prefix does not depend on what follows. */
  lemma {:induction false} AbsorbPrefix(h: State, input: seq<byte>, more: seq<byte>, n: nat)
    requires 64 * n <= |input|
    ensures Absorb(h, input + more, n) == Absorb(h, input, n)
  {
    hide Compress;
    if n > 0 {
      AbsorbPrefix(h, input, more, n - 1);
      assert (input + more)[64 * (n - 1)..64 * n] == input[64 * (n - 1)..64 * n];
    }
  }

  lemma AbsorbStep(h: State, input: seq<byte>, n: nat)
    requires 64 * n + 64 <= |input|
    ensures Absorb(h, input, n + 1) == Compress(Absorb(h, input, n), input[64 * n..64 * n + 64], 64 * (n + 1), false)
  {
  }
}

/** The streaming implementation. */
module Blake2s {
  import opened Numbers
  import opened Words
  import opened Blake2sSpec

  /** The G macro on four words of the work vector, in place. */
  method MixInPlace(v: array<u32>, a: nat, b: nat, c: nat, d: nat, x: u32, y: u32)
    requires v.Length == 16
    requires a < 4 <= b < 8 <= c < 12 <= d < 16
    modifies v
    ensures v[..] == MixAt(old(v[..]), a, b, c, d, x, y)
  {
    hide Add32, Xor32, Rotr32;
    v[a] := Add32(Add32(v[a], v[b]), x);
    v[d] := Rotr32(Xor32(v[d], v[a]), 16);
    v[c] := Add32(v[c], v[d]);
    v[b] := Rotr32(Xor32(v[b], v[c]), 12);
    v[a] := Add32(Add32(v[a], v[b]), y);
    v[d] := Rotr32(Xor32(v[d], v[a]), 8);
    v[c] := Add32(v[c], v[d]);
    v[b] := Rotr32(Xor32(v[b], v[c]), 7);
  }

  /** The eight G calls of one round. */
  method RoundInPlace(v: array<u32>, m: Work, r: nat)
    requires v.Length == 16 && r < 10
    modifies v
    ensures v[..] == MixSteps(old(v[..]), m, r, 8)
  {
    hide MixAt, Schedule;
    ghost var v0: Work := v[..];
    MixInPlace(v, 0, 4, 8, 12, m[Schedule(r, 0)], m[Schedule(r, 1)]);
    assert v[..] == MixSteps(v0, m, r, 1) by { MixStepsUnfold(v0, m, r, 0); }
    MixInPlace(v, 1, 5, 9, 13, m[Schedule(r, 2)], m[Schedule(r, 3)]);
    assert v[..] == MixSteps(v0, m, r, 2) by { MixStepsUnfold(v0, m, r, 1); }
    MixInPlace(v, 2, 6, 10, 14, m[Schedule(r, 4)], m[Schedule(r, 5)]);
    assert v[..] == MixSteps(v0, m, r, 3) by { MixStepsUnfold(v0, m, r, 2); }
    MixInPlace(v, 3, 7, 11, 15, m[Schedule(r, 6)], m[Schedule(r, 7)]);
    assert v[..] == MixSteps(v0, m, r, 4) by { MixStepsUnfold(v0, m, r, 3); }
    MixInPlace(v, 0, 5, 10, 15, m[Schedule(r, 8)], m[Schedule(r, 9)]);
    assert v[..] == MixSteps(v0, m, r, 5) by { MixStepsUnfold(v0, m, r, 4); }
    MixInPlace(v, 1, 6, 11, 12, m[Schedule(r, 10)], m[Schedule(r, 11)]);
    assert v[..] == MixSteps(v0, m, r, 6) by { MixStepsUnfold(v0, m, r, 5); }
    MixInPlace(v, 2, 7, 8, 13, m[Schedule(r, 12)], m[Schedule(r, 13)]);
    assert v[..] == MixSteps(v0, m, r, 7) by { MixStepsUnfold(v0, m, r, 6); }
    MixInPlace(v, 3, 4, 9, 14, m[Schedule(r, 14)], m[Schedule(r, 15)]);
    assert v[..] == MixSteps(v0, m, r, 8) by { MixStepsUnfold(v0, m, r, 7); }
  }

  lemma MixStepsUnfold(v: Work, m: Work, r: nat, n: nat)
    requires r < 10 && n < 8
    ensures MixSteps(v, m, r, 0) == v
    ensures MixSteps(v, m, r, n + 1) == MixStep(MixSteps(v, m, r, n), m, r, n)
  {
  }

  /** The compression function on the hash state, in place. */
  method CompressInPlace(h: array<u32>, block: seq<byte>, t0: u32, t1: u32, f0: u32, ghost t: nat)
    requires h.Length == 8 && |block| == 64
    requires f0 == 0 || f0 == 0xffff_ffff
    requires t0 + 0x1_0000_0000 * t1 == t % 0x1_0000_0000_0000_0000
    modifies h
    ensures h[..] == Compress(old(h[..]), block, t, f0 != 0)
  {
    hide Xor32, Word, WordsOf, MixSteps, LowWord, HighWord;
    ghost var before: State := h[..];
    CounterWords(t0, t1, t);
    var m := new u32[16](i requires 0 <= i < 16 => Word(block[4 * i..4 * i + 4]));
    WordsByIndex(block, m[..]);
    var v := new u32[16](i requires 0 <= i < 16 reads h => if i < 8 then h[i] else IV[i - 8]);
    v[12] := Xor32(v[12], t0);
    v[13] := Xor32(v[13], t1);
    v[14] := Xor32(v[14], f0);
    v[15] := Xor32(v[15], 0);
    XorNothing(IV[6]);
    XorNothing(IV[7]);
    assert v[..] == Initial(before, t, f0 != 0);
    ghost var initial: Work := v[..];
    for r := 0 to 10
      invariant h[..] == before && m[..] == WordsOf(block)
      invariant v[..] == Rounds(initial, WordsOf(block), r)
      modifies v
    {
      RoundInPlace(v, m[..], r);
    }
    ghost var final: Work := v[..];
    ghost var target := Compress(before, block, t, f0 != 0);
    for i := 0 to 8
      invariant v[..] == final
      invariant forall l :: 0 <= l < 8 ==> h[l] == if l < i then target[l] else before[l]
    {
      assert target[i] == Xor32(before[i], Xor32(final[i], final[8 + i]));
      h[i] := Xor32(h[i], Xor32(v[i], v[8 + i]));
    }
  }

  lemma CounterWords(t0: u32, t1: u32, t: nat)
    requires t0 + 0x1_0000_0000 * t1 == t % 0x1_0000_0000_0000_0000
    ensures t0 == LowWord(t) && t1 == HighWord(t)
  {
  }

  lemma WordsByIndex(block: seq<byte>, m: seq<u32>)
    requires |block| == 64 && |m| == 16
    requires forall i :: 0 <= i < 16 ==> m[i] == Word(block[4 * i..4 * i + 4])
    ensures m == WordsOf(block)
  {
    hide Word;
  }

  lemma XorNothing(x: u32)
    ensures Xor32(x, 0) == x
  {
  }

  class Hasher {
    const h: array<u32>
    var t0: u32
    var t1: u32
    var f0: u32
    const buf: array<byte>
    var buflen: nat
    const outlen: nat
    ghost const start: State
    /** Everything absorbed so far, the key block included. */
    ghost var absorbed: seq<byte>
    /** The blocks compressed so far. */
    ghost var blocks: nat

    /** A non-empty buffer always holds 1 to 64 bytes: the last block is never compressed
        before it is known to be the last or not. */
    ghost predicate Valid()
      reads this, h, buf
    {
      && h.Length == 8 && buf.Length == 64 && h as object != buf
      && outlen <= 32 && f0 == 0
      && buflen <= 64 && (buflen == 0 <==> absorbed == [])
      && 64 * blocks + buflen == |absorbed|
      && h[..] == Absorb(start, absorbed, blocks)
      && buf[..buflen] == absorbed[64 * blocks..]
      && t0 + 0x1_0000_0000 * t1 == 64 * blocks % 0x1_0000_0000_0000_0000
    }

    constructor (outLen: nat, keyLen: nat)
      requires outLen <= 32 && keyLen <= 32
      ensures Valid() && absorbed == [] && outlen == outLen && start == Start(outLen, keyLen)
      ensures fresh(h) && fresh(buf)
    {
      h := new u32[8](i requires 0 <= i < 8 => Start(outLen, keyLen)[i]);
      buf := new byte[64](_ => 0);
      t0, t1, f0 := 0, 0, 0;
      buflen := 0;
      outlen := outLen;
      start := Start(outLen, keyLen);
      absorbed := [];
      blocks := 0;
      new;
      assert h[..] == start;
    }

    /** The two counter words add like one 64-bit number. */
    method Increment(inc: u32)
      modifies this`t0, this`t1
      ensures t0 + 0x1_0000_0000 * t1
              == (old(t0 + 0x1_0000_0000 * t1) + inc) % 0x1_0000_0000_0000_0000
    {
      hide Add32;
      TwoWordSum(t0, t1, inc);
      t0 := Add32(t0, inc);
      t1 := Add32(t1, if t0 < inc then 1 else 0);
    }

    /** Compresses one block that is known not to be the last. */
    method CompressNext(block: seq<byte>)
      requires h.Length == 8 && f0 == 0 && |block| == 64
      requires 64 * blocks + 64 <= |absorbed| && block == absorbed[64 * blocks..64 * blocks + 64]
      requires h[..] == Absorb(start, absorbed, blocks)
      requires t0 + 0x1_0000_0000 * t1 == 64 * blocks % 0x1_0000_0000_0000_0000
      modifies this`t0, this`t1, this`blocks, h
      ensures blocks == old(blocks) + 1
      ensures h[..] == Absorb(start, absorbed, blocks)
      ensures t0 + 0x1_0000_0000 * t1 == 64 * blocks % 0x1_0000_0000_0000_0000
    {
      hide Compress, Absorb;
      CounterAtEnd(blocks, 64, 64 * (blocks + 1));
      Increment(64);
      AbsorbStep(start, absorbed, blocks);
      CompressInPlace(h, block, t0, t1, f0, 64 * (blocks + 1));
      blocks := blocks + 1;
    }

    /** Absorbs more input. */
    method Update(input: seq<byte>)
      requires Valid()
      modifies this, h, buf
      ensures Valid() && absorbed == old(absorbed) + input
    {
      hide Compress, Absorb;
      if input == [] {
        assert absorbed + input == absorbed;
        return;
      }
      var fill := 64 - buflen;
      if |input| > fill {
        FillAndCompress(input, fill);
        var pos := fill;
        while |input| - pos > 64
          invariant fill <= pos < |input|
          invariant 64 * blocks + (|input| - pos) == |absorbed|
          invariant h[..] == Absorb(start, absorbed, blocks)
          invariant t0 + 0x1_0000_0000 * t1 == 64 * blocks % 0x1_0000_0000_0000_0000
          modifies this`t0, this`t1, this`blocks, h
        {
          assert input[pos..pos + 64] == absorbed[64 * blocks..64 * blocks + 64];
          CompressNext(input[pos..pos + 64]);
          pos := pos + 64;
        }
        assert input[pos..] == absorbed[64 * blocks..];
        CopyInto(0, input[pos..]);
        buflen := |input| - pos;
        assert buf[..buflen] == buf[0..0 + buflen];
      } else {
        ghost var held := buf[..buflen];
        AbsorbPrefix(start, absorbed, input, blocks);
        CopyInto(buflen, input);
        buflen := buflen + |input|;
        absorbed := absorbed + input;
        assert buf[..buflen] == held + input == absorbed[64 * blocks..];
      }
    }

    /** The buffered bytes and the first `fill` input bytes make a full block, and more
        input follows, so it is compressed. */
    method FillAndCompress(input: seq<byte>, fill: nat)
      requires Valid() && fill == 64 - buflen && fill < |input|
      modifies this, h, buf
      ensures h.Length == 8 && f0 == 0 && buflen == 0
      ensures absorbed == old(absorbed) + input && blocks == old(blocks) + 1
      ensures h[..] == Absorb(start, absorbed, blocks)
      ensures t0 + 0x1_0000_0000 * t1 == 64 * blocks % 0x1_0000_0000_0000_0000
    {
      hide Compress, Absorb;
      ghost var held := buf[..buflen];
      AbsorbPrefix(start, absorbed, input, blocks);
      CopyInto(buflen, input[..fill]);
      assert buf[..] == buf[..buflen] + buf[buflen..buflen + fill] == held + input[..fill];
      buflen := 0;
      absorbed := absorbed + input;
      assert held + input[..fill] == absorbed[64 * blocks..64 * blocks + 64];
      CompressNext(buf[..]);
    }

    /** `memcpy(buf + o, data, n)`. */
    method CopyInto(o: nat, data: seq<byte>)
      requires buf.Length == 64 && o + |data| <= 64
      modifies buf
      ensures buf[..o] == old(buf[..o]) && buf[o..o + |data|] == data
      ensures buf[o + |data|..] == old(buf[o + |data|..])
    {
      for i := 0 to |data|
        invariant buf[..o] == old(buf[..o]) && buf[o..o + i] == data[..i]
        invariant buf[o + |data|..] == old(buf[o + |data|..])
      {
        buf[o + i] := data[i];
      }
    }

    /** Compresses the last block and returns the digest: the one-shot digest of
        everything absorbed, however it was split. */
    method Final() returns (out: seq<byte>)
      requires Valid()
      modifies this, h, buf
      ensures out == old(Digest(start, absorbed, outlen))
    {
      hide Compress, Absorb, BytesOf, LeBytes;
      OnlyFullBlocks(blocks, |absorbed|);
      ghost var last := absorbed[64 * blocks..];
      Increment(buflen);
      f0 := 0xffff_ffff;
      CopyInto(buflen, Zeros(64 - buflen));
      assert buf[..] == last + Zeros(64 - |last|);
      CounterAtEnd(blocks, buflen, |absorbed|);
      CompressInPlace(h, buf[..], t0, t1, f0, |absorbed|);
      ghost var final: State := h[..];
      assert final == Compress(Absorb(start, absorbed, blocks), last + Zeros(64 - |last|), |absorbed|, true);
      var full := new byte[32](_ => 0);
      for i := 0 to 8
        invariant forall l :: 0 <= l < i ==> Chunk(full[..], l) == LeBytes(4, final[l])
        modifies full
      {
        StoreWord(full, i, h[i]);
      }
      BytesOfChunks(final, full[..]);
      out := full[..outlen];
    }
  }

  lemma TwoWordSum(low: u32, high: u32, inc: u32)
    ensures var sum := Add32(low, inc);
            sum + 0x1_0000_0000 * Add32(high, if sum < inc then 1 else 0)
            == (low + 0x1_0000_0000 * high + inc) % 0x1_0000_0000_0000_0000
  {
    var t := low + 0x1_0000_0000 * high + inc;
    var carry := if low + inc >= 0x1_0000_0000 then 1 else 0;
    assert Add32(low, inc) == low + inc - 0x1_0000_0000 * carry;
    var wrapped := if high + carry >= 0x1_0000_0000 then 1 else 0;
    assert Add32(high, carry) == high + carry - 0x1_0000_0000 * wrapped;
    assert t == 0x1_0000_0000_0000_0000 * wrapped + (Add32(low, inc) + 0x1_0000_0000 * Add32(high, carry));
  }

  lemma OnlyFullBlocks(k: nat, n: nat)
    requires 64 * k <= n <= 64 * k + 64 && (n == 64 * k ==> n == 0)
    ensures FullBlocks(n) == k
  {
  }

  lemma CounterAtEnd(k: nat, buflen: nat, n: nat)
    requires n == 64 * k + buflen
    ensures (64 * k % 0x1_0000_0000_0000_0000 + buflen) % 0x1_0000_0000_0000_0000
            == n % 0x1_0000_0000_0000_0000
  {
  }

  /** Unkeyed or keyed start, as `blake2s_init_key` does it: a key is absorbed as a block. */
  method Init(outLen: nat, key: seq<byte>) returns (s: Hasher)
    requires outLen <= 32 && |key| <= 32
    ensures fresh(s) && fresh(s.h) && fresh(s.buf) && s.Valid()
    ensures s.outlen == outLen && s.start == Start(outLen, |key|) && s.absorbed == KeyedInput(key, [])
  {
    hide Digest, Absorb, Compress, Start;
    s := new Hasher(outLen, |key|);
    if |key| > 0 {
      s.Update(key + Zeros(64 - |key|));
      assert KeyedInput(key, []) == key + Zeros(64 - |key|);
    }
  }

  /** For every split of the data into updates, the digest is the one-shot hash of the
      concatenation. */
  method HashChunks(outLen: nat, key: seq<byte>, chunks: seq<seq<byte>>) returns (out: seq<byte>)
    requires outLen <= 32 && |key| <= 32
    ensures out == Blake2s(outLen, key, Concat(chunks))
  {
    hide *;
    var s := Init(outLen, key);
    ConcatNothing(chunks);
    for i := 0 to |chunks|
      invariant fresh(s) && fresh(s.h) && fresh(s.buf) && s.Valid()
      invariant s.outlen == outLen && s.start == Start(outLen, |key|)
      invariant s.absorbed == KeyedInput(key, Concat(chunks[..i]))
    {
      ConcatNext(chunks, i);
      KeyedAppend(key, Concat(chunks[..i]), chunks[i]);
      ghost var next := KeyedInput(key, Concat(chunks[..i + 1]));
      assert s.absorbed + chunks[i] == next;
      s.Update(chunks[i]);
      assert s.absorbed == next;
    }
    assert chunks[..|chunks|] == chunks;
    OneShot(outLen, key, Concat(chunks));
    out := s.Final();
  }

  lemma OneShot(outLen: nat, key: seq<byte>, data: seq<byte>)
    requires outLen <= 32 && |key| <= 32
    ensures Blake2s(outLen, key, data) == Digest(Start(outLen, |key|), KeyedInput(key, data), outLen)
  {
  }

  lemma ConcatNothing(chunks: seq<seq<byte>>)
    ensures Concat(chunks[..0]) == []
  {
  }

  lemma ConcatNext(chunks: seq<seq<byte>>, i: nat)
    requires i < |chunks|
    ensures Concat(chunks[..i + 1]) == Concat(chunks[..i]) + chunks[i]
  {
    assert chunks[..i + 1][..i] == chunks[..i];
  }

  lemma KeyedAppend(key: seq<byte>, data: seq<byte>, more: seq<byte>)
    requires |key| <= 32
    ensures KeyedInput(key, data) + more == KeyedInput(key, data + more)
  {
  }

  function Concat(chunks: seq<seq<byte>>): seq<byte> {
    if chunks == [] then [] else Concat(chunks[..|chunks| - 1]) + chunks[|chunks| - 1]
  }
}
