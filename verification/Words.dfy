/** 32-bit words: the operations of the ARX ciphers and hashes, and byte order. */
module Words {
  import opened Bits
  import opened Numbers

  function Add32(x: u32, y: u32): u32 {
    (x + y) % 0x1_0000_0000
  }

  function Sub32(x: u32, y: u32): u32 {
    (x - y) % 0x1_0000_0000
  }

  function Xor32(x: u32, y: u32): u32 {
    Pow2Values();
    XorBound(x, y, 32);
    Xor(x, y)
  }

  function Xor8(x: byte, y: byte): byte {
    Pow2Values();
    XorBound(x, y, 8);
    Xor(x, y)
  }

  lemma Xor8Twice(x: byte, y: byte)
    ensures Xor8(Xor8(x, y), y) == x
    ensures Xor8(0, x) == x
  {
    hide Xor;
    XorTwice(x, y);
    XorSymmetric(y, Xor(x, y));
    XorZeroLeft(x);
  }

  lemma XorZeroLeft(x: nat)
    ensures Xor(0, x) == x
  {
  }

  lemma {:induction false} XorSymmetric(x: nat, y: nat)
    ensures Xor(x, y) == Xor(y, x)
  {
    if x > 0 && y > 0 {
      XorSymmetric(x / 2, y / 2);
    }
  }

  /** The word rotated left by `c` bits: its low part moves up, its high part comes down. */
  function Rotl32(x: u32, c: nat): u32
    requires 0 < c < 32
  {
    PowersCompose(c);
    RotateParts(x, Pow2(c), Pow2(32 - c));
    x % Pow2(32 - c) * Pow2(c) + x / Pow2(32 - c)
  }

  lemma DoubleProduct(p: int, q: int)
    ensures (2 * p) * q == 2 * (p * q)
  {
  }

  lemma {:induction false} Pow2Sum(a: nat, b: nat)
    ensures Pow2(a) * Pow2(b) == Pow2(a + b)
  {
    if a > 0 {
      Pow2Sum(a - 1, b);
      DoubleProduct(Pow2(a - 1), Pow2(b));
    }
  }

  lemma PowersCompose(c: nat)
    requires c <= 32
    ensures Pow2(c) * Pow2(32 - c) == 0x1_0000_0000
  {
    hide *;
    Pow2Sum(c, 32 - c);
    Pow2Values();
  }

  lemma RotateParts(x: u32, p: nat, q: nat)
    requires p > 0 && q > 0 && p * q == 0x1_0000_0000
    ensures x / q < p
    ensures 0 <= x % q * p + x / q < 0x1_0000_0000
    ensures (x * p) % 0x1_0000_0000 == x % q * p
    ensures p * x == x / q * 0xffff_ffff + (x % q * p + x / q)
  {
    QuotientAndRest(x, q);
    RotateWith(x, x / q, x % q, p, q);
  }

  lemma QuotientAndRest(x: nat, q: nat)
    requires q > 0
    ensures x == x / q * q + x % q && x / q >= 0
  {
  }

  lemma RotateWith(x: u32, high: nat, low: nat, p: nat, q: nat)
    requires p > 0 && low < q && p * q == 0x1_0000_0000 && x == high * q + low
    ensures high < p && low * p + high < 0x1_0000_0000
    ensures (x * p) % 0x1_0000_0000 == low * p
    ensures p * x == high * 0xffff_ffff + (low * p + high)
  {
    Commuted(p, q);
    ProductBelow(high, q, p);
    ProductBelow(low, p, q);
    RotatedProduct(high, q, low, p);
    DivModUnique(x * p, 0x1_0000_0000, high, low * p);
  }

  lemma Commuted(a: int, b: int)
    ensures a * b == b * a
  {
  }

  /** `a` is below `b` when `a` pieces fit into less than `b` of them, and then there is room
      for one more. */
  lemma ProductBelow(a: nat, p: nat, b: nat)
    requires p > 0
    ensures a * p < b * p ==> a < b
    ensures a < b ==> a * p + p <= b * p
  {
    if a < b {
      MulBound(a + 1, b, p);
    } else {
      MulBound(b, a, p);
    }
  }

  lemma RotatedProduct(high: nat, q: nat, low: nat, p: nat)
    ensures (high * q + low) * p == high * (p * q) + low * p
    ensures p * (high * q + low) == high * (p * q - 1) + (low * p + high)
  {
  }

  /** Section 2 of the Salsa20 specification: w <<< c is congruent to 2^c w modulo 2^32 - 1. */
  lemma RotateIsMultiplication(x: u32, c: nat)
    requires 0 < c < 32
    ensures Pow2(c) * x == x / Pow2(32 - c) * 0xffff_ffff + Rotl32(x, c)
  {
    hide Pow2;
    PowersCompose(c);
    RotateParts(x, Pow2(c), Pow2(32 - c));
  }

  function Shl32(x: u32, c: nat): u32 {
    (x * Pow2(c)) % 0x1_0000_0000
  }

  function Shr32(x: u32, c: nat): nat {
    DivNonNegative(x, Pow2(c));
    x / Pow2(c)
  }

  lemma DivNonNegative(x: nat, p: nat)
    requires p > 0
    ensures x / p >= 0
  {
  }

  /** The daemon's rotation: `(x << c) | (x >> (32 - c))` on a 32-bit word. */
  function L32(x: u32, c: nat): (r: u32)
    requires 0 < c < 32
    ensures r == Rotl32(x, c)
  {
    OrIsRotation(x, c);
    Or(Shl32(x, c), Shr32(x, 32 - c))
  }

  function Rotr32(x: u32, c: nat): u32
    requires 0 < c < 32
  {
    Rotl32(x, 32 - c)
  }

  lemma OrIsRotation(x: u32, c: nat)
    requires 0 < c < 32
    ensures Or(Shl32(x, c), Shr32(x, 32 - c)) == Rotl32(x, c)
  {
    hide *;
    ShiftParts(x, c);
    OrDisjoint(x % Pow2(32 - c), Shr32(x, 32 - c), c);
  }

  lemma ShiftParts(x: u32, c: nat)
    requires 0 < c < 32
    ensures Shl32(x, c) == x % Pow2(32 - c) * Pow2(c)
    ensures Shr32(x, 32 - c) < Pow2(c)
    ensures Rotl32(x, c) == Shl32(x, c) + Shr32(x, 32 - c)
  {
    hide Pow2;
    PowersCompose(c);
    RotateParts(x, Pow2(c), Pow2(32 - c));
  }

  /** The little-endian word of four bytes. */
  function Word(b: seq<byte>): (w: u32)
    requires |b| == 4
  {
    ValBound(b);
    WordPow();
    Val(b)
  }

  lemma WordPow()
    ensures Pow256(4) == 0x1_0000_0000
  {
  }

  /** `u << 8 | x`, one step of the daemon's load. */
  function ShiftIn(u: nat, x: byte): (r: nat)
    ensures r == 256 * u + x
  {
    OrByte(u, x);
    Or(256 * u, x)
  }

  lemma OrByte(u: nat, x: byte)
    ensures Or(256 * u, x) == 256 * u + x
  {
    hide *;
    Pow2Values();
    OrDisjoint(u, x, 8);
  }

  /** The daemon's load: three shifts and ors from the top byte down. */
  function Ld32(b: seq<byte>): (w: u32)
    requires |b| == 4
    ensures w == Word(b)
  {
    LoadIsWord(b);
    ShiftIn(ShiftIn(ShiftIn(b[3], b[2]), b[1]), b[0])
  }

  lemma LoadIsWord(b: seq<byte>)
    requires |b| == 4
    ensures ShiftIn(ShiftIn(ShiftIn(b[3], b[2]), b[1]), b[0]) == Word(b)
  {
    hide ShiftIn, Val;
    assert b == [b[0]] + [b[1], b[2], b[3]];
    assert [b[1], b[2], b[3]] == [b[1]] + [b[2], b[3]];
    assert [b[2], b[3]] == [b[2]] + [b[3]];
    assert [b[3]] == [b[3]] + [];
    ValCons(b[0], [b[1], b[2], b[3]]);
    ValCons(b[1], [b[2], b[3]]);
    ValCons(b[2], [b[3]]);
    ValCons(b[3], []);
    ValEmpty();
  }

  /** The daemon's store: byte by byte, shifting right. */
  method St32(out: array<byte>, o: nat, w: u32)
    requires o + 4 <= out.Length
    modifies out
    ensures out[..] == old(out[..o]) + LeBytes(4, w) + old(out[o + 4..])
  {
    hide LeBytes;
    var u := w;
    for i := 0 to 4
      invariant out[..o] == old(out[..o]) && out[o + i..] == old(out[o + i..])
      invariant u >= 0 && out[o..o + i] + LeBytes(4 - i, u) == LeBytes(4, w)
    {
      LeBytesUnfold(4 - i, u);
      ghost var done := out[o..o + i];
      out[o + i] := u % 256;
      u := u / 256;
      assert out[o..o + (i + 1)] == done + [out[o + i]];
    }
    LeBytesUnfold(0, u);
    assert out[..] == out[..o] + out[o..o + 4] + out[o + 4..];
  }

  lemma LeBytesUnfold(n: nat, x: nat)
    ensures n == 0 ==> LeBytes(n, x) == []
    ensures n > 0 ==> LeBytes(n, x) == [x % 256] + LeBytes(n - 1, x / 256)
  {
  }

  /** The little-endian words of a byte string. */
  function WordsOf(b: seq<byte>): (w: seq<u32>)
    requires |b| % 4 == 0
    ensures |w| == |b| / 4
    ensures forall i :: 0 <= i < |w| ==> w[i] == Word(b[4 * i..4 * i + 4])
  {
    seq(|b| / 4, i requires 0 <= i < |b| / 4 => Word(b[4 * i..4 * i + 4]))
  }

  /** Words written out as little-endian bytes. */
  function BytesOf(w: seq<u32>): (b: seq<byte>)
    ensures |b| == 4 * |w|
  {
    if w == [] then [] else BytesOf(w[..|w| - 1]) + LeBytes(4, w[|w| - 1])
  }

  /** The four bytes of word `i` in a byte string. */
  function Chunk(b: seq<byte>, i: nat): (c: seq<byte>)
    requires 4 * i + 4 <= |b|
    ensures |c| == 4
  {
    b[4 * i..4 * i + 4]
  }

  /** A byte string is determined by its four-byte chunks. */
  lemma {:induction false} BytesOfChunks(w: seq<u32>, b: seq<byte>)
    requires |b| == 4 * |w|
    requires forall i :: 0 <= i < |w| ==> Chunk(b, i) == LeBytes(4, w[i])
    ensures b == BytesOf(w)
  {
    hide LeBytes;
    if w != [] {
      var n := |w| - 1;
      var front := b[..4 * n];
      forall i | 0 <= i < n
        ensures Chunk(front, i) == LeBytes(4, w[..n][i])
      {
        assert Chunk(front, i) == Chunk(b, i);
      }
      BytesOfChunks(w[..n], front);
      assert b == front + Chunk(b, n);
    }
  }

  /** Stores a word at word position `i`, leaving the other words alone. */
  method StoreWord(out: array<byte>, i: nat, w: u32)
    requires 4 * i + 4 <= out.Length
    modifies out
    ensures Chunk(out[..], i) == LeBytes(4, w)
    ensures forall m :: 0 <= m < out.Length / 4 && m != i ==> Chunk(out[..], m) == old(Chunk(out[..], m))
  {
    hide LeBytes;
    ghost var before := out[..];
    St32(out, 4 * i, w);
    forall m | 0 <= m < out.Length / 4 && m != i
      ensures Chunk(out[..], m) == Chunk(before, m)
    {
      OtherChunk(before, out[..], 4 * i, LeBytes(4, w), m);
    }
  }

  lemma OtherChunk(before: seq<byte>, after: seq<byte>, o: nat, word: seq<byte>, m: nat)
    requires |word| == 4 && o % 4 == 0 && o + 4 <= |before| && 4 * m + 4 <= |before| && 4 * m != o
    requires after == before[..o] + word + before[o + 4..]
    ensures Chunk(after, m) == Chunk(before, m)
  {
  }
}
