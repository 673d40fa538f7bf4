/** The specifications once more, in the elementary terms of the standards: masks, digits,
    positions and equations instead of the functions the implementation is stated with. */
module CryptoForms {
  import opened Bits
  import opened BitLaws
  import opened Numbers
  import opened Words
  import Poly1305Spec
  import Poly1305
  import Salsa20Spec
  import NaClBoxSpec

  // Poly1305.

  /** The mask of section 2.5 of RFC 8439. */
  const CLAMP: nat := 0x0fff_fffc_0fff_fffc_0fff_fffc_0fff_ffff

  const CLAMP_BYTES: seq<byte> := [255, 255, 255, 15, 252, 255, 255, 15, 252, 255, 255, 15, 252, 255, 255, 15]

  lemma ClampBytes()
    ensures Val(CLAMP_BYTES) == CLAMP
  {
    hide Val, Pow256;
    Four(255, 255, 255, 15);
    Four(252, 255, 255, 15);
    var low, high: seq<byte> := [255, 255, 255, 15], [252, 255, 255, 15];
    assert CLAMP_BYTES == low + (high + (high + high));
    Joined(high, high);
    Joined(high, high + high);
    Joined(low, high + (high + high));
    WordPow();
  }

  lemma Four(a: byte, b: byte, c: byte, d: byte)
    ensures Val([a, b, c, d]) == a as int + 256 * (b as int) + 65536 * (c as int) + 0x100_0000 * (d as int)
  {
    hide Val;
    assert [a, b, c, d] == [a] + [b, c, d] && [b, c, d] == [b] + [c, d] && [c, d] == [c] + [d] && [d] == [d] + [];
    ValCons(a, [b, c, d]);
    ValCons(b, [c, d]);
    ValCons(c, [d]);
    ValCons(d, []);
    ValEmpty();
  }

  lemma {:induction false} Joined(a: seq<int>, b: seq<int>)
    ensures Val(a + b) == Val(a) + Pow256(|a|) * Val(b)
  {
    hide Val, Pow256;
    if b == [] {
      assert a + b == a;
      ValEmpty();
    } else {
      var n := |b| - 1;
      Joined(a, b[..n]);
      assert a + b == (a + b[..n]) + [b[n]] && b == b[..n] + [b[n]];
      ValAppend(a + b[..n], b[n]);
      ValAppend(b[..n], b[n]);
      PowerOfSum(|a|, n);
      Regroup(Pow256(|a|), Val(b[..n]), b[n], Pow256(n));
    }
  }

  lemma {:induction false} PowerOfSum(a: nat, b: nat)
    ensures Pow256(a + b) == Pow256(a) * Pow256(b)
  {
    if a > 0 {
      PowerOfSum(a - 1, b);
      TimesTimes(Pow256(a - 1), Pow256(b));
    }
  }

  lemma TimesTimes(p: int, q: int)
    ensures (256 * p) * q == 256 * (p * q)
  {
  }

  lemma Regroup(p: int, v: int, d: int, q: int)
    ensures p * (v + d * q) == p * v + d * (p * q)
  {
  }

  lemma {:induction false} AndSplit(a: nat, b: nat, c: nat, d: nat, n: nat)
    requires b < Pow2(n) && d < Pow2(n)
    ensures And(a * Pow2(n) + b, c * Pow2(n) + d) == And(a, c) * Pow2(n) + And(b, d)
  {
    hide And;
    if n == 0 {
      AndZero(0);
    } else {
      DoubledTop(a, n);
      DoubledTop(c, n);
      DoubledTop(And(a, c), n);
      HalfBelow(b, n);
      HalfBelow(d, n);
      var x, y := a * Pow2(n - 1), c * Pow2(n - 1);
      AndUnfold(2 * x + b, 2 * y + d);
      HalfOfSum(x, b);
      HalfOfSum(y, d);
      AndUnfold(b, d);
      AndSplit(a, b / 2, c, d / 2, n - 1);
    }
  }

  /** And works digit by digit. */
  lemma {:induction false} AndOfDigits(a: seq<byte>, m: seq<byte>, c: seq<byte>)
    requires |a| == |m| == |c| && forall i :: 0 <= i < |a| ==> c[i] == And(a[i], m[i])
    ensures Val(a) >= 0 && Val(m) >= 0 && And(Val(a), Val(m)) == Val(c)
  {
    hide Val, And;
    ValBound(a);
    ValBound(m);
    if a == [] {
      ValEmpty();
      AndZero(0);
    } else {
      var x, y, z := a[1..], m[1..], c[1..];
      AndOfDigits(x, y, z);
      assert a == [a[0]] + x && m == [m[0]] + y && c == [c[0]] + z;
      ValCons(a[0], x);
      ValCons(m[0], y);
      ValCons(c[0], z);
      Pow2Values();
      AndSplit(Val(x), a[0], Val(y), m[0], 8);
    }
  }

  lemma ClampOfByte(i: nat, v: byte)
    requires i < 16
    ensures Poly1305Spec.ClampByte(i, v) == And(v, CLAMP_BYTES[i])
  {
    hide And;
    MaskFifteen(v);
    MaskTwoFiftyTwo(v);
    Pow2Values();
    AndLowMask(v, 8);
  }

  /** For every key the multiplier is the first half of the key under that mask. */
  lemma ClampIsMask(key: seq<byte>)
    requires |key| == 32
    ensures Val(key[..16]) >= 0
    ensures Val(Poly1305Spec.ClampedDigits(key)) == And(Val(key[..16]), 0x0fff_fffc_0fff_fffc_0fff_fffc_0fff_ffff)
  {
    hide Val, And, Poly1305Spec.ClampByte;
    var digits := Poly1305Spec.ClampedDigits(key);
    forall i | 0 <= i < 16
      ensures digits[..16][i] == And(key[..16][i], CLAMP_BYTES[i])
    {
      ClampOfByte(i, key[i]);
    }
    ValZeroTail(digits, 16);
    AndOfDigits(key[..16], CLAMP_BYTES, digits[..16]);
    ClampBytes();
  }

  /** The message as a polynomial in `r`, block by block from its end, with nothing reduced:
      each block of 16 bytes, or what is left, with a one byte appended. */
  function Polynomial(r: int, m: seq<byte>): int {
    if m == [] then 0
    else
      var k := (|m| - 1) / 16 * 16;
      (Polynomial(r, m[..k]) + Val(m[k..] + [1])) * r
  }

  lemma {:induction false} AbsorbInTwo(acc: int, r: int, a: seq<byte>, b: seq<byte>)
    requires 0 <= acc < Poly1305Spec.P && |a| % 16 == 0
    ensures Poly1305Spec.Absorb(acc, r, a + b) == Poly1305Spec.Absorb(Poly1305Spec.Absorb(acc, r, a), r, b)
    decreases |a|
  {
    hide Poly1305Spec.AbsorbBlock;
    if a == [] {
      assert a + b == b;
    } else {
      assert (a + b)[..16] == a[..16] && (a + b)[16..] == a[16..] + b;
      AbsorbInTwo(Poly1305Spec.AbsorbBlock(acc, r, a[..16]), r, a[16..], b);
    }
  }

  lemma BlockWithOne(block: seq<byte>)
    ensures Poly1305Spec.BlockNumber(block) == Val(block + [1])
  {
    ValAppend(block, 1);
  }

  lemma {:induction false} AbsorbIsPolynomial(r: int, m: seq<byte>)
    ensures Poly1305Spec.Absorb(0, r, m) == Polynomial(r, m) % 0x3_ffff_ffff_ffff_ffff_ffff_ffff_ffff_fffb
  {
    hide Val, Polynomial, Poly1305Spec.Absorb;
    PolynomialStep(r, m);
    if m == [] {
      Poly1305.AbsorbNothing(0, r);
    } else {
      var k := (|m| - 1) / 16 * 16;
      var last := m[k..];
      AbsorbIsPolynomial(r, m[..k]);
      assert m == m[..k] + last;
      AbsorbInTwo(0, r, m[..k], last);
      OneBlock(Poly1305Spec.Absorb(0, r, m[..k]), r, last);
      BlockWithOne(last);
      Poly1305.ModuloProduct(Polynomial(r, m[..k]), Val(last + [1]), r, 0);
    }
  }

  lemma PolynomialStep(r: int, m: seq<byte>)
    ensures m == [] ==> Polynomial(r, m) == 0
    ensures m != [] ==> var k := (|m| - 1) / 16 * 16;
                        k % 16 == 0 && 0 <= k < |m| <= k + 16
                        && Polynomial(r, m) == (Polynomial(r, m[..k]) + Val(m[k..] + [1])) * r
  {
    hide Val;
  }

  lemma OneBlock(acc: int, r: int, block: seq<byte>)
    requires 0 <= acc < Poly1305Spec.P && 0 < |block| <= 16
    ensures Poly1305Spec.Absorb(acc, r, block)
            == ((acc + Poly1305Spec.BlockNumber(block)) * r) % Poly1305Spec.P
  {
    hide Poly1305Spec.BlockNumber;
    assert block[..|block|] == block && block[|block|..] == [];
    var next := Poly1305Spec.AbsorbBlock(acc, r, block);
    assert Poly1305Spec.Absorb(next, r, []) == next;
  }

  /** Section 2.5 of RFC 8439: the tag of any message under any key. */
  lemma TagForm(m: seq<byte>, key: seq<byte>)
    requires |key| == 32
    ensures Val(key[..16]) >= 0
    ensures var r := And(Val(key[..16]), 0x0fff_fffc_0fff_fffc_0fff_fffc_0fff_ffff);
            var sum := Polynomial(r, m) % 0x3_ffff_ffff_ffff_ffff_ffff_ffff_ffff_fffb + Val(key[16..]);
            sum >= 0
            && Poly1305Spec.Tag(m, key) == LeBytes(16, sum % 0x1_0000_0000_0000_0000_0000_0000_0000_0000)
  {
    hide Val, And, LeBytes, Polynomial, Poly1305Spec.ClampedDigits, Poly1305Spec.Absorb, Pow256;
    ClampIsMask(key);
    ValBound(key[16..]);
    AbsorbIsPolynomial(Val(Poly1305Spec.ClampedDigits(key)), m);
    Poly1305.PowValues();
  }

  // Salsa20.

  /** Section 3 of the Salsa20 specification, equation by equation. */
  lemma QuarterRoundForm(y: Salsa20Spec.Quad)
    ensures var z := Salsa20Spec.QuarterRound(y);
            && z.b == Xor(y.b, Rotl32((y.a + y.d) % 0x1_0000_0000, 7))
            && z.c == Xor(y.c, Rotl32((z.b + y.a) % 0x1_0000_0000, 9))
            && z.d == Xor(y.d, Rotl32((z.c + z.b) % 0x1_0000_0000, 13))
            && z.a == Xor(y.a, Rotl32((z.d + z.c) % 0x1_0000_0000, 18))
  {
    hide Rotl32, Xor;
  }

  /** Sections 4, 5 and 6: which words a row, a column and a double round take together. */
  lemma RoundForms(x: Salsa20Spec.Block)
    ensures var z := Salsa20Spec.RowRound(x);
            && Salsa20Spec.Quad(z[0], z[1], z[2], z[3]) == Salsa20Spec.QuarterRound(Salsa20Spec.Quad(x[0], x[1], x[2], x[3]))
            && Salsa20Spec.Quad(z[5], z[6], z[7], z[4]) == Salsa20Spec.QuarterRound(Salsa20Spec.Quad(x[5], x[6], x[7], x[4]))
            && Salsa20Spec.Quad(z[10], z[11], z[8], z[9]) == Salsa20Spec.QuarterRound(Salsa20Spec.Quad(x[10], x[11], x[8], x[9]))
            && Salsa20Spec.Quad(z[15], z[12], z[13], z[14])
               == Salsa20Spec.QuarterRound(Salsa20Spec.Quad(x[15], x[12], x[13], x[14]))
    ensures var z := Salsa20Spec.ColumnRound(x);
            && Salsa20Spec.Quad(z[0], z[4], z[8], z[12]) == Salsa20Spec.QuarterRound(Salsa20Spec.Quad(x[0], x[4], x[8], x[12]))
            && Salsa20Spec.Quad(z[5], z[9], z[13], z[1]) == Salsa20Spec.QuarterRound(Salsa20Spec.Quad(x[5], x[9], x[13], x[1]))
            && Salsa20Spec.Quad(z[10], z[14], z[2], z[6]) == Salsa20Spec.QuarterRound(Salsa20Spec.Quad(x[10], x[14], x[2], x[6]))
            && Salsa20Spec.Quad(z[15], z[3], z[7], z[11]) == Salsa20Spec.QuarterRound(Salsa20Spec.Quad(x[15], x[3], x[7], x[11]))
    ensures Salsa20Spec.DoubleRound(x) == Salsa20Spec.RowRound(Salsa20Spec.ColumnRound(x))
  {
    hide Salsa20Spec.QuarterRound;
  }

  /** Ten double rounds are ten. */
  lemma TenRounds(x: Salsa20Spec.Block, n: nat)
    ensures Salsa20Spec.DoubleRounds(x, 0) == x
    ensures Salsa20Spec.DoubleRounds(x, n + 1) == Salsa20Spec.DoubleRound(Salsa20Spec.DoubleRounds(x, n))
  {
    hide Salsa20Spec.DoubleRound;
  }

  lemma {:induction false} WordInBytes(w: seq<u32>, i: nat)
    requires i < |w|
    ensures BytesOf(w)[4 * i..4 * i + 4] == LeBytes(4, w[i]) == Chunk(BytesOf(w), i)
  {
    hide LeBytes;
    var n := |w| - 1;
    var front := BytesOf(w[..n]);
    assert BytesOf(w) == front + LeBytes(4, w[n]);
    if i < n {
      WordInBytes(w[..n], i);
      assert BytesOf(w)[4 * i..4 * i + 4] == front[4 * i..4 * i + 4];
    }
  }

  /** Section 8: every word of the hash is the input word plus the word after ten double
      rounds, modulo 2^32, little-endian. */
  lemma HashForm(b: seq<byte>, i: nat)
    requires |b| == 64 && i < 16
    ensures var x := WordsOf(b);
            var z := Salsa20Spec.DoubleRounds(x, 10);
            Chunk(Salsa20Spec.Hash(b), i) == LeBytes(4, (x[i] as int + z[i] as int) % 0x1_0000_0000)
  {
    hide *;
    var x := WordsOf(b);
    var z := Salsa20Spec.DoubleRounds(x, 10);
    HashUnfold(b);
    SumOfWords(x, z, i);
    WordInBytes(Salsa20Spec.AddBlocks(x, z), i);
  }

  lemma HashUnfold(b: seq<byte>)
    requires |b| == 64
    ensures Salsa20Spec.Hash(b)
            == BytesOf(Salsa20Spec.AddBlocks(WordsOf(b), Salsa20Spec.DoubleRounds(WordsOf(b), 10)))
  {
    hide Salsa20Spec.DoubleRounds, Salsa20Spec.AddBlocks, WordsOf, BytesOf;
  }

  lemma SumOfWords(x: Salsa20Spec.Block, z: Salsa20Spec.Block, i: nat)
    requires i < 16
    ensures Salsa20Spec.AddBlocks(x, z)[i] == (x[i] as int + z[i] as int) % 0x1_0000_0000
  {
  }

  /** HSalsa20: the eight words 0, 5, 10, 15, 6, 7, 8, 9 after the rounds. */
  lemma HSalsaForm(key: seq<byte>, input: seq<byte>)
    requires |key| == 32 && |input| == 16
    ensures var z := Salsa20Spec.DoubleRounds(WordsOf(Salsa20Spec.Layout(key, input, Salsa20Spec.SIGMA)), 10);
            var h := Salsa20Spec.HSalsa20(key, input);
            && h[0..4] == LeBytes(4, z[0]) && h[4..8] == LeBytes(4, z[5])
            && h[8..12] == LeBytes(4, z[10]) && h[12..16] == LeBytes(4, z[15])
            && h[16..20] == LeBytes(4, z[6]) && h[20..24] == LeBytes(4, z[7])
            && h[24..28] == LeBytes(4, z[8]) && h[28..32] == LeBytes(4, z[9])
  {
    hide LeBytes, Salsa20Spec.DoubleRounds, WordsOf, BytesOf, Salsa20Spec.Layout;
    var z := Salsa20Spec.DoubleRounds(WordsOf(Salsa20Spec.Layout(key, input, Salsa20Spec.SIGMA)), 10);
    var words := [z[0], z[5], z[10], z[15], z[6], z[7], z[8], z[9]];
    WordInBytes(words, 0);
    WordInBytes(words, 1);
    WordInBytes(words, 2);
    WordInBytes(words, 3);
    WordInBytes(words, 4);
    WordInBytes(words, 5);
    WordInBytes(words, 6);
    WordInBytes(words, 7);
  }

  /** The constant is a text. */
  lemma ConstantForm(i: nat)
    requires i < 16
    ensures Salsa20Spec.SIGMA[i] == "expand 32-byte k"[i] as int
  {
  }

  /** Section 10 and the extended nonce: where byte `i` of the keystream comes from. */
  lemma KeystreamForm(key: seq<byte>, nonce: seq<byte>, block: nat, i: nat)
    requires |key| == 32 && |nonce| == 24 && i < 64
    ensures var subkey := Salsa20Spec.HSalsa20(key, nonce[..16]);
            Salsa20Spec.XStreamByte(key, nonce, 64 * block + i)
            == Salsa20Spec.Hash(Salsa20Spec.Layout(subkey, nonce[16..24] + LeBytes(8, block), Salsa20Spec.SIGMA))[i]
  {
    hide LeBytes, Salsa20Spec.Hash, Salsa20Spec.Layout, Salsa20Spec.HSalsa20;
    DivModUnique(64 * block + i, 64, block, i);
    assert nonce[16..24] == nonce[16..];
  }

  /** A sealed box, byte by byte: the tag of what follows it under the first 32 keystream
      bytes, then the message xor-ed with the keystream from byte 32 on. */
  lemma SealForm(message: seq<byte>, nonce: seq<byte>, key: seq<byte>, tagKey: seq<byte>)
    requires |key| == 32 && |nonce| == 24 && |tagKey| == 32
    requires forall i :: 0 <= i < 32 ==> tagKey[i] == Salsa20Spec.XStreamByte(key, nonce, i)
    ensures var box := NaClBoxSpec.Seal(message, nonce, key);
            && box[..16] == Poly1305Spec.Tag(box[16..], tagKey)
            && forall i :: 0 <= i < |message| ==>
                 box[16 + i] == Xor(message[i], Salsa20Spec.XStreamByte(key, nonce, 32 + i))
  {
    hide Poly1305Spec.Tag, Salsa20Spec.XStreamByte, Xor;
    var cipher := NaClBoxSpec.XorStream(message, key, nonce, 32);
    var box := NaClBoxSpec.Seal(message, nonce, key);
    assert NaClBoxSpec.OneTimeKey(key, nonce) == tagKey;
    assert box[16..] == cipher;
    forall i | 0 <= i < |message|
      ensures box[16 + i] == Xor(message[i], Salsa20Spec.XStreamByte(key, nonce, 32 + i))
    {
      assert box[16 + i] == cipher[i];
    }
  }
}
