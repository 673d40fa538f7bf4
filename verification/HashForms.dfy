/** BLAKE2s, HMAC and the key derivation once more, in the elementary terms of RFC 7693 and
    RFC 2104. */
module HashForms {
  import opened Bits
  import opened Numbers
  import opened Words
  import opened Blake2sSpec
  import KdfSpec

  /** Section 2.5: the parameter block says digest length, key length, fanout 1 and depth 1. */
  lemma StartForm(outLen: nat, keyLen: nat)
    requires outLen <= 32 && keyLen <= 32
    ensures var h := Start(outLen, keyLen);
            Xor32(h[0], IV[0]) == Word([outLen, keyLen, 1, 1]) && h[1..] == IV[1..]
  {
    hide Xor, Val;
    var p := 0x0101_0000 + 256 * keyLen + outLen;
    var bytes: seq<byte> := [outLen, keyLen, 1, 1];
    assert bytes == [bytes[0]] + bytes[1..] && bytes[1..] == [keyLen] + [1, 1] && [1, 1] == [1] + [1] && [1] == [1] + [];
    ValCons(outLen, bytes[1..]);
    ValCons(keyLen, [1, 1]);
    ValCons(1, [1]);
    ValCons(1, []);
    ValEmpty();
    XorTwice(p, IV[0]);
    XorSymmetric(IV[0], p);
    XorSymmetric(IV[0], Xor(p, IV[0]));
  }

  const PRIMES: seq<nat> := [2, 3, 5, 7, 11, 13, 17, 19]
  const ROOTS: seq<nat> := [1, 1, 2, 2, 3, 3, 4, 4]

  /** Section 2.6: the initialization vector is the first 32 fractional bits of the square
      roots of the first eight primes. */
  lemma InitializationForm(i: nat)
    requires i < 8
    ensures var root := ROOTS[i] * 0x1_0000_0000 + IV[i];
            root * root <= PRIMES[i] * 0x1_0000_0000_0000_0000 < (root + 1) * (root + 1)
  {
  }

  /** Section 2.7, a row of hexadecimal digits for each round. */
  const SCHEDULE: seq<string> := [
    "0123456789ABCDEF",
    "EA489FD61C02B753",
    "B8C052FDAE367194",
    "7931DCBE265A40F8",
    "905724AFE1BC683D",
    "2C6A0B834D75FE19",
    "C51FED4A0763928B",
    "DB7EC13950F4862A",
    "6FE9B308C2D714A5",
    "A2847615FB9E3CD0"]

  function HexDigit(c: char): int {
    if '0' <= c <= '9' then c as int - '0' as int else c as int - 'A' as int + 10
  }

  lemma ScheduleForm(r: nat, i: nat)
    requires r < 10 && i < 16
    ensures |SCHEDULE[r]| == 16 && Schedule(r, i) == HexDigit(SCHEDULE[r][i])
  {
    match r
    case 0 => RowOf(SIGMA[0], SCHEDULE[0], i);
    case 1 => RowOf(SIGMA[1], SCHEDULE[1], i);
    case 2 => RowOf(SIGMA[2], SCHEDULE[2], i);
    case 3 => RowOf(SIGMA[3], SCHEDULE[3], i);
    case 4 => RowOf(SIGMA[4], SCHEDULE[4], i);
    case 5 => RowOf(SIGMA[5], SCHEDULE[5], i);
    case 6 => RowOf(SIGMA[6], SCHEDULE[6], i);
    case 7 => RowOf(SIGMA[7], SCHEDULE[7], i);
    case 8 => RowOf(SIGMA[8], SCHEDULE[8], i);
    case 9 => RowOf(SIGMA[9], SCHEDULE[9], i);
  }

  predicate Reads(row: seq<nat>, text: string) {
    && |row| == |text| == 16
    && row[0] == HexDigit(text[0]) && row[1] == HexDigit(text[1]) && row[2] == HexDigit(text[2])
    && row[3] == HexDigit(text[3]) && row[4] == HexDigit(text[4]) && row[5] == HexDigit(text[5])
    && row[6] == HexDigit(text[6]) && row[7] == HexDigit(text[7]) && row[8] == HexDigit(text[8])
    && row[9] == HexDigit(text[9]) && row[10] == HexDigit(text[10]) && row[11] == HexDigit(text[11])
    && row[12] == HexDigit(text[12]) && row[13] == HexDigit(text[13]) && row[14] == HexDigit(text[14])
    && row[15] == HexDigit(text[15])
  }

  lemma RowOf(row: seq<nat>, text: string, i: nat)
    requires Reads(row, text) && i < 16
    ensures row[i] == HexDigit(text[i])
  {
    hide HexDigit;
  }

  /** Section 3.1, statement by statement. */
  lemma MixForm(q: Quad, x: u32, y: u32)
    ensures var a1 := Add32(Add32(q.a, q.b), x);
            var d1 := Rotr32(Xor32(q.d, a1), 16);
            var c1 := Add32(q.c, d1);
            var b1 := Rotr32(Xor32(q.b, c1), 12);
            var z := Mix(q, x, y);
            && z.a == Add32(Add32(a1, b1), y)
            && z.d == Rotr32(Xor32(d1, z.a), 8)
            && z.c == Add32(c1, z.d)
            && z.b == Rotr32(Xor32(b1, z.c), 7)
  {
    hide Add32, Xor32, Rotr32;
  }

  /** Section 3.2: the four places of each mixing step, columns first. */
  const PLACES: seq<seq<nat>> := [
    [0, 4, 8, 12], [1, 5, 9, 13], [2, 6, 10, 14], [3, 7, 11, 15],
    [0, 5, 10, 15], [1, 6, 11, 12], [2, 7, 8, 13], [3, 4, 9, 14]]

  lemma StepForm(v: Work, m: Work, r: nat, i: nat)
    requires r < 10 && i < 8
    ensures forall j :: 0 <= j < 4 ==> 0 <= PLACES[i][j] < 16
    ensures var p, w := PLACES[i], MixStep(v, m, r, i);
            && Quad(w[p[0]], w[p[1]], w[p[2]], w[p[3]])
               == Mix(Quad(v[p[0]], v[p[1]], v[p[2]], v[p[3]]), m[Schedule(r, 2 * i)], m[Schedule(r, 2 * i + 1)])
            && forall k :: 0 <= k < 16 && k !in p ==> w[k] == v[k]
  {
    hide Mix, Schedule;
  }

  lemma RoundsForm(v: Work, m: Work, n: nat, i: nat)
    requires n < 10 && i < 8
    ensures Rounds(v, m, 0) == v && Rounds(v, m, n + 1) == MixSteps(Rounds(v, m, n), m, n, 8)
    ensures MixSteps(v, m, n, 0) == v && MixSteps(v, m, n, i + 1) == MixStep(MixSteps(v, m, n, i), m, n, i)
  {
    hide MixStep;
  }

  /** Section 3.2: the work vector is the state and the initialization vector, with the byte
      count and the last-block flag xor-ed in. */
  lemma InitialForm(h: State, t: nat, last: bool)
    ensures var v := Initial(h, t, last);
            && (forall i :: 0 <= i < 8 ==> v[i] == h[i])
            && (forall i :: 0 <= i < 4 ==> v[8 + i] == IV[i]) && v[15] == IV[7]
            && v[12] == Xor(IV[4], t % 0x1_0000_0000)
            && v[13] == Xor(IV[5], t / 0x1_0000_0000 % 0x1_0000_0000)
            && v[14] == if last then Xor(IV[6], 0xffff_ffff) else IV[6]
  {
    hide Xor;
  }

  lemma CompressForm(h: State, block: seq<byte>, t: nat, last: bool, i: nat)
    requires |block| == 64 && i < 8
    ensures var v := Rounds(Initial(h, t, last), WordsOf(block), 10);
            Compress(h, block, t, last)[i] == Xor(h[i], Xor(v[i], v[8 + i]))
  {
    hide Xor, Rounds, Initial, WordsOf;
  }

  /** Section 3.3: data that fits into one block, the empty data included. */
  lemma OneBlock(outLen: nat, data: seq<byte>, pad: seq<byte>)
    requires outLen <= 32 && |data| + |pad| == 64 && forall i :: 0 <= i < |pad| ==> pad[i] == 0
    ensures Blake2s(outLen, [], data) == BytesOf(Compress(Start(outLen, 0), data + pad, |data|, true))[..outLen]
  {
    hide Compress, Start, BytesOf;
    assert FullBlocks(|data|) == 0;
    assert data[0..] == data && pad == Zeros(64 - |data|);
  }

  /** Data of two blocks: the first one is counted and not last. */
  lemma TwoBlocks(outLen: nat, data: seq<byte>, pad: seq<byte>)
    requires outLen <= 32 && 64 < |data| <= 128 && |data| + |pad| == 128
    requires forall i :: 0 <= i < |pad| ==> pad[i] == 0
    ensures Blake2s(outLen, [], data)
            == BytesOf(Compress(Compress(Start(outLen, 0), data[..64], 64, false), data[64..] + pad, |data|, true))[..outLen]
  {
    hide Compress, Start, BytesOf;
    assert FullBlocks(|data|) == 1;
    assert pad == Zeros(64 - |data[64..]|);
    assert Absorb(Start(outLen, 0), data, 1) == Compress(Start(outLen, 0), data[..64], 64, false) by {
      assert Absorb(Start(outLen, 0), data, 0) == Start(outLen, 0);
      assert data[0..64] == data[..64];
    }
  }

  /** One block more is one compression more, at any length. */
  lemma BlockAfterBlock(h: State, input: seq<byte>, n: nat)
    requires 64 * n + 64 <= |input|
    ensures Absorb(h, input, 0) == h
    ensures Absorb(h, input, n + 1)
            == Compress(Absorb(h, input, n), input[64 * n..64 * n + 64], 64 * n + 64, false)
  {
    hide Compress;
  }

  /** The digest: all blocks but the last one, then the last one, padded, flagged and with the
      count of all bytes. */
  lemma DigestForm(h: State, input: seq<byte>, outLen: nat, n: nat, pad: seq<byte>)
    requires outLen <= 32 && 64 * n <= |input| <= 64 * n + 64 && (|input| == 64 * n ==> n == 0)
    requires |pad| == 64 * n + 64 - |input| && forall i :: 0 <= i < |pad| ==> pad[i] == 0
    ensures Digest(h, input, outLen)
            == BytesOf(Compress(Absorb(h, input, n), input[64 * n..] + pad, |input|, true))[..outLen]
  {
    hide Compress, Absorb, BytesOf;
    assert FullBlocks(|input|) == n;
    assert pad == Zeros(64 - |input[64 * n..]|);
  }

  /** A key is a block of its own, its length a parameter, and hashing goes on from there. */
  lemma KeyedForm(outLen: nat, key: seq<byte>, data: seq<byte>, pad: seq<byte>)
    requires outLen <= 32 && 0 < |key| <= 32 && |key| + |pad| == 64
    requires forall i :: 0 <= i < |pad| ==> pad[i] == 0
    ensures Blake2s(outLen, key, data) == Digest(Start(outLen, |key|), key + pad + data, outLen)
  {
    hide Digest, Start;
    assert pad == Zeros(64 - |key|);
  }

  /** WireGuard's three hashes. */
  lemma WireGuardForm(key: seq<byte>, data: seq<byte>)
    requires |key| == 32
    ensures KdfSpec.Hash(data) == Blake2s(32, [], data)
    ensures KdfSpec.Mac(key, data) == Blake2s(16, key, data)
  {
  }

  /** RFC 2104 for a key of at most a block: two pads, inner and outer. */
  lemma HmacForm(key: seq<byte>, data: seq<byte>, inner: seq<byte>, outer: seq<byte>)
    requires |key| <= 64 && |inner| == 64 && |outer| == 64
    requires forall i :: 0 <= i < 64 ==> inner[i] == Xor(if i < |key| then key[i] else 0, 54)
    requires forall i :: 0 <= i < 64 ==> outer[i] == Xor(if i < |key| then key[i] else 0, 92)
    ensures KdfSpec.Hmac(key, data) == KdfSpec.Hash(outer + KdfSpec.Hash(inner + data))
  {
    hide Xor, KdfSpec.Hash;
    var k := KdfSpec.BlockKey(key);
    assert forall i :: 0 <= i < 64 ==> k[i] == if i < |key| then key[i] else 0;
    assert inner == KdfSpec.XorPad(k, 54) && outer == KdfSpec.XorPad(k, 92);
  }

  /** A longer key is hashed first. */
  lemma LongKeyForm(key: seq<byte>, data: seq<byte>)
    requires |key| > 64
    ensures KdfSpec.Hmac(key, data) == KdfSpec.Hmac(KdfSpec.Hash(key), data)
  {
    hide KdfSpec.Hash, KdfSpec.XorPad;
  }

  /** The chain of section 5.4 of the WireGuard whitepaper. */
  lemma DerivationForm(c: seq<byte>, input: seq<byte>)
    ensures var t0 := KdfSpec.Hmac(c, input);
            var t1 := KdfSpec.Hmac(t0, [1]);
            var t2 := KdfSpec.Hmac(t0, t1 + [2]);
            && KdfSpec.Kdf(c, input, 1) == t1 && KdfSpec.Kdf(c, input, 2) == t2
            && KdfSpec.Kdf(c, input, 3) == KdfSpec.Hmac(t0, t2 + [3])
  {
    hide KdfSpec.Hmac;
    assert [] + [1] == [1];
  }
}
