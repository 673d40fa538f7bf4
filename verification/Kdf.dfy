/** HMAC (RFC 2104) over BLAKE2s and WireGuard's key derivation. */
module KdfSpec {
  import opened Numbers
  import opened Words
  import opened Blake2sSpec

  /** WireGuard's HASH: the unkeyed 32-byte digest. */
  function Hash(data: seq<byte>): (d: seq<byte>)
    ensures |d| == 32
  {
    Blake2s(32, [], data)
  }

  /** WireGuard's MAC: the keyed 16-byte digest. */
  function Mac(key: seq<byte>, data: seq<byte>): (d: seq<byte>)
    requires |key| <= 32
    ensures |d| == 16
  {
    Blake2s(16, key, data)
  }

  /** RFC 2104: a key longer than a block is hashed first, then zero-padded to a block. */
  function BlockKey(key: seq<byte>): (k: seq<byte>)
    ensures |k| == 64
  {
    if |key| > 64 then Hash(key) + Zeros(32) else key + Zeros(64 - |key|)
  }

  function XorPad(k: seq<byte>, pad: byte): (p: seq<byte>)
    ensures |p| == |k|
  {
    seq(|k|, i requires 0 <= i < |k| => Xor8(k[i], pad))
  }

  function Hmac(key: seq<byte>, data: seq<byte>): (d: seq<byte>)
    ensures |d| == 32
  {
    var k := BlockKey(key);
    Hash(XorPad(k, 0x5C) + Hash(XorPad(k, 0x36) + data))
  }

  /** Link `n` (from 1) of the HMAC chain of an extracted key. */
  function Link(extracted: seq<byte>, n: byte): (d: seq<byte>)
    requires n >= 1
    ensures |d| == 32
  {
    Hmac(extracted, (if n == 1 then [] else Link(extracted, n - 1)) + [n])
  }

  /** Output `n` (from 1) of the key derivation of `input` under chaining key `ck`. */
  function Kdf(ck: seq<byte>, input: seq<byte>, n: byte): (d: seq<byte>)
    requires n >= 1
    ensures |d| == 32
  {
    Link(Hmac(ck, input), n)
  }
}

/** The hash, MAC, HMAC and KDF routines over buffers. */
module Kdf {
  import opened Numbers
  import opened Words
  import opened Blake2sSpec
  import opened KdfSpec
  import Blake2s

  /** The digest of two pieces absorbed one after the other. */
  method HashTwo(first: seq<byte>, second: seq<byte>) returns (out: seq<byte>)
    ensures out == Hash(first + second)
  {
    hide *;
    var s := Blake2s.Init(32, []);
    UnkeyedInput([]);
    s.Update(first);
    s.Update(second);
    UnkeyedInput(first + second);
    assert [] + first + second == first + second;
    Blake2s.OneShot(32, [], first + second);
    HashUnfold(first + second);
    out := s.Final();
  }

  lemma UnkeyedInput(data: seq<byte>)
    ensures KeyedInput([], data) == data
  {
  }

  lemma HashUnfold(data: seq<byte>)
    ensures Hash(data) == Blake2sSpec.Blake2s(32, [], data)
  {
  }

  method HashOne(data: seq<byte>) returns (out: seq<byte>)
    ensures out == Hash(data)
  {
    hide *;
    out := HashTwo(data, []);
    assert data + [] == data;
  }

  /** Keyed BLAKE2s with a 16-byte digest. */
  method Mac16(key: seq<byte>, data: seq<byte>) returns (out: seq<byte>)
    requires |key| == 32
    ensures out == Mac(key, data)
  {
    hide Digest, Start, Zeros;
    var s := Blake2s.Init(16, key);
    Blake2s.KeyedAppend(key, [], data);
    assert [] + data == data;
    s.Update(data);
    out := s.Final();
  }

  /** HMAC with the inner and outer pads built byte by byte. */
  method HmacBytes(key: seq<byte>, input: seq<byte>) returns (out: seq<byte>)
    ensures out == Hmac(key, input)
  {
    hide Hash, Xor8;
    var block: seq<byte>;
    if |key| > 64 {
      var hashed := HashOne(key);
      block := hashed + Zeros(32);
    } else {
      block := key + Zeros(64 - |key|);
    }
    var ipad := new byte[64](_ => 0);
    var opad := new byte[64](_ => 0);
    for i := 0 to 64
      invariant ipad[..i] == XorPad(block, 0x36)[..i]
      invariant opad[..i] == XorPad(block, 0x5C)[..i]
    {
      ipad[i] := Xor8(block[i], 0x36);
      opad[i] := Xor8(block[i], 0x5C);
    }
    assert ipad[..] == XorPad(block, 0x36) && opad[..] == XorPad(block, 0x5C);
    var inner := HashTwo(ipad[..], input);
    out := HashTwo(opad[..], inner);
  }

  /** `memcpy` into a 32-byte buffer. */
  method Fill(out: array<byte>, data: seq<byte>)
    requires out.Length == |data|
    modifies out
    ensures out[..] == data
  {
    for i := 0 to |data|
      invariant out[..i] == data[..i]
    {
      out[i] := data[i];
    }
  }

  lemma KdfUnfold(ck: seq<byte>, input: seq<byte>, n: byte)
    requires n >= 1
    ensures n == 1 ==> KdfSpec.Kdf(ck, input, n) == Hmac(Hmac(ck, input), [1])
    ensures n > 1 ==> KdfSpec.Kdf(ck, input, n) == Hmac(Hmac(ck, input), KdfSpec.Kdf(ck, input, n - 1) + [n])
  {
    hide Hmac;
    assert [] + [n] == [n];
  }

  /** One output. It may overwrite the chaining key it was derived from. */
  method Kdf1(ck: array<byte>, input: seq<byte>, out1: array<byte>)
    requires ck.Length == 32 && out1.Length == 32
    modifies out1
    ensures out1[..] == KdfSpec.Kdf(old(ck[..]), input, 1)
  {
    hide *;
    KdfUnfold(ck[..], input, 1);
    var tau0 := HmacBytes(ck[..], input);
    var first := HmacBytes(tau0, [1]);
    Fill(out1, first);
  }

  /** Two outputs. The second is computed after the first may have overwritten the
      chaining key, from the extracted key and the first output. */
  method Kdf2(ck: array<byte>, input: seq<byte>, out1: array<byte>, out2: array<byte>)
    requires ck.Length == 32 && out1.Length == 32 && out2.Length == 32 && out1 != out2
    modifies out1, out2
    ensures out1[..] == KdfSpec.Kdf(old(ck[..]), input, 1)
    ensures out2[..] == KdfSpec.Kdf(old(ck[..]), input, 2)
  {
    hide *;
    KdfUnfold(ck[..], input, 1);
    KdfUnfold(ck[..], input, 2);
    var tau0 := HmacBytes(ck[..], input);
    var first := HmacBytes(tau0, [1]);
    Fill(out1, first);
    var second := HmacBytes(tau0, out1[..] + [2]);
    Fill(out2, second);
  }

  method Kdf3(ck: array<byte>, input: seq<byte>, out1: array<byte>, out2: array<byte>, out3: array<byte>)
    requires ck.Length == 32 && out1.Length == 32 && out2.Length == 32 && out3.Length == 32
    requires out1 != out2 && out1 != out3 && out2 != out3
    modifies out1, out2, out3
    ensures out1[..] == KdfSpec.Kdf(old(ck[..]), input, 1)
    ensures out2[..] == KdfSpec.Kdf(old(ck[..]), input, 2)
    ensures out3[..] == KdfSpec.Kdf(old(ck[..]), input, 3)
  {
    hide *;
    KdfUnfold(ck[..], input, 1);
    KdfUnfold(ck[..], input, 2);
    KdfUnfold(ck[..], input, 3);
    var tau0 := HmacBytes(ck[..], input);
    var first := HmacBytes(tau0, [1]);
    Fill(out1, first);
    var second := HmacBytes(tau0, out1[..] + [2]);
    Fill(out2, second);
    var third := HmacBytes(tau0, out2[..] + [3]);
    Fill(out3, third);
  }
}
