/** What the NaCl box computes: XSalsa20 encryption and a Poly1305 tag whose one-time
    key is the first half-block of the keystream. */
module NaClBoxSpec {
  import opened Options
  import opened Numbers
  import opened Words
  import opened Salsa20Spec
  import Poly1305Spec

  /** `data` xor-ed with the XSalsa20 keystream from byte `offset` on. */
  function XorStream(data: seq<byte>, key: seq<byte>, nonce: seq<byte>, offset: nat): (out: seq<byte>)
    requires |key| == 32 && |nonce| == 24
    ensures |out| == |data|
  {
    hide *;
    seq(|data|, i requires 0 <= i < |data| => Xor8(data[i], XStreamByte(key, nonce, offset + i)))
  }

  /** The one-time authenticator key of a nonce. */
  function OneTimeKey(key: seq<byte>, nonce: seq<byte>): (k: seq<byte>)
    requires |key| == 32 && |nonce| == 24
    ensures |k| == 32
  {
    hide *;
    seq(32, i requires 0 <= i < 32 => XStreamByte(key, nonce, i))
  }

  /** Tag, then ciphertext. */
  function Seal(message: seq<byte>, nonce: seq<byte>, key: seq<byte>): (box: seq<byte>)
    requires |key| == 32 && |nonce| == 24
    ensures |box| == |message| + 16
  {
    var cipher := XorStream(message, key, nonce, 32);
    Poly1305Spec.Tag(cipher, OneTimeKey(key, nonce)) + cipher
  }

  function Open(box: seq<byte>, nonce: seq<byte>, key: seq<byte>): Option<seq<byte>>
    requires |key| == 32 && |nonce| == 24
  {
    if |box| < 16 then None
    else if Poly1305Spec.Tag(box[16..], OneTimeKey(key, nonce)) != box[..16] then None
    else Some(XorStream(box[16..], key, nonce, 32))
  }

  /** Encrypting twice with the same key, nonce and position is the identity. */
  lemma XorStreamTwice(data: seq<byte>, key: seq<byte>, nonce: seq<byte>, offset: nat)
    requires |key| == 32 && |nonce| == 24
    ensures XorStream(XorStream(data, key, nonce, offset), key, nonce, offset) == data
  {
    hide Xor8, XStreamByte;
    forall i | 0 <= i < |data|
      ensures XorStream(XorStream(data, key, nonce, offset), key, nonce, offset)[i] == data[i]
    {
      Xor8Twice(data[i], XStreamByte(key, nonce, offset + i));
    }
  }

  /** Opening accepts exactly the sealed messages and returns the message. */
  lemma OpenAcceptsExactlySealed(box: seq<byte>, message: seq<byte>, nonce: seq<byte>, key: seq<byte>)
    requires |key| == 32 && |nonce| == 24
    ensures Open(box, nonce, key) == Some(message) <==> box == Seal(message, nonce, key)
  {
    hide XorStream, OneTimeKey, Poly1305Spec.Tag;
    XorStreamTwice(message, key, nonce, 32);
    if |box| >= 16 {
      XorStreamTwice(box[16..], key, nonce, 32);
      assert box == box[..16] + box[16..];
    }
    var sealed := Seal(message, nonce, key);
    assert sealed[16..] == XorStream(message, key, nonce, 32);
  }

  /** A prefix of the keystream does not depend on how much of it is asked for, and a
      longer message extends a shorter one's ciphertext. */
  lemma XorStreamPrefix(data: seq<byte>, more: seq<byte>, key: seq<byte>, nonce: seq<byte>, offset: nat)
    requires |key| == 32 && |nonce| == 24
    ensures XorStream(data + more, key, nonce, offset)
            == XorStream(data, key, nonce, offset) + XorStream(more, key, nonce, offset + |data|)
  {
    hide Xor8, XStreamByte;
  }
}

/** The secretbox and box operations over byte buffers. */
module NaClBox {
  import opened Options
  import opened Bits
  import opened Numbers
  import opened Words
  import opened Salsa20Spec
  import opened NaClBoxSpec
  import Salsa20
  import Poly1305

  /** Constant-time comparison: 0 when the buffers agree, -1 when they differ. */
  method Compare(x: seq<byte>, y: seq<byte>) returns (r: int)
    requires |x| == |y|
    ensures r == if x == y then 0 else -1
  {
    hide *;
    var d: u32 := 0;
    for i := 0 to |x|
      invariant d < 256
      invariant d == 0 <==> x[..i] == y[..i]
    {
      Pow2Values();
      XorBound(x[i], y[i], 8);
      XorZero(x[i], y[i]);
      OrBound(d, Xor(x[i], y[i]), 8);
      OrZero(d, Xor(x[i], y[i]));
      d := Or(d, Xor(x[i], y[i]));
      assert x[..i + 1] == x[..i] + [x[i]] && y[..i + 1] == y[..i] + [y[i]];
    }
    assert x[..|x|] == x && y[..|y|] == y;
    var borrow := (d - 1) % 0x1_0000_0000 / 256;
    LowBit(borrow);
    var word := (And(1, borrow) - 1) % 0x1_0000_0000;
    r := if word >= 0x8000_0000 then word - 0x1_0000_0000 else word;
  }

  lemma LowBit(x: nat)
    ensures And(1, x) == x % 2
  {
  }

  lemma OrZero(x: nat, y: nat)
    ensures Or(x, y) == 0 <==> x == 0 && y == 0
  {
  }

  /** The byte-wise carry loop is a 64-bit little-endian increment. */
  method Increment(z: array<byte>, ghost count: nat)
    requires z.Length == 16
    requires z[8..] == LeBytes(8, count)
    modifies z
    ensures z[..8] == old(z[..8])
    ensures z[8..] == LeBytes(8, count + 1)
  {
    hide *;
    ghost var before := z[8..];
    ValEmpty();
    assert before[..0] == [] && z[8..8] == [];
    var u: u32 := 1;
    for i := 8 to 16
      invariant 0 <= u <= 1
      invariant z[..8] == old(z[..8]) && z[i..] == before[i - 8..]
      invariant 1 + Val(before[..i - 8]) == Val(z[8..i]) + u * Pow256(i - 8)
    {
      ghost var j := i - 8;
      ghost var sum := u + z[i];
      CarryStep(1 + Val(before[..j]), z[8..i], u, z[i], sum % 256, sum / 256);
      ghost var done := z[8..i];
      assert z[i] == z[i..][0] == before[j];
      assert before[..j + 1] == before[..j] + [before[j]];
      ValAppend(before[..j], before[j]);
      u := u + z[i];
      z[i] := u % 256;
      assert z[8..i + 1] == done + [u % 256];
      u := u / 256;
    }
    assert before[..8] == before && z[8..16] == z[8..];
    IncrementModulo(before, z[8..], u, count);
  }

  lemma IncrementModulo(before: seq<byte>, after: seq<byte>, u: int, count: nat)
    requires |after| == 8 && before == LeBytes(8, count)
    requires 1 + Val(before) == Val(after) + u * Pow256(8)
    ensures after == LeBytes(8, count + 1)
  {
    hide Val, LeBytes, Pow256;
    var m := Pow256(8);
    ValOfLeBytes(8, count);
    ValBound(after);
    LeBytesOfVal(after);
    LeBytesMod(8, count + 1);
    var q := count / m;
    assert count == q * m + count % m;
    assert count + 1 == q * m + u * m + Val(after);
    assert q * m + u * m == (q + u) * m;
    DivModUnique(count + 1, m, q + u, Val(after));
  }

  /** One block: fill `x` with keystream and xor `length` bytes at `pos`. */
  method XorBlock(c: array<byte>, m: array?<byte>, pos: nat, length: nat,
                  z: array<byte>, x: array<byte>, n: seq<byte>, k: seq<byte>)
    requires pos % 64 == 0 && length <= 64
    requires pos + length <= c.Length && (m != null ==> pos + length <= m.Length)
    requires |n| == 8 && |k| == 32
    requires z.Length == 16 && x.Length == 64
    requires z != c && x != c && z != x && m != x && m != z
    requires z[..8] == n && z[8..] == LeBytes(8, pos / 64)
    modifies c, x
    ensures forall i :: pos <= i < pos + length ==>
      c[i] == Xor8(if m == null then 0 else old(m[i]), StreamByte(k, n, i))
    ensures forall i :: 0 <= i < c.Length && !(pos <= i < pos + length) ==> c[i] == old(c[i])
  {
    hide Xor8, LeBytes, Expand, Salsa20Spec.Hash, Layout;
    assert z[..] == n + LeBytes(8, pos / 64);
    Salsa20.Core(x, z[..], k, SIGMA, false);
    ghost var stream := Expand(k, n + LeBytes(8, pos / 64));
    ExpandIsHash(k, n + LeBytes(8, pos / 64));
    for i := 0 to length
      invariant x[..] == stream
      invariant forall l :: 0 <= l < c.Length ==>
        c[l] == if pos <= l < pos + i then Xor8(if m == null then 0 else old(m[l]), stream[l - pos]) else old(c[l])
      invariant m != null && m != c ==> forall l :: 0 <= l < m.Length ==> m[l] == old(m[l])
    {
      c[pos + i] := Xor8(if m == null then 0 else m[pos + i], x[i]);
    }
    forall i | pos <= i < pos + length
      ensures stream[i - pos] == StreamByte(k, n, i)
    {
      BlockPosition(pos, i);
    }
  }

  lemma ExpandIsHash(k: seq<byte>, input: seq<byte>)
    requires |k| == 32 && |input| == 16
    ensures Expand(k, input) == Salsa20Spec.Hash(Layout(k, input, SIGMA))
  {
  }

  lemma BlockPosition(pos: nat, i: nat)
    requires pos % 64 == 0 && pos <= i < pos + 64
    ensures i / 64 == pos / 64 && i % 64 == i - pos
  {
  }

  /** Xors `b` message bytes (zeros for a null message) with the Salsa20 keystream.
      The output may be the message buffer itself. */
  method StreamXor(c: array<byte>, m: array?<byte>, b: nat, n: seq<byte>, k: seq<byte>)
    requires b <= c.Length && (m != null ==> b <= m.Length)
    requires |n| == 8 && |k| == 32
    modifies c
    ensures forall i :: 0 <= i < b ==>
      c[i] == Xor8(if m == null then 0 else old(m[i]), StreamByte(k, n, i))
    ensures c[b..] == old(c[b..])
  {
    hide *;
    if b == 0 {
      return;
    }
    var z := new byte[16](i requires 0 <= i < 16 => if i < 8 then n[i] else 0);
    ZeroCount();
    assert z[..8] == n && z[8..] == LeBytes(8, 0);
    var x := new byte[64](_ => 0);
    var pos := 0;
    while b - pos >= 64
      invariant pos % 64 == 0 && pos <= b
      invariant fresh(z) && z.Length == 16 && z[..8] == n && z[8..] == LeBytes(8, pos / 64)
      invariant fresh(x) && x.Length == 64 && x != z
      invariant forall i :: 0 <= i < pos ==>
        c[i] == Xor8(if m == null then 0 else old(m[i]), StreamByte(k, n, i))
      invariant forall i :: pos <= i < c.Length ==> c[i] == old(c[i])
      invariant m != null && m != c ==> forall i :: 0 <= i < m.Length ==> m[i] == old(m[i])
    {
      XorBlock(c, m, pos, 64, z, x, n, k);
      Increment(z, pos / 64);
      pos := pos + 64;
    }
    if pos < b {
      XorBlock(c, m, pos, b - pos, z, x, n, k);
    }
  }

  lemma ZeroCount()
    ensures LeBytes(8, 0) == [0, 0, 0, 0, 0, 0, 0, 0]
  {
  }

  /** XSalsa20 over a buffer: derive the subkey, then run the stream. */
  method XStreamXor(c: array<byte>, m: array?<byte>, d: nat, n: seq<byte>, k: seq<byte>)
    requires d <= c.Length && (m != null ==> d <= m.Length)
    requires |n| == 24 && |k| == 32
    modifies c
    ensures c[..d] == XorStream(if m == null then seq(d, _ => 0) else old(m[..d]), k, n, 0)
    ensures c[d..] == old(c[d..])
  {
    hide Xor8, StreamByte, HSalsa20, HashWithoutFeedForward, Layout;
    var s := new byte[32](_ => 0);
    Salsa20.Core(s, n[..16], k, SIGMA, true);
    HSalsaIsCore(k, n[..16]);
    StreamXor(c, m, d, n[16..], s[..]);
  }

  lemma HSalsaIsCore(k: seq<byte>, input: seq<byte>)
    requires |k| == 32 && |input| == 16
    ensures HSalsa20(k, input) == HashWithoutFeedForward(Layout(k, input, SIGMA))
  {
  }

  /** Seals in the zero-byte convention: `c` ends as 16 zeros, the tag, the ciphertext.
      The tag's key is the first 32 bytes of the very buffer it is written into, which may
      also be the message's. */
  method SecretBox(c: array<byte>, m: array<byte>, d: nat, n: seq<byte>, k: seq<byte>) returns (r: int)
    requires d <= c.Length && d <= m.Length
    requires |n| == 24 && |k| == 32
    modifies c
    ensures r == if d < 32 then -1 else 0
    ensures d < 32 ==> c[..] == old(c[..])
    ensures d >= 32 ==>
      var y := XorStream(old(m[..d]), k, n, 0);
      c[..d] == seq(16, _ => 0) + Poly1305Spec.Tag(y[32..], y[..32]) + y[32..]
  {
    hide XorStream, Poly1305Spec.Tag;
    if d < 32 {
      return -1;
    }
    XStreamXor(c, m, d, n, k);
    ghost var y := c[..d];
    assert c[32..32 + (d - 32)] == y[32..] && c[0..0 + 32] == y[..32];
    ghost var tag := Poly1305Spec.Tag(y[32..], y[..32]);
    Poly1305.OneTimeAuth(c, 16, c, 32, d - 32, c, 0);
    assert c[16..32] == tag && c[32..d] == y[32..];
    for i := 0 to 16
      invariant c[16..32] == tag && c[32..d] == y[32..]
      invariant forall l :: 0 <= l < i ==> c[l] == 0
    {
      c[i] := 0;
    }
    assert c[..16] == seq(16, _ => 0);
    assert c[..d] == c[..16] + c[16..32] + c[32..d];
    return 0;
  }

  /** Opens in the zero-byte convention: authenticates before decrypting, and writes
      nothing when the tag is wrong. It may open in place. */
  method SecretBoxOpen(m: array<byte>, c: array<byte>, d: nat, n: seq<byte>, k: seq<byte>) returns (r: int)
    requires d <= c.Length && d <= m.Length
    requires |n| == 24 && |k| == 32
    modifies m
    ensures r == 0 || r == -1
    ensures r == 0 <==> d >= 32 && old(c[16..32]) == Poly1305Spec.Tag(old(c[32..d]), OneTimeKey(k, n))
    ensures r == -1 ==> m[..] == old(m[..])
    ensures r == 0 ==> m[..d] == seq(32, _ => 0) + XorStream(old(c[32..d]), k, n, 32)
  {
    hide XorStream, OneTimeKey, Poly1305Spec.Tag;
    if d < 32 {
      return -1;
    }
    var x := new byte[32](_ => 0);
    XStreamXor(x, null, 32, n, k);
    assert x[..32] == x[..] == x[0..0 + 32];
    KeystreamIsKey(k, n);
    var tag := new byte[16](_ => 0);
    Poly1305.OneTimeAuth(tag, 0, c, 32, d - 32, x, 0);
    assert tag[..] == Poly1305Spec.Tag(c[32..d], OneTimeKey(k, n));
    var differ := Compare(c[16..32], tag[..]);
    if differ != 0 {
      return -1;
    }
    ghost var head, body := c[..32], c[32..d];
    assert c[..d] == head + body;
    XStreamXor(m, c, d, n, k);
    ghost var plain := XorStream(body, k, n, 32);
    XorStreamPrefix(head, body, k, n, 0);
    assert m[..d] == XorStream(head, k, n, 0) + plain;
    assert m[32..d] == plain;
    for i := 0 to 32
      invariant m[32..d] == plain
      invariant forall l :: 0 <= l < i ==> m[l] == 0
    {
      m[i] := 0;
    }
    assert m[..32] == seq(32, _ => 0);
    assert m[..d] == m[..32] + m[32..d];
    return 0;
  }

  lemma KeystreamIsKey(k: seq<byte>, n: seq<byte>)
    requires |n| == 24 && |k| == 32
    ensures XorStream(seq(32, _ => 0), k, n, 0) == OneTimeKey(k, n)
  {
    hide Xor8, XStreamByte;
    forall i | 0 <= i < 32
      ensures XorStream(seq(32, _ => 0), k, n, 0)[i] == XStreamByte(k, n, i)
    {
      Xor8Twice(XStreamByte(k, n, i), 0);
    }
  }

  /** Seals a message: tag then ciphertext, exactly as the box specification says.
      `memory` says whether the two temporary buffers could be allocated. */
  method BoxSealWithKey(out: array<byte>, msg: array<byte>, mlen: nat, nonce: seq<byte>, key: seq<byte>,
                        memory: bool)
    returns (ok: bool)
    requires mlen + 16 <= out.Length && mlen <= msg.Length
    requires |nonce| == 24 && |key| == 32
    modifies out
    ensures ok == memory
    ensures !ok ==> out[..] == old(out[..])
    ensures ok ==> out[..mlen + 16] == Seal(old(msg[..mlen]), nonce, key)
    ensures out[mlen + 16..] == old(out[mlen + 16..])
  {
    hide XorStream, OneTimeKey, Poly1305Spec.Tag;
    if !memory {
      return false;
    }
    var d := mlen + 32;
    ghost var message := msg[..mlen];
    var m2 := new byte[d](i requires 0 <= i < d reads msg => if i < 32 then 0 else msg[i - 32]);
    var c2 := new byte[d](_ => 0);
    assert m2[..d] == seq(32, _ => 0) + message;
    var _ := SecretBox(c2, m2, d, nonce, key);
    ghost var y := XorStream(m2[..d], key, nonce, 0);
    XorStreamPrefix(seq(32, _ => 0), message, key, nonce, 0);
    KeystreamIsKey(key, nonce);
    assert y[..32] == OneTimeKey(key, nonce) && y[32..] == XorStream(message, key, nonce, 32);
    assert c2[16..d] == Seal(message, nonce, key);
    CopyBytes(out, c2, 16, mlen + 16);
    return true;
  }

  /** `memcpy(out, from + o, n)`. */
  method CopyBytes(out: array<byte>, from: array<byte>, o: nat, n: nat)
    requires out != from && n <= out.Length && o + n <= from.Length
    modifies out
    ensures out[..n] == from[o..o + n]
    ensures out[n..] == old(out[n..])
  {
    for i := 0 to n
      invariant out[..i] == from[o..o + i]
      invariant out[n..] == old(out[n..])
    {
      out[i] := from[o + i];
    }
  }

  /** Opens a sealed message: succeeds exactly when the box specification does, and then
      writes the message; otherwise the output buffer is untouched. */
  method BoxOpenWithKey(out: array<byte>, cipher: array<byte>, clen: nat, nonce: seq<byte>, key: seq<byte>,
                        memory: bool)
    returns (ok: bool)
    requires clen <= cipher.Length && (clen >= 16 ==> clen - 16 <= out.Length)
    requires |nonce| == 24 && |key| == 32
    modifies out
    ensures ok <==> memory && Open(old(cipher[..clen]), nonce, key).Some?
    ensures !ok ==> out[..] == old(out[..])
    ensures ok ==> Open(old(cipher[..clen]), nonce, key) == Some(out[..clen - 16])
                   && out[clen - 16..] == old(out[clen - 16..])
  {
    hide XorStream, OneTimeKey, Poly1305Spec.Tag;
    if clen < 16 {
      return false;
    }
    var mlen := clen - 16;
    var d := clen + 16;
    if !memory {
      return false;
    }
    ghost var box := cipher[..clen];
    var c2 := new byte[d](i requires 0 <= i < d reads cipher => if i < 16 then 0 else cipher[i - 16]);
    var m2 := new byte[d](_ => 0);
    assert c2[16..32] == box[..16] && c2[32..d] == box[16..];
    var r := SecretBoxOpen(m2, c2, d, nonce, key);
    if r == 0 && mlen > 0 {
      assert m2[32..32 + mlen] == XorStream(box[16..], key, nonce, 32);
      CopyBytes(out, m2, 32, mlen);
    }
    return r == 0;
  }

  /** For every message, nonce and key: opening what was sealed returns the message. */
  method SealThenOpen(msg: array<byte>, nonce: seq<byte>, key: seq<byte>) returns (back: array<byte>)
    requires |nonce| == 24 && |key| == 32
    ensures fresh(back) && back[..] == msg[..]
  {
    hide *;
    var n := msg.Length;
    var box := new byte[n + 16](_ => 0);
    var sealed := BoxSealWithKey(box, msg, n, nonce, key, true);
    back := new byte[n](_ => 0);
    assert box[..n + 16] == box[..] && msg[..n] == msg[..];
    OpenAcceptsExactlySealed(box[..], msg[..], nonce, key);
    var ok := BoxOpenWithKey(back, box, n + 16, nonce, key, true);
    assert back[..n] == back[..];
  }
}
