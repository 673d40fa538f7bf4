/** Poly1305 as specified in section 2.5 of RFC 8439, over integers. */
module Poly1305Spec {
  import opened Numbers

  /** The prime 2^130 - 5. */
  const P: nat := 0x3_ffff_ffff_ffff_ffff_ffff_ffff_ffff_fffb

  /** Section 2.5: bytes 3, 7, 11, 15 of r keep their low four bits and bytes
      4, 8, 12 lose their low two bits. */
  function ClampByte(i: nat, v: int): (w: int)
    requires 0 <= v < 256
    ensures 0 <= w <= v
  {
    if i == 3 || i == 7 || i == 11 || i == 15 then v % 16
    else if i == 4 || i == 8 || i == 12 then v - v % 4
    else v
  }

  /** The clamped multiplier, digit by digit, from the first half of the key. */
  function ClampedDigits(key: seq<byte>): (r: seq<int>)
    requires |key| == 32
    ensures |r| == 17 && forall i :: 0 <= i < 17 ==> 0 <= r[i] < 256
  {
    seq(17, i requires 0 <= i < 17 => if i < 16 then ClampByte(i, key[i]) else 0)
  }

  /** A block of at most 16 bytes as a number, with the extra one bit above it. */
  function BlockNumber(block: seq<byte>): int {
    Val(block) + Pow256(|block|)
  }

  /** One round: add the block and multiply by r, modulo p. */
  function AbsorbBlock(acc: int, r: int, block: seq<byte>): (a: int)
    ensures 0 <= a < P
  {
    ((acc + BlockNumber(block)) * r) % P
  }

  /** The accumulator after absorbing `m` block by block, starting from `acc`. */
  function Absorb(acc: int, r: int, m: seq<byte>): (a: int)
    requires 0 <= acc < P
    ensures 0 <= a < P
    decreases |m|
  {
    if m == [] then acc
    else
      var n := if |m| < 16 then |m| else 16;
      Absorb(AbsorbBlock(acc, r, m[..n]), r, m[n..])
  }

  /** The 16-byte tag of `m` under a 32-byte one-time key. */
  function Tag(m: seq<byte>, key: seq<byte>): (t: seq<byte>)
    requires |key| == 32
    ensures |t| == 16
  {
    var acc := Absorb(0, Val(ClampedDigits(key)), m);
    LeBytes(16, (acc + Val(key[16..])) % Pow256(16))
  }
}

/** The limb-wise implementation of Poly1305 and its agreement with the specification. */
module Poly1305 {
  import opened Bits
  import opened Numbers
  import opened Poly1305Spec

  /** The fully carried accumulator between blocks: bytes, and a top limb of at most 4,
      so its value is below 2p. */
  predicate Carried(s: seq<int>) {
    |s| == 17 && Bytes(s) && s[16] <= 4
  }

  lemma PowValues()
    ensures Pow256(16) == 0x1_0000_0000_0000_0000_0000_0000_0000_0000
    ensures Pow256(17) == 0x100_0000_0000_0000_0000_0000_0000_0000_0000
  {
    assert Pow256(4) == 0x1_0000_0000;
    assert Pow256(8) == 0x1_0000_0000_0000_0000;
    assert Pow256(12) == 0x1_0000_0000_0000_0000_0000_0000;
  }

  lemma AddStep(a: seq<int>, c: seq<int>, done: seq<int>, u: int, x: int, y: int, low: int, high: int)
    requires |a| == |c| == |done|
    requires Val(a) + Val(c) == Val(done) + u * Pow256(|done|)
    requires u + x + y == 256 * high + low
    ensures Val(a + [x]) + Val(c + [y]) == Val(done + [low]) + high * Pow256(|done| + 1)
  {
    hide *;
    var p := Pow256(|done|);
    ValAppend(a, x);
    ValAppend(c, y);
    CarryStep(Val(a) + Val(c), done, u, x + y, low, high);
    SumOfProducts(x, y, p);
  }

  lemma SumOfProducts(x: int, y: int, p: int)
    ensures (x + y) * p == x * p + y * p
  {
  }

  /** Adds `c` into `h` with byte carries; the carry out of the top limb is dropped. */
  method Add1305(h: array<u32>, c: array<u32>)
    requires h.Length == 17 && c.Length == 17 && h != c
    requires forall i :: 0 <= i < 17 ==> h[i] < 0x1000_0000 && c[i] < 0x1000_0000
    modifies h
    ensures Bytes(h[..])
    ensures Val(h[..]) == (Val(old(h[..])) + Val(c[..])) % Pow256(17)
  {
    hide Val, Pow256;
    ghost var before := h[..];
    ValEmpty();
    var u: u32 := 0;
    var j := 0;
    while j < 17
      invariant 0 <= j <= 17
      invariant u < 0x100_0000
      invariant h[j..] == before[j..]
      invariant Bytes(h[..j])
      invariant Val(before[..j]) + Val(c[..j]) == Val(h[..j]) + u * Pow256(j)
    {
      ghost var sum := u + h[j] + c[j];
      AddStep(before[..j], c[..j], h[..j], u, h[j], c[j], sum % 256, sum / 256);
      ghost var done := h[..j];
      u := u + (h[j] + c[j]);
      h[j] := u % 256;
      assert before[..j + 1] == before[..j] + [before[j]];
      assert c[..j + 1] == c[..j] + [c[j]];
      assert h[..j + 1] == done + [u % 256];
      u := u / 256;
      j := j + 1;
    }
    assert h[..17] == h[..] && before[..17] == before && c[..17] == c[..];
    ValBound(h[..]);
    DivModUnique(Val(before) + Val(c[..]), Pow256(17), u, Val(h[..]));
  }

  // Multiplication: x[i] is the sum over j of h[j] times r shifted by j places, where
  // places 17 and up wrap round with weight 320 because 256^17 - 320 == 64p.

  function Coefficient(r: seq<int>, i: nat, j: nat): int
    requires |r| == 17 && i < 17 && j < 17
  {
    if j <= i then r[i - j] else 320 * r[i + 17 - j]
  }

  function Convolution(h: seq<int>, r: seq<int>, i: nat, n: nat): int
    requires |h| == |r| == 17 && i < 17 && n <= 17
  {
    if n == 0 then 0
    else Convolution(h, r, i, n - 1) + h[n - 1] * Coefficient(r, i, n - 1)
  }

  /** Row `j` of the product: `r` shifted up by `j` places, wrapped. */
  ghost function Shifted(r: seq<int>, j: nat): (s: seq<int>)
    requires |r| == 17 && j < 17
    ensures |s| == 17
  {
    seq(17, i requires 0 <= i < 17 => Coefficient(r, i, j))
  }

  ghost function PartialProduct(h: seq<int>, r: seq<int>, n: nat): (s: seq<int>)
    requires |h| == |r| == 17 && n <= 17
    ensures |s| == 17
  {
    seq(17, i requires 0 <= i < 17 => Convolution(h, r, i, n))
  }

  /** Shifting by one more place multiplies the value by 256 and wraps the top digit. */
  lemma ShiftOnce(r: seq<int>, j: nat)
    requires |r| == 17 && j < 16
    ensures Val(Shifted(r, j + 1)) == 256 * Val(Shifted(r, j)) - 64 * P * r[16 - j]
  {
    var s, t := Shifted(r, j), Shifted(r, j + 1);
    assert t == [320 * r[16 - j]] + s[..16];
    ValCons(320 * r[16 - j], s[..16]);
    assert s == s[..16] + [r[16 - j]];
    ValAppend(s[..16], r[16 - j]);
    PowValues();
  }

  lemma {:induction false} ShiftedValue(r: seq<int>, j: nat) returns (k: int)
    requires |r| == 17 && j < 17
    ensures Val(Shifted(r, j)) == Pow256(j) * Val(r) + k * P
  {
    if j == 0 {
      assert Shifted(r, 0) == r;
      k := 0;
    } else {
      var k' := ShiftedValue(r, j - 1);
      ShiftOnce(r, j - 1);
      k := 256 * k' - 64 * r[17 - j];
      assert 256 * (Pow256(j - 1) * Val(r)) == (256 * Pow256(j - 1)) * Val(r);
    }
  }

  /** The limb product has the value of the integer product, up to a multiple of p. */
  lemma {:induction false} ProductValue(h: seq<int>, r: seq<int>, n: nat) returns (k: int)
    requires |h| == |r| == 17 && n <= 17
    ensures Val(PartialProduct(h, r, n)) == Val(h[..n]) * Val(r) + k * P
  {
    if n == 0 {
      ValZero(PartialProduct(h, r, 0));
      k := 0;
    } else {
      var k0 := ProductValue(h, r, n - 1);
      var k1 := ShiftedValue(r, n - 1);
      var d, p, v := h[n - 1], Pow256(n - 1), Val(r);
      ValLinear(PartialProduct(h, r, n - 1), d, Shifted(r, n - 1), PartialProduct(h, r, n));
      assert h[..n] == h[..n - 1] + [d];
      ValAppend(h[..n - 1], d);
      k := k0 + d * k1;
      ProductStep(Val(h[..n - 1]), v, d, p, k0, k1);
    }
  }

  lemma ProductStep(a: int, v: int, d: int, p: int, k0: int, k1: int)
    ensures a * v + k0 * P + d * (p * v + k1 * P) == (a + d * p) * v + (k0 + d * k1) * P
  {
    assert d * (p * v + k1 * P) == d * (p * v) + d * (k1 * P);
    assert d * (p * v) == (d * p) * v;
    assert d * (k1 * P) == (d * k1) * P;
    assert (a + d * p) * v == a * v + (d * p) * v;
    assert (k0 + d * k1) * P == k0 * P + (d * k1) * P;
  }

  lemma TermBound(d: int, r: seq<int>, i: nat, j: nat)
    requires |r| == 17 && Bytes(r) && i < 17 && j < 17 && 0 <= d < 256
    ensures 0 <= d * Coefficient(r, i, j) <= 20_808_000
  {
    var c := Coefficient(r, i, j);
    assert 0 <= c <= 81_600;
    MulBound(d, 255, c);
  }

  /** Multiplies `h` by `r` limb-wise. No product or partial sum exceeds 32 bits. */
  method Multiply(h: array<u32>, r: array<u32>) returns (ghost k: int)
    requires h.Length == 17 && r.Length == 17 && h != r
    requires Bytes(h[..]) && Bytes(r[..])
    modifies h
    ensures forall i :: 0 <= i < 17 ==> h[i] <= 353_736_000
    ensures Val(h[..]) == Val(old(h[..])) * Val(r[..]) + k * P
  {
    hide Val, Pow256;
    ghost var hs, rs := h[..], r[..];
    var x := new u32[17](_ => 0);
    for i := 0 to 17
      invariant h[..] == hs && r[..] == rs
      invariant forall l :: 0 <= l < i ==> x[l] == Convolution(hs, rs, l, 17) <= 353_736_000
    {
      x[i] := 0;
      for j := 0 to 17
        invariant h[..] == hs && r[..] == rs
        invariant x[i] == Convolution(hs, rs, i, j) <= j * 20_808_000
        invariant forall l :: 0 <= l < i ==> x[l] == Convolution(hs, rs, l, 17) <= 353_736_000
      {
        TermBound(hs[j], rs, i, j);
        x[i] := x[i] + h[j] * (if j <= i then r[i - j] else 320 * r[i + 17 - j]);
      }
    }
    for i := 0 to 17
      invariant r[..] == rs
      invariant h[..i] == x[..i]
      invariant forall l :: 0 <= l < 17 ==> x[l] == Convolution(hs, rs, l, 17) <= 353_736_000
    {
      h[i] := x[i];
    }
    assert h[..] == PartialProduct(hs, rs, 17);
    assert hs[..17] == hs;
    k := ProductValue(hs, rs, 17);
  }

  /** Bound on the running carry of a pass after `j` limbs: in a first pass from a raw
      product, and in a second pass that starts with the folded excess over byte limbs. */
  ghost predicate CarryBounded(first: bool, j: nat, u: int) {
    if first then u <= 1_400_000
    else u <= (if j == 0 then 0x2000_0000 else if j == 1 then 0x20_0001
               else if j == 2 then 0x2002 else if j == 3 then 0x21 else 1)
  }

  /** One carry pass over the low sixteen limbs, starting with carry `start`. */
  method CarryPass(h: array<u32>, start: u32, ghost first: bool) returns (u: u32)
    requires h.Length == 17
    requires first ==> start == 0 && forall i :: 0 <= i < 16 ==> h[i] <= 353_736_000
    requires !first ==> start <= 0x2000_0000 && Bytes(h[..16])
    modifies h
    ensures Bytes(h[..16]) && h[16] == old(h[16])
    ensures CarryBounded(first, 16, u)
    ensures start + Val(old(h[..16])) == Val(h[..16]) + u * Pow256(16)
  {
    hide Val, Pow256;
    ghost var before := h[..16];
    ValEmpty();
    u := start;
    var j := 0;
    while j < 16
      invariant 0 <= j <= 16
      invariant CarryBounded(first, j, u)
      invariant h[j..16] == before[j..] && h[16] == old(h[16])
      invariant Bytes(h[..j])
      invariant start + Val(before[..j]) == Val(h[..j]) + u * Pow256(j)
    {
      assert h[j] == h[j..16][0] == before[j..][0];
      ghost var sum := u + h[j];
      CarryStep(start + Val(before[..j]), h[..j], u, h[j], sum % 256, sum / 256);
      ghost var done := h[..j];
      assert before[..j + 1] == before[..j] + [before[j]];
      ValAppend(before[..j], before[j]);
      u := u + h[j];
      h[j] := u % 256;
      assert h[..j + 1] == done + [u % 256];
      u := u / 256;
      j := j + 1;
    }
    assert before[..16] == before;
  }

  /** Carries a product back into byte limbs, folding everything above 2^130 in at weight 5. */
  method Squeeze(h: array<u32>) returns (ghost k: int)
    requires h.Length == 17
    requires forall i :: 0 <= i < 17 ==> h[i] <= 353_736_000
    modifies h
    ensures Carried(h[..])
    ensures Val(h[..]) == Val(old(h[..])) - k * P
  {
    hide Val, Pow256;
    PowValues();
    ghost var before := h[..];
    assert before == before[..16] + [before[16]];
    ValAppend(before[..16], before[16]);
    var u := CarryPass(h, 0, true);
    ghost var u1 := u;
    u := u + h[16];
    h[16] := u % 4;
    k := u / 4;
    ghost var middle := h[..16];
    u := CarryPass(h, 5 * (u / 4), false);
    ghost var end, over := Val(h[..16]), u;
    u := u + h[16];
    h[16] := u;
    assert h[..] == h[..16] + [u];
    ValAppend(h[..16], u);
    SqueezedValue(Val(before[..16]), before[16], Val(middle), u1, end, over, k);
  }

  /** Both passes together take off `k` times p. */
  lemma SqueezedValue(low: int, top: int, middle: int, u1: int, end: int, u2: int, k: int)
    requires low == middle + u1 * 0x1_0000_0000_0000_0000_0000_0000_0000_0000
    requires k == (u1 + top) / 4
    requires 5 * k + middle == end + u2 * 0x1_0000_0000_0000_0000_0000_0000_0000_0000
    ensures end + (u2 + (u1 + top) % 4) * 0x1_0000_0000_0000_0000_0000_0000_0000_0000
            == low + top * 0x1_0000_0000_0000_0000_0000_0000_0000_0000 - k * P
  {
  }

  /** The clamped multiplier limbs from the first half of the key. */
  method LoadMultiplier(k: array<byte>, ko: nat) returns (r: array<u32>)
    requires ko + 32 <= k.Length
    ensures fresh(r) && r.Length == 17 && r[..] == ClampedDigits(k[ko..ko + 32])
  {
    r := new u32[17](_ => 0);
    for j := 0 to 16
      invariant forall i :: 0 <= i < 17 ==> r[i] == if i < j then k[ko + i] else 0
    {
      r[j] := k[ko + j];
    }
    Clamp(r);
    assert r[..] == ClampedDigits(k[ko..ko + 32]);
  }

  method Clamp(r: array<u32>)
    requires r.Length == 17 && Bytes(r[..])
    modifies r
    ensures r.Length == 17
    ensures forall i :: 0 <= i < 17 ==> r[i] == ClampByte(i, old(r[i]))
  {
    ghost var raw: seq<int> := r[..];
    KeepLowFour(r, 3, raw, {});
    ClearLowTwo(r, 4, raw, {3});
    KeepLowFour(r, 7, raw, {3, 4});
    ClearLowTwo(r, 8, raw, {3, 4, 7});
    KeepLowFour(r, 11, raw, {3, 4, 7, 8});
    ClearLowTwo(r, 12, raw, {3, 4, 7, 8, 11});
    KeepLowFour(r, 15, raw, {3, 4, 7, 8, 11, 12});
  }

  /** The limbs in `done` are clamped; the others still hold the raw key bytes. */
  ghost predicate PartlyClamped(r: seq<int>, raw: seq<int>, done: set<int>) {
    && |r| == |raw| == 17 && Bytes(r) && Bytes(raw)
    && forall i :: 0 <= i < 17 ==> r[i] == if i in done then ClampByte(i, raw[i]) else raw[i]
  }

  method KeepLowFour(r: array<u32>, j: nat, ghost raw: seq<int>, ghost done: set<int>)
    requires PartlyClamped(r[..], raw, done) && j !in done
    requires j == 3 || j == 7 || j == 11 || j == 15
    modifies r
    ensures PartlyClamped(r[..], raw, done + {j})
  {
    MaskFifteen(r[j]);
    r[j] := And(r[j], 15);
  }

  method ClearLowTwo(r: array<u32>, j: nat, ghost raw: seq<int>, ghost done: set<int>)
    requires PartlyClamped(r[..], raw, done) && j !in done
    requires j == 4 || j == 8 || j == 12
    modifies r
    ensures PartlyClamped(r[..], raw, done + {j})
  {
    MaskTwoFiftyTwo(r[j]);
    r[j] := And(r[j], 252);
  }

  /** The next block of at most 16 message bytes, with the extra one above it. */
  method LoadBlock(m: array<byte>, mo: nat, n: nat) returns (c: array<u32>, j: nat)
    requires 0 < n && mo + n <= m.Length
    ensures fresh(c) && c.Length == 17 && Bytes(c[..])
    ensures j == if n < 16 then n else 16
    ensures Val(c[..]) == BlockNumber(m[mo..mo + j])
  {
    hide Val, BlockNumber;
    c := new u32[17](_ => 0);
    j := 0;
    while j < 16 && j < n
      invariant j <= 16 && j <= n
      invariant forall i :: 0 <= i < 17 ==> c[i] == if i < j then m[mo + i] else 0
    {
      c[j] := m[mo + j];
      j := j + 1;
    }
    c[j] := 1;
    BlockValue(c[..], m[mo..mo + j]);
  }

  lemma BlockValue(c: seq<int>, block: seq<byte>)
    requires |block| <= 16 && |c| == 17
    requires forall i :: 0 <= i < |block| ==> c[i] == block[i]
    requires c[|block|] == 1 && forall i :: |block| < i < 17 ==> c[i] == 0
    ensures Val(c) == BlockNumber(block)
  {
    var n := |block|;
    ValZeroTail(c, n + 1);
    assert c[..n + 1] == block + [1];
    ValAppend(block, 1);
  }

  /** `h ^= s & (g ^ h)`: keeps `h` when the mask is zero and takes `g` when it is all ones. */
  method Blend(s: u32, g: u32, h: u32) returns (b: u32)
    requires g < 256 && h < 256
    requires s == 0 || s == 0xffff_ffff
    ensures b == if s == 0 then h else g
  {
    var difference := Xor(g, h);
    Pow2Values();
    XorBound(g, h, 8);
    if s != 0 {
      AndAllOnes(difference);
    }
    XorTwice(g, h);
    b := Xor(h, And(s, difference));
  }

  /** Subtracts p by adding 2^136 - p and keeps the result unless it went negative:
      the top bit of the sum tells, and no branch depends on the value. */
  method FinalReduce(h: array<u32>)
    requires h.Length == 17 && Carried(h[..])
    modifies h
    ensures Bytes(h[..])
    ensures Val(h[..]) == Val(old(h[..])) % P
  {
    hide Val, Pow256;
    ghost var before := h[..];
    var g := new u32[17](i requires 0 <= i < 17 reads h => h[i]);
    assert g[..] == before;
    var minusP := new u32[17](i => if i == 0 then 5 else if i == 16 then 252 else 0);
    MinusPValue(minusP[..]);
    Add1305(h, minusP);
    ghost var reduced := h[..];
    TopLimbTells(before, reduced);
    var s := MaskFromTopBit(h[16]);
    BlendAll(s, g, h);
  }

  /** `(u32)(-(top >> 7))`, the one place where a 32-bit negation wraps on purpose. */
  method MaskFromTopBit(top: u32) returns (s: u32)
    requires top < 256
    ensures s == if top / 128 == 0 then 0 else 0xffff_ffff
  {
    s := (0x1_0000_0000 - top / 128) % 0x1_0000_0000;
  }

  method BlendAll(s: u32, g: array<u32>, h: array<u32>)
    requires g.Length == 17 && h.Length == 17 && g != h
    requires Bytes(g[..]) && Bytes(h[..])
    requires s == 0 || s == 0xffff_ffff
    modifies h
    ensures h[..] == if s == 0 then old(h[..]) else g[..]
  {
    for j := 0 to 17
      invariant forall i :: 0 <= i < 17 ==> h[i] == if s == 0 || j <= i then old(h[i]) else g[i]
    {
      h[j] := Blend(s, g[j], h[j]);
    }
  }

  lemma MinusPValue(s: seq<int>)
    requires |s| == 17 && s[0] == 5 && s[16] == 252
    requires forall i :: 1 <= i < 16 ==> s[i] == 0
    ensures Val(s) == Pow256(17) - P
  {
    hide Val, Pow256;
    assert s == s[..16] + [252];
    ValAppend(s[..16], 252);
    ValZeroTail(s[..16], 1);
    assert s[..16][..1] == [] + [5];
    ValEmpty();
    ValAppend([], 5);
    PowValues();
  }

  /** Bit 7 of the top limb of `before + 2^136 - p` is set exactly when `before < p`. */
  lemma TopLimbTells(before: seq<int>, after: seq<int>)
    requires Carried(before)
    requires |after| == 17 && Bytes(after)
    requires Val(after) == (Val(before) + (Pow256(17) - P)) % Pow256(17)
    ensures 0 <= Val(before) < 2 * P
    ensures after[16] / 128 == if Val(before) < P then 1 else 0
    ensures Val(before) >= P ==> Val(after) == Val(before) - P
  {
    hide Val, Pow256;
    PowValues();
    assert before == before[..16] + [before[16]];
    ValAppend(before[..16], before[16]);
    ValBound(before[..16]);
    assert after == after[..16] + [after[16]];
    ValAppend(after[..16], after[16]);
    ValBound(after[..16]);
  }

  /** One block: add it, multiply by r, reduce. */
  method AddAndMultiply(h: array<u32>, c: array<u32>, r: array<u32>, ghost block: seq<byte>)
    requires h.Length == 17 && c.Length == 17 && r.Length == 17 && h != c && h != r
    requires Carried(h[..]) && Bytes(c[..]) && Bytes(r[..])
    requires |block| <= 16 && Val(c[..]) == BlockNumber(block)
    modifies h
    ensures Carried(h[..])
    ensures Val(h[..]) % P == AbsorbBlock(old(Val(h[..])) % P, Val(r[..]), block)
  {
    hide Val, Pow256;
    ghost var a, cv, rv := Val(h[..]), Val(c[..]), Val(r[..]);
    CarriedBound(h[..]);
    BlockNumberBound(block);
    PowValues();
    Add1305(h, c);
    assert Val(h[..]) == a + cv;
    var k := Multiply(h, r);
    var l := Squeeze(h);
    assert Val(h[..]) == (a + cv) * rv + (k - l) * P;
    ModuloProduct(a, cv, rv, k - l);
  }

  lemma CarriedBound(s: seq<int>)
    requires Carried(s)
    ensures 0 <= Val(s) < 2 * P
  {
    hide Val, Pow256;
    assert s == s[..16] + [s[16]];
    ValAppend(s[..16], s[16]);
    ValBound(s[..16]);
    PowValues();
  }

  lemma ModuloProduct(a: int, c: int, r: int, k: int)
    ensures ((a + c) * r + k * P) % P == ((a % P + c) * r) % P
  {
    var q, b := a / P, (a % P + c) * r;
    assert (a + c) * r == b + (q * P) * r;
    assert (q * P) * r == (q * r) * P;
    assert (a + c) * r + k * P == b + (q * r + k) * P;
    ModuloShift(b, q * r + k);
  }

  lemma ModuloShift(b: int, k: int)
    ensures (b + k * P) % P == b % P
  {
  }

  lemma BlockNumberBound(b: seq<byte>)
    requires |b| <= 16
    ensures 0 <= BlockNumber(b) <= 2 * Pow256(16)
  {
    ValBound(b);
    PowMonotone(|b|, 16);
  }

  lemma {:induction false} PowMonotone(a: nat, b: nat)
    requires a <= b
    ensures Pow256(a) <= Pow256(b)
  {
    if a < b {
      PowMonotone(a, b - 1);
    }
  }

  /** Absorbs `n` bytes at `m[mo]` into a fresh accumulator. */
  method Accumulate(m: array<byte>, mo: nat, n: nat, r: array<u32>) returns (h: array<u32>)
    requires mo + n <= m.Length
    requires r.Length == 17 && Bytes(r[..])
    ensures fresh(h) && h.Length == 17 && Carried(h[..])
    ensures Val(h[..]) % P == Absorb(0, Val(r[..]), m[mo..mo + n])
  {
    hide Absorb, AbsorbBlock, Val, BlockNumber;
    ghost var message, rv := m[mo..mo + n], Val(r[..]);
    h := new u32[17](_ => 0);
    ValZero(h[..]);
    var pos, left := mo, n;
    while left > 0
      invariant mo <= pos <= mo + n && pos + left == mo + n
      invariant fresh(h) && h.Length == 17 && h != r && Carried(h[..])
      invariant Bytes(r[..]) && Val(r[..]) == rv
      invariant Absorb(Val(h[..]) % P, rv, m[pos..mo + n]) == Absorb(0, rv, message)
    {
      ghost var rest := m[pos..mo + n];
      var c, j := LoadBlock(m, pos, left);
      assert rest[..j] == m[pos..pos + j] && rest[j..] == m[pos + j..mo + n];
      AbsorbUnfold(Val(h[..]) % P, rv, rest, j);
      AddAndMultiply(h, c, r, rest[..j]);
      assert Absorb(Val(h[..]) % P, rv, rest[j..]) == Absorb(0, rv, message);
      pos, left := pos + j, left - j;
    }
    assert m[pos..mo + n] == [];
    AbsorbNothing(Val(h[..]) % P, rv);
  }

  lemma AbsorbUnfold(acc: int, r: int, m: seq<byte>, n: nat)
    requires 0 <= acc < P && m != [] && n == if |m| < 16 then |m| else 16
    ensures Absorb(acc, r, m) == Absorb(AbsorbBlock(acc, r, m[..n]), r, m[n..])
  {
  }

  lemma AbsorbNothing(acc: int, r: int)
    requires 0 <= acc < P
    ensures Absorb(acc, r, []) == acc
  {
  }

  /** Adds the second half of the key to the reduced accumulator and stores sixteen bytes. */
  method Finish(out: array<byte>, oo: nat, h: array<u32>, k: array<byte>, ko: nat)
    requires oo + 16 <= out.Length && ko + 32 <= k.Length
    requires h.Length == 17 && Bytes(h[..])
    modifies out, h
    ensures out[..] == old(out[..oo])
                       + LeBytes(16, (old(Val(h[..])) + Val(old(k[ko + 16..ko + 32]))) % Pow256(16))
                       + old(out[oo + 16..])
  {
    hide Val, LeBytes, Pow256;
    ghost var acc, secret := Val(h[..]), k[ko + 16..ko + 32];
    ValBound(h[..]);
    ValBound(secret);
    var c := LoadSecret(k, ko + 16);
    Add1305(h, c);
    StoreDigits(h[..], acc + Val(secret));
    StoreLimbs(out, oo, h);
  }

  method LoadSecret(k: array<byte>, ko: nat) returns (c: array<u32>)
    requires ko + 16 <= k.Length
    ensures fresh(c) && c.Length == 17 && Bytes(c[..])
    ensures Val(c[..]) == Val(k[ko..ko + 16])
  {
    hide Val;
    c := new u32[17](_ => 0);
    for j := 0 to 16
      invariant forall i :: 0 <= i < 17 ==> c[i] == if i < 16 && i < j then k[ko + i] else 0
    {
      c[j] := k[ko + j];
    }
    ValZeroTail(c[..], 16);
    assert c[..][..16] == k[ko..ko + 16];
  }

  method StoreLimbs(out: array<byte>, oo: nat, h: array<u32>)
    requires oo + 16 <= out.Length && h.Length == 17 && Bytes(h[..])
    modifies out
    ensures out[..] == old(out[..oo]) + h[..16] + old(out[oo + 16..])
  {
    ghost var tag := h[..16];
    for j := 0 to 16
      invariant forall i :: 0 <= i < out.Length ==>
        out[i] == if oo <= i < oo + j then tag[i - oo] else old(out[i])
    {
      out[oo + j] := h[j];
    }
  }

  /** Writes the Poly1305 tag of `n` bytes at `m[mo]` under the 32-byte key at `k[ko]`
      to `out[oo]`. The three regions may overlap: secretbox writes the tag over the
      second half of the key. */
  method OneTimeAuth(out: array<byte>, oo: nat, m: array<byte>, mo: nat, n: nat, k: array<byte>, ko: nat)
    requires oo + 16 <= out.Length && mo + n <= m.Length && ko + 32 <= k.Length
    modifies out
    ensures out[..] == old(out[..oo]) + Tag(old(m[mo..mo + n]), old(k[ko..ko + 32])) + old(out[oo + 16..])
  {
    hide Val, Pow256, ClampedDigits, Absorb, LeBytes;
    ghost var key := k[ko..ko + 32];
    var r := LoadMultiplier(k, ko);
    var h := Accumulate(m, mo, n, r);
    FinalReduce(h);
    assert key[16..] == k[ko + 16..ko + 32];
    Finish(out, oo, h, k, ko);
  }

  /** The low sixteen limbs after the last addition are the tag bytes. */
  lemma StoreDigits(h: seq<int>, sum: nat)
    requires |h| == 17 && Bytes(h)
    requires Val(h) == sum % Pow256(17)
    ensures h[..16] == LeBytes(16, sum % Pow256(16))
  {
    hide Val, LeBytes, Pow256;
    var low := h[..16];
    assert h == low + [h[16]];
    ValAppend(low, h[16]);
    ValBound(low);
    PowValues();
    LowPart(Val(low), h[16], sum);
    LeBytesOfVal(low);
  }

  lemma LowPart(low: int, top: int, sum: nat)
    requires 0 <= low < 0x1_0000_0000_0000_0000_0000_0000_0000_0000
    requires low + top * 0x1_0000_0000_0000_0000_0000_0000_0000_0000
             == sum % 0x100_0000_0000_0000_0000_0000_0000_0000_0000
    ensures low == sum % 0x1_0000_0000_0000_0000_0000_0000_0000_0000
  {
  }
}
