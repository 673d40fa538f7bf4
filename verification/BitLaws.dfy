/** The bitwise operators and rotations, bit by bit. */
module BitLaws {
  import opened Bits
  import opened Numbers
  import opened Words

  lemma {:induction false} BitIsDigit(x: nat, i: nat)
    ensures Bit(x, i) <==> x / Pow2(i) % 2 == 1
  {
    if i > 0 {
      BitIsDigit(x / 2, i - 1);
      QuotientTwice(x, Pow2(i - 1));
    }
  }

  lemma QuotientTwice(x: nat, p: nat)
    requires p > 0
    ensures x / 2 / p == x / (2 * p)
  {
    var q, r := x / 2 / p, x / 2 % p;
    assert x / 2 == q * p + r;
    assert x == q * (2 * p) + (2 * r + x % 2);
    DivModUnique(x, 2 * p, q, 2 * r + x % 2);
  }

  /** And, or and xor decide every bit by itself. */
  lemma {:induction false} BitwiseLogic(x: nat, y: nat, i: nat)
    ensures Bit(And(x, y), i) <==> Bit(x, i) && Bit(y, i)
    ensures Bit(Or(x, y), i) <==> Bit(x, i) || Bit(y, i)
    ensures Bit(Xor(x, y), i) <==> Bit(x, i) != Bit(y, i)
  {
    hide And, Or, Xor;
    AndUnfold(x, y);
    OrUnfold(x, y);
    XorUnfold(x, y);
    if i > 0 {
      BitwiseLogic(x / 2, y / 2, i - 1);
    }
  }

  lemma {:induction false} BitOfSum(a: nat, b: nat, c: nat, i: nat)
    requires b < Pow2(c)
    ensures Bit(a * Pow2(c) + b, i) <==> if i < c then Bit(b, i) else Bit(a, i - c)
  {
    if c > 0 {
      DoubledTop(a, c);
      HalfBelow(b, c);
      var top := a * Pow2(c - 1);
      HalfOfSum(top, b);
      if i > 0 {
        BitOfSum(a, b / 2, c - 1, i - 1);
      }
    }
  }

  lemma HalfOfSum(top: nat, b: nat)
    ensures (2 * top + b) / 2 == top + b / 2 && (2 * top + b) % 2 == b % 2
  {
  }

  /** A word rotated left by `c`: bit `i` comes from `c` places below, round the end. */
  lemma BitOfRotl(x: u32, c: nat, i: nat)
    requires 0 < c < 32 && i < 32
    ensures Bit(Rotl32(x, c), i) <==> Bit(x, (i + 32 - c) % 32)
  {
    hide Bit, Pow2;
    var high, low := x / Pow2(32 - c), x % Pow2(32 - c);
    QuotientAndRest(x, Pow2(32 - c));
    PowersCompose(c);
    RotateParts(x, Pow2(c), Pow2(32 - c));
    BitOfSum(low, high, c, i);
    BitOfSum(high, low, 32 - c, (i + 32 - c) % 32);
  }

  /** Rotating right takes bit `i` from `c` places above. */
  lemma BitOfRotr(x: u32, c: nat, i: nat)
    requires 0 < c < 32 && i < 32
    ensures Bit(Rotr32(x, c), i) <==> Bit(x, (i + c) % 32)
  {
    hide Rotl32, Bit;
    BitOfRotl(x, 32 - c, i);
  }

  /** BLAKE2s rotates right by two shifts and an or. */
  lemma RightRotation(x: u32, c: nat)
    requires 0 < c < 32
    ensures Rotr32(x, c) == Or(Shr32(x, c), Shl32(x, 32 - c))
  {
    hide Rotl32, Or, Shl32, Shr32;
    OrIsRotation(x, 32 - c);
    OrSymmetric(Shl32(x, 32 - c), Shr32(x, c));
  }

  lemma {:induction false} OrSymmetric(x: nat, y: nat)
    ensures Or(x, y) == Or(y, x)
  {
    if x > 0 && y > 0 {
      OrSymmetric(x / 2, y / 2);
    }
  }

  /** Byte `i` of a little-endian encoding. */
  lemma {:induction false} ByteOf(n: nat, x: nat, i: nat)
    requires i < n
    ensures LeBytes(n, x)[i] == x / Pow256(i) % 256
  {
    if i > 0 {
      ByteOf(n - 1, x / 256, i - 1);
      QuotientBy256(x, Pow256(i - 1));
    }
  }

  lemma QuotientBy256(x: nat, p: nat)
    requires p > 0
    ensures x / 256 / p == x / (256 * p)
  {
    var q, r := x / 256 / p, x / 256 % p;
    assert x / 256 == q * p + r;
    assert x == q * (256 * p) + (256 * r + x % 256);
    DivModUnique(x, 256 * p, q, 256 * r + x % 256);
  }

  /** The word operations are the operators on numbers, wrapped where they wrap. */
  lemma WordOperations(x: u32, y: u32)
    ensures Add32(x, y) == (x as int + y as int) % 0x1_0000_0000
    ensures (Sub32(x, y) as int + y as int) % 0x1_0000_0000 == x
    ensures Xor32(x, y) == Xor(x, y)
    ensures x < 256 && y < 256 ==> Xor8(x, y) == Xor(x, y)
  {
  }
}
