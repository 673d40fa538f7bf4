/** The machine's bitwise operators on numbers, defined bit by bit. */
module Bits {
  function And(x: nat, y: nat): (z: nat)
    ensures z <= x && z <= y
  {
    if x == 0 || y == 0 then 0
    else (if x % 2 == 1 && y % 2 == 1 then 1 else 0) + 2 * And(x / 2, y / 2)
  }

  function Xor(x: nat, y: nat): nat {
    if x == 0 then y
    else if y == 0 then x
    else (if x % 2 != y % 2 then 1 else 0) + 2 * Xor(x / 2, y / 2)
  }

  function Or(x: nat, y: nat): (z: nat)
    ensures z >= x && z >= y
  {
    if x == 0 then y
    else if y == 0 then x
    else (if x % 2 == 1 || y % 2 == 1 then 1 else 0) + 2 * Or(x / 2, y / 2)
  }

  function Pow2(n: nat): (p: nat)
    ensures p > 0
  {
    if n == 0 then 1 else 2 * Pow2(n - 1)
  }

  lemma AndUnfold(x: nat, y: nat)
    ensures And(x, y) == (if x % 2 == 1 && y % 2 == 1 then 1 else 0) + 2 * And(x / 2, y / 2)
  {
  }

  lemma Pow2Values()
    ensures Pow2(4) == 16 && Pow2(6) == 64 && Pow2(8) == 256 && Pow2(32) == 0x1_0000_0000
    ensures Pow2(64) == 0x1_0000_0000_0000_0000
  {
    assert Pow2(8) == 256;
    assert Pow2(16) == 65536;
    assert Pow2(24) == 0x100_0000;
    assert Pow2(32) == 0x1_0000_0000;
    assert Pow2(40) == 0x100_0000_0000;
    assert Pow2(48) == 0x1_0000_0000_0000;
    assert Pow2(56) == 0x100_0000_0000_0000;
  }

  /** Masking with 2^n - 1 is the residue modulo 2^n. */
  lemma {:induction false} AndLowMask(x: nat, n: nat)
    ensures And(x, Pow2(n) - 1) == x % Pow2(n)
  {
    hide And;
    if n == 0 {
      AndZero(x);
    } else {
      var p := Pow2(n - 1);
      AndUnfold(x, 2 * p - 1);
      OddHalves(p);
      AndLowMask(x / 2, n - 1);
      Halve(x, p);
    }
  }

  lemma OddHalves(p: nat)
    requires p > 0
    ensures (2 * p - 1) / 2 == p - 1 && (2 * p - 1) % 2 == 1
  {
  }

  lemma Halve(x: nat, p: nat)
    requires p > 0
    ensures x % (2 * p) == x % 2 + 2 * (x / 2 % p)
  {
    var q, k, r := x / 2, x / 2 / p, x / 2 % p;
    assert q == k * p + r;
    assert x == k * (2 * p) + (2 * r + x % 2);
    var y := x / (2 * p) - k;
    assert y * (2 * p) == 2 * r + x % 2 - x % (2 * p);
    assert y >= 1 ==> y * (2 * p) >= 2 * p;
    assert y <= -1 ==> y * (2 * p) <= -(2 * p);
  }

  lemma AndDouble(x: nat, y: nat)
    ensures And(x, 2 * y) == 2 * And(x / 2, y)
  {
    hide And;
    AndUnfold(x, 2 * y);
    EvenHalves(y);
  }

  lemma EvenHalves(a: nat)
    ensures (2 * a) / 2 == a && (2 * a) % 2 == 0
  {
  }

  /** Masking a byte with 15 keeps its low four bits. */
  lemma MaskFifteen(x: nat)
    ensures And(x, 15) == x % 16
  {
    AndLowMask(x, 4);
    Pow2Values();
  }

  /** Masking a byte with 252 clears its low two bits. */
  lemma MaskTwoFiftyTwo(x: nat)
    requires x < 256
    ensures And(x, 252) == x - x % 4
  {
    hide And, Pow2;
    assert And(x, 252) == 2 * And(x / 2, 126) by { AndDouble(x, 126); }
    var q := x / 4;
    assert And(x / 2, 126) == 2 * And(q, 63) by {
      AndDouble(x / 2, 63);
      assert x / 2 / 2 == q;
    }
    assert And(q, 63) == q % 64 by { Pow2Values(); AndLowMask(q, 6); }
  }

  lemma OrUnfold(x: nat, y: nat)
    ensures Or(x, y) == (if x % 2 == 1 || y % 2 == 1 then 1 else 0) + 2 * Or(x / 2, y / 2)
  {
  }

  /** Or-ing numbers without a common bit adds them. */
  lemma {:induction false} OrDisjoint(x: nat, y: nat, n: nat)
    requires y < Pow2(n)
    ensures Or(x * Pow2(n), y) == x * Pow2(n) + y
  {
    hide Or;
    if n == 0 {
      OrNothing(x);
    } else {
      var a := x * Pow2(n - 1);
      DoubledTop(x, n);
      HalfBelow(y, n);
      OrDisjoint(x, y / 2, n - 1);
      OrDouble(a, y);
    }
  }

  lemma DoubledTop(x: nat, n: nat)
    requires n > 0
    ensures x * Pow2(n) == 2 * (x * Pow2(n - 1))
  {
  }

  lemma HalfBelow(y: nat, n: nat)
    requires n > 0 && y < Pow2(n)
    ensures y / 2 < Pow2(n - 1)
  {
  }

  lemma OrDouble(a: nat, y: nat)
    ensures Or(2 * a, y) == y % 2 + 2 * Or(a, y / 2)
  {
    hide Or;
    OrUnfold(2 * a, y);
    EvenHalves(a);
  }

  lemma {:induction false} OrBound(x: nat, y: nat, n: nat)
    requires x < Pow2(n) && y < Pow2(n)
    ensures Or(x, y) < Pow2(n)
  {
    if x > 0 && y > 0 {
      OrBound(x / 2, y / 2, n - 1);
    }
  }

  lemma {:induction false} AndSymmetric(x: nat, y: nat)
    ensures And(x, y) == And(y, x)
  {
    if x > 0 && y > 0 {
      AndSymmetric(x / 2, y / 2);
    }
  }

  lemma {:induction false} XorBound(x: nat, y: nat, n: nat)
    requires x < Pow2(n) && y < Pow2(n)
    ensures Xor(x, y) < Pow2(n)
  {
    if x > 0 && y > 0 {
      XorBound(x / 2, y / 2, n - 1);
    }
  }

  lemma XorUnfold(x: nat, y: nat)
    ensures Xor(x, y) / 2 == Xor(x / 2, y / 2)
    ensures Xor(x, y) % 2 == if x % 2 != y % 2 then 1 else 0
  {
  }

  /** Xor-ing the same number twice gives the original back. */
  lemma {:induction false} XorTwice(x: nat, y: nat)
    ensures Xor(y, Xor(x, y)) == x
  {
    if x > 0 && y > 0 {
      hide *;
      XorTwice(x / 2, y / 2);
      XorUnfold(x, y);
      XorUnfold(y, Xor(x, y));
    } else if y > 0 {
      XorSelf(y);
    }
  }

  lemma {:induction false} XorSelf(y: nat)
    ensures Xor(y, y) == 0
  {
    if y > 0 {
      XorSelf(y / 2);
    }
  }

  lemma AndAllOnes(x: nat)
    requires x < 0x1_0000_0000
    ensures And(0xffff_ffff, x) == x
  {
    var p := Pow2(32);
    assert p == 0x1_0000_0000 by { Pow2Values(); }
    AndLowMask(x, 32);
    AndSymmetric(p - 1, x);
  }

  lemma {:induction false} XorZero(x: nat, y: nat)
    ensures Xor(x, y) == 0 <==> x == y
  {
    if x > 0 && y > 0 {
      XorZero(x / 2, y / 2);
    }
  }

  /** Bit `i` of a number. */
  predicate Bit(x: nat, i: nat) {
    if i == 0 then x % 2 == 1 else Bit(x / 2, i - 1)
  }

  lemma {:induction false} BitZero(i: nat)
    ensures !Bit(0, i)
  {
    if i > 0 {
      BitZero(i - 1);
    }
  }

  /** Masking with a power of two tests that bit. */
  lemma {:induction false} AndTestsBit(x: nat, i: nat)
    ensures And(x, Pow2(i)) != 0 <==> Bit(x, i)
  {
    hide And;
    AndUnfold(x, Pow2(i));
    if i > 0 {
      AndTestsBit(x / 2, i - 1);
    } else {
      AndZero(x / 2);
    }
  }

  lemma AndZero(x: nat)
    ensures And(x, 0) == 0
  {
  }

  /** Or-ing a power of two in sets that bit and no other. */
  lemma {:induction false} OrSetsBit(x: nat, i: nat, j: nat)
    ensures Bit(Or(x, Pow2(i)), j) <==> Bit(x, j) || i == j
  {
    hide Or;
    OrUnfold(x, Pow2(i));
    if i == 0 {
      OrNothing(x / 2);
    } else if j > 0 {
      OrSetsBit(x / 2, i - 1, j - 1);
    }
  }

  lemma OrNothing(x: nat)
    ensures Or(x, 0) == x
  {
  }

  lemma {:induction false} Pow2Below(i: nat, n: nat)
    requires i < n
    ensures Pow2(i) < Pow2(n)
  {
    if i + 1 < n {
      Pow2Below(i, n - 1);
    }
  }
}
