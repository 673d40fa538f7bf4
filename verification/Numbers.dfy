/** Machine words and little-endian numbers shared by the cryptographic modules. */
module Numbers {
  /** A 32-bit word used as a number. Assigning a value outside the range to a `u32`
      is a verification error, so code over `u32` is proved never to wrap. */
  type u32 = x: int | 0 <= x < 0x1_0000_0000

  type u64 = x: int | 0 <= x < 0x1_0000_0000_0000_0000

  type byte = x: int | 0 <= x < 256

  function Pow256(i: nat): (p: nat)
    ensures p > 0
  {
    if i == 0 then 1 else 256 * Pow256(i - 1)
  }

  /** The little-endian number whose base-256 digits are `s`. The digits need not be
      below 256: a byte string has a value, and so has an array of limbs before carrying. */
  function Val(s: seq<int>): int {
    if s == [] then 0 else Val(s[..|s| - 1]) + s[|s| - 1] * Pow256(|s| - 1)
  }

  /** Every digit is a byte value. */
  predicate Bytes(s: seq<int>) {
    forall i :: 0 <= i < |s| ==> 0 <= s[i] < 256
  }

  /** The low `n` base-256 digits of `x`, least significant first. */
  function LeBytes(n: nat, x: nat): (b: seq<byte>)
    ensures |b| == n
  {
    if n == 0 then [] else [x % 256] + LeBytes(n - 1, x / 256)
  }

  lemma ValEmpty()
    ensures Val([]) == 0 && Pow256(0) == 1
  {
  }

  lemma {:induction false} ValAppend(s: seq<int>, x: int)
    ensures Val(s + [x]) == Val(s) + x * Pow256(|s|)
  {
    assert (s + [x])[..|s|] == s;
  }

  lemma {:induction false} ValCons(x: int, s: seq<int>)
    ensures Val([x] + s) == x + 256 * Val(s)
  {
    if s == [] {
      assert [x] + s == [] + [x];
      ValAppend([], x);
    } else {
      var n := |s| - 1;
      ValCons(x, s[..n]);
      assert [x] + s == ([x] + s[..n]) + [s[n]];
      ValAppend([x] + s[..n], s[n]);
      MulShift(s[n], Pow256(n));
    }
  }

  lemma MulShift(a: int, p: int)
    ensures a * (256 * p) == 256 * (a * p)
  {
  }

  /** Limbs within 0..255 give a value below 256^n. */
  lemma {:induction false} ValBound(s: seq<int>)
    requires Bytes(s)
    ensures 0 <= Val(s) < Pow256(|s|)
  {
    if s != [] {
      var n := |s| - 1;
      ValBound(s[..n]);
      var p, d := Pow256(n), s[n];
      assert 0 <= d * p <= 255 * p by { MulBound(d, 255, p); }
    }
  }

  lemma MulBound(a: int, b: int, p: nat)
    requires 0 <= a <= b
    ensures 0 <= a * p <= b * p
  {
  }

  lemma {:induction false} ValZero(s: seq<int>)
    requires forall i :: 0 <= i < |s| ==> s[i] == 0
    ensures Val(s) == 0
  {
    if s != [] {
      ValZero(s[..|s| - 1]);
    }
  }

  lemma {:induction false} ValZeroTail(s: seq<int>, n: nat)
    requires n <= |s|
    requires forall i :: n <= i < |s| ==> s[i] == 0
    ensures Val(s) == Val(s[..n])
  {
    if n == |s| {
      assert s[..n] == s;
    } else {
      var m := |s| - 1;
      ValZeroTail(s[..m], n);
      assert s[..m][..n] == s[..n];
    }
  }

  /** `Val` is linear: adding `k` times one limb vector to another adds `k` times its value. */
  lemma {:induction false} ValLinear(a: seq<int>, k: int, b: seq<int>, c: seq<int>)
    requires |a| == |b| == |c|
    requires forall i :: 0 <= i < |a| ==> c[i] == a[i] + k * b[i]
    ensures Val(c) == Val(a) + k * Val(b)
  {
    if a != [] {
      var n := |a| - 1;
      ValLinear(a[..n], k, b[..n], c[..n]);
      var p := Pow256(n);
      Distribute(a[n], k, b[n], p);
      assert k * (Val(b[..n]) + b[n] * p) == k * Val(b[..n]) + k * (b[n] * p);
    }
  }

  lemma Distribute(a: int, k: int, b: int, p: int)
    ensures (a + k * b) * p == a * p + k * (b * p)
  {
    assert (a + k * b) * p == a * p + (k * b) * p;
    assert (k * b) * p == k * (b * p);
  }

  /** The low digits of a number written out by repeated division are its residue. */
  lemma {:induction false} LeBytesOfVal(s: seq<int>)
    requires Bytes(s)
    ensures Val(s) >= 0
    ensures LeBytes(|s|, Val(s)) == s
  {
    ValBound(s);
    if s != [] {
      var t := s[1..];
      assert s == [s[0]] + t;
      ValCons(s[0], t);
      LeBytesOfVal(t);
      LowDigit(Val(s), s[0], Val(t));
    }
  }

  lemma LowDigit(v: int, d: int, rest: int)
    requires 0 <= d < 256 && v == d + 256 * rest
    ensures v % 256 == d && v / 256 == rest
  {
  }

  /** Reducing modulo 256^n does not change the low `n` digits. */
  lemma {:induction false} LeBytesMod(n: nat, x: nat)
    ensures LeBytes(n, x % Pow256(n)) == LeBytes(n, x)
  {
    if n > 0 {
      var p := Pow256(n - 1);
      ModSplit(x, p);
      LeBytesMod(n - 1, x / 256);
    }
  }

  lemma ModSplit(x: nat, p: nat)
    requires p > 0
    ensures var y := x % (256 * p); y % 256 == x % 256 && y / 256 == (x / 256) % p
  {
    var q := x / 256;
    var d := x % 256;
    var r := q % p;
    var k := q / p;
    assert q == k * p + r;
    assert x == 256 * (k * p + r) + d;
    assert 256 * (k * p) == k * (256 * p);
    assert x == k * (256 * p) + (256 * r + d);
    assert 0 <= 256 * r + d < 256 * p;
    DivModUnique(x, 256 * p, k, 256 * r + d);
  }

  lemma DivModUnique(x: int, m: int, q: int, r: int)
    requires m > 0 && 0 <= r < m && x == q * m + r
    ensures x % m == r && x / m == q
  {
    var d := x / m - q;
    assert x == (x / m) * m + x % m;
    assert d * m == r - x % m by {
      assert d * m == (x / m) * m - q * m;
    }
    assert d >= 1 ==> d * m >= m;
    assert d <= -1 ==> d * m <= -m;
  }

  /** One carry step: the running carry `u` absorbs limb `x`, leaves the byte `low`
      behind and carries `high` to the next position. */
  lemma CarryStep(total: int, done: seq<int>, u: int, x: int, low: int, high: int)
    requires total == Val(done) + u * Pow256(|done|)
    requires u + x == 256 * high + low
    ensures total + x * Pow256(|done|) == Val(done + [low]) + high * Pow256(|done| + 1)
  {
    hide Val;
    ValAppend(done, low);
    CarryArithmetic(u, x, low, high, Pow256(|done|));
  }

  lemma CarryArithmetic(u: int, x: int, low: int, high: int, p: int)
    requires u + x == 256 * high + low
    ensures u * p + x * p == low * p + high * (256 * p)
  {
    MulShift(high, p);
    assert (u + x) * p == u * p + x * p;
    assert (256 * high + low) * p == (256 * high) * p + low * p;
    assert (256 * high) * p == 256 * (high * p);
  }

  lemma {:induction false} ValOfLeBytes(n: nat, x: nat)
    ensures Val(LeBytes(n, x)) == x % Pow256(n)
  {
    hide Val;
    if n == 0 {
      ValEmpty();
    } else {
      var p := Pow256(n - 1);
      ValOfLeBytes(n - 1, x / 256);
      ValCons(x % 256, LeBytes(n - 1, x / 256));
      ModSplit(x, p);
    }
  }
}
