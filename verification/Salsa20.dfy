/** The Salsa20 specification (D. J. Bernstein, sections 3 to 10), and HSalsa20 and
    XSalsa20 from "Extending the Salsa20 nonce". */
module Salsa20Spec {
  import opened Numbers
  import opened Words

  datatype Quad = Quad(a: u32, b: u32, c: u32, d: u32)

  type Block = w: seq<u32> | |w| == 16 witness seq(16, _ => 0)

  /** Section 3. */
  function QuarterRound(y: Quad): Quad {
    var z1 := Xor32(y.b, Rotl32(Add32(y.a, y.d), 7));
    var z2 := Xor32(y.c, Rotl32(Add32(z1, y.a), 9));
    var z3 := Xor32(y.d, Rotl32(Add32(z2, z1), 13));
    var z0 := Xor32(y.a, Rotl32(Add32(z3, z2), 18));
    Quad(z0, z1, z2, z3)
  }

  /** Section 4. */
  function RowRound(y: Block): Block {
    var r0 := QuarterRound(Quad(y[0], y[1], y[2], y[3]));
    var r1 := QuarterRound(Quad(y[5], y[6], y[7], y[4]));
    var r2 := QuarterRound(Quad(y[10], y[11], y[8], y[9]));
    var r3 := QuarterRound(Quad(y[15], y[12], y[13], y[14]));
    [r0.a, r0.b, r0.c, r0.d, r1.d, r1.a, r1.b, r1.c,
     r2.c, r2.d, r2.a, r2.b, r3.b, r3.c, r3.d, r3.a]
  }

  /** Section 5. */
  function ColumnRound(x: Block): Block {
    var c0 := QuarterRound(Quad(x[0], x[4], x[8], x[12]));
    var c1 := QuarterRound(Quad(x[5], x[9], x[13], x[1]));
    var c2 := QuarterRound(Quad(x[10], x[14], x[2], x[6]));
    var c3 := QuarterRound(Quad(x[15], x[3], x[7], x[11]));
    [c0.a, c1.d, c2.c, c3.b, c0.b, c1.a, c2.d, c3.c,
     c0.c, c1.b, c2.a, c3.d, c0.d, c1.c, c2.b, c3.a]
  }

  /** Section 6. */
  function DoubleRound(x: Block): Block {
    RowRound(ColumnRound(x))
  }

  function DoubleRounds(x: Block, n: nat): Block {
    if n == 0 then x else DoubleRound(DoubleRounds(x, n - 1))
  }

  function AddBlocks(x: Block, y: Block): Block {
    seq(16, i requires 0 <= i < 16 => Add32(x[i], y[i]))
  }

  /** Section 8: the hash of a 64-byte block. */
  function Hash(b: seq<byte>): (h: seq<byte>)
    requires |b| == 64
    ensures |h| == 64
  {
    var x := WordsOf(b);
    BytesOf(AddBlocks(x, DoubleRounds(x, 10)))
  }

  /** Section 9: constant, key and input laid out as one block. */
  function Layout(key: seq<byte>, input: seq<byte>, sigma: seq<byte>): (b: seq<byte>)
    requires |key| == 32 && |input| == 16 && |sigma| == 16
    ensures |b| == 64
  {
    sigma[0..4] + key[0..16] + sigma[4..8] + input + sigma[8..12] + key[16..32] + sigma[12..16]
  }

  /** The bytes of "expand 32-byte k". */
  const SIGMA: seq<byte> :=
    [101, 120, 112, 97, 110, 100, 32, 51, 50, 45, 98, 121, 116, 101, 32, 107]

  function Expand(key: seq<byte>, input: seq<byte>): (b: seq<byte>)
    requires |key| == 32 && |input| == 16
    ensures |b| == 64
  {
    Hash(Layout(key, input, SIGMA))
  }

  /** Eight words of the rounds' output, without the final addition. */
  function HashWithoutFeedForward(b: seq<byte>): (h: seq<byte>)
    requires |b| == 64
    ensures |h| == 32
  {
    var z := DoubleRounds(WordsOf(b), 10);
    BytesOf([z[0], z[5], z[10], z[15], z[6], z[7], z[8], z[9]])
  }

  function HSalsa20(key: seq<byte>, input: seq<byte>): (b: seq<byte>)
    requires |key| == 32 && |input| == 16
    ensures |b| == 32
  {
    HashWithoutFeedForward(Layout(key, input, SIGMA))
  }

  /** Section 10: byte `i` of the keystream for an 8-byte nonce. */
  function StreamByte(key: seq<byte>, nonce: seq<byte>, i: nat): byte
    requires |key| == 32 && |nonce| == 8
  {
    Expand(key, nonce + LeBytes(8, i / 64))[i % 64]
  }

  /** XSalsa20: the first 16 nonce bytes derive a subkey, the last 8 are the nonce. */
  function XStreamByte(key: seq<byte>, nonce: seq<byte>, i: nat): byte
    requires |key| == 32 && |nonce| == 24
  {
    StreamByte(HSalsa20(key, nonce[..16]), nonce[16..], i)
  }
}

/** The transposing implementation of the Salsa20 core. */
module Salsa20 {
  import opened Numbers
  import opened Words
  import opened Salsa20Spec

  function Transpose(x: Block): Block {
    [x[0], x[4], x[8], x[12], x[1], x[5], x[9], x[13],
     x[2], x[6], x[10], x[14], x[3], x[7], x[11], x[15]]
  }

  /** Column `j` as the loop loads it, starting at the diagonal. */
  function Column(x: Block, j: nat): Quad
    requires j < 4
  {
    Quad(x[5 * j % 16], x[(5 * j + 4) % 16], x[(5 * j + 8) % 16], x[(5 * j + 12) % 16])
  }

  /** Where the loop stores word `m` of column `j`: row `j`, rotated. */
  function Slot(j: nat, m: nat): (i: nat)
    requires j < 4 && m < 4
    ensures i == 4 * j + (j + m) % 4
    ensures i < 16 && i / 4 == j
  {
    4 * j + if j + m < 4 then j + m else j + m - 4
  }

  lemma SlotTable()
    ensures Slot(0, 0) == 0 && Slot(0, 1) == 1 && Slot(0, 2) == 2 && Slot(0, 3) == 3
    ensures Slot(1, 0) == 5 && Slot(1, 1) == 6 && Slot(1, 2) == 7 && Slot(1, 3) == 4
    ensures Slot(2, 0) == 10 && Slot(2, 1) == 11 && Slot(2, 2) == 8 && Slot(2, 3) == 9
    ensures Slot(3, 0) == 15 && Slot(3, 1) == 12 && Slot(3, 2) == 13 && Slot(3, 3) == 14
  {
  }

  lemma SlotInjective(j: nat, m: nat)
    requires j < 4 && m < 4
    ensures forall l :: 0 <= l < 4 && l != m ==> Slot(j, l) != Slot(j, m)
  {
  }

  /** What one pass leaves in row `j`: the column's quarter-round, rotated into place. */
  ghost predicate RowHolds(w: Block, x: Block, j: nat)
    requires j < 4
  {
    var q := QuarterRound(Column(x, j));
    && w[Slot(j, 0)] == q.a
    && w[Slot(j, 1)] == q.b
    && w[Slot(j, 2)] == q.c
    && w[Slot(j, 3)] == q.d
  }

  /** One pass of the loop is a column round followed by a transposition. */
  lemma PassIsTransposedColumnRound(w: Block, x: Block)
    requires forall j :: 0 <= j < 4 ==> RowHolds(w, x, j)
    ensures w == Transpose(ColumnRound(x))
  {
    hide QuarterRound, Slot;
    SlotTable();
    assert RowHolds(w, x, 0) && RowHolds(w, x, 1) && RowHolds(w, x, 2) && RowHolds(w, x, 3);
  }

  lemma RowRoundIsTransposedColumnRound(y: Block)
    ensures RowRound(y) == Transpose(ColumnRound(Transpose(y)))
  {
    hide QuarterRound;
  }

  function Pass(x: Block): Block {
    Transpose(ColumnRound(x))
  }

  function Passes(x: Block, n: nat): Block {
    if n == 0 then x else Pass(Passes(x, n - 1))
  }

  /** Two passes of the transposing loop are one double round of the specification. */
  lemma TwoPasses(x: Block)
    ensures Pass(Pass(x)) == DoubleRound(x)
  {
    hide ColumnRound, RowRound, Transpose;
    RowRoundIsTransposedColumnRound(ColumnRound(x));
  }

  lemma {:induction false} PassesAreDoubleRounds(x: Block, n: nat)
    ensures Passes(x, 2 * n) == DoubleRounds(x, n)
  {
    hide Pass, DoubleRound;
    if n > 0 {
      PassesAreDoubleRounds(x, n - 1);
      assert Passes(x, 2 * n - 1) == Pass(Passes(x, 2 * n - 2));
      TwoPasses(Passes(x, 2 * n - 2));
    }
  }

  /** The four lines of the inner loop are a quarter round, in place. */
  method QuarterInPlace(t: array<u32>)
    requires t.Length == 4
    modifies t
    ensures Quad(t[0], t[1], t[2], t[3]) == QuarterRound(old(Quad(t[0], t[1], t[2], t[3])))
  {
    hide Add32, Rotl32, Xor32;
    t[1] := Xor32(t[1], L32(Add32(t[0], t[3]), 7));
    t[2] := Xor32(t[2], L32(Add32(t[1], t[0]), 9));
    t[3] := Xor32(t[3], L32(Add32(t[2], t[1]), 13));
    t[0] := Xor32(t[0], L32(Add32(t[3], t[2]), 18));
  }

  /** One column: load, quarter-round, store as a row. */
  method ColumnToRow(x: array<u32>, w: array<u32>, j: nat)
    requires x.Length == 16 && w.Length == 16 && x != w && j < 4
    modifies w
    ensures RowHolds(w[..], x[..], j)
    ensures forall i :: 0 <= i < 16 && i / 4 != j ==> w[i] == old(w[i])
  {
    hide QuarterRound, Slot;
    var t := new u32[4](m requires 0 <= m < 4 reads x => x[(5 * j + 4 * m) % 16]);
    assert Quad(t[0], t[1], t[2], t[3]) == Column(x[..], j);
    QuarterInPlace(t);
    for m := 0 to 4
      invariant forall l :: 0 <= l < m ==> w[Slot(j, l)] == t[l]
      invariant forall i :: 0 <= i < 16 && i / 4 != j ==> w[i] == old(w[i])
      modifies w
    {
      SlotInjective(j, m);
      w[Slot(j, m)] := t[m];
    }
    assert w[Slot(j, 0)] == t[0] && w[Slot(j, 1)] == t[1] && w[Slot(j, 2)] == t[2] && w[Slot(j, 3)] == t[3];
  }

  /** The twenty passes. */
  method Rounds(x: array<u32>)
    requires x.Length == 16
    modifies x
    ensures x[..] == DoubleRounds(old(x[..]), 10)
  {
    hide QuarterRound, Transpose, ColumnRound, RowRound, DoubleRounds;
    ghost var start: Block := x[..];
    var w := new u32[16](_ => 0);
    for i := 0 to 20
      invariant x[..] == Passes(start, i)
    {
      ghost var before: Block := x[..];
      for j := 0 to 4
        invariant x[..] == before
        invariant forall l :: 0 <= l < j ==> RowHolds(w[..], before, l)
        modifies w
      {
        ghost var earlier: Block := w[..];
        ColumnToRow(x, w, j);
        forall l | 0 <= l < j
          ensures RowHolds(w[..], before, l)
        {
          assert RowHolds(earlier, before, l);
        }
      }
      PassIsTransposedColumnRound(w[..], before);
      for m := 0 to 16
        invariant x[..m] == w[..m]
        modifies x
      {
        x[m] := w[m];
      }
      assert x[..] == w[..];
    }
    PassesAreDoubleRounds(start, 10);
  }

  lemma Piece(a: seq<byte>, m: seq<byte>, z: seq<byte>, o: nat)
    requires o + 4 <= |m|
    ensures (a + m + z)[|a| + o..|a| + o + 4] == m[o..o + 4]
  {
  }

  lemma SliceOfSlice(s: seq<byte>, lo: nat, o: nat)
    requires lo + 16 <= |s| && o + 4 <= 16
    ensures s[lo..lo + 16][o..o + 4] == s[lo + o..lo + o + 4]
  {
    var a, b := s[lo..lo + 16][o..o + 4], s[lo + o..lo + o + 4];
    assert forall k :: 0 <= k < 4 ==> a[k] == b[k];
  }

  lemma LayoutPieces(key: seq<byte>, input: seq<byte>, c: seq<byte>)
    requires |key| == 32 && |input| == 16 && |c| == 16
    ensures var b := Layout(key, input, c);
            && b == c[0..4] + key[0..16] + (c[4..8] + input + c[8..12] + key[16..32] + c[12..16])
            && b == (c[0..4] + key[0..16] + c[4..8]) + input + (c[8..12] + key[16..32] + c[12..16])
            && b == (c[0..4] + key[0..16] + c[4..8] + input + c[8..12]) + key[16..32] + c[12..16]
            && b == [] + c[0..4] + (key[0..16] + c[4..8] + input + c[8..12] + key[16..32] + c[12..16])
            && b == (c[0..4] + key[0..16]) + c[4..8] + (input + c[8..12] + key[16..32] + c[12..16])
            && b == (c[0..4] + key[0..16] + c[4..8] + input) + c[8..12] + (key[16..32] + c[12..16])
            && b == (c[0..4] + key[0..16] + c[4..8] + input + c[8..12] + key[16..32]) + c[12..16] + []
  {
  }

  lemma LayoutConstant(key: seq<byte>, input: seq<byte>, c: seq<byte>, i: nat)
    requires |key| == 32 && |input| == 16 && |c| == 16 && i < 4
    ensures Layout(key, input, c)[20 * i..20 * i + 4] == c[4 * i..4 * i + 4]
  {
    hide Layout;
    LayoutPieces(key, input, c);
    if i == 0 {
      Piece([], c[0..4], key[0..16] + c[4..8] + input + c[8..12] + key[16..32] + c[12..16], 0);
    } else if i == 1 {
      Piece(c[0..4] + key[0..16], c[4..8], input + c[8..12] + key[16..32] + c[12..16], 0);
    } else if i == 2 {
      Piece(c[0..4] + key[0..16] + c[4..8] + input, c[8..12], key[16..32] + c[12..16], 0);
    } else {
      Piece(c[0..4] + key[0..16] + c[4..8] + input + c[8..12] + key[16..32], c[12..16], [], 0);
    }
  }

  lemma LayoutKeyAndInput(key: seq<byte>, input: seq<byte>, c: seq<byte>, i: nat)
    requires |key| == 32 && |input| == 16 && |c| == 16 && i < 4
    ensures var b := Layout(key, input, c);
            && b[4 + 4 * i..8 + 4 * i] == key[4 * i..4 * i + 4]
            && b[24 + 4 * i..28 + 4 * i] == input[4 * i..4 * i + 4]
            && b[44 + 4 * i..48 + 4 * i] == key[16 + 4 * i..16 + 4 * i + 4]
  {
    hide Layout;
    LayoutPieces(key, input, c);
    Piece(c[0..4], key[0..16], c[4..8] + input + c[8..12] + key[16..32] + c[12..16], 4 * i);
    Piece(c[0..4] + key[0..16] + c[4..8], input, c[8..12] + key[16..32] + c[12..16], 4 * i);
    Piece(c[0..4] + key[0..16] + c[4..8] + input + c[8..12], key[16..32], c[12..16], 4 * i);
    SliceOfSlice(key, 0, 4 * i);
    SliceOfSlice(key, 16, 4 * i);
  }

  /** Where `core` loads the constant, the key halves and the input agrees with the
      byte layout of the specification. */
  lemma LayoutWords(key: seq<byte>, input: seq<byte>, c: seq<byte>, i: nat)
    requires |key| == 32 && |input| == 16 && |c| == 16 && i < 4
    ensures var x := WordsOf(Layout(key, input, c));
            && x[5 * i] == Word(c[4 * i..4 * i + 4])
            && x[1 + i] == Word(key[4 * i..4 * i + 4])
            && x[6 + i] == Word(input[4 * i..4 * i + 4])
            && x[11 + i] == Word(key[16 + 4 * i..16 + 4 * i + 4])
  {
    hide Word, Layout;
    LayoutConstant(key, input, c, i);
    LayoutKeyAndInput(key, input, c, i);
  }

  /** The word positions filled after `i` iterations of the load loop. */
  predicate Loaded(m: nat, i: nat) {
    || (m % 5 == 0 && m / 5 < i)
    || 1 <= m < 1 + i
    || 6 <= m < 6 + i
    || 11 <= m < 11 + i
  }

  /** The four positions iteration `i` writes. */
  predicate Position(m: nat, i: nat) {
    m == 5 * i || m == 1 + i || m == 6 + i || m == 11 + i
  }

  lemma LoadedNext(m: nat, i: nat)
    requires m < 16 && i < 4
    ensures Loaded(m, i + 1) <==> Loaded(m, i) || Position(m, i)
  {
  }

  method LoadFour(x: array<u32>, i: nat, key: seq<byte>, input: seq<byte>, c: seq<byte>)
    requires x.Length == 16 && |key| == 32 && |input| == 16 && |c| == 16 && i < 4
    modifies x
    ensures forall m :: 0 <= m < 16 ==>
      x[m] == if Position(m, i) then WordsOf(Layout(key, input, c))[m] else old(x[m])
  {
    hide Word, WordsOf, Layout;
    LayoutWords(key, input, c, i);
    x[5 * i] := Ld32(c[4 * i..4 * i + 4]);
    x[1 + i] := Ld32(key[4 * i..4 * i + 4]);
    x[6 + i] := Ld32(input[4 * i..4 * i + 4]);
    x[11 + i] := Ld32(key[16 + 4 * i..16 + 4 * i + 4]);
  }

  method Load(x: array<u32>, key: seq<byte>, input: seq<byte>, c: seq<byte>)
    requires x.Length == 16 && |key| == 32 && |input| == 16 && |c| == 16
    modifies x
    ensures x[..] == WordsOf(Layout(key, input, c))
  {
    hide Word, WordsOf, Layout, Loaded, Position;
    ghost var words := WordsOf(Layout(key, input, c));
    LoadedBounds();
    for i := 0 to 4
      invariant forall m :: 0 <= m < 16 && Loaded(m, i) ==> x[m] == words[m]
    {
      LoadFour(x, i, key, input, c);
      forall m | 0 <= m < 16
        ensures Loaded(m, i + 1) <==> Loaded(m, i) || Position(m, i)
      {
        LoadedNext(m, i);
      }
    }
  }

  lemma LoadedBounds()
    ensures forall m :: 0 <= m < 16 ==> !Loaded(m, 0) && Loaded(m, 4)
  {
  }

  /** `x[i] + y[i]` for the plain hash. */
  method StoreSum(out: array<byte>, x: array<u32>, y: array<u32>)
    requires out.Length == 64 && x.Length == 16 && y.Length == 16
    modifies out
    ensures out[..] == BytesOf(AddBlocks(old(x[..]), old(y[..])))
  {
    hide LeBytes, Add32, BytesOf;
    ghost var sum := AddBlocks(x[..], y[..]);
    ghost var xs, ys := x[..], y[..];
    for i := 0 to 16
      invariant x[..] == xs && y[..] == ys
      invariant forall m :: 0 <= m < i ==> Chunk(out[..], m) == LeBytes(4, sum[m])
    {
      StoreWord(out, i, Add32(x[i], y[i]));
    }
    BytesOfChunks(sum, out[..]);
  }

  lemma FeedForwardCancels(x: u32, y: u32)
    ensures Sub32(Add32(x, y), y) == x
  {
  }

  /** Words 5i and 6+i of the start block are constant and input word `i`. */
  ghost predicate Placed(start: Block, input: seq<byte>, c: seq<byte>, i: nat)
    requires |input| == 16 && |c| == 16 && i < 4
  {
    start[5 * i] == Word(c[4 * i..4 * i + 4]) && start[6 + i] == Word(input[4 * i..4 * i + 4])
  }

  predicate Cancelled(m: nat, i: nat) {
    (m % 5 == 0 && m / 5 < i) || 6 <= m < 6 + i
  }

  /** Adds the start block and subtracts constant and input again, which leaves the
      eight wanted words as the rounds produced them. */
  method CancelFeedForward(x: array<u32>, y: array<u32>, input: seq<byte>, c: seq<byte>)
    requires x.Length == 16 && y.Length == 16 && x != y
    requires |input| == 16 && |c| == 16
    requires forall i :: 0 <= i < 4 ==> Placed(y[..], input, c, i)
    modifies x
    ensures forall m :: 0 <= m < 16 && Cancelled(m, 4) ==> x[m] == old(x[m])
  {
    hide Add32, Sub32, Word;
    ghost var z, start: Block := x[..], y[..];
    for i := 0 to 16
      invariant y[..] == start
      invariant forall m :: 0 <= m < 16 ==> x[m] == if m < i then Add32(z[m], start[m]) else z[m]
    {
      x[i] := Add32(x[i], y[i]);
    }
    for i := 0 to 4
      invariant forall m :: 0 <= m < 16 ==> x[m] == if Cancelled(m, i) then z[m] else Add32(z[m], start[m])
    {
      assert Placed(start, input, c, i);
      FeedForwardCancels(z[5 * i], start[5 * i]);
      FeedForwardCancels(z[6 + i], start[6 + i]);
      x[5 * i] := Sub32(x[5 * i], Ld32(c[4 * i..4 * i + 4]));
      x[6 + i] := Sub32(x[6 + i], Ld32(input[4 * i..4 * i + 4]));
    }
  }

  method StoreEightWords(out: array<byte>, x: array<u32>)
    requires out.Length == 32 && x.Length == 16
    modifies out
    ensures var z := old(x[..]);
            out[..] == BytesOf([z[0], z[5], z[10], z[15], z[6], z[7], z[8], z[9]])
  {
    hide LeBytes, BytesOf;
    ghost var z: Block := x[..];
    ghost var words := [z[0], z[5], z[10], z[15], z[6], z[7], z[8], z[9]];
    for i := 0 to 4
      invariant x[..] == z
      invariant forall m :: 0 <= m < 8 && (m < i || 4 <= m < 4 + i) ==> Chunk(out[..], m) == LeBytes(4, words[m])
    {
      assert words[i] == z[5 * i] && words[4 + i] == z[6 + i];
      StoreWord(out, i, x[5 * i]);
      StoreWord(out, 4 + i, x[6 + i]);
    }
    BytesOfChunks(words, out[..]);
  }

  /** The Salsa20 core: the hash of the laid-out block, or with `h` the HSalsa20 output. */
  method Core(out: array<byte>, input: seq<byte>, k: seq<byte>, c: seq<byte>, h: bool)
    requires |input| == 16 && |k| == 32 && |c| == 16
    requires out.Length == if h then 32 else 64
    modifies out
    ensures !h ==> out[..] == Hash(Layout(k, input, c))
    ensures h ==> out[..] == HashWithoutFeedForward(Layout(k, input, c))
  {
    hide WordsOf, Layout, DoubleRounds, BytesOf, AddBlocks, Word;
    var x := new u32[16](_ => 0);
    Load(x, k, input, c);
    ghost var start: Block := x[..];
    var y := new u32[16](i requires 0 <= i < 16 reads x => x[i]);
    assert y[..] == start;
    Rounds(x);
    if h {
      forall i | 0 <= i < 4
        ensures Placed(y[..], input, c, i)
      {
        LayoutWords(k, input, c, i);
      }
      ghost var z: Block := x[..];
      CancelFeedForward(x, y, input, c);
      assert Cancelled(0, 4) && Cancelled(5, 4) && Cancelled(10, 4) && Cancelled(15, 4);
      StoreEightWords(out, x);
    } else {
      AddCommutes(x[..], start);
      StoreSum(out, x, y);
    }
  }

  lemma AddCommutes(x: Block, y: Block)
    ensures AddBlocks(x, y) == AddBlocks(y, x)
  {
  }
}
