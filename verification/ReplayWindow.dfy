/** The anti-replay window of RFC 6479 over WireGuard's 0-based 64-bit counters: a ring
    of 128 blocks of 64 bits that behaves like the plain set of accepted counters. */
module ReplayWindow {
  import opened Bits
  import opened Numbers

  const BLOCKS: nat := 128
  const BLOCK_BITS: nat := 64
  const WINDOW: nat := 8128
  const REJECT_AFTER_MESSAGES: nat := 0xffff_ffff_ffff_ffff - 8192 - 1

  /** The policy, over a plain set: under the limit, not too far behind any accepted
      counter, and not accepted before. */
  ghost predicate Fresh(accepted: set<nat>, c: nat) {
    && c < REJECT_AFTER_MESSAGES
    && (forall a :: a in accepted ==> a <= c + WINDOW)
    && c !in accepted
  }

  ghost function Accept(accepted: set<nat>, c: nat): set<nat> {
    if Fresh(accepted, c) then accepted + {c} else accepted
  }

  /** The window after a sequence of calls. */
  ghost function AcceptAll(accepted: set<nat>, cs: seq<nat>): set<nat> {
    if cs == [] then accepted
    else Accept(AcceptAll(accepted, cs[..|cs| - 1]), cs[|cs| - 1])
  }

  /** The policy's answer to call number `i` of a sequence. */
  ghost predicate AcceptedAt(accepted: set<nat>, cs: seq<nat>, i: nat)
    requires i < |cs|
  {
    Fresh(AcceptAll(accepted, cs[..i]), cs[i])
  }

  /** The policy in numbers: the limit of 2^64 - 2^13 - 2, and 127 blocks of 64 counters. */
  lemma PolicyForm(accepted: set<nat>, c: nat, a: nat)
    ensures Fresh(accepted, c) <==>
            && c < 18446744073709543422
            && c !in accepted && forall b :: b in accepted ==> b <= c + 8128
    ensures a in Accept(accepted, c) <==> a in accepted || (a == c && Fresh(accepted, c))
  {
  }

  /** What has been accepted stays accepted. */
  lemma {:induction false} AcceptedStays(accepted: set<nat>, cs: seq<nat>, i: nat, j: nat)
    requires i <= j <= |cs|
    ensures AcceptAll(accepted, cs[..i]) <= AcceptAll(accepted, cs[..j])
  {
    if i < j {
      AcceptedStays(accepted, cs, i, j - 1);
      assert cs[..j][..j - 1] == cs[..j - 1];
    }
  }

  /** Over any sequence of calls, a counter is accepted at most once. */
  lemma AtMostOnce(accepted: set<nat>, cs: seq<nat>, i: nat, j: nat)
    requires i < j < |cs|
    requires AcceptedAt(accepted, cs, i) && AcceptedAt(accepted, cs, j)
    ensures cs[i] != cs[j]
  {
    assert cs[..i + 1][..i] == cs[..i];
    AcceptedStays(accepted, cs, i + 1, j);
  }

  /** Reordering within the window loses nothing: after a reset, distinct counters that
      lie within 8128 of each other are all accepted, in whatever order they come. */
  lemma {:induction false} ReorderingIsTolerated(cs: seq<nat>, i: nat)
    requires i < |cs|
    requires forall k, l :: 0 <= k < l <= i ==> cs[k] != cs[l] && cs[k] <= cs[l] + WINDOW
    requires cs[i] < REJECT_AFTER_MESSAGES
    ensures AcceptedAt({}, cs, i)
  {
    OnlyOffered(cs, i);
  }

  lemma {:induction false} OnlyOffered(cs: seq<nat>, n: nat)
    requires n <= |cs|
    ensures forall a :: a in AcceptAll({}, cs[..n]) ==> exists k :: 0 <= k < n && cs[k] == a
  {
    if n > 0 {
      OnlyOffered(cs, n - 1);
      assert cs[..n][..n - 1] == cs[..n - 1];
    }
  }

  /** Blocks that a window whose newest block is `top` keeps in the ring. */
  predicate Covers(top: nat, b: nat) {
    b <= top < b + BLOCKS
  }

  /** How many blocks after `current` slot `s` comes round again, counted from 0. */
  function Distance(s: int, current: int): (d: nat)
    ensures d < BLOCKS
  {
    (s - current - 1) % BLOCKS
  }

  lemma DistanceOfCleared(s: nat, current: nat, i: nat)
    requires s < BLOCKS && 1 <= i <= BLOCKS
    ensures Distance(s, current) == i - 1 <==> s == (i + current) % BLOCKS
  {
  }

  /** The slots cleared when the newest block moves from `current` to `index` are exactly
      those of the new window's blocks that the old window did not have. */
  lemma DistanceOfBlock(b: nat, current: nat, index: nat)
    requires current <= index && Covers(index, b)
    ensures var top := if index - current > BLOCKS then BLOCKS else index - current;
            Distance(b % BLOCKS, current) < top <==> current < b
  {
  }

  /** Bit `i` of block `b` says whether the counter 64b + i - 1 was accepted. */
  ghost predicate BlockMatches(bitmap: seq<u64>, accepted: set<nat>, b: nat)
    requires |bitmap| == BLOCKS
  {
    forall i :: 0 <= i < BLOCK_BITS ==>
      (Bit(bitmap[b % BLOCKS], i) <==> BLOCK_BITS * b + i - 1 in accepted)
  }

  lemma EmptyMatches(bitmap: seq<u64>, b: nat)
    requires |bitmap| == BLOCKS
    requires forall s :: 0 <= s < BLOCKS ==> bitmap[s] == 0
    ensures BlockMatches(bitmap, {}, b)
  {
    forall i | 0 <= i < BLOCK_BITS
      ensures !Bit(bitmap[b % BLOCKS], i)
    {
      BitZero(i);
    }
  }

  /** Setting the bit of `c` records `c` and disturbs no other covered counter. */
  lemma RecordMatches(before: seq<u64>, after: seq<u64>, accepted: set<nat>, c: nat, index: nat)
    requires |before| == |after| == BLOCKS && index == (c + 1) / BLOCK_BITS
    requires forall s :: 0 <= s < BLOCKS && s != index % BLOCKS ==> after[s] == before[s]
    requires forall j :: 0 <= j < BLOCK_BITS ==>
      (Bit(after[index % BLOCKS], j) <==> Bit(before[index % BLOCKS], j) || j == (c + 1) % BLOCK_BITS)
    ensures forall top, b: nat :: Covers(top, b) && Covers(top, index) && BlockMatches(before, accepted, b)
                                  ==> BlockMatches(after, accepted + {c}, b)
  {
    hide Bit;
    forall top, b: nat | Covers(top, b) && Covers(top, index) && BlockMatches(before, accepted, b)
      ensures BlockMatches(after, accepted + {c}, b)
    {
      assert b != index ==> b % BLOCKS != index % BLOCKS;
    }
  }

  class Window {
    var counter: u64
    const bitmap: array<u64>
    ghost var accepted: set<nat>

    ghost predicate Valid()
      reads this, bitmap
    {
      && bitmap.Length == BLOCKS
      && (forall a :: a in accepted ==> a < counter && a < REJECT_AFTER_MESSAGES)
      && (counter > 0 ==> counter - 1 in accepted)
      && (forall b :: Covers(counter / BLOCK_BITS, b) ==> BlockMatches(bitmap[..], accepted, b))
    }

    constructor ()
      ensures Valid() && accepted == {} && fresh(bitmap)
    {
      bitmap := new u64[BLOCKS](_ => 0);
      counter := 0;
      accepted := {};
      new;
      forall b: nat | Covers(0, b)
        ensures BlockMatches(bitmap[..], accepted, b)
      {
        EmptyMatches(bitmap[..], b);
      }
    }

    /** Clears the window, as every new session does. */
    method Reset()
      requires Valid()
      modifies this, bitmap
      ensures Valid() && accepted == {}
    {
      counter := 0;
      accepted := {};
      for i := 0 to BLOCKS
        invariant forall s :: 0 <= s < i ==> bitmap[s] == 0
        modifies bitmap
      {
        bitmap[i] := 0;
      }
      forall b: nat | Covers(0, b)
        ensures BlockMatches(bitmap[..], accepted, b)
      {
        EmptyMatches(bitmap[..], b);
      }
    }

    /** Moves the newest block forward, clearing the slots it takes over. */
    method Advance(index: nat)
      requires Valid() && counter / BLOCK_BITS <= index
      modifies bitmap
      ensures forall b :: Covers(index, b) ==> BlockMatches(bitmap[..], accepted, b)
    {
      hide Bit;
      var current := counter / BLOCK_BITS;
      var top := index - current;
      if top > BLOCKS {
        top := BLOCKS;
      }
      for i := 1 to top + 1
        invariant forall s :: 0 <= s < BLOCKS ==>
          bitmap[s] == if Distance(s, current) < i - 1 then 0 else old(bitmap[s])
      {
        forall s | 0 <= s < BLOCKS
          ensures Distance(s, current) == i - 1 <==> s == (i + current) % BLOCKS
        {
          DistanceOfCleared(s, current, i);
        }
        bitmap[(i + current) % BLOCKS] := 0;
      }
      forall b: nat | Covers(index, b)
        ensures BlockMatches(bitmap[..], accepted, b)
      {
        DistanceOfBlock(b, current, index);
        if b <= current {
          assert BlockMatches(old(bitmap[..]), accepted, b);
        } else {
          forall i | 0 <= i < BLOCK_BITS
            ensures !Bit(bitmap[b % BLOCKS], i) && BLOCK_BITS * b + i - 1 !in accepted
          {
            BitZero(i);
          }
        }
      }
    }

    /** Accepts and records a fresh counter; rejects a duplicate, one that fell out of
        the window and one at the end of the counter space, changing nothing. */
    method Validate(c: u64) returns (ok: bool)
      requires Valid()
      modifies this, bitmap
      ensures Valid()
      ensures ok <==> Fresh(old(accepted), c)
      ensures accepted == Accept(old(accepted), c)
      ensures !ok ==> counter == old(counter) && bitmap[..] == old(bitmap[..])
    {
      if c >= REJECT_AFTER_MESSAGES {
        return false;
      }
      var v: u64 := c + 1;
      var limit: u64 := WINDOW + v;
      if limit < counter {
        assert counter - 1 in accepted;
        return false;
      }
      var index := v / BLOCK_BITS;
      if v > counter {
        Advance(index);
        counter := v;
      }
      var slot := index % BLOCKS;
      var bit := MaskFor(v % BLOCK_BITS);
      AndTestsBit(bitmap[slot], v % BLOCK_BITS);
      assert BlockMatches(bitmap[..], accepted, index);
      if And(bitmap[slot], bit) != 0 {
        return false;
      }
      ghost var before := bitmap[..];
      SetBit(slot, v % BLOCK_BITS, bit);
      RecordMatches(before, bitmap[..], accepted, c, index);
      accepted := accepted + {c};
      return true;
    }

    method MaskFor(i: nat) returns (bit: u64)
      requires i < BLOCK_BITS
      ensures bit == Pow2(i)
    {
      Pow2Below(i, 64);
      Pow2Values();
      bit := Pow2(i);
    }

    method SetBit(slot: nat, i: nat, bit: u64)
      requires bitmap.Length == BLOCKS && slot < BLOCKS && i < BLOCK_BITS && bit == Pow2(i)
      modifies bitmap
      ensures forall s :: 0 <= s < BLOCKS && s != slot ==> bitmap[s] == old(bitmap[s])
      ensures forall j :: 0 <= j < BLOCK_BITS ==> (Bit(bitmap[slot], j) <==> Bit(old(bitmap[slot]), j) || j == i)
    {
      Pow2Values();
      Pow2Below(i, 64);
      OrBound(bitmap[slot], bit, 64);
      forall j | 0 <= j < BLOCK_BITS
        ensures Bit(Or(bitmap[slot], bit), j) <==> Bit(bitmap[slot], j) || j == i
      {
        OrSetsBit(bitmap[slot], i, j);
      }
      bitmap[slot] := Or(bitmap[slot], bit);
    }
  }
}
