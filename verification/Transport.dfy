/** WireGuard transport messages: padding, framing and trimming. */
module Transport {
  import opened Options
  import opened Numbers
  import opened Words
  import opened Handshake

  const MAX_PLAIN: nat := 2048

  function PaddedLength(n: nat): (p: nat)
    ensures n <= p < n + 16 && p % 16 == 0
  {
    (n + 15) / 16 * 16
  }

  /** Zero padding to a multiple of 16. */
  function Pad(plain: seq<byte>): (p: seq<byte>)
    ensures |p| == PaddedLength(|plain|) && p[..|plain|] == plain
  {
    plain + seq(PaddedLength(|plain|) - |plain|, _ => 0)
  }

  function Big16(high: byte, low: byte): nat {
    256 * (high as int) + low as int
  }

  /** The length an IPv4 or IPv6 header declares, capped at the buffer; the whole buffer
      for anything else. */
  function IpPacketLength(pkt: seq<byte>): (n: nat)
    ensures n <= |pkt|
  {
    if pkt == [] then 0
    else
      var version := pkt[0] / 16;
      if version == 4 && |pkt| >= 20 then
        var total := Big16(pkt[2], pkt[3]);
        if total <= |pkt| then total else |pkt|
      else if version == 6 && |pkt| >= 40 then
        var total := 40 + Big16(pkt[4], pkt[5]);
        if total <= |pkt| then total else |pkt|
      else |pkt|
  }

  function Trim(padded: seq<byte>): seq<byte> {
    padded[..IpPacketLength(padded)]
  }

  /** A total length that survives the cap: the packet's own size, or anything too large
      when there is no padding to strip. */
  predicate Declares(total: nat, size: nat) {
    total == size || (total > size && size % 16 == 0)
  }

  /** A packet whose size can be told from its own first bytes. */
  predicate SelfDelimiting(p: seq<byte>) {
    if p == [] then true
    else if p[0] / 16 == 4 && |p| > 16 then Declares(Big16(p[2], p[3]), |p|)
    else if p[0] / 16 == 6 && |p| > 32 then Declares(40 + Big16(p[4], p[5]), |p|)
    else |p| % 16 == 0
  }

  /** Padding and trimming returns the packet exactly when it is self-delimiting. */
  lemma TrimRecovers(p: seq<byte>)
    ensures Trim(Pad(p)) == p <==> SelfDelimiting(p)
  {
    var q := Pad(p);
    assert Trim(q) == p <==> IpPacketLength(q) == |p|;
    assert |p| % 16 == 0 <==> |q| == |p|;
  }

  /** In particular every IPv4 or IPv6 packet whose header states its size comes back. */
  lemma WellFormedPacketsComeBack(p: seq<byte>)
    requires |p| >= 20
    requires (p[0] / 16 == 4 && 256 * (p[2] as int) + p[3] as int == |p|)
             || (p[0] / 16 == 6 && |p| >= 40 && 40 + 256 * (p[4] as int) + p[5] as int == |p|)
    ensures Trim(Pad(p)) == p
  {
    TrimRecovers(p);
  }

  /** Type 4, the peer's index, the counter, the sealed padded packet. */
  function Message(s: Suite, key: seq<byte>, index: u32, counter: u64, plain: seq<byte>): seq<byte> {
    [4, 0, 0, 0] + LeBytes(4, index) + LeBytes(8, counter) + s.seal(key, counter, Pad(plain), [])
  }

  /** What a header of either version declares, capped at what is there; anything else has
      no length of its own. */
  lemma DeclaredLength(p: seq<byte>)
    requires p != []
    ensures var total := if p[0] / 16 == 4 && |p| >= 20 then 256 * (p[2] as int) + p[3] as int
                         else if p[0] / 16 == 6 && |p| >= 40 then 40 + 256 * (p[4] as int) + p[5] as int
                         else |p|;
            IpPacketLength(p) == if total <= |p| then total else |p|
  {
  }

  /** The fields of a transport message: its type, the peer's index, the counter, and the
      packet sealed with nothing but zeros added up to a multiple of sixteen. */
  lemma MessageForm(s: Suite, key: seq<byte>, index: u32, counter: u64, plain: seq<byte>, zeros: seq<byte>)
    requires (|plain| + |zeros|) % 16 == 0 && |zeros| < 16 && forall i :: 0 <= i < |zeros| ==> zeros[i] == 0
    ensures var m := Message(s, key, index, counter, plain);
            && |m| >= 16 && m[..4] == [4, 0, 0, 0]
            && Word(m[4..8]) == index
            && Val(m[8..16]) == counter
            && m[16..] == s.seal(key, counter, plain + zeros, [])
  {
    hide LeBytes, Val, Word, PaddedLength;
    var m := Message(s, key, index, counter, plain);
    assert m[4..8] == LeBytes(4, index) && m[8..16] == LeBytes(8, counter);
    WordOfBytes(index);
    ValOfLeBytes(8, counter);
    CounterPow();
    PaddedTo(|plain|, |zeros|);
    assert Pad(plain) == plain + zeros;
    assert m[16..] == s.seal(key, counter, Pad(plain), []);
  }

  lemma PaddedTo(n: nat, z: nat)
    requires (n + z) % 16 == 0 && z < 16
    ensures PaddedLength(n) == n + z
  {
  }

  /** Only a data message with a whole tag can open. */
  lemma OnlyDataOpens(s: Suite, key: seq<byte>, packet: seq<byte>)
    ensures Unsealed(s, key, packet).Some? ==> |packet| >= 32 && packet[0] == 4
    ensures |packet| >= 32 && packet[0] == 4 ==>
              Val(packet[8..16]) >= 0
              && Unsealed(s, key, packet) == s.unseal(key, Counter(packet), packet[16..], [])
              && Counter(packet) == Val(packet[8..16])
  {
    hide Val;
    if |packet| >= 32 {
      ValBound(packet[8..16]);
    }
  }

  /** The 64-bit send counter's increment, which wraps. */
  function NextCounter(c: u64): u64 {
    (c + 1) % 0x1_0000_0000_0000_0000
  }

  function Counter(packet: seq<byte>): (c: u64)
    requires |packet| >= 32
  {
    CounterPow();
    ValBound(packet[8..16]);
    Val(packet[8..16])
  }

  lemma CounterPow()
    ensures Pow256(8) == 0x1_0000_0000_0000_0000
  {
    assert Pow256(4) == 0x1_0000_0000;
  }

  /** What a packet authenticates to under a receive key. */
  function Unsealed(s: Suite, key: seq<byte>, packet: seq<byte>): Option<seq<byte>> {
    if |packet| < 32 || packet[0] != 4 then None
    else s.unseal(key, Counter(packet), packet[16..], [])
  }

  /** A message opens under the same key to the padded packet, with its own counter. */
  lemma MessageOpens(s: Suite, key: seq<byte>, index: u32, counter: u64, plain: seq<byte>)
    requires Lawful(s)
    ensures var m := Message(s, key, index, counter, plain);
            && |m| == 32 + PaddedLength(|plain|)
            && Counter(m) == counter
            && Unsealed(s, key, m) == Some(Pad(plain))
  {
    hide LeBytes, Pad, Val;
    var m := Message(s, key, index, counter, plain);
    assert m[8..16] == LeBytes(8, counter);
    ValOfLeBytes(8, counter);
    CounterPow();
    assert m[16..] == s.seal(key, counter, Pad(plain), []);
  }
}
