/** Whole runs of the transport: the reader loop as steps, and two ends joined by a
    network that loses, duplicates, reorders and invents packets. */
module TransportRuns {
  import opened Options
  import opened Numbers
  import opened Handshake
  import opened Transport
  import ReplayWindow

  // One end: the reader loop.

  /** The data-plane part of the backend, with two ghost counts: which session the keys
      belong to, and how many messages this session has sealed. */
  datatype End = End(sendKey: seq<byte>, recvKey: seq<byte>, peerIndex: u32, sendCounter: u64,
                     accepted: set<nat>, epoch: nat, sealedCount: nat)

  /** What one turn of the loop can do. A keepalive is a send of no bytes. */
  datatype Turn =
    | Send(plain: seq<byte>, works: bool)
    | Receive(packet: seq<byte>)
    | RekeyDone(sendKey: seq<byte>, recvKey: seq<byte>, peerIndex: u32)
    | RekeyFailed(peerIndex: u32)

  predicate Seals(t: Turn) {
    t.Send? && t.works && PaddedLength(|t.plain|) <= MAX_PLAIN
  }

  /** A packet is sealed when it and its padding fit into 2048 bytes and the cipher works. */
  lemma SealsForm(plain: seq<byte>, works: bool)
    ensures Seals(Send(plain, works)) <==> works && |plain| <= 2048
  {
  }

  ghost function Step(s: Suite, e: End, t: Turn): End {
    match t
    case Send(_, _) =>
      if Seals(t) then e.(sendCounter := NextCounter(e.sendCounter), sealedCount := e.sealedCount + 1) else e
    case Receive(packet) =>
      if Unsealed(s, e.recvKey, packet).Some?
      then e.(accepted := ReplayWindow.Accept(e.accepted, Counter(packet))) else e
    case RekeyDone(sk, rk, index) => End(sk, rk, index, 0, {}, e.epoch + 1, 0)
    case RekeyFailed(index) => e.(peerIndex := index)
  }

  /** What each turn changes, and that the rest stays. */
  lemma StepForm(s: Suite, e: End, t: Turn)
    ensures t.Send? && t.works && |t.plain| <= 2048 ==>
              Step(s, e, t) == e.(sendCounter := if e.sendCounter == 0xffff_ffff_ffff_ffff then 0 else e.sendCounter + 1,
                                  sealedCount := e.sealedCount + 1)
    ensures t.Send? && !(t.works && |t.plain| <= 2048) ==> Step(s, e, t) == e
    ensures t.Receive? ==>
              if Unsealed(s, e.recvKey, t.packet).Some? && ReplayWindow.Fresh(e.accepted, Counter(t.packet))
              then Step(s, e, t) == e.(accepted := e.accepted + {Counter(t.packet) as nat}) else Step(s, e, t) == e
    ensures t.RekeyDone? ==> Step(s, e, t) == End(t.sendKey, t.recvKey, t.peerIndex, 0, {}, e.epoch + 1, 0)
    ensures t.RekeyFailed? ==> Step(s, e, t) == e.(peerIndex := t.peerIndex)
  {
    hide Unsealed, Counter, ReplayWindow.Fresh;
  }

  ghost function Run(s: Suite, e: End, turns: seq<Turn>): End {
    if turns == [] then e else Step(s, Run(s, e, turns[..|turns| - 1]), turns[|turns| - 1])
  }

  /** The state in which turn `i` happens. */
  ghost function At(s: Suite, e: End, turns: seq<Turn>, i: nat): End
    requires i <= |turns|
  {
    Run(s, e, turns[..i])
  }

  lemma AtNext(s: Suite, e: End, turns: seq<Turn>, i: nat)
    requires i < |turns|
    ensures At(s, e, turns, i + 1) == Step(s, At(s, e, turns, i), turns[i])
  {
    assert turns[..i + 1][..i] == turns[..i];
  }

  /** The counter in use is the number of messages sealed under this key, modulo 2^64. */
  ghost predicate Counted(e: End) {
    e.sendCounter == e.sealedCount % 0x1_0000_0000_0000_0000
  }

  lemma StepCounted(s: Suite, e: End, t: Turn)
    requires Counted(e)
    ensures Counted(Step(s, e, t))
  {
    hide Unsealed, ReplayWindow.Accept;
  }

  /** Sessions only move forward, and within one the count of sealed messages only grows. */
  lemma {:induction false} Progress(s: Suite, e: End, turns: seq<Turn>, i: nat, j: nat)
    requires Counted(e) && i <= j <= |turns|
    ensures var a, b := At(s, e, turns, i), At(s, e, turns, j);
            && Counted(a) && Counted(b)
            && a.epoch <= b.epoch && (a.epoch == b.epoch ==> a.sealedCount <= b.sealedCount)
    decreases j, i
  {
    hide Unsealed, ReplayWindow.Accept, NextCounter;
    if i < j {
      Progress(s, e, turns, i, j - 1);
      AtNext(s, e, turns, j - 1);
      StepCounted(s, At(s, e, turns, j - 1), turns[j - 1]);
    } else if 0 < i {
      Progress(s, e, turns, i - 1, i - 1);
      AtNext(s, e, turns, i - 1);
      StepCounted(s, At(s, e, turns, i - 1), turns[i - 1]);
    }
  }

  lemma SameResidue(a: nat, b: nat)
    requires a < b
    ensures a % 0x1_0000_0000_0000_0000 == b % 0x1_0000_0000_0000_0000
            <==> (b - a) % 0x1_0000_0000_0000_0000 == 0
    ensures b < 0x1_0000_0000_0000_0000 ==> (b - a) % 0x1_0000_0000_0000_0000 != 0
  {
  }

  /** Over any mix of data, keepalives, receives and rekeys: two messages of one session
      share a counter only if at least 2^64 messages of that session lie between them.
      Below that number no (session key, counter) pair is ever used twice. */
  lemma NoncesAreUnique(s: Suite, e: End, turns: seq<Turn>, i: nat, j: nat)
    requires Counted(e) && i < j < |turns| && Seals(turns[i]) && Seals(turns[j])
    requires At(s, e, turns, i).epoch == At(s, e, turns, j).epoch
    ensures var a, b := At(s, e, turns, i), At(s, e, turns, j);
            && a.sealedCount < b.sealedCount
            && (a.sendCounter == b.sendCounter
                <==> (b.sealedCount - a.sealedCount) % 0x1_0000_0000_0000_0000 == 0)
            && (b.sealedCount < 0x1_0000_0000_0000_0000 ==> a.sendCounter != b.sendCounter)
  {
    hide Unsealed, ReplayWindow.Accept, NextCounter;
    AtNext(s, e, turns, i);
    Progress(s, e, turns, i, i);
    Progress(s, e, turns, i + 1, j);
    Progress(s, e, turns, j, j);
    SameResidue(At(s, e, turns, i).sealedCount, At(s, e, turns, j).sealedCount);
  }

  /** A run with the failed rekeys left out. */
  function WithoutFailures(turns: seq<Turn>): seq<Turn> {
    if turns == [] then []
    else
      var n := |turns| - 1;
      WithoutFailures(turns[..n]) + if turns[n].RekeyFailed? then [] else [turns[n]]
  }

  ghost predicate SameSession(a: End, b: End) {
    a.(peerIndex := 0) == b.(peerIndex := 0)
  }

  /** Failed rekeys, however many and wherever they fall, leave no trace in either key, the
      send counter or the replay window: the run ends as it would have without them, but
      for the peer's index. */
  lemma {:induction false} FailedRekeysLeaveNoTrace(s: Suite, e: End, turns: seq<Turn>)
    ensures SameSession(Run(s, e, turns), Run(s, e, WithoutFailures(turns)))
  {
    hide Step;
    if turns != [] {
      var n := |turns| - 1;
      var rest := WithoutFailures(turns[..n]);
      FailedRekeysLeaveNoTrace(s, e, turns[..n]);
      StepIgnoresIndex(s, Run(s, e, turns[..n]), Run(s, e, rest), turns[n]);
      if turns[n].RekeyFailed? {
        assert rest + [] == rest;
      } else {
        assert (rest + [turns[n]])[..|rest|] == rest;
      }
    }
  }

  lemma StepIgnoresIndex(s: Suite, a: End, b: End, t: Turn)
    requires SameSession(a, b)
    ensures SameSession(Step(s, a, t), if t.RekeyFailed? then b else Step(s, b, t))
  {
    hide Unsealed, ReplayWindow.Accept, NextCounter;
  }

  // Two ends and a network.

  /** A message that was sent: its session, counter, packet and wire bytes. */
  datatype Sent = Sent(epoch: nat, counter: u64, plain: seq<byte>, wire: seq<byte>)

  /** A packet handed up to the tunnel device. */
  datatype Delivered = Delivered(epoch: nat, counter: u64, data: seq<byte>)

  datatype System = System(sender: End, receiver: End, network: multiset<seq<byte>>,
                           sent: seq<Sent>, up: seq<Delivered>)

  /** Session number `n` protects this direction with key `keys(n)`. */
  ghost predicate Initial(y: System, keys: nat -> seq<byte>) {
    && y.sent == [] && y.up == [] && y.network == multiset{}
    && y.sender.epoch == 0 && y.sender.sealedCount == 0 && y.sender.sendCounter == 0
    && y.sender.sendKey == keys(0)
    && y.receiver.epoch == 0 && y.receiver.accepted == {} && y.receiver.recvKey == keys(0)
  }

  datatype Action =
    | SenderSends(plain: seq<byte>)
    | SenderRekeys(index: u32)
    | SenderRekeyFails(index: u32)
    | ReceiverRekeys
    | Lose(wire: seq<byte>)
    | Duplicate(wire: seq<byte>)
    | Invent(wire: seq<byte>)
    | Deliver(wire: seq<byte>)

  /** The integrity of an ideal AEAD: what opens under the receiver's key was sealed under
      that key, with that counter, by the sender of the same session. */
  ghost predicate Authentic(s: Suite, y: System, wire: seq<byte>) {
    Unsealed(s, y.receiver.recvKey, wire).Some? ==>
      exists j :: 0 <= j < |y.sent| && y.sent[j].epoch == y.receiver.epoch
                  && y.sent[j].counter == Counter(wire)
                  && |y.sent[j].wire| >= 32 && y.sent[j].wire[16..] == wire[16..]
  }

  /** What can happen, in any order. */
  ghost predicate Enabled(s: Suite, y: System, a: Action) {
    match a
    case SenderSends(plain) =>
      PaddedLength(|plain|) <= MAX_PLAIN && y.sender.sealedCount < 0x1_0000_0000_0000_0000
    case Lose(wire) => wire in y.network
    case Duplicate(wire) => wire in y.network
    case Deliver(wire) =>
      && wire in y.network
      && Authentic(s, y, wire)
    case _ => true
  }

  /** What the receiver hands up for a packet, if anything. */
  ghost function HandedUp(s: Suite, r: End, wire: seq<byte>): seq<Delivered> {
    var plain := Unsealed(s, r.recvKey, wire);
    if plain.Some? && ReplayWindow.Fresh(r.accepted, Counter(wire)) && Trim(plain.value) != []
    then [Delivered(r.epoch, Counter(wire), Trim(plain.value))] else []
  }

  /** A packet that opens, is fresh and is no keepalive is handed up, and no other. */
  lemma HandedUpForm(s: Suite, r: End, wire: seq<byte>)
    ensures var plain := Unsealed(s, r.recvKey, wire);
            if plain.Some? && ReplayWindow.Fresh(r.accepted, Counter(wire)) && IpPacketLength(plain.value) > 0
            then HandedUp(s, r, wire)
                 == [Delivered(r.epoch, Counter(wire), plain.value[..IpPacketLength(plain.value)])]
            else HandedUp(s, r, wire) == []
  {
    hide Unsealed, Counter, IpPacketLength, ReplayWindow.Fresh;
  }

  ghost function Next(s: Suite, keys: nat -> seq<byte>, y: System, a: Action): System
    requires Enabled(s, y, a)
  {
    match a
    case SenderSends(plain) =>
      var e := y.sender;
      var wire := Message(s, e.sendKey, e.peerIndex, e.sendCounter, plain);
      y.(sender := Step(s, e, Send(plain, true)), network := y.network + multiset{wire},
         sent := y.sent + [Sent(e.epoch, e.sendCounter, plain, wire)])
    case SenderRekeys(index) =>
      y.(sender := Step(s, y.sender, RekeyDone(keys(y.sender.epoch + 1), y.sender.recvKey, index)))
    case SenderRekeyFails(index) => y.(sender := Step(s, y.sender, RekeyFailed(index)))
    case ReceiverRekeys =>
      y.(receiver := Step(s, y.receiver, RekeyDone(y.receiver.sendKey, keys(y.receiver.epoch + 1), y.receiver.peerIndex)))
    case Lose(wire) => y.(network := y.network - multiset{wire})
    case Duplicate(wire) => y.(network := y.network + multiset{wire})
    case Invent(wire) => y.(network := y.network + multiset{wire})
    case Deliver(wire) =>
      y.(network := y.network - multiset{wire}, receiver := Step(s, y.receiver, Receive(wire)),
         up := y.up + HandedUp(s, y.receiver, wire))
  }

  /** The wire bytes are the message of this session, counter and packet. */
  ghost predicate Carries(s: Suite, keys: nat -> seq<byte>, m: Sent) {
    exists index :: m.wire == Message(s, keys(m.epoch), index, m.counter, m.plain)
  }

  ghost predicate SentInv(s: Suite, keys: nat -> seq<byte>, y: System) {
    && y.sender.sendKey == keys(y.sender.epoch)
    && y.sender.sealedCount <= 0x1_0000_0000_0000_0000 && Counted(y.sender)
    && (forall j :: 0 <= j < |y.sent| ==>
          && y.sent[j].epoch <= y.sender.epoch
          && (y.sent[j].epoch == y.sender.epoch ==> y.sent[j].counter < y.sender.sealedCount)
          && Carries(s, keys, y.sent[j]))
    && (forall i, j :: 0 <= i < j < |y.sent| && y.sent[i].epoch == y.sent[j].epoch ==>
          y.sent[i].counter != y.sent[j].counter)
  }

  /** The packet that was sent under this session and counter, trimmed. */
  ghost predicate WasSent(y: System, d: Delivered) {
    exists j :: 0 <= j < |y.sent| && y.sent[j].epoch == d.epoch && y.sent[j].counter == d.counter
                && d.data == Trim(Pad(y.sent[j].plain))
  }

  ghost predicate UpInv(keys: nat -> seq<byte>, y: System) {
    && y.receiver.recvKey == keys(y.receiver.epoch)
    && (forall i :: 0 <= i < |y.up| ==> WasSent(y, y.up[i]))
    && (forall i :: 0 <= i < |y.up| ==> y.up[i].epoch <= y.receiver.epoch)
    && (forall i :: 0 <= i < |y.up| && y.up[i].epoch == y.receiver.epoch ==> y.up[i].counter in y.receiver.accepted)
    && (forall i, j :: 0 <= i < j < |y.up| && y.up[i].epoch == y.up[j].epoch ==> y.up[i].counter != y.up[j].counter)
  }

  ghost predicate Inv(s: Suite, keys: nat -> seq<byte>, y: System) {
    SentInv(s, keys, y) && UpInv(keys, y)
  }

  /** A packet that opens is the trimmed packet some sent message carried. */
  lemma OpenedWasSent(s: Suite, keys: nat -> seq<byte>, y: System, wire: seq<byte>)
    requires Lawful(s) && Inv(s, keys, y) && Enabled(s, y, Deliver(wire))
    requires Unsealed(s, y.receiver.recvKey, wire).Some?
    ensures WasSent(y, Delivered(y.receiver.epoch, Counter(wire), Trim(Unsealed(s, y.receiver.recvKey, wire).value)))
  {
    hide Message, Trim, Pad, Val;
    var j :| 0 <= j < |y.sent| && y.sent[j].epoch == y.receiver.epoch
             && y.sent[j].counter == Counter(wire)
             && |y.sent[j].wire| >= 32 && y.sent[j].wire[16..] == wire[16..];
    var m := y.sent[j];
    assert Carries(s, keys, m);
    var index :| m.wire == Message(s, keys(m.epoch), index, m.counter, m.plain);
    MessageOpens(s, keys(m.epoch), index, m.counter, m.plain);
    assert Unsealed(s, y.receiver.recvKey, wire) == Some(Pad(m.plain));
  }

  /** Sending more does not unsend anything. */
  lemma WasSentStays(y: System, z: System, d: Delivered)
    requires y.sent <= z.sent && WasSent(y, d)
    ensures WasSent(z, d)
  {
    hide Trim, Pad;
    var j :| 0 <= j < |y.sent| && y.sent[j].epoch == d.epoch && y.sent[j].counter == d.counter
             && d.data == Trim(Pad(y.sent[j].plain));
    assert z.sent[j] == y.sent[j];
  }

  lemma BelowWrap(e: End)
    requires Counted(e) && e.sealedCount < 0x1_0000_0000_0000_0000
    ensures e.sendCounter == e.sealedCount
  {
  }

  lemma SendKeepsSent(s: Suite, keys: nat -> seq<byte>, y: System, plain: seq<byte>)
    requires SentInv(s, keys, y) && Enabled(s, y, SenderSends(plain))
    ensures SentInv(s, keys, Next(s, keys, y, SenderSends(plain)))
  {
    hide Message, Counted, NextCounter;
    var e, z := y.sender, Next(s, keys, y, SenderSends(plain));
    StepCounted(s, e, Send(plain, true));
    BelowWrap(e);
    var n := |y.sent|;
    assert forall j :: 0 <= j < n ==> z.sent[j] == y.sent[j];
    var m := z.sent[n];
    assert m == Sent(e.epoch, e.sendCounter, plain, Message(s, keys(e.epoch), e.peerIndex, e.sendCounter, plain));
    assert Carries(s, keys, m);
    assert z.sender.epoch == e.epoch && z.sender.sealedCount == e.sealedCount + 1 && z.sender.sendKey == e.sendKey;
    forall j | 0 <= j < |z.sent|
      ensures && z.sent[j].epoch <= z.sender.epoch
              && (z.sent[j].epoch == z.sender.epoch ==> z.sent[j].counter < z.sender.sealedCount)
              && Carries(s, keys, z.sent[j])
    {
      hide Carries;
      assert j < n ==> z.sent[j] == y.sent[j];
    }
  }

  lemma SendKeepsInv(s: Suite, keys: nat -> seq<byte>, y: System, plain: seq<byte>)
    requires Inv(s, keys, y) && Enabled(s, y, SenderSends(plain))
    ensures Inv(s, keys, Next(s, keys, y, SenderSends(plain)))
  {
    hide Message, WasSent, SentInv;
    var z := Next(s, keys, y, SenderSends(plain));
    SendKeepsSent(s, keys, y, plain);
    forall i | 0 <= i < |z.up|
      ensures WasSent(z, z.up[i])
    {
      WasSentStays(y, z, y.up[i]);
    }
  }

  lemma DeliverKeepsInv(s: Suite, keys: nat -> seq<byte>, y: System, wire: seq<byte>)
    requires Lawful(s) && Inv(s, keys, y) && Enabled(s, y, Deliver(wire))
    ensures Inv(s, keys, Next(s, keys, y, Deliver(wire)))
  {
    hide Message, Unsealed, Counter, WasSent, Authentic;
    var z := Next(s, keys, y, Deliver(wire));
    if HandedUp(s, y.receiver, wire) != [] {
      OpenedWasSent(s, keys, y, wire);
    }
    forall i | 0 <= i < |z.up|
      ensures WasSent(z, z.up[i])
    {
      WasSentStays(y, z, z.up[i]);
    }
  }

  lemma NextKeepsInv(s: Suite, keys: nat -> seq<byte>, y: System, a: Action)
    requires Lawful(s) && Inv(s, keys, y) && Enabled(s, y, a)
    ensures Inv(s, keys, Next(s, keys, y, a))
  {
    hide Inv, Next, Enabled;
    match a
    case SenderSends(plain) => SendKeepsInv(s, keys, y, plain);
    case Deliver(wire) => DeliverKeepsInv(s, keys, y, wire);
    case _ => OthersKeepInv(s, keys, y, a);
  }

  lemma OthersKeepInv(s: Suite, keys: nat -> seq<byte>, y: System, a: Action)
    requires Inv(s, keys, y) && Enabled(s, y, a) && !a.SenderSends? && !a.Deliver?
    ensures Inv(s, keys, Next(s, keys, y, a))
  {
    hide Message, Unsealed, Counter, Authentic, HandedUp, WasSent, SentInv, UpInv;
    var z := Next(s, keys, y, a);
    assert z.sent == y.sent && z.up == y.up;
    assert SentInv(s, keys, z) by { OthersKeepSent(s, keys, y, a); }
    assert UpInv(keys, z) by { OthersKeepUp(s, keys, y, a); }
  }

  lemma OthersKeepSent(s: Suite, keys: nat -> seq<byte>, y: System, a: Action)
    requires SentInv(s, keys, y) && Enabled(s, y, a) && !a.SenderSends? && !a.Deliver?
    ensures SentInv(s, keys, Next(s, keys, y, a))
  {
    hide Message, Unsealed, Counter, Authentic, HandedUp, NextCounter;
  }

  lemma OthersKeepUp(s: Suite, keys: nat -> seq<byte>, y: System, a: Action)
    requires UpInv(keys, y) && Enabled(s, y, a) && !a.SenderSends? && !a.Deliver?
    ensures UpInv(keys, Next(s, keys, y, a))
  {
    hide Message, Unsealed, Counter, Authentic, HandedUp, NextCounter, WasSent;
    var z := Next(s, keys, y, a);
    forall i | 0 <= i < |z.up|
      ensures WasSent(z, z.up[i])
    {
      WasSentStays(y, z, y.up[i]);
    }
  }

  /** A run: states joined by enabled actions. */
  ghost predicate IsRun(s: Suite, keys: nat -> seq<byte>, states: seq<System>, actions: seq<Action>) {
    && |states| == |actions| + 1
    && Initial(states[0], keys)
    && forall i :: 0 <= i < |actions| ==>
         Enabled(s, states[i], actions[i]) && states[i + 1] == Next(s, keys, states[i], actions[i])
  }

  lemma {:induction false} RunKeepsInv(s: Suite, keys: nat -> seq<byte>, states: seq<System>, actions: seq<Action>, n: nat)
    requires Lawful(s) && IsRun(s, keys, states, actions) && n < |states|
    ensures Inv(s, keys, states[n])
  {
    hide Enabled, Next;
    if n > 0 {
      RunKeepsInv(s, keys, states, actions, n - 1);
      NextKeepsInv(s, keys, states[n - 1], actions[n - 1]);
      assert states[n - 1 + 1] == Next(s, keys, states[n - 1], actions[n - 1]);
    }
  }

  /** Transport delivers at most once: over any run, everything handed up is the trimmed
      packet of a message that was sent, and no two deliveries come from one message. */
  lemma AtMostOnceDelivery(s: Suite, keys: nat -> seq<byte>, states: seq<System>, actions: seq<Action>, n: nat)
    requires Lawful(s) && IsRun(s, keys, states, actions) && n < |states|
    ensures forall i :: 0 <= i < |states[n].up| ==> WasSent(states[n], states[n].up[i])
    ensures forall i, j, k :: 0 <= i < j < |states[n].up| && 0 <= k < |states[n].sent| ==>
      !(CameFrom(states[n], i, k) && CameFrom(states[n], j, k))
  {
    hide IsRun;
    RunKeepsInv(s, keys, states, actions, n);
  }

  ghost predicate CameFrom(y: System, i: nat, k: nat)
    requires i < |y.up| && k < |y.sent|
  {
    y.up[i].epoch == y.sent[k].epoch && y.up[i].counter == y.sent[k].counter
  }

  /** Each delivery has exactly one origin, and comes back byte for byte when the packet's
      header states its size. */
  lemma DeliveredIntact(s: Suite, keys: nat -> seq<byte>, states: seq<System>, actions: seq<Action>, n: nat,
                        i: nat, k: nat)
    requires Lawful(s) && IsRun(s, keys, states, actions) && n < |states|
    requires i < |states[n].up| && k < |states[n].sent| && CameFrom(states[n], i, k)
    ensures states[n].up[i].data == Trim(Pad(states[n].sent[k].plain))
    ensures SelfDelimiting(states[n].sent[k].plain) ==> states[n].up[i].data == states[n].sent[k].plain
  {
    hide IsRun, Trim, Pad, SelfDelimiting, Message;
    RunKeepsInv(s, keys, states, actions, n);
    var y := states[n];
    assert WasSent(y, y.up[i]);
    TrimRecovers(y.sent[k].plain);
  }
}
