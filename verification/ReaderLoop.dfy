/** The reader loop over the backend object: what its iterations do is a run of turns, so
    everything proved of runs holds of the loop. */
module ReaderLoop {
  import opened Options
  import opened Numbers
  import opened Words
  import opened Handshake
  import opened Transport
  import opened TransportRuns
  import opened WireGuardBackend

  /** What one iteration of the loop meets: a packet from the tunnel, a datagram from the
      network, a keepalive that is due, a rekey that is due; and whether the cipher works
      and the session is past its reject time. */
  datatype Iteration = Iteration(
    tun: Option<seq<byte>>, udp: Option<seq<byte>>, keepalive: bool, rekey: Option<Attempt>,
    tunWorks: bool, keepaliveWorks: bool, expired: bool)

  /** Reads are capped at 1500 bytes from the tunnel and 2048 from the network. */
  predicate Fits(it: Iteration) {
    (it.tun.Some? ==> 0 < |it.tun.value| <= 1500) && (it.udp.Some? ==> |it.udp.value| <= 2048)
  }

  /** The fixed part of a backend. */
  datatype Identity = Identity(suite: Suite, private: seq<byte>, peerPublic: seq<byte>, psk: seq<byte>)

  ghost function OutcomeOf(id: Identity, a: Attempt): Option<Session> {
    Outcome(id.suite, id.private, id.peerPublic, id.psk, a)
  }

  /** The loop ends by itself when a rekey fails on an expired session. */
  ghost predicate Stops(id: Identity, it: Iteration) {
    it.rekey.Some? && it.expired && OutcomeOf(id, it.rekey.value).None?
  }

  ghost function RekeyTurn(id: Identity, peerIndex: u32, a: Attempt): Turn {
    match OutcomeOf(id, a)
    case Some(session) => RekeyDone(session.sendKey, session.recvKey, session.peerIndex)
    case None => RekeyFailed(IndexAfter(Accepted(id.suite, id.private, id.peerPublic, a), peerIndex))
  }

  ghost function Traffic(it: Iteration): seq<Turn> {
    (if it.tun.Some? then [Send(it.tun.value, it.tunWorks)] else [])
    + (if it.udp.Some? then [Receive(it.udp.value)] else [])
  }

  ghost function Timers(id: Identity, peerIndex: u32, it: Iteration): seq<Turn> {
    (if it.keepalive then [Send([], it.keepaliveWorks)] else [])
    + (if it.rekey.Some? then [RekeyTurn(id, peerIndex, it.rekey.value)] else [])
  }

  /** The turns of one iteration, in the loop's order. */
  ghost function TurnsOf(id: Identity, peerIndex: u32, it: Iteration): seq<Turn> {
    Traffic(it) + Timers(id, peerIndex, it)
  }

  /** An iteration in which everything is due does everything, in this order. */
  lemma IterationForm(id: Identity, peerIndex: u32, plain: seq<byte>, datagram: seq<byte>, a: Attempt, it: Iteration)
    requires it.tun == Some(plain) && it.udp == Some(datagram) && it.keepalive && it.rekey == Some(a)
    ensures TurnsOf(id, peerIndex, it)
            == [Send(plain, it.tunWorks), Receive(datagram), Send([], it.keepaliveWorks), RekeyTurn(id, peerIndex, a)]
  {
    hide RekeyTurn;
  }

  /** An iteration in which nothing is due does nothing, and each part is there by itself. */
  lemma IterationParts(id: Identity, peerIndex: u32, it: Iteration)
    ensures it.tun.None? && it.udp.None? && !it.keepalive && it.rekey.None? ==> TurnsOf(id, peerIndex, it) == []
    ensures |TurnsOf(id, peerIndex, it)| == (if it.tun.Some? then 1 else 0) + (if it.udp.Some? then 1 else 0)
                                            + (if it.keepalive then 1 else 0) + (if it.rekey.Some? then 1 else 0)
    ensures it.tun.Some? ==> TurnsOf(id, peerIndex, it)[0] == Send(it.tun.value, it.tunWorks)
    ensures it.udp.Some? ==> Receive(it.udp.value) in TurnsOf(id, peerIndex, it)
    ensures it.keepalive ==> Send([], it.keepaliveWorks) in TurnsOf(id, peerIndex, it)
    ensures it.rekey.Some? ==>
              TurnsOf(id, peerIndex, it)[|TurnsOf(id, peerIndex, it)| - 1] == RekeyTurn(id, peerIndex, it.rekey.value)
  {
    hide RekeyTurn;
  }

  ghost function AllTurns(id: Identity, e: End, its: seq<Iteration>): seq<Turn> {
    if its == [] then []
    else
      var before := AllTurns(id, e, its[..|its| - 1]);
      before + TurnsOf(id, Run(id.suite, e, before).peerIndex, its[|its| - 1])
  }

  /** What a run puts on the wire, in order. */
  ghost function Wire(s: Suite, e: End, turns: seq<Turn>): seq<seq<byte>> {
    if turns == [] then []
    else
      var n := |turns| - 1;
      var now := Run(s, e, turns[..n]);
      Wire(s, e, turns[..n])
      + if Seals(turns[n]) then [Message(s, now.sendKey, now.peerIndex, now.sendCounter, turns[n].plain)] else []
  }

  /** What a turn hands up to the tunnel. */
  ghost function Up(s: Suite, now: End, t: Turn): seq<Delivered> {
    if t.Receive? then HandedUp(s, now, t.packet) else []
  }

  /** What a run hands up, in order. */
  ghost function AllUp(s: Suite, e: End, turns: seq<Turn>): seq<Delivered> {
    if turns == [] then []
    else
      var n := |turns| - 1;
      AllUp(s, e, turns[..n]) + Up(s, Run(s, e, turns[..n]), turns[n])
  }

  ghost function Data(up: seq<Delivered>): seq<seq<byte>> {
    seq(|up|, i requires 0 <= i < |up| => up[i].data)
  }

  lemma RunSnoc(s: Suite, e: End, turns: seq<Turn>, t: Turn)
    ensures Run(s, e, turns + [t]) == Step(s, Run(s, e, turns), t)
    ensures Data(AllUp(s, e, turns + [t])) == Data(AllUp(s, e, turns)) + Data(Up(s, Run(s, e, turns), t))
    ensures Wire(s, e, turns + [t]) == Wire(s, e, turns)
      + if Seals(t) then var now := Run(s, e, turns); [Message(s, now.sendKey, now.peerIndex, now.sendCounter, t.plain)] else []
  {
    assert (turns + [t])[..|turns|] == turns;
  }

  /** The session number and counter each wire message was sealed under. */
  ghost function Nonces(s: Suite, e: End, turns: seq<Turn>): seq<(nat, nat)> {
    if turns == [] then []
    else
      var n := |turns| - 1;
      var now := Run(s, e, turns[..n]);
      Nonces(s, e, turns[..n]) + if Seals(turns[n]) then [(now.epoch, now.sendCounter)] else []
  }

  /** No session of the run seals more than 2^64 messages. */
  ghost predicate WithinLimit(s: Suite, e: End, turns: seq<Turn>) {
    forall i :: 0 <= i <= |turns| ==> At(s, e, turns, i).sealedCount <= 0x1_0000_0000_0000_0000
  }

  /** A nonce that lies in the past of `e`. */
  ghost predicate Used(e: End, nonce: (nat, nat)) {
    nonce.0 < e.epoch || (nonce.0 == e.epoch && nonce.1 < e.sealedCount)
  }

  ghost predicate CarriesCounter(packet: seq<byte>, c: nat) {
    |packet| >= 32 && packet[8..16] == LeBytes(8, c)
  }

  lemma LimitOfPrefix(s: Suite, e: End, turns: seq<Turn>)
    requires turns != [] && WithinLimit(s, e, turns)
    ensures WithinLimit(s, e, turns[..|turns| - 1])
    ensures Run(s, e, turns).sealedCount <= 0x1_0000_0000_0000_0000
  {
    hide Run;
    var n := |turns| - 1;
    forall i | 0 <= i <= n
      ensures At(s, e, turns[..n], i).sealedCount <= 0x1_0000_0000_0000_0000
    {
      assert turns[..n][..i] == turns[..i];
      assert At(s, e, turns, i).sealedCount <= 0x1_0000_0000_0000_0000;
    }
    assert turns[..n + 1] == turns;
    assert At(s, e, turns, n + 1).sealedCount <= 0x1_0000_0000_0000_0000;
  }

  /** A step uses up the counter it seals under, and frees none. */
  lemma StepUses(s: Suite, e: End, t: Turn, nonce: (nat, nat))
    requires Counted(e) && Step(s, e, t).sealedCount <= 0x1_0000_0000_0000_0000
    ensures Used(e, nonce) ==> Used(Step(s, e, t), nonce)
    ensures Seals(t) ==> !Used(e, (e.epoch, e.sendCounter)) && Used(Step(s, e, t), (e.epoch, e.sendCounter))
  {
    hide Unsealed, ReplayWindow.Accept, NextCounter;
  }

  lemma MessageShows(s: Suite, now: End, plain: seq<byte>)
    requires Lawful(s)
    ensures CarriesCounter(Message(s, now.sendKey, now.peerIndex, now.sendCounter, plain), now.sendCounter)
  {
    hide LeBytes, Pad, Val;
  }

  /** Everything a run puts on the wire: each message shows its counter in bytes 8 to 15,
      and no (session, counter) pair is used for two of them, whatever the mix of data,
      keepalives, receives and successful or failed rekeys. */
  lemma {:induction false} WireNonces(s: Suite, e: End, turns: seq<Turn>)
    requires Lawful(s) && Counted(e) && WithinLimit(s, e, turns)
    ensures Counted(Run(s, e, turns))
    ensures var wire, nonces := Wire(s, e, turns), Nonces(s, e, turns);
            && |wire| == |nonces|
            && (forall i :: 0 <= i < |wire| ==> CarriesCounter(wire[i], nonces[i].1) && Used(Run(s, e, turns), nonces[i]))
            && (forall i, j :: 0 <= i < j < |wire| ==> nonces[i] != nonces[j])
  {
    hide Step, Seals, Used, Message, CarriesCounter, Counted, WithinLimit, Lawful;
    if turns != [] {
      var n := |turns| - 1;
      var now, t := Run(s, e, turns[..n]), turns[n];
      LimitOfPrefix(s, e, turns);
      WireNonces(s, e, turns[..n]);
      StepCounted(s, now, t);
      var earlier := Nonces(s, e, turns[..n]);
      var nonce := (now.epoch, now.sendCounter as nat);
      forall i | 0 <= i < |earlier|
        ensures Used(Run(s, e, turns), earlier[i])
      {
        StepUses(s, now, t, earlier[i]);
      }
      StepUses(s, now, t, nonce);
      MessageShows(s, now, if t.Send? then t.plain else []);
      SealsSends(t);
    }
  }

  /** The peer's index in force when each wire message was sealed. */
  ghost function Indices(s: Suite, e: End, turns: seq<Turn>): seq<u32> {
    if turns == [] then []
    else
      var n := |turns| - 1;
      Indices(s, e, turns[..n]) + if Seals(turns[n]) then [Run(s, e, turns[..n]).peerIndex] else []
  }

  ghost predicate ShowsIndex(packet: seq<byte>, index: u32) {
    |packet| >= 16 && packet[..4] == [4, 0, 0, 0] && Word(packet[4..8]) == index
  }

  lemma MessageShowsIndex(s: Suite, now: End, plain: seq<byte>)
    ensures ShowsIndex(Message(s, now.sendKey, now.peerIndex, now.sendCounter, plain), now.peerIndex)
  {
    hide Message, Word;
    var z := PaddedLength(|plain|) - |plain|;
    MessageForm(s, now.sendKey, now.peerIndex, now.sendCounter, plain, seq(z, _ => 0));
  }

  /** Every message on the wire is a data message and shows in bytes 4 to 7 the peer's index
      in force when it was sealed. */
  lemma {:induction false} WireShowsIndex(s: Suite, e: End, turns: seq<Turn>)
    ensures |Wire(s, e, turns)| == |Indices(s, e, turns)|
    ensures forall i :: 0 <= i < |Wire(s, e, turns)| ==> ShowsIndex(Wire(s, e, turns)[i], Indices(s, e, turns)[i])
  {
    hide Run, Seals, Message, ShowsIndex;
    if turns != [] {
      var n := |turns| - 1;
      WireShowsIndex(s, e, turns[..n]);
      SealsSends(turns[n]);
      MessageShowsIndex(s, Run(s, e, turns[..n]), if turns[n].Send? then turns[n].plain else []);
    }
  }

  /** As long as nothing is rekeyed the index stays the one the session began with. */
  lemma {:induction false} IndicesWithoutRekey(s: Suite, e: End, turns: seq<Turn>)
    requires forall i :: 0 <= i < |turns| ==> turns[i].Send? || turns[i].Receive?
    ensures Run(s, e, turns).peerIndex == e.peerIndex
    ensures forall i :: 0 <= i < |Indices(s, e, turns)| ==> Indices(s, e, turns)[i] == e.peerIndex
  {
    hide Step, Seals;
    if turns != [] {
      var n := |turns| - 1;
      IndicesWithoutRekey(s, e, turns[..n]);
      StepKeepsIndex(s, Run(s, e, turns[..n]), turns[n]);
    }
  }

  /** After a handshake with a section 5.4 responder everything the session puts on the wire
      is addressed to that responder's own index. */
  lemma AddressedToResponder(s: Suite, private: seq<byte>, responder: seq<byte>, psk: seq<byte>, a: Attempt,
                             ephemeralR: seq<byte>, own: u32, turns: seq<Turn>)
    requires Lawful(s) && |a.timestamp| == 12
    requires Initiation(s, private, s.public(responder), a).Some?
    requires var r := Respond(s, responder, psk, ephemeralR, own,
                              Initiation(s, private, s.public(responder), a).value.message);
             r.Some? && AwaitResponse(a.received, 64) == Some(r.value.message)
    requires forall i :: 0 <= i < |turns| ==> turns[i].Send? || turns[i].Receive?
    ensures Outcome(s, private, s.public(responder), psk, a).Some?
    ensures var wire := Wire(s, Begin(Outcome(s, private, s.public(responder), psk, a).value), turns);
            forall i :: 0 <= i < |wire| ==> ShowsIndex(wire[i], own)
  {
    hide Initiation, Respond, Outcome, AwaitResponse, Wire, Indices, Run, Word, ShowsIndex;
    HandshakeAgrees(s, private, responder, psk, a, ephemeralR, own);
    var start := Begin(Outcome(s, private, s.public(responder), psk, a).value);
    WireShowsIndex(s, start, turns);
    IndicesWithoutRekey(s, start, turns);
  }

  lemma SealsSends(t: Turn)
    ensures Seals(t) ==> t.Send?
  {
  }

  /** A delivery that lies in the past of `e`. */
  ghost predicate Taken(e: End, d: Delivered) {
    d.epoch < e.epoch || (d.epoch == e.epoch && d.counter in e.accepted)
  }

  /** A step hands up only what was not taken before, and takes it. */
  lemma StepTakes(s: Suite, e: End, t: Turn, d: Delivered)
    ensures Taken(e, d) ==> Taken(Step(s, e, t), d)
    ensures |Up(s, e, t)| <= 1
    ensures |Up(s, e, t)| == 1 ==> !Taken(e, Up(s, e, t)[0]) && Taken(Step(s, e, t), Up(s, e, t)[0])
  {
    hide Unsealed, Counter, Trim, NextCounter;
  }

  ghost predicate AllTaken(e: End, up: seq<Delivered>) {
    forall i :: 0 <= i < |up| ==> Taken(e, up[i])
  }

  ghost predicate SameNonce(d: Delivered, f: Delivered) {
    d.epoch == f.epoch && d.counter == f.counter
  }

  /** The loop itself delivers at most once: of everything a run writes to the tunnel no two
      packets have the same session and counter, whatever the network sends. */
  lemma {:induction false} TunOnce(s: Suite, e: End, turns: seq<Turn>)
    ensures AllTaken(Run(s, e, turns), AllUp(s, e, turns))
    ensures forall i, j :: 0 <= i < j < |AllUp(s, e, turns)| ==>
              !SameNonce(AllUp(s, e, turns)[i], AllUp(s, e, turns)[j])
  {
    hide Step, Taken, Up, SameNonce;
    if turns != [] {
      var n := |turns| - 1;
      var now, t := Run(s, e, turns[..n]), turns[n];
      var earlier, more := AllUp(s, e, turns[..n]), Up(s, now, t);
      TunOnce(s, e, turns[..n]);
      assert AllUp(s, e, turns) == earlier + more;
      forall i | 0 <= i < |earlier|
        ensures Taken(Run(s, e, turns), earlier[i])
        ensures |more| == 1 ==> !SameNonce(earlier[i], more[0])
      {
        StepTakes(s, now, t, earlier[i]);
        if |more| == 1 {
          TakenByNonce(now, earlier[i], more[0]);
        }
      }
      StepTakes(s, now, t, Delivered(0, 0, []));
    }
  }

  lemma TakenByNonce(e: End, d: Delivered, f: Delivered)
    requires Taken(e, d) && !Taken(e, f)
    ensures !SameNonce(d, f)
  {
  }

  lemma FitsSizes(it: Iteration)
    requires Fits(it)
    ensures it.tun.Some? ==> |it.tun.value| <= 1500
    ensures it.udp.Some? ==> |it.udp.value| <= 2048
  {
  }

  lemma SealsWhenSmall(plain: seq<byte>, works: bool)
    requires |plain| <= 1500
    ensures Seals(Send(plain, works)) <==> works
  {
  }

  lemma OnlyReceivesHandUp(s: Suite, now: End, t: Turn)
    ensures Data(Up(s, now, t)) == if t.Receive? then Data(HandedUp(s, now, t.packet)) else []
  {
    hide HandedUp;
  }

  lemma ReceivesSealNothing(packet: seq<byte>)
    ensures !Seals(Receive(packet))
  {
  }

  lemma StepKeepsIndex(s: Suite, e: End, t: Turn)
    requires t.Send? || t.Receive?
    ensures Step(s, e, t).peerIndex == e.peerIndex
  {
  }

  lemma RekeysSealNothing(id: Identity, peerIndex: u32, a: Attempt)
    ensures !Seals(RekeyTurn(id, peerIndex, a)) && !RekeyTurn(id, peerIndex, a).Receive?
  {
    hide OutcomeOf, Accepted, IndexAfter;
  }

  lemma NoTurns(id: Identity, e: End, its: seq<Iteration>)
    ensures AllTurns(id, e, its[..0]) == []
    ensures Run(id.suite, e, []) == e && Wire(id.suite, e, []) == [] && Data(AllUp(id.suite, e, [])) == []
  {
  }

  lemma TurnsNext(id: Identity, e: End, its: seq<Iteration>, n: nat)
    requires n < |its|
    ensures var before := AllTurns(id, e, its[..n]);
            AllTurns(id, e, its[..n + 1]) == before + TurnsOf(id, Run(id.suite, e, before).peerIndex, its[n])
  {
    hide TurnsOf;
    assert its[..n + 1][..n] == its[..n];
  }

  class Loop {
    const b: Backend
    /** The session's number and how many messages were sealed under its key. */
    ghost var epoch: nat
    ghost var sealedCount: nat
    /** Everything handed to the socket, and everything written to the tunnel, so far. */
    var wire: seq<seq<byte>>
    var tun: seq<seq<byte>>

    ghost function Id(): Identity
      reads b
    {
      Identity(b.suite, b.privateKey, b.peerPublic, b.psk)
    }

    ghost predicate Valid()
      reads this, b, b.window, b.window.bitmap
    {
      && b.Shape() && Lawful(b.suite) && b.window.Valid()
      && b as object != this && b.window as object != this && b.Separate()
    }

    ghost function View(): End
      reads this, b, b.sendKey, b.recvKey, b.window
    {
      End(b.sendKey[..], b.recvKey[..], b.receiverIndex, b.sendCounter, b.window.accepted, epoch, sealedCount)
    }

    ghost function Frame(): set<object>
      reads this
    {
      {this, b, b.chainingKey, b.hash, b.sendKey, b.recvKey, b.window, b.window.bitmap}
    }

    constructor (b: Backend)
      requires b.Shape() && b.Separate() && Lawful(b.suite) && b.window.Valid()
      ensures Valid() && this.b == b && wire == [] && tun == [] && epoch == 0 && sealedCount == b.sendCounter
      ensures View() == End(b.sendKey[..], b.recvKey[..], b.receiverIndex, b.sendCounter, b.window.accepted, 0, b.sendCounter)
    {
      this.b := b;
      epoch, sealedCount, wire, tun := 0, b.sendCounter, [], [];
    }

    /** Outbound data, or a keepalive when `plain` is empty. */
    method TurnSend(plain: seq<byte>, works: bool)
      requires Valid() && |plain| <= 1500
      modifies Frame()
      ensures Valid()
      ensures View() == Step(b.suite, old(View()), Send(plain, works)) && tun == old(tun)
      ensures wire == old(wire)
        + if works then [Message(b.suite, old(View()).sendKey, old(View()).peerIndex, old(View()).sendCounter, plain)] else []
    {
      hide Concrete, Lawful, Message, NextCounter, ReplayWindow.BlockMatches;
      var buffer := new byte[2048](_ => 0);
      var len := b.Encapsulate(plain, buffer, works);
      if len > 0 {
        wire := wire + [buffer[..len]];
        sealedCount := sealedCount + 1;
      }
    }

    method TurnReceive(packet: seq<byte>)
      requires Valid() && |packet| <= 2048
      modifies Frame()
      ensures Valid() && wire == old(wire)
      ensures View() == Step(b.suite, old(View()), Receive(packet))
      ensures tun == old(tun) + Data(HandedUp(b.suite, old(View()), packet))
    {
      hide Concrete, Message, NextCounter, ReplayWindow.BlockMatches, ReplayWindow.Fresh, ReplayWindow.Accept;
      var plain := new byte[2048](_ => 0);
      var len := b.Decapsulate(packet, plain);
      if len > 0 {
        tun := tun + [plain[..len]];
      }
    }

    method TurnRekey(a: Attempt) returns (ok: bool)
      requires Valid()
      modifies Frame()
      ensures Valid() && wire == old(wire) && tun == old(tun)
      ensures View() == Step(b.suite, old(View()), RekeyTurn(Id(), old(View()).peerIndex, a))
      ensures ok <==> OutcomeOf(Id(), a).Some?
    {
      hide Concrete, Lawful, Outcome, Accepted, IndexAfter, ReplayWindow.BlockMatches;
      ok := b.Rekey(a);
      if ok {
        epoch, sealedCount := epoch + 1, 0;
      }
    }

    /** The loop's state and output are those of a run of `turns` from `start`. */
    ghost predicate InRun(start: End, turns: seq<Turn>)
      reads this, b, b.sendKey, b.recvKey, b.window
    {
      && View() == Run(b.suite, start, turns)
      && wire == Wire(b.suite, start, turns) && tun == Data(AllUp(b.suite, start, turns))
    }

    method LogSend(plain: seq<byte>, works: bool, ghost start: End, ghost turns: seq<Turn>)
      requires Valid() && |plain| <= 1500 && InRun(start, turns)
      modifies Frame()
      ensures Valid() && InRun(start, turns + [Send(plain, works)]) && b.receiverIndex == old(b.receiverIndex)
    {
      hide Run, Wire, AllUp, Up, Data, Step, Seals, Concrete, Lawful, Message;
      RunSnoc(b.suite, start, turns, Send(plain, works));
      OnlyReceivesHandUp(b.suite, View(), Send(plain, works));
      SealsWhenSmall(plain, works);
      StepKeepsIndex(b.suite, View(), Send(plain, works));
      TurnSend(plain, works);
      assert Data(AllUp(b.suite, start, turns)) + [] == Data(AllUp(b.suite, start, turns));
    }

    method LogReceive(packet: seq<byte>, ghost start: End, ghost turns: seq<Turn>)
      requires Valid() && |packet| <= 2048 && InRun(start, turns)
      modifies Frame()
      ensures Valid() && InRun(start, turns + [Receive(packet)]) && b.receiverIndex == old(b.receiverIndex)
    {
      hide Run, Wire, AllUp, Up, Data, HandedUp, Step, Seals, Concrete, Lawful, Message;
      RunSnoc(b.suite, start, turns, Receive(packet));
      OnlyReceivesHandUp(b.suite, View(), Receive(packet));
      ReceivesSealNothing(packet);
      StepKeepsIndex(b.suite, View(), Receive(packet));
      TurnReceive(packet);
      assert Wire(b.suite, start, turns) + [] == Wire(b.suite, start, turns);
    }

    method LogRekey(a: Attempt, ghost start: End, ghost turns: seq<Turn>) returns (ok: bool)
      requires Valid() && InRun(start, turns)
      modifies Frame()
      ensures Valid() && InRun(start, turns + [RekeyTurn(Id(), old(b.receiverIndex), a)])
      ensures ok <==> OutcomeOf(Id(), a).Some?
    {
      hide Run, Wire, AllUp, Up, Data, Step, Seals, RekeyTurn, Concrete, Lawful, Message;
      ghost var t := RekeyTurn(Id(), b.receiverIndex, a);
      RunSnoc(b.suite, start, turns, t);
      RekeysSealNothing(Id(), b.receiverIndex, a);
      OnlyReceivesHandUp(b.suite, View(), t);
      ok := TurnRekey(a);
      assert Data(AllUp(b.suite, start, turns)) + [] == Data(AllUp(b.suite, start, turns));
      assert Wire(b.suite, start, turns) + [] == Wire(b.suite, start, turns);
    }

    /** The first half of an iteration: outbound, then inbound. */
    method RunTraffic(it: Iteration, ghost start: End, ghost before: seq<Turn>)
      requires Valid() && Fits(it) && InRun(start, before)
      modifies Frame()
      ensures Valid() && b.receiverIndex == old(b.receiverIndex)
      ensures InRun(start, before + Traffic(it))
    {
      hide InRun, Fits, Concrete, Lawful;
      ghost var turns := before;
      FitsSizes(it);
      if it.tun.Some? {
        LogSend(it.tun.value, it.tunWorks, start, turns);
        turns := turns + [Send(it.tun.value, it.tunWorks)];
      }
      if it.udp.Some? {
        LogReceive(it.udp.value, start, turns);
        turns := turns + [Receive(it.udp.value)];
      }
      assert turns == before + Traffic(it);
    }

    /** The second half: keepalive, then rekey. */
    method RunTimers(it: Iteration, ghost start: End, ghost before: seq<Turn>) returns (stop: bool)
      requires Valid() && InRun(start, before)
      modifies Frame()
      ensures Valid()
      ensures stop <==> Stops(Id(), it)
      ensures InRun(start, before + Timers(Id(), old(b.receiverIndex), it))
    {
      hide InRun, RekeyTurn, OutcomeOf, Concrete, Lawful;
      ghost var turns, index := before, b.receiverIndex;
      stop := false;
      if it.keepalive {
        LogSend([], it.keepaliveWorks, start, turns);
        turns := turns + [Send([], it.keepaliveWorks)];
      }
      if it.rekey.Some? {
        var ok := LogRekey(it.rekey.value, start, turns);
        turns := turns + [RekeyTurn(Id(), index, it.rekey.value)];
        stop := !ok && it.expired;
      }
      assert turns == before + Timers(Id(), index, it);
    }

    /** One iteration: outbound, inbound, keepalive, rekey. */
    method RunIteration(it: Iteration, ghost start: End, ghost before: seq<Turn>) returns (stop: bool)
      requires Valid() && Fits(it) && InRun(start, before)
      modifies Frame()
      ensures Valid()
      ensures stop <==> Stops(Id(), it)
      ensures InRun(start, before + TurnsOf(Id(), Run(b.suite, start, before).peerIndex, it))
    {
      hide Run, Wire, AllUp, Data, Traffic, Timers, Stops, Fits, Concrete, Lawful;
      ghost var index := b.receiverIndex;
      assert index == Run(b.suite, start, before).peerIndex;
      hide InRun;
      RunTraffic(it, start, before);
      stop := RunTimers(it, start, before + Traffic(it));
      assert before + Traffic(it) + Timers(Id(), index, it) == before + TurnsOf(Id(), index, it);
    }

    /** The loop. It stops early when a rekey failed on an expired session. */
    method RunReaderLoop(its: seq<Iteration>) returns (n: nat)
      requires Valid() && forall i :: 0 <= i < |its| ==> Fits(its[i])
      requires wire == [] && tun == []
      modifies Frame()
      ensures Valid() && n <= |its|
      ensures forall k :: 0 <= k < n && Stops(Id(), its[k]) ==> k == n - 1
      ensures n < |its| ==> n > 0 && Stops(Id(), its[n - 1])
      ensures InRun(old(View()), AllTurns(Id(), old(View()), its[..n]))
    {
      hide Run, Wire, AllUp, Data, Step, TurnsOf, AllTurns, Stops, Fits, Concrete, Lawful, Message;
      ghost var start, id := View(), Id();
      n := 0;
      NoTurns(id, start, its);
      while n < |its|
        invariant Valid() && n <= |its| && id == Id()
        invariant InRun(start, AllTurns(id, start, its[..n]))
        invariant forall k :: 0 <= k < n ==> !Stops(id, its[k])
      {
        ghost var before := AllTurns(id, start, its[..n]);
        TurnsNext(id, start, its, n);
        var stop := RunIteration(its[n], start, before);
        n := n + 1;
        if stop {
          return;
        }
      }
    }
  }

  /** How many times the handshake is tried. */
  const HANDSHAKE_ATTEMPTS: nat := 3

  /** The state in which a handshake's session begins. */
  ghost function Begin(session: Session): End {
    End(session.sendKey, session.recvKey, session.peerIndex, 0, {}, 0, 0)
  }

  /** The reader thread from its start: a few handshakes, then the loop over the session the
      first successful one set up. `attempts` ends early when the user stops it. Everything
      is stated of the configured keys alone. */
  method RunReader(suite: Suite, private: seq<byte>, peerPublic: seq<byte>, psk: Option<seq<byte>>,
                   attempts: seq<Attempt>, its: seq<Iteration>)
    returns (first: nat, n: nat, wire: seq<seq<byte>>, tun: seq<seq<byte>>)
    requires Lawful(suite) && Concrete(suite)
    requires forall i :: 0 <= i < |its| ==> Fits(its[i])
    ensures var id := Identity(suite, private, peerPublic, PskOrZeros(psk));
            && first <= |attempts| && first <= 3 && n <= |its|
            && (forall k :: 0 <= k < first ==> OutcomeOf(id, attempts[k]).None?)
            && if first < |attempts| && first < 3
               then
                 && OutcomeOf(id, attempts[first]).Some?
                 && (forall k :: 0 <= k < n && Stops(id, its[k]) ==> k == n - 1)
                 && (n < |its| ==> n > 0 && Stops(id, its[n - 1]))
                 && var start := Begin(OutcomeOf(id, attempts[first]).value);
                    var turns := AllTurns(id, start, its[..n]);
                    wire == Wire(suite, start, turns) && tun == Data(AllUp(suite, start, turns))
               else wire == [] && tun == []
  {
    hide Run, Wire, AllUp, Data, Step, TurnsOf, AllTurns, Stops, Fits, Concrete, Lawful, Message, OutcomeOf, Outcome;
    var b := new Backend(suite, private, peerPublic, psk);
    ghost var id := Identity(suite, private, peerPublic, PskOrZeros(psk));
    first, n, wire, tun := 0, 0, [], [];
    while first < |attempts| && first < HANDSHAKE_ATTEMPTS
      invariant first <= |attempts| && first <= HANDSHAKE_ATTEMPTS
      invariant b.Shape() && b.Separate() && b.window.Valid() && b.window.accepted == {}
      invariant forall k :: 0 <= k < first ==> OutcomeOf(id, attempts[k]).None?
      decreases |attempts| - first
    {
      OutcomeIs(id, attempts[first]);
      var ok := b.PerformHandshake(attempts[first]);
      if ok {
        b.sendCounter := 0;
        b.window.Reset();
        var loop := new Loop(b);
        n := loop.RunReaderLoop(its);
        wire, tun := loop.wire, loop.tun;
        return;
      }
      first := first + 1;
    }
  }

  /** Where a session begins, what a rekey is, and when it ends the loop. */
  lemma RekeyForm(id: Identity, peerIndex: u32, a: Attempt, it: Iteration)
    ensures var response := Accepted(id.suite, id.private, id.peerPublic, a);
            match Outcome(id.suite, id.private, id.peerPublic, id.psk, a)
            case Some(session) =>
              && RekeyTurn(id, peerIndex, a) == RekeyDone(session.sendKey, session.recvKey, session.peerIndex)
              && Begin(session) == End(session.sendKey, session.recvKey, session.peerIndex, 0, {}, 0, 0)
            case None =>
              RekeyTurn(id, peerIndex, a)
              == RekeyFailed(if response.Some? then Word(response.value[4..8]) else peerIndex)
    ensures it.rekey == Some(a) ==>
              (Stops(id, it) <==> it.expired && Outcome(id.suite, id.private, id.peerPublic, id.psk, a).None?)
    ensures it.rekey.None? ==> !Stops(id, it)
  {
    hide Accepted, Outcome, Word;
  }

  lemma OutcomeIs(id: Identity, a: Attempt)
    ensures OutcomeOf(id, a) == Outcome(id.suite, id.private, id.peerPublic, id.psk, a)
  {
  }

  /** What the reader thread puts out, for a session that seals at most 2^64 messages per
      key: no nonce is used twice on the wire, and nothing is written to the tunnel twice. */
  lemma OutputsAreUnique(s: Suite, session: Session, turns: seq<Turn>)
    requires Lawful(s) && WithinLimit(s, Begin(session), turns)
    ensures var nonces, up := Nonces(s, Begin(session), turns), AllUp(s, Begin(session), turns);
            && |Wire(s, Begin(session), turns)| == |nonces|
            && (forall i, j :: 0 <= i < j < |nonces| ==> nonces[i] != nonces[j])
            && (forall i, j :: 0 <= i < j < |up| ==> !SameNonce(up[i], up[j]))
  {
    hide Run, Wire, Nonces, AllUp, WithinLimit, Lawful;
    WireNonces(s, Begin(session), turns);
    TunOnce(s, Begin(session), turns);
  }
}
