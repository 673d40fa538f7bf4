/** The WireGuard data plane: handshake, transport and rekey over the backend's own
    mutable buffers. */
module WireGuardBackend {
  import opened Options
  import opened Numbers
  import opened Words
  import opened Handshake
  import opened Transport
  import KdfSpec
  import Kdf
  import ReplayWindow

  /** The suite's hash, MAC and key derivation are the BLAKE2s ones. */
  ghost predicate Concrete(s: Suite) {
    && (forall d :: s.hash(d) == KdfSpec.Hash(d))
    && (forall k, d :: |k| <= 32 ==> s.mac(k, d) == KdfSpec.Mac(k, d))
    && (forall c, d, n :: n >= 1 ==> s.kdf(c, d, n) == KdfSpec.Kdf(c, d, n))
  }

  lemma ConcreteHash(s: Suite, d: seq<byte>)
    requires Concrete(s)
    ensures s.hash(d) == KdfSpec.Hash(d)
  {
    hide KdfSpec.Hash, KdfSpec.Mac, KdfSpec.Kdf;
  }

  lemma ConcreteMac(s: Suite, k: seq<byte>, d: seq<byte>)
    requires Concrete(s) && |k| <= 32
    ensures s.mac(k, d) == KdfSpec.Mac(k, d)
  {
    hide KdfSpec.Hash, KdfSpec.Mac, KdfSpec.Kdf;
  }

  lemma ConcreteKdf(s: Suite, c: seq<byte>, d: seq<byte>)
    requires Concrete(s)
    ensures s.kdf(c, d, 1) == KdfSpec.Kdf(c, d, 1)
    ensures s.kdf(c, d, 2) == KdfSpec.Kdf(c, d, 2)
    ensures s.kdf(c, d, 3) == KdfSpec.Kdf(c, d, 3)
  {
    hide KdfSpec.Hash, KdfSpec.Mac, KdfSpec.Kdf;
  }

  /** What the environment contributes to one handshake: fresh randomness and time, whether
      the fallible library and socket calls work, and what arrives afterwards (an empty
      entry is a timeout or a socket error). */
  datatype Attempt = Attempt(
    publicOk: bool, ephemeral: Option<seq<byte>>, staticOk: bool, timestamp: seq<byte>, timeOk: bool,
    index: Option<u32>, sendOk: bool, received: seq<seq<byte>>)

  /** The first 92-byte type-2 packet among at most `tries` arrivals. */
  function AwaitResponse(received: seq<seq<byte>>, tries: nat): (r: Option<seq<byte>>)
    ensures r.Some? ==> |r.value| == 92 && r.value[0] == 2
  {
    if tries == 0 || received == [] || received[0] == [] then None
    else if |received[0]| == 92 && received[0][0] == 2 then Some(received[0])
    else AwaitResponse(received[1..], tries - 1)
  }

  /** The initiation of an attempt, if every call it needs works. */
  function Initiation(s: Suite, private: seq<byte>, peerPublic: seq<byte>, a: Attempt): Option<Initiated> {
    if a.publicOk && a.ephemeral.Some? && a.staticOk && a.timeOk && a.index.Some? && a.sendOk
    then Initiate(s, private, peerPublic, a.ephemeral.value, a.timestamp, a.index.value)
    else None
  }

  /** The response an attempt accepts: addressed to the index it just chose. */
  function Accepted(s: Suite, private: seq<byte>, peerPublic: seq<byte>, a: Attempt): (r: Option<seq<byte>>)
    ensures r.Some? ==> |r.value| == 92 && Initiation(s, private, peerPublic, a).Some?
  {
    if Initiation(s, private, peerPublic, a).None? then None
    else
      var response := AwaitResponse(a.received, 64);
      if response.None? || Word(response.value[8..12]) != a.index.value then None else response
  }

  /** The peer's index an accepted response carries. */
  function IndexAfter(response: Option<seq<byte>>, before: u32): u32 {
    if response.Some? && |response.value| == 92 then Word(response.value[4..8]) else before
  }

  /** The session an attempt ends with. */
  function Outcome(s: Suite, private: seq<byte>, peerPublic: seq<byte>, psk: seq<byte>, a: Attempt): Option<Session> {
    match Accepted(s, private, peerPublic, a)
    case None => None
    case Some(response) =>
      Conclude(s, private, a.ephemeral.value, psk, Initiation(s, private, peerPublic, a).value.t, response)
  }

  function PskOrZeros(psk: Option<seq<byte>>): seq<byte> {
    if psk.Some? then psk.value else seq(32, _ => 0)
  }

  class Backend {
    const suite: Suite
    const privateKey: seq<byte>
    const peerPublic: seq<byte>
    /** The preshared key, all zeros when the configuration has none. */
    const psk: seq<byte>
    const chainingKey: array<byte>
    const hash: array<byte>
    const sendKey: array<byte>
    const recvKey: array<byte>
    var senderIndex: u32
    var receiverIndex: u32
    var sendCounter: u64
    const window: ReplayWindow.Window

    ghost predicate Shape()
      reads this
    {
      && chainingKey.Length == 32 && hash.Length == 32 && sendKey.Length == 32 && recvKey.Length == 32
      && chainingKey != hash && chainingKey != sendKey && chainingKey != recvKey
      && hash != sendKey && hash != recvKey && sendKey != recvKey
      && Concrete(suite)
      && window as object != this
    }

    /** The replay bitmap is none of the key buffers. */
    ghost predicate Separate()
      reads this
    {
      && window.bitmap as object != chainingKey && window.bitmap as object != hash
      && window.bitmap as object != sendKey && window.bitmap as object != recvKey
    }

    ghost function T(): Transcript
      reads chainingKey, hash
    {
      Transcript(chainingKey[..], hash[..])
    }

    constructor (suite: Suite, privateKey: seq<byte>, peerPublic: seq<byte>, psk: Option<seq<byte>>)
      requires Concrete(suite)
      ensures Shape() && fresh(chainingKey) && fresh(hash) && fresh(sendKey) && fresh(recvKey)
      ensures fresh(window) && fresh(window.bitmap) && Separate()
      ensures window.Valid() && window.accepted == {} && sendCounter == 0
      ensures this.suite == suite && this.privateKey == privateKey && this.peerPublic == peerPublic
      ensures this.psk == PskOrZeros(psk)
    {
      this.suite, this.privateKey, this.peerPublic := suite, privateKey, peerPublic;
      this.psk := PskOrZeros(psk);
      chainingKey := new byte[32](_ => 0);
      hash := new byte[32](_ => 0);
      sendKey := new byte[32](_ => 0);
      recvKey := new byte[32](_ => 0);
      senderIndex, receiverIndex, sendCounter := 0, 0, 0;
      window := new ReplayWindow.Window();
    }

    /** `H := Hash(H || data)`, the hash buffer being both input and output. */
    method MixHash(data: seq<byte>)
      requires Shape()
      modifies hash
      ensures T() == old(T()).MixHash(suite, data)
    {
      hide KdfSpec.Hash, Concrete;
      ConcreteHash(suite, hash[..] + data);
      var digest := Kdf.HashTwo(hash[..], data);
      Kdf.Fill(hash, digest);
    }

    /** `C := KDF1(C, input)`, overwriting the chaining key it reads. */
    method MixKey(input: seq<byte>)
      requires Shape()
      modifies chainingKey
      ensures T() == old(T()).MixKey(suite, input)
    {
      hide KdfSpec.Kdf, Concrete;
      ConcreteKdf(suite, chainingKey[..], input);
      Kdf.Kdf1(chainingKey, input, chainingKey);
    }

    /** `C, k := KDF2(C, input)`, overwriting the chaining key it reads. */
    method MixKeyAndKey(input: seq<byte>, key: array<byte>)
      requires Shape() && key.Length == 32 && key != chainingKey && key != hash
      modifies chainingKey, key
      ensures T() == old(T()).MixKey(suite, input)
      ensures key[..] == suite.kdf(old(chainingKey[..]), input, 2)
    {
      hide KdfSpec.Kdf, Concrete;
      ConcreteKdf(suite, chainingKey[..], input);
      Kdf.Kdf2(chainingKey, input, chainingKey, key);
    }

    method StartTranscript()
      requires Shape()
      modifies chainingKey, hash
      ensures T() == Start(suite, peerPublic)
    {
      hide KdfSpec.Hash, Concrete, Ascii;
      ConcreteHash(suite, Ascii(CONSTRUCTION));
      var c := Kdf.HashOne(Ascii(CONSTRUCTION));
      Kdf.Fill(chainingKey, c);
      ConcreteHash(suite, c + Ascii(IDENTIFIER));
      var h := Kdf.HashTwo(chainingKey[..], Ascii(IDENTIFIER));
      Kdf.Fill(hash, h);
      MixHash(peerPublic);
    }

    /** Builds and sends the initiation. */
    method SendInitiation(a: Attempt) returns (sent: bool, ghost message: seq<byte>)
      requires Shape()
      modifies this`senderIndex, chainingKey, hash
      ensures sent <==> Initiation(suite, privateKey, peerPublic, a).Some?
      ensures sent ==> Initiation(suite, privateKey, peerPublic, a) == Some(Initiated(T(), message))
      ensures sent ==> senderIndex == a.index.value
    {
      hide Concrete, Start, KdfSpec.Kdf, KdfSpec.Hash, InitiationMessage;
      message := [];
      if !a.publicOk {
        return false, message;
      }
      var staticPub := suite.public(privateKey);
      StartTranscript();
      if a.ephemeral.None? {
        return false, message;
      }
      var ephemeral := suite.public(a.ephemeral.value);
      MixKey(ephemeral);
      MixHash(ephemeral);
      var key := new byte[32](_ => 0);
      var es := suite.dh(a.ephemeral.value, peerPublic);
      if es.None? {
        return false, message;
      }
      MixKeyAndKey(es.value, key);
      if !a.staticOk {
        return false, message;
      }
      var sealedStatic := suite.seal(key[..], 0, staticPub, hash[..]);
      MixHash(sealedStatic);
      var ss := suite.dh(privateKey, peerPublic);
      if ss.None? {
        return false, message;
      }
      MixKeyAndKey(ss.value, key);
      if !a.timeOk {
        return false, message;
      }
      var sealedTime := suite.seal(key[..], 0, a.timestamp, hash[..]);
      MixHash(sealedTime);
      if a.index.None? {
        return false, message;
      }
      senderIndex := a.index.value;
      var msg := Assemble(ephemeral, sealedStatic, sealedTime);
      message := msg;
      return a.sendOk, message;
    }

    /** The message bytes, with mac1 over everything before it. */
    method Assemble(ephemeral: seq<byte>, sealedStatic: seq<byte>, sealedTime: seq<byte>) returns (msg: seq<byte>)
      requires Shape()
      ensures msg == InitiationMessage(suite, senderIndex, ephemeral, sealedStatic, sealedTime, peerPublic)
    {
      hide KdfSpec.Hash, KdfSpec.Mac, Concrete, Ascii, LeBytes;
      var body := [1, 0, 0, 0] + LeBytes(4, senderIndex) + ephemeral + sealedStatic + sealedTime;
      ConcreteHash(suite, Ascii(LABEL_MAC1) + peerPublic);
      var macKey := Kdf.HashTwo(Ascii(LABEL_MAC1), peerPublic);
      ConcreteMac(suite, macKey, body);
      var mac := Kdf.Mac16(macKey, body);
      msg := body + mac + seq(16, _ => 0);
    }

    /** Waits for the response, skipping other packets, at most 64 of them. */
    method Receive(received: seq<seq<byte>>) returns (got: Option<seq<byte>>)
      ensures got == AwaitResponse(received, 64)
    {
      got := None;
      var tries := 0;
      while tries < 64
        invariant 0 <= tries <= 64 && tries <= |received|
        invariant got.None?
        invariant AwaitResponse(received, 64) == AwaitResponse(received[tries..], 64 - tries)
      {
        if tries >= |received| || received[tries] == [] {
          return None;
        }
        if |received[tries]| == 92 && received[tries][0] == 2 {
          return Some(received[tries]);
        }
        assert received[tries..][1..] == received[tries + 1..];
        tries := tries + 1;
      }
    }

    /** Processes the response; the transport keys are written last, and only on success. */
    method Finish(ephemeralPrivate: seq<byte>, response: seq<byte>) returns (ok: bool)
      requires Shape() && |response| == 92
      modifies this`receiverIndex, chainingKey, hash, sendKey, recvKey
      ensures receiverIndex == Word(response[4..8])
      ensures ok <==> Conclude(suite, privateKey, ephemeralPrivate, psk, old(T()), response).Some?
      ensures ok ==> Conclude(suite, privateKey, ephemeralPrivate, psk, old(T()), response)
                     == Some(Session(T(), sendKey[..], recvKey[..], receiverIndex))
      ensures !ok ==> sendKey[..] == old(sendKey[..]) && recvKey[..] == old(recvKey[..])
    {
      hide Concrete, KdfSpec.Kdf, KdfSpec.Hash, Word;
      receiverIndex := Ld32(response[4..8]);
      var peerEphemeral, nothing := response[12..44], response[44..60];
      MixKey(peerEphemeral);
      MixHash(peerEphemeral);
      var ee := suite.dh(ephemeralPrivate, peerEphemeral);
      if ee.None? {
        return false;
      }
      MixKey(ee.value);
      var se := suite.dh(privateKey, peerEphemeral);
      if se.None? {
        return false;
      }
      MixKey(se.value);
      var key := MixPsk();
      var empty := suite.unseal(key, 0, nothing, hash[..]);
      if empty.None? {
        return false;
      }
      MixHash(nothing);
      ConcreteKdf(suite, chainingKey[..], []);
      Kdf.Kdf2(chainingKey, [], sendKey, recvKey);
      return true;
    }

    /** `C, tau, k := KDF3(C, Q)`, then `H := Hash(H || tau)`. */
    method MixPsk() returns (k: seq<byte>)
      requires Shape()
      modifies chainingKey, hash
      ensures (T(), k) == MixPresharedKey(suite, old(T()), psk)
    {
      hide Concrete, KdfSpec.Kdf, KdfSpec.Hash;
      var tau := new byte[32](_ => 0);
      var key := new byte[32](_ => 0);
      ConcreteKdf(suite, chainingKey[..], psk);
      Kdf.Kdf3(chainingKey, psk, chainingKey, tau, key);
      MixHash(tau[..]);
      k := key[..];
    }

    /** One handshake. On success the buffers hold the session of `Outcome`; on failure the
        transport keys are untouched, though the peer's index may already be overwritten. */
    method PerformHandshake(a: Attempt) returns (ok: bool)
      requires Shape()
      modifies this`senderIndex, this`receiverIndex, chainingKey, hash, sendKey, recvKey
      ensures ok <==> Outcome(suite, privateKey, peerPublic, psk, a).Some?
      ensures ok ==> Outcome(suite, privateKey, peerPublic, psk, a)
                     == Some(Session(T(), sendKey[..], recvKey[..], receiverIndex))
      ensures !ok ==> sendKey[..] == old(sendKey[..]) && recvKey[..] == old(recvKey[..])
      ensures receiverIndex == IndexAfter(Accepted(suite, privateKey, peerPublic, a), old(receiverIndex))
    {
      hide Concrete, Initiation, Conclude, Word, AwaitResponse;
      var sent, message := SendInitiation(a);
      if !sent {
        return false;
      }
      var response := Receive(a.received);
      if response.None? {
        return false;
      }
      if Ld32(response.value[8..12]) != senderIndex {
        return false;
      }
      assert Accepted(suite, privateKey, peerPublic, a) == response;
      InitiationNeedsEphemeral(suite, privateKey, peerPublic, a);
      ok := Finish(a.ephemeral.value, response.value);
    }

    /** Wraps a packet (or nothing, for a keepalive) into a transport message at the start
        of `out` and uses up a counter; `works` says whether the cipher call did. */
    method Encapsulate(plain: seq<byte>, out: array<byte>, works: bool) returns (len: nat)
      requires Shape() && out != sendKey
      requires |plain| <= MAX_PLAIN ==> out.Length >= 32 + PaddedLength(|plain|)
      requires Lawful(suite)
      modifies this`sendCounter, out
      ensures len == if works && PaddedLength(|plain|) <= MAX_PLAIN then 32 + PaddedLength(|plain|) else 0
      ensures len > 0 ==> out[..len] == Message(suite, sendKey[..], receiverIndex, old(sendCounter), plain)
      ensures sendCounter == if len > 0 then NextCounter(old(sendCounter)) else old(sendCounter)
    {
      hide Concrete, LeBytes, Val, Unsealed, Counter, Pad;
      var padded := PaddedLength(|plain|);
      if padded > MAX_PLAIN {
        return 0;
      }
      if !works {
        return 0;
      }
      MessageOpens(suite, sendKey[..], receiverIndex, sendCounter, plain);
      var message := [4, 0, 0, 0] + LeBytes(4, receiverIndex) + LeBytes(8, sendCounter)
                     + suite.seal(sendKey[..], sendCounter, Pad(plain), []);
      for i := 0 to |message|
        invariant out[..i] == message[..i]
        modifies out
      {
        out[i] := message[i];
      }
      sendCounter := NextCounter(sendCounter);
      return 16 + padded + 16;
    }

    /** Opens a received message: the replay window is consulted only after the tag
        verified. Returns the packet's length, 0 for a keepalive, -1 for a rejected one. */
    method Decapsulate(packet: seq<byte>, out: array<byte>) returns (len: int)
      requires Shape() && Lawful(suite) && window.Valid()
      requires Unsealed(suite, recvKey[..], packet).Some? ==>
        |Unsealed(suite, recvKey[..], packet).value| <= out.Length
      requires out != recvKey && out as object != window && out as object != window.bitmap
      modifies window, window.bitmap, out
      ensures window.Valid()
      ensures var plain := Unsealed(suite, old(recvKey[..]), packet);
              if plain.None? then len == -1 && window.accepted == old(window.accepted)
              else
                && window.accepted == ReplayWindow.Accept(old(window.accepted), Counter(packet))
                && if ReplayWindow.Fresh(old(window.accepted), Counter(packet))
                   then len == IpPacketLength(plain.value) && out[..len] == Trim(plain.value)
                   else len == -1
    {
      hide Concrete, Val;
      if |packet| < 32 || packet[0] != 4 {
        return -1;
      }
      var counter := Counter(packet);
      var plain := suite.unseal(recvKey[..], counter, packet[16..], []);
      if plain.None? {
        return -1;
      }
      for i := 0 to |plain.value|
        invariant out[..i] == plain.value[..i]
        modifies out
      {
        out[i] := plain.value[i];
      }
      var ok := window.Validate(counter);
      if !ok {
        return -1;
      }
      assert out[..|plain.value|] == plain.value;
      len := IpPacketLength(plain.value);
    }

    /** A rekey during the transport loop: a successful one starts a fresh counter and a
        fresh window, a failed one leaves keys, counter and window as they were. */
    method Rekey(a: Attempt) returns (ok: bool)
      requires Shape() && Separate() && window.Valid()
      modifies this`senderIndex, this`receiverIndex, this`sendCounter,
               chainingKey, hash, sendKey, recvKey, window, window.bitmap
      ensures window.Valid()
      ensures ok <==> Outcome(suite, privateKey, peerPublic, psk, a).Some?
      ensures ok ==> Outcome(suite, privateKey, peerPublic, psk, a)
                     == Some(Session(T(), sendKey[..], recvKey[..], receiverIndex))
      ensures receiverIndex == IndexAfter(Accepted(suite, privateKey, peerPublic, a), old(receiverIndex))
      ensures ok ==> sendCounter == 0 && window.accepted == {}
      ensures !ok ==> sendKey[..] == old(sendKey[..]) && recvKey[..] == old(recvKey[..])
                      && sendCounter == old(sendCounter) && window.accepted == old(window.accepted)
                      && window.counter == old(window.counter) && window.bitmap[..] == old(window.bitmap[..])
    {
      hide Concrete, Outcome, Accepted;
      ok := PerformHandshake(a);
      if ok {
        sendCounter := 0;
        window.Reset();
      }
    }
  }

  lemma InitiationNeedsEphemeral(s: Suite, private: seq<byte>, peerPublic: seq<byte>, a: Attempt)
    requires Initiation(s, private, peerPublic, a).Some?
    ensures a.ephemeral.Some? && a.index.Some?
  {
  }

  /** When the first response to arrive is the one a section 5.4 responder gives to this very
      initiation, the handshake succeeds, and both ends hold one chaining key, one transcript
      hash and each other's keys. */
  lemma HandshakeAgrees(s: Suite, private: seq<byte>, responder: seq<byte>, psk: seq<byte>, a: Attempt,
                        ephemeralR: seq<byte>, own: u32)
    requires Lawful(s) && |a.timestamp| == 12
    requires Initiation(s, private, s.public(responder), a).Some?
    requires var r := Respond(s, responder, psk, ephemeralR, own,
                              Initiation(s, private, s.public(responder), a).value.message);
             r.Some? && AwaitResponse(a.received, 64) == Some(r.value.message)
    ensures var r := Respond(s, responder, psk, ephemeralR, own,
                             Initiation(s, private, s.public(responder), a).value.message).value.session;
            Outcome(s, private, s.public(responder), psk, a) == Some(Session(r.t, r.recvKey, r.sendKey, own))
  {
    hide Initiate, Respond, Conclude, AwaitResponse, Lawful, Word;
    Agreement(s, private, a.ephemeral.value, a.timestamp, a.index.value, responder, psk, ephemeralR, own);
  }

  lemma WordTells(x: seq<byte>, y: seq<byte>)
    requires |x| == 4 && |y| == 4
    ensures Word(x) == Word(y) <==> x == y
  {
    hide Val, LeBytes;
    LeBytesOfVal(x);
    LeBytesOfVal(y);
  }

  /** Only bytes 12 to 59 of a response enter the transcript; bytes 4 to 7 are taken as the
      peer's index as they stand. */
  lemma ConcludeReads(s: Suite, private: seq<byte>, ephemeralPrivate: seq<byte>, psk: seq<byte>, t: Transcript,
                      x: seq<byte>, y: seq<byte>)
    requires |x| == 92 && |y| == 92 && x[12..60] == y[12..60]
    requires Conclude(s, private, ephemeralPrivate, psk, t, y).Some?
    ensures Conclude(s, private, ephemeralPrivate, psk, t, x)
            == Some(Conclude(s, private, ephemeralPrivate, psk, t, y).value.(peerIndex := Word(x[4..8])))
  {
    hide MixEphemeral, MixPresharedKey, Word;
    assert x[12..44] == x[12..60][..32] && y[12..44] == y[12..60][..32];
    assert x[44..60] == x[12..60][32..] && y[44..60] == y[12..60][32..];
  }

  lemma AcceptedWhenAddressed(s: Suite, private: seq<byte>, peerPublic: seq<byte>, a: Attempt)
    requires Initiation(s, private, peerPublic, a).Some? && AwaitResponse(a.received, 64).Some? && a.index.Some?
    ensures var arrival := AwaitResponse(a.received, 64);
            Accepted(s, private, peerPublic, a)
            == if arrival.value[8..12] == LeBytes(4, a.index.value) then arrival else None
  {
    hide Initiation, AwaitResponse, Word, LeBytes;
    WordOfBytes(a.index.value);
    WordTells(AwaitResponse(a.received, 64).value[8..12], LeBytes(4, a.index.value));
  }

  /** The initiator checks neither mac of a response, and bytes 4 to 7 are under no tag. When
      the first 92-byte type-2 packet to arrive agrees with the responder's on bytes 12 to 59,
      whatever the rest, the handshake succeeds if and only if bytes 8 to 11 are this attempt's
      index. Then both ends hold one chaining key, one transcript hash and each other's keys;
      and the initiator has the responder's index if and only if bytes 4 to 7 agree too. */
  lemma AlteredResponse(s: Suite, private: seq<byte>, responder: seq<byte>, psk: seq<byte>, a: Attempt,
                        ephemeralR: seq<byte>, own: u32)
    requires Lawful(s) && |a.timestamp| == 12
    requires Initiation(s, private, s.public(responder), a).Some? && AwaitResponse(a.received, 64).Some?
    requires var r := Respond(s, responder, psk, ephemeralR, own,
                              Initiation(s, private, s.public(responder), a).value.message);
             r.Some? && |r.value.message| == 92
             && AwaitResponse(a.received, 64).value[12..60] == r.value.message[12..60]
    ensures a.index.Some?
    ensures var r := Respond(s, responder, psk, ephemeralR, own,
                             Initiation(s, private, s.public(responder), a).value.message).value;
            var response := AwaitResponse(a.received, 64).value;
            var end := Outcome(s, private, s.public(responder), psk, a);
            && (end.Some? <==> response[8..12] == LeBytes(4, a.index.value))
            && (end.Some? ==>
                  && end.value == Session(r.session.t, r.session.recvKey, r.session.sendKey, Word(response[4..8]))
                  && (end.value.peerIndex == own <==> response[4..8] == r.message[4..8]))
  {
    hide Initiate, Respond, Conclude, AwaitResponse, Initiation, Lawful, Word, LeBytes;
    InitiationIs(s, private, s.public(responder), a);
    AcceptedWhenAddressed(s, private, s.public(responder), a);
    var i := Initiation(s, private, s.public(responder), a).value;
    var r := Respond(s, responder, psk, ephemeralR, own, i.message).value;
    var response := AwaitResponse(a.received, 64).value;
    Agreement(s, private, a.ephemeral.value, a.timestamp, a.index.value, responder, psk, ephemeralR, own);
    ConcludeReads(s, private, a.ephemeral.value, psk, i.t, response, r.message);
    WordTells(response[4..8], r.message[4..8]);
    ConcludeIndex(s, private, a.ephemeral.value, psk, i.t, r.message);
  }

  lemma InitiationIs(s: Suite, private: seq<byte>, peerPublic: seq<byte>, a: Attempt)
    requires Initiation(s, private, peerPublic, a).Some?
    ensures a.ephemeral.Some? && a.index.Some?
    ensures Initiation(s, private, peerPublic, a)
            == Initiate(s, private, peerPublic, a.ephemeral.value, a.timestamp, a.index.value)
  {
    hide Initiate;
  }

  lemma ConcludeIndex(s: Suite, private: seq<byte>, ephemeralPrivate: seq<byte>, psk: seq<byte>, t: Transcript,
                      response: seq<byte>)
    requires |response| == 92
    ensures var end := Conclude(s, private, ephemeralPrivate, psk, t, response);
            end.Some? ==> end.value.peerIndex == Word(response[4..8])
  {
    hide MixEphemeral, MixPresharedKey, Word;
  }
}
