/** WireGuard's Noise_IKpsk2 handshake: the initiator as the daemon builds it, and a
    responder following section 5.4 of the WireGuard whitepaper. */
module Handshake {
  import opened Options
  import opened Numbers
  import opened Words

  /** The primitives: hash, MAC and key derivation (output 1, 2 or 3), and X25519 and
      ChaCha20-Poly1305, which the daemon takes from OpenSSL. */
  datatype Suite = Suite(
    hash: seq<byte> -> seq<byte>,
    mac: (seq<byte>, seq<byte>) -> seq<byte>,
    kdf: (seq<byte>, seq<byte>, byte) -> seq<byte>,
    public: seq<byte> -> seq<byte>,
    dh: (seq<byte>, seq<byte>) -> Option<seq<byte>>,
    seal: (seq<byte>, u64, seq<byte>, seq<byte>) -> seq<byte>,
    unseal: (seq<byte>, u64, seq<byte>, seq<byte>) -> Option<seq<byte>>)

  /** What the handshake needs of the primitives: both ends of a Diffie-Hellman exchange
      agree (also on failing), what was sealed opens, and a tag takes 16 bytes. */
  ghost predicate Lawful(s: Suite) {
    && (forall a :: |s.public(a)| == 32)
    && (forall k, d :: |s.mac(k, d)| == 16)
    && (forall a, b :: s.dh(a, s.public(b)) == s.dh(b, s.public(a)))
    && (forall k, n, p, ad :: |s.seal(k, n, p, ad)| == |p| + 16)
    && (forall k, n, p, ad :: s.unseal(k, n, s.seal(k, n, p, ad), ad) == Some(p))
    && (forall k, n, c, ad :: s.unseal(k, n, c, ad).Some? ==> |s.unseal(k, n, c, ad).value| + 16 == |c|)
  }

  function Ascii(s: string): (b: seq<byte>)
    ensures |b| == |s|
  {
    seq(|s|, i requires 0 <= i < |s| => s[i] as int % 256)
  }

  const CONSTRUCTION := "Noise_IKpsk2_25519_ChaChaPoly_BLAKE2s"
  const IDENTIFIER := "WireGuard v1 zx2c4 Jason@zx2c4.com"
  const LABEL_MAC1 := "mac1----"

  /** The chaining key and transcript hash both sides carry. */
  datatype Transcript = Transcript(c: seq<byte>, h: seq<byte>) {
    function MixHash(s: Suite, data: seq<byte>): Transcript {
      this.(h := s.hash(h + data))
    }

    function MixKey(s: Suite, input: seq<byte>): Transcript {
      this.(c := s.kdf(c, input, 1))
    }
  }

  function Start(s: Suite, responderPublic: seq<byte>): Transcript {
    var c := s.hash(Ascii(CONSTRUCTION));
    Transcript(c, s.hash(c + Ascii(IDENTIFIER))).MixHash(s, responderPublic)
  }

  /** `C := KDF1(C, E); H := Hash(H || E)` for an ephemeral public key. */
  function MixEphemeral(s: Suite, t: Transcript, ephemeral: seq<byte>): Transcript {
    t.MixKey(s, ephemeral).MixHash(s, ephemeral)
  }

  function MacKey(s: Suite, public: seq<byte>): seq<byte> {
    s.hash(Ascii(LABEL_MAC1) + public)
  }

  /** The 148-byte initiation message; mac2 stays zero. */
  function InitiationMessage(s: Suite, index: u32, ephemeral: seq<byte>, sealedStatic: seq<byte>,
                             sealedTime: seq<byte>, responderPublic: seq<byte>): seq<byte>
  {
    var body := [1, 0, 0, 0] + LeBytes(4, index) + ephemeral + sealedStatic + sealedTime;
    body + s.mac(MacKey(s, responderPublic), body) + seq(16, _ => 0)
  }

  /** The 92-byte response message. */
  function ResponseMessage(s: Suite, own: u32, peer: u32, ephemeral: seq<byte>, sealedNothing: seq<byte>,
                           initiatorPublic: seq<byte>): seq<byte>
  {
    var body := [2, 0, 0, 0] + LeBytes(4, own) + LeBytes(4, peer) + ephemeral + sealedNothing;
    body + s.mac(MacKey(s, initiatorPublic), body) + seq(16, _ => 0)
  }

  /** What an initiator knows after sending: its transcript and the message. */
  datatype Initiated = Initiated(t: Transcript, message: seq<byte>)

  /** Section 5.4.2, initiator's side. */
  function Initiate(s: Suite, private: seq<byte>, peerPublic: seq<byte>, ephemeralPrivate: seq<byte>,
                    timestamp: seq<byte>, index: u32): Option<Initiated>
  {
    var ephemeral := s.public(ephemeralPrivate);
    var t1 := MixEphemeral(s, Start(s, peerPublic), ephemeral);
    match s.dh(ephemeralPrivate, peerPublic)
    case None => None
    case Some(es) =>
      var sealedStatic := s.seal(s.kdf(t1.c, es, 2), 0, s.public(private), t1.h);
      var t2 := t1.MixKey(s, es).MixHash(s, sealedStatic);
      match s.dh(private, peerPublic)
      case None => None
      case Some(ss) =>
        var sealedTime := s.seal(s.kdf(t2.c, ss, 2), 0, timestamp, t2.h);
        var t3 := t2.MixKey(s, ss).MixHash(s, sealedTime);
        Some(Initiated(t3, InitiationMessage(s, index, ephemeral, sealedStatic, sealedTime, peerPublic)))
  }

  /** A finished session: final transcript, transport keys and the peer's index. */
  datatype Session = Session(t: Transcript, sendKey: seq<byte>, recvKey: seq<byte>, peerIndex: u32)

  /** `C, tau, k := KDF3(C, Q); H := Hash(H || tau)`: the transcript and the key `k`. */
  function MixPresharedKey(s: Suite, t: Transcript, psk: seq<byte>): (Transcript, seq<byte>) {
    (t.MixKey(s, psk).MixHash(s, s.kdf(t.c, psk, 2)), s.kdf(t.c, psk, 3))
  }

  /** Section 5.4.3, initiator's side: process a 92-byte response. */
  function Conclude(s: Suite, private: seq<byte>, ephemeralPrivate: seq<byte>, psk: seq<byte>,
                    t0: Transcript, response: seq<byte>): Option<Session>
    requires |response| == 92
  {
    var peerEphemeral, nothing := response[12..44], response[44..60];
    var t1 := MixEphemeral(s, t0, peerEphemeral);
    match s.dh(ephemeralPrivate, peerEphemeral)
    case None => None
    case Some(ee) =>
      match s.dh(private, peerEphemeral)
      case None => None
      case Some(se) =>
        var (t2, k) := MixPresharedKey(s, t1.MixKey(s, ee).MixKey(s, se), psk);
        match s.unseal(k, 0, nothing, t2.h)
        case None => None
        case Some(_) =>
          var t3 := t2.MixHash(s, nothing);
          Some(Session(t3, s.kdf(t3.c, [], 1), s.kdf(t3.c, [], 2), Word(response[4..8])))
  }

  /** The responder's session and its answer. */
  datatype Responded = Responded(session: Session, message: seq<byte>)

  /** Sections 5.4.2 and 5.4.3, responder's side, with its own arithmetic: check mac1,
      open the static key and the timestamp, answer with a fresh ephemeral. */
  function Respond(s: Suite, private: seq<byte>, psk: seq<byte>, ephemeralPrivate: seq<byte>,
                   own: u32, message: seq<byte>): Option<Responded>
  {
    if |message| != 148 || message[0] != 1
       || message[116..132] != s.mac(MacKey(s, s.public(private)), message[..116]) then None
    else
      var peerIndex := Word(message[4..8]);
      var ephemeral, sealedStatic, sealedTime := message[8..40], message[40..88], message[88..116];
      var t1 := MixEphemeral(s, Start(s, s.public(private)), ephemeral);
      match s.dh(private, ephemeral)
      case None => None
      case Some(es) =>
        match s.unseal(s.kdf(t1.c, es, 2), 0, sealedStatic, t1.h)
        case None => None
        case Some(peerPublic) =>
          var t2 := t1.MixKey(s, es).MixHash(s, sealedStatic);
          match s.dh(private, peerPublic)
          case None => None
          case Some(ss) =>
            match s.unseal(s.kdf(t2.c, ss, 2), 0, sealedTime, t2.h)
            case None => None
            case Some(_) =>
              var t3 := t2.MixKey(s, ss).MixHash(s, sealedTime);
              Answer(s, psk, ephemeralPrivate, own, t3, ephemeral, peerPublic, peerIndex)
  }

  function Answer(s: Suite, psk: seq<byte>, ephemeralPrivate: seq<byte>, own: u32, t3: Transcript,
                  peerEphemeral: seq<byte>, peerPublic: seq<byte>, peerIndex: u32): Option<Responded>
  {
    var ephemeral := s.public(ephemeralPrivate);
    var t4 := MixEphemeral(s, t3, ephemeral);
    match s.dh(ephemeralPrivate, peerEphemeral)
    case None => None
    case Some(ee) =>
      match s.dh(ephemeralPrivate, peerPublic)
      case None => None
      case Some(se) =>
        var (t5, k) := MixPresharedKey(s, t4.MixKey(s, ee).MixKey(s, se), psk);
        var nothing := s.seal(k, 0, [], t5.h);
        var t6 := t5.MixHash(s, nothing);
        Some(Responded(Session(t6, s.kdf(t6.c, [], 2), s.kdf(t6.c, [], 1), peerIndex),
                       ResponseMessage(s, own, peerIndex, ephemeral, nothing, peerPublic)))
  }

  lemma WordOfBytes(x: u32)
    ensures Word(LeBytes(4, x)) == x
  {
    hide Val, LeBytes;
    ValOfLeBytes(4, x);
    WordPow();
  }

  lemma InitiationFields(s: Suite, index: u32, ephemeral: seq<byte>, sealedStatic: seq<byte>, sealedTime: seq<byte>,
                         responderPublic: seq<byte>)
    requires Lawful(s) && |ephemeral| == 32 && |sealedStatic| == 48 && |sealedTime| == 28
    ensures var m := InitiationMessage(s, index, ephemeral, sealedStatic, sealedTime, responderPublic);
            && |m| == 148 && m[0] == 1 && m[4..8] == LeBytes(4, index)
            && m[8..40] == ephemeral && m[40..88] == sealedStatic && m[88..116] == sealedTime
            && m[116..132] == s.mac(MacKey(s, responderPublic), m[..116])
  {
    hide MacKey, LeBytes;
    var body := [1, 0, 0, 0] + LeBytes(4, index) + ephemeral + sealedStatic + sealedTime;
    var m := InitiationMessage(s, index, ephemeral, sealedStatic, sealedTime, responderPublic);
    assert m[..116] == body;
  }

  lemma ResponseFields(s: Suite, own: u32, peer: u32, ephemeral: seq<byte>, nothing: seq<byte>, initiatorPublic: seq<byte>)
    requires Lawful(s) && |ephemeral| == 32 && |nothing| == 16
    ensures var m := ResponseMessage(s, own, peer, ephemeral, nothing, initiatorPublic);
            && |m| == 92 && m[0] == 2 && m[4..8] == LeBytes(4, own) && m[8..12] == LeBytes(4, peer)
            && m[12..44] == ephemeral && m[44..60] == nothing
  {
    hide MacKey, LeBytes;
  }

  /** A responder that gets the initiation reaches the initiator's transcript and answers,
      unless one of the exchanges with its fresh ephemeral fails. */
  lemma ResponderFollows(s: Suite, privateI: seq<byte>, ephemeralI: seq<byte>, timestamp: seq<byte>, index: u32,
                         privateR: seq<byte>, psk: seq<byte>, ephemeralR: seq<byte>, own: u32)
    requires Lawful(s) && |timestamp| == 12
    requires Initiate(s, privateI, s.public(privateR), ephemeralI, timestamp, index).Some?
    ensures var i := Initiate(s, privateI, s.public(privateR), ephemeralI, timestamp, index).value;
            |i.message| == 148
            && Respond(s, privateR, psk, ephemeralR, own, i.message)
               == Answer(s, psk, ephemeralR, own, i.t, s.public(ephemeralI), s.public(privateI), index)
  {
    hide MacKey, Start, MixEphemeral, Answer, InitiationMessage, LeBytes, Word;
    var peerPublic, ephemeral := s.public(privateR), s.public(ephemeralI);
    var t1 := MixEphemeral(s, Start(s, peerPublic), ephemeral);
    var es := s.dh(ephemeralI, peerPublic).value;
    var sealedStatic := s.seal(s.kdf(t1.c, es, 2), 0, s.public(privateI), t1.h);
    var t2 := t1.MixKey(s, es).MixHash(s, sealedStatic);
    var ss := s.dh(privateI, peerPublic).value;
    var sealedTime := s.seal(s.kdf(t2.c, ss, 2), 0, timestamp, t2.h);
    assert s.dh(privateR, ephemeral) == Some(es);
    assert s.dh(privateR, s.public(privateI)) == Some(ss);
    assert s.unseal(s.kdf(t1.c, es, 2), 0, sealedStatic, t1.h) == Some(s.public(privateI));
    assert s.unseal(s.kdf(t2.c, ss, 2), 0, sealedTime, t2.h) == Some(timestamp);
    InitiationFields(s, index, ephemeral, sealedStatic, sealedTime, peerPublic);
    WordOfBytes(index);
  }

  /** Agreement: the initiator accepts the answer to its own initiation, and both ends
      hold the same chaining key and transcript hash and each other's transport keys. */
  lemma Agreement(s: Suite, privateI: seq<byte>, ephemeralI: seq<byte>, timestamp: seq<byte>, index: u32,
                  privateR: seq<byte>, psk: seq<byte>, ephemeralR: seq<byte>, own: u32)
    requires Lawful(s) && |timestamp| == 12
    requires Initiate(s, privateI, s.public(privateR), ephemeralI, timestamp, index).Some?
    ensures
      var i := Initiate(s, privateI, s.public(privateR), ephemeralI, timestamp, index).value;
      var r := Respond(s, privateR, psk, ephemeralR, own, i.message);
      r.Some? ==>
        && |r.value.message| == 92 && r.value.message[0] == 2
        && Word(r.value.message[8..12]) == index
        && var done := Conclude(s, privateI, ephemeralI, psk, i.t, r.value.message);
           && done.Some?
           && done.value.t == r.value.session.t
           && done.value.sendKey == r.value.session.recvKey
           && done.value.recvKey == r.value.session.sendKey
           && done.value.peerIndex == own && r.value.session.peerIndex == index
  {
    hide MacKey, Start, MixEphemeral, MixPresharedKey, Respond, Initiate, ResponseMessage, LeBytes, Word;
    ResponderFollows(s, privateI, ephemeralI, timestamp, index, privateR, psk, ephemeralR, own);
    var i := Initiate(s, privateI, s.public(privateR), ephemeralI, timestamp, index).value;
    var r := Respond(s, privateR, psk, ephemeralR, own, i.message);
    if r.Some? {
      var peerEphemeral := s.public(ephemeralR);
      var ee := s.dh(ephemeralR, s.public(ephemeralI)).value;
      var se := s.dh(ephemeralR, s.public(privateI)).value;
      assert s.dh(ephemeralI, peerEphemeral) == Some(ee) && s.dh(privateI, peerEphemeral) == Some(se);
      var (t5, k) := MixPresharedKey(s, MixEphemeral(s, i.t, peerEphemeral).MixKey(s, ee).MixKey(s, se), psk);
      var nothing := s.seal(k, 0, [], t5.h);
      ResponseFields(s, own, index, peerEphemeral, nothing, s.public(privateI));
      assert s.unseal(k, 0, nothing, t5.h) == Some([]);
      WordOfBytes(own);
      WordOfBytes(index);
    }
  }
}
