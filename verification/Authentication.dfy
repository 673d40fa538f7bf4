/** What a successful handshake proves: with an AEAD whose tags only key holders make, and as
    long as the two runs exhibit no collision, some responder answered this very initiation. */
module Authentication {
  import opened Options
  import opened Numbers
  import opened Words
  import opened Handshake
  import opened WireGuardBackend

  /** A digest takes 32 bytes. */
  ghost predicate Digests(s: Suite) {
    forall d :: |s.hash(d)| == 32
  }

  /** The chaining key after mixing in `ys`, one KDF output 1 each. */
  function ChainKey(s: Suite, c: seq<byte>, ys: seq<seq<byte>>): seq<byte> {
    if ys == [] then c else s.kdf(ChainKey(s, c, ys[..|ys| - 1]), ys[|ys| - 1], 1)
  }

  /** The transcript hash after absorbing `xs`. */
  function Digest(s: Suite, h: seq<byte>, xs: seq<seq<byte>>): seq<byte> {
    if xs == [] then h else s.hash(Digest(s, h, xs[..|xs| - 1]) + xs[|xs| - 1])
  }

  function FirstKey(s: Suite): seq<byte> {
    s.hash(Ascii(CONSTRUCTION))
  }

  function FirstHash(s: Suite): seq<byte> {
    s.hash(FirstKey(s) + Ascii(IDENTIFIER))
  }

  /** All that one end has put into a handshake: the responder's public key, both messages, its
      four Diffie-Hellman results and its preshared key. */
  datatype View = View(responder: seq<byte>, m: seq<byte>, r: seq<byte>,
                       es: seq<byte>, ss: seq<byte>, ee: seq<byte>, se: seq<byte>, psk: seq<byte>) {
    predicate Sized() {
      |m| == 148 && |r| == 92
    }

    function Mixed(): seq<seq<byte>>
      requires Sized()
    {
      [m[8..40], es, ss, r[12..44], ee, se]
    }

    function Extracted(s: Suite): seq<byte>
      requires Sized()
    {
      ChainKey(s, FirstKey(s), Mixed())
    }

    function Hashed(s: Suite): seq<seq<byte>>
      requires Sized()
    {
      [responder, m[8..40], m[40..88], m[88..116], r[12..44], s.kdf(Extracted(s), psk, 2)]
    }

    /** The transcript and key under which the response's tag is made. */
    function Before(s: Suite): Transcript
      requires Sized()
    {
      Transcript(s.kdf(Extracted(s), psk, 1), Digest(s, FirstHash(s), Hashed(s)))
    }

    function TagKey(s: Suite): seq<byte>
      requires Sized()
    {
      s.kdf(Extracted(s), psk, 3)
    }

    function End(s: Suite): Transcript
      requires Sized()
    {
      Before(s).MixHash(s, r[44..60])
    }

    /** The initiator's public key, as the responder opens it from the initiation. */
    function Initiator(s: Suite): Option<seq<byte>>
      requires Sized()
    {
      s.unseal(s.kdf(ChainKey(s, FirstKey(s), [m[8..40]]), es, 2), 0, m[40..88],
               Digest(s, FirstHash(s), [responder, m[8..40]]))
    }
  }

  function Or(o: Option<seq<byte>>): seq<byte> {
    match o case Some(x) => x case None => []
  }

  function InitiatorView(s: Suite, private: seq<byte>, peerPublic: seq<byte>, ephemeral: seq<byte>, psk: seq<byte>,
                         m: seq<byte>, r: seq<byte>): View
    requires |m| == 148 && |r| == 92
  {
    View(peerPublic, m, r, Or(s.dh(ephemeral, peerPublic)), Or(s.dh(private, peerPublic)),
         Or(s.dh(ephemeral, r[12..44])), Or(s.dh(private, r[12..44])), psk)
  }

  /** One run of a responder. */
  datatype Answerer = Answerer(private: seq<byte>, psk: seq<byte>, ephemeral: seq<byte>, own: u32, m: seq<byte>) {
    function Reply(s: Suite): Option<Responded> {
      Respond(s, private, psk, ephemeral, own, m)
    }

    /** The static key it opens from the initiation. */
    function Peer(s: Suite): seq<byte>
      requires |m| == 148
    {
      var t1 := MixEphemeral(s, Start(s, s.public(private)), m[8..40]);
      Or(s.unseal(s.kdf(t1.c, Or(s.dh(private, m[8..40])), 2), 0, m[40..88], t1.h))
    }
  }

  function ResponderView(s: Suite, a: Answerer, r: seq<byte>): View
    requires |a.m| == 148
  {
    View(s.public(a.private), a.m, r, Or(s.dh(a.private, a.m[8..40])), Or(s.dh(a.private, a.Peer(s))),
         Or(s.dh(a.ephemeral, a.m[8..40])), Or(s.dh(a.ephemeral, a.Peer(s))), a.psk)
  }

  lemma ChainOne(s: Suite, c: seq<byte>, ys: seq<seq<byte>>, y: seq<byte>)
    ensures ChainKey(s, c, ys + [y]) == s.kdf(ChainKey(s, c, ys), y, 1)
    ensures Digest(s, c, ys + [y]) == s.hash(Digest(s, c, ys) + y)
    ensures ChainKey(s, c, []) == c && Digest(s, c, []) == c
  {
    assert (ys + [y])[..|ys|] == ys;
  }

  lemma ChainSix(s: Suite, c: seq<byte>, y0: seq<byte>, y1: seq<byte>, y2: seq<byte>, y3: seq<byte>, y4: seq<byte>,
                 y5: seq<byte>)
    ensures ChainKey(s, c, [y0]) == s.kdf(c, y0, 1)
    ensures ChainKey(s, c, [y0, y1, y2, y3, y4, y5])
            == s.kdf(s.kdf(s.kdf(s.kdf(s.kdf(s.kdf(c, y0, 1), y1, 1), y2, 1), y3, 1), y4, 1), y5, 1)
    ensures Digest(s, c, [y0, y1]) == s.hash(s.hash(c + y0) + y1)
    ensures Digest(s, c, [y0, y1, y2, y3, y4, y5])
            == s.hash(s.hash(s.hash(s.hash(s.hash(s.hash(c + y0) + y1) + y2) + y3) + y4) + y5)
  {
    hide ChainKey, Digest;
    ChainOne(s, c, [], y0);
    ChainOne(s, c, [y0], y1);
    ChainOne(s, c, [y0, y1], y2);
    ChainOne(s, c, [y0, y1, y2], y3);
    ChainOne(s, c, [y0, y1, y2, y3], y4);
    ChainOne(s, c, [y0, y1, y2, y3, y4], y5);
    assert [] + [y0] == [y0] && [y0] + [y1] == [y0, y1] && [y0, y1] + [y2] == [y0, y1, y2];
    assert [y0, y1, y2] + [y3] == [y0, y1, y2, y3] && [y0, y1, y2, y3] + [y4] == [y0, y1, y2, y3, y4];
    assert [y0, y1, y2, y3, y4] + [y5] == [y0, y1, y2, y3, y4, y5];
  }

  /** A view, unrolled. */
  lemma ViewUnrolled(s: Suite, v: View)
    requires v.Sized()
    ensures var m, r := v.m, v.r;
            var start := Start(s, v.responder);
            var t1 := MixEphemeral(s, start, m[8..40]);
            var t2 := t1.MixKey(s, v.es).MixHash(s, m[40..88]);
            var t3 := t2.MixKey(s, v.ss).MixHash(s, m[88..116]);
            var t4 := MixEphemeral(s, t3, r[12..44]);
            && MixPresharedKey(s, t4.MixKey(s, v.ee).MixKey(s, v.se), v.psk) == (v.Before(s), v.TagKey(s))
            && v.Initiator(s) == s.unseal(s.kdf(t1.c, v.es, 2), 0, m[40..88], t1.h)
  {
    hide ChainKey, Digest, Ascii;
    ChainSix(s, FirstKey(s), v.m[8..40], v.es, v.ss, v.r[12..44], v.ee, v.se);
    ChainSix(s, FirstHash(s), v.responder, v.m[8..40], v.m[40..88], v.m[88..116], v.r[12..44],
             s.kdf(v.Extracted(s), v.psk, 2));
  }

  /** What an initiator that succeeds holds. */
  lemma InitiatorHolds(s: Suite, private: seq<byte>, peerPublic: seq<byte>, ephemeral: seq<byte>, psk: seq<byte>,
                       timestamp: seq<byte>, index: u32, response: seq<byte>)
    requires Lawful(s) && |timestamp| == 12 && |response| == 92
    requires Initiate(s, private, peerPublic, ephemeral, timestamp, index).Some?
    requires var i := Initiate(s, private, peerPublic, ephemeral, timestamp, index).value;
             Conclude(s, private, ephemeral, psk, i.t, response).Some?
    ensures var i := Initiate(s, private, peerPublic, ephemeral, timestamp, index).value;
            |i.message| == 148
            && var v := InitiatorView(s, private, peerPublic, ephemeral, psk, i.message, response);
               var session := Conclude(s, private, ephemeral, psk, i.t, response).value;
               && session.t == v.End(s)
               && session.sendKey == s.kdf(v.End(s).c, [], 1) && session.recvKey == s.kdf(v.End(s).c, [], 2)
               && s.unseal(v.TagKey(s), 0, response[44..60], v.Before(s).h).Some?
               && v.Initiator(s) == Some(s.public(private))
  {
    hide Start, MixEphemeral, MixPresharedKey, InitiationMessage, Word, View.Before, View.TagKey, View.Initiator;
    var e := s.public(ephemeral);
    var t1 := MixEphemeral(s, Start(s, peerPublic), e);
    var es := s.dh(ephemeral, peerPublic).value;
    var sealedStatic := s.seal(s.kdf(t1.c, es, 2), 0, s.public(private), t1.h);
    var t2 := t1.MixKey(s, es).MixHash(s, sealedStatic);
    var ss := s.dh(private, peerPublic).value;
    var sealedTime := s.seal(s.kdf(t2.c, ss, 2), 0, timestamp, t2.h);
    InitiationFields(s, index, e, sealedStatic, sealedTime, peerPublic);
    var i := Initiate(s, private, peerPublic, ephemeral, timestamp, index).value;
    ViewUnrolled(s, InitiatorView(s, private, peerPublic, ephemeral, psk, i.message, response));
  }

  /** What a responder that answers holds. */
  lemma ResponderHolds(s: Suite, a: Answerer)
    requires Lawful(s) && a.Reply(s).Some?
    ensures |a.m| == 148 && |a.Reply(s).value.message| == 92
    ensures var reply := a.Reply(s).value;
            var v := ResponderView(s, a, reply.message);
            && reply.session.t == v.End(s)
            && reply.session.recvKey == s.kdf(v.End(s).c, [], 1) && reply.session.sendKey == s.kdf(v.End(s).c, [], 2)
            && reply.message[44..60] == s.seal(v.TagKey(s), 0, [], v.Before(s).h)
            && v.Initiator(s) == Some(a.Peer(s))
  {
    hide Start, MixEphemeral, MixPresharedKey, ResponseMessage, MacKey, Word, View.Before, View.TagKey, View.Initiator;
    var m := a.m;
    var t1 := MixEphemeral(s, Start(s, s.public(a.private)), m[8..40]);
    var es := s.dh(a.private, m[8..40]).value;
    var peerPublic := s.unseal(s.kdf(t1.c, es, 2), 0, m[40..88], t1.h).value;
    assert a.Peer(s) == peerPublic;
    var t2 := t1.MixKey(s, es).MixHash(s, m[40..88]);
    var ss := s.dh(a.private, peerPublic).value;
    var t3 := t2.MixKey(s, ss).MixHash(s, m[88..116]);
    assert a.Reply(s) == Answer(s, a.psk, a.ephemeral, a.own, t3, m[8..40], peerPublic, Word(m[4..8]));
    var e := s.public(a.ephemeral);
    var ee, se := s.dh(a.ephemeral, m[8..40]).value, s.dh(a.ephemeral, peerPublic).value;
    var (t5, k) := MixPresharedKey(s, MixEphemeral(s, t3, e).MixKey(s, ee).MixKey(s, se), a.psk);
    var nothing := s.seal(k, 0, [], t5.h);
    ResponseFields(s, a.own, Word(m[4..8]), e, nothing, peerPublic);
    ViewUnrolled(s, ResponderView(s, a, a.Reply(s).value.message));
  }

  // Collisions, named by the step of the two runs at which they would happen.

  ghost predicate HashTellsAt(s: Suite, h: seq<byte>, xs: seq<seq<byte>>, ys: seq<seq<byte>>, n: nat)
    requires n < |xs| == |ys|
  {
    var a, b := Digest(s, h, xs[..n]) + xs[n], Digest(s, h, ys[..n]) + ys[n];
    s.hash(a) == s.hash(b) ==> a == b
  }

  ghost predicate NoHashCollision(s: Suite, h: seq<byte>, xs: seq<seq<byte>>, ys: seq<seq<byte>>)
    requires |xs| == |ys|
  {
    forall n :: 0 <= n < |xs| ==> HashTellsAt(s, h, xs, ys, n)
  }

  ghost predicate KdfTellsAt(s: Suite, c: seq<byte>, xs: seq<seq<byte>>, ys: seq<seq<byte>>, n: nat)
    requires n < |xs| == |ys|
  {
    var a, b := ChainKey(s, c, xs[..n]), ChainKey(s, c, ys[..n]);
    s.kdf(a, xs[n], 1) == s.kdf(b, ys[n], 1) ==> a == b && xs[n] == ys[n]
  }

  ghost predicate NoKdfCollision(s: Suite, c: seq<byte>, xs: seq<seq<byte>>, ys: seq<seq<byte>>)
    requires |xs| == |ys|
  {
    forall n :: 0 <= n < |xs| ==> KdfTellsAt(s, c, xs, ys, n)
  }

  ghost predicate NoCollision(s: Suite, v: View, w: View)
    requires v.Sized() && w.Sized()
  {
    && NoHashCollision(s, FirstHash(s), v.Hashed(s), w.Hashed(s))
    && NoKdfCollision(s, FirstKey(s), v.Mixed(), w.Mixed())
    && (v.TagKey(s) == w.TagKey(s) ==> v.Extracted(s) == w.Extracted(s) && v.psk == w.psk)
  }

  lemma DigestLength(s: Suite, h: seq<byte>, xs: seq<seq<byte>>)
    requires Digests(s) && |h| == 32
    ensures |Digest(s, h, xs)| == 32
  {
  }

  lemma SplitAt(a: seq<byte>, x: seq<byte>, b: seq<byte>, y: seq<byte>)
    requires |a| == |b| && a + x == b + y
    ensures a == b && x == y
  {
    assert a == (a + x)[..|a|] == (b + y)[..|a|] == b;
    assert x == (a + x)[|a|..] == (b + y)[|a|..] == y;
  }

  lemma NoCollisionBefore(s: Suite, h: seq<byte>, xs: seq<seq<byte>>, ys: seq<seq<byte>>)
    requires |xs| == |ys| > 0
    ensures var n := |xs| - 1;
            && (NoHashCollision(s, h, xs, ys) ==> NoHashCollision(s, h, xs[..n], ys[..n]) && HashTellsAt(s, h, xs, ys, n))
            && (NoKdfCollision(s, h, xs, ys) ==> NoKdfCollision(s, h, xs[..n], ys[..n]) && KdfTellsAt(s, h, xs, ys, n))
  {
    hide Digest, ChainKey, HashTellsAt, KdfTellsAt;
    var n := |xs| - 1;
    forall k | 0 <= k < n
      ensures HashTellsAt(s, h, xs[..n], ys[..n], k) <==> HashTellsAt(s, h, xs, ys, k)
      ensures KdfTellsAt(s, h, xs[..n], ys[..n], k) <==> KdfTellsAt(s, h, xs, ys, k)
    {
      TellsInPrefix(s, h, xs, ys, n, k);
    }
  }

  lemma TellsInPrefix(s: Suite, h: seq<byte>, xs: seq<seq<byte>>, ys: seq<seq<byte>>, n: nat, k: nat)
    requires k < n <= |xs| == |ys|
    ensures HashTellsAt(s, h, xs[..n], ys[..n], k) <==> HashTellsAt(s, h, xs, ys, k)
    ensures KdfTellsAt(s, h, xs[..n], ys[..n], k) <==> KdfTellsAt(s, h, xs, ys, k)
  {
    hide Digest, ChainKey;
    assert xs[..n][..k] == xs[..k] && ys[..n][..k] == ys[..k];
  }

  lemma LastStep(s: Suite, c: seq<byte>, xs: seq<seq<byte>>)
    requires xs != []
    ensures var n := |xs| - 1;
            Digest(s, c, xs) == s.hash(Digest(s, c, xs[..n]) + xs[n])
            && ChainKey(s, c, xs) == s.kdf(ChainKey(s, c, xs[..n]), xs[n], 1)
  {
  }

  lemma {:induction false} DigestTells(s: Suite, h: seq<byte>, xs: seq<seq<byte>>, ys: seq<seq<byte>>)
    requires Digests(s) && |h| == 32 && |xs| == |ys| && NoHashCollision(s, h, xs, ys)
    requires Digest(s, h, xs) == Digest(s, h, ys)
    ensures xs == ys
  {
    hide Digest, NoHashCollision;
    if xs != [] {
      var n := |xs| - 1;
      LastStep(s, h, xs);
      LastStep(s, h, ys);
      NoCollisionBefore(s, h, xs, ys);
      DigestLength(s, h, xs[..n]);
      DigestLength(s, h, ys[..n]);
      SplitAt(Digest(s, h, xs[..n]), xs[n], Digest(s, h, ys[..n]), ys[n]);
      DigestTells(s, h, xs[..n], ys[..n]);
      assert xs == xs[..n] + [xs[n]] && ys == ys[..n] + [ys[n]];
    }
  }

  lemma {:induction false} ChainTells(s: Suite, c: seq<byte>, xs: seq<seq<byte>>, ys: seq<seq<byte>>)
    requires |xs| == |ys| && NoKdfCollision(s, c, xs, ys)
    requires ChainKey(s, c, xs) == ChainKey(s, c, ys)
    ensures xs == ys
  {
    hide ChainKey, NoKdfCollision;
    if xs != [] {
      var n := |xs| - 1;
      LastStep(s, c, xs);
      LastStep(s, c, ys);
      NoCollisionBefore(s, c, xs, ys);
      ChainTells(s, c, xs[..n], ys[..n]);
      assert xs == xs[..n] + [xs[n]] && ys == ys[..n] + [ys[n]];
    }
  }

  /** The tag is the same: made with one key over one transcript. */
  ghost predicate SameTag(s: Suite, v: View, w: View)
    requires v.Sized() && w.Sized()
  {
    v.TagKey(s) == w.TagKey(s) && v.Before(s).h == w.Before(s).h && v.r[44..60] == w.r[44..60]
  }

  /** Ends with the same tag put in the same things, field by field, and end alike. */
  lemma SameTagSameView(s: Suite, v: View, w: View)
    requires Digests(s) && v.Sized() && w.Sized() && SameTag(s, v, w) && NoCollision(s, v, w)
    ensures v.responder == w.responder && v.psk == w.psk
    ensures v.m[8..116] == w.m[8..116] && v.r[12..60] == w.r[12..60]
    ensures v.es == w.es && v.ss == w.ss && v.ee == w.ee && v.se == w.se
    ensures v.End(s) == w.End(s) && v.Initiator(s) == w.Initiator(s)
  {
    hide ChainKey, Digest, Ascii, NoHashCollision, NoKdfCollision;
    ChainTells(s, FirstKey(s), v.Mixed(), w.Mixed());
    assert v.Mixed()[0] == w.Mixed()[0] && v.Mixed()[1] == w.Mixed()[1] && v.Mixed()[2] == w.Mixed()[2]
           && v.Mixed()[3] == w.Mixed()[3] && v.Mixed()[4] == w.Mixed()[4] && v.Mixed()[5] == w.Mixed()[5];
    DigestTells(s, FirstHash(s), v.Hashed(s), w.Hashed(s));
    assert v.Hashed(s)[0] == w.Hashed(s)[0] && v.Hashed(s)[2] == w.Hashed(s)[2] && v.Hashed(s)[3] == w.Hashed(s)[3];
    assert v.m[8..116] == v.m[8..40] + v.m[40..88] + v.m[88..116];
    assert w.m[8..116] == w.m[8..40] + w.m[40..88] + w.m[88..116];
    assert v.r[12..60] == v.r[12..44] + v.r[44..60] && w.r[12..60] == w.r[12..44] + w.r[44..60];
  }

  /** An authentic AEAD: the tag that opened is one of those the responders' runs made. */
  ghost predicate TagFrom(s: Suite, v: View, runs: seq<Answerer>, j: nat)
    requires v.Sized() && j < |runs|
  {
    && runs[j].Reply(s).Some? && |runs[j].m| == 148 && |runs[j].Reply(s).value.message| == 92
    && SameTag(s, v, ResponderView(s, runs[j], runs[j].Reply(s).value.message))
  }

  ghost predicate NoCollisionWith(s: Suite, v: View, runs: seq<Answerer>, j: nat)
    requires v.Sized() && j < |runs|
  {
    |runs[j].m| == 148 && runs[j].Reply(s).Some? && |runs[j].Reply(s).value.message| == 92 ==>
      NoCollision(s, v, ResponderView(s, runs[j], runs[j].Reply(s).value.message))
  }

  /** The initiator's session is the responder's, each knows who the other is, and the run
      answered this very initiation. */
  ghost predicate AgreesWith(s: Suite, private: seq<byte>, peerPublic: seq<byte>, psk: seq<byte>, message: seq<byte>,
                             session: Session, a: Answerer)
  {
    && a.Reply(s).Some? && |a.m| == 148 && |message| == 148
    && var theirs := a.Reply(s).value.session;
       && session.t == theirs.t && session.sendKey == theirs.recvKey && session.recvKey == theirs.sendKey
       && s.public(a.private) == peerPublic && a.Peer(s) == s.public(private) && a.psk == psk
       && a.m[8..116] == message[8..116]
  }

  /** For any handshake that succeeds, whatever arrived: if the tag that opened was made by one
      of the responders' runs, and the initiator's run collides with none of them, then it
      agrees with that run on the session, on both identities and on the initiation. */
  lemma SuccessIsAnAnswer(s: Suite, private: seq<byte>, peerPublic: seq<byte>, psk: seq<byte>, a: Attempt,
                          runs: seq<Answerer>, j: nat)
    requires Lawful(s) && Digests(s) && |a.timestamp| == 12 && j < |runs|
    requires Outcome(s, private, peerPublic, psk, a).Some?
    requires a.ephemeral.Some? && |Initiation(s, private, peerPublic, a).value.message| == 148
    requires var v := InitiatorView(s, private, peerPublic, a.ephemeral.value, psk,
                                    Initiation(s, private, peerPublic, a).value.message,
                                    Accepted(s, private, peerPublic, a).value);
             TagFrom(s, v, runs, j) && NoCollisionWith(s, v, runs, j)
    ensures AgreesWith(s, private, peerPublic, psk, Initiation(s, private, peerPublic, a).value.message,
                       Outcome(s, private, peerPublic, psk, a).value, runs[j])
  {
    hide Initiate, Conclude, Accepted, Initiation, Respond, Answerer.Peer, NoCollision, View.End, View.Before, View.TagKey,
         View.Initiator, Lawful;
    InitiationIs(s, private, peerPublic, a);
    var i := Initiation(s, private, peerPublic, a).value;
    var response := Accepted(s, private, peerPublic, a).value;
    InitiatorHolds(s, private, peerPublic, a.ephemeral.value, psk, a.timestamp, a.index.value, response);
    ResponderHolds(s, runs[j]);
    var v := InitiatorView(s, private, peerPublic, a.ephemeral.value, psk, i.message, response);
    SameTagSameView(s, v, ResponderView(s, runs[j], runs[j].Reply(s).value.message));
  }
}
