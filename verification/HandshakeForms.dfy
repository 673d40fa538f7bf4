/** Section 5.4 of the WireGuard whitepaper, formula by formula, for what the initiator sends
    and concludes; and what it waits for. */
module HandshakeForms {
  import opened Options
  import opened Numbers
  import opened Words
  import opened Handshake
  import opened WireGuardBackend

  lemma AsciiForm(text: string, i: nat)
    requires i < |text| && text[i] as int < 128
    ensures |Ascii(text)| == |text| && Ascii(text)[i] == text[i] as int
  {
  }

  /** The constants the chain begins with. */
  lemma StartForm(s: Suite, responder: seq<byte>)
    ensures var c := s.hash(Ascii("Noise_IKpsk2_25519_ChaChaPoly_BLAKE2s"));
            Start(s, responder)
            == Transcript(c, s.hash(s.hash(c + Ascii("WireGuard v1 zx2c4 Jason@zx2c4.com")) + responder))
  {
    hide Ascii;
  }

  /** Section 5.4.2: the message and the transcript, with neither when an exchange fails. */
  lemma InitiationForm(s: Suite, private: seq<byte>, responder: seq<byte>, ephemeralPrivate: seq<byte>,
                       timestamp: seq<byte>, index: u32, es: seq<byte>, ss: seq<byte>, zeros: seq<byte>)
    requires s.dh(ephemeralPrivate, responder) == Some(es) && s.dh(private, responder) == Some(ss)
    requires |zeros| == 16 && forall i :: 0 <= i < 16 ==> zeros[i] == 0
    ensures var e := s.public(ephemeralPrivate);
            var start := Start(s, responder);
            var c1, h1 := s.kdf(start.c, e, 1), s.hash(start.h + e);
            var sealedStatic := s.seal(s.kdf(c1, es, 2), 0, s.public(private), h1);
            var c2, h2 := s.kdf(c1, es, 1), s.hash(h1 + sealedStatic);
            var sealedTime := s.seal(s.kdf(c2, ss, 2), 0, timestamp, h2);
            var c3, h3 := s.kdf(c2, ss, 1), s.hash(h2 + sealedTime);
            var body := [1, 0, 0, 0] + LeBytes(4, index) + e + sealedStatic + sealedTime;
            var mac1 := s.mac(s.hash(Ascii("mac1----") + responder), body);
            Initiate(s, private, responder, ephemeralPrivate, timestamp, index)
            == Some(Initiated(Transcript(c3, h3), body + mac1 + zeros))
  {
    hide Ascii, Start, LeBytes;
    assert zeros == seq(16, _ => 0);
  }

  lemma InitiationFails(s: Suite, private: seq<byte>, responder: seq<byte>, ephemeralPrivate: seq<byte>,
                        timestamp: seq<byte>, index: u32)
    ensures Initiate(s, private, responder, ephemeralPrivate, timestamp, index).None?
            <==> s.dh(ephemeralPrivate, responder).None? || s.dh(private, responder).None?
  {
    hide Start, InitiationMessage, MixEphemeral;
  }

  /** An initiation goes out exactly when every call it takes works. */
  lemma InitiationWhen(s: Suite, private: seq<byte>, responder: seq<byte>, a: Attempt)
    ensures Initiation(s, private, responder, a).Some? <==>
            && a.publicOk && a.ephemeral.Some? && a.staticOk && a.timeOk && a.index.Some? && a.sendOk
            && s.dh(a.ephemeral.value, responder).Some? && s.dh(private, responder).Some?
  {
    hide Initiate;
    if a.ephemeral.Some? && a.index.Some? {
      InitiationFails(s, private, responder, a.ephemeral.value, a.timestamp, a.index.value);
    }
  }

  /** Sections 5.4.3 and 5.4.5: what a response leads to, and when it leads to nothing. */
  lemma ConclusionForm(s: Suite, private: seq<byte>, ephemeralPrivate: seq<byte>, psk: seq<byte>, t: Transcript,
                       response: seq<byte>)
    requires |response| == 92
    ensures var e := response[12..44];
            var ee, se := s.dh(ephemeralPrivate, e), s.dh(private, e);
            var end := Conclude(s, private, ephemeralPrivate, psk, t, response);
            if ee.None? || se.None? then end.None?
            else
              var c := s.kdf(s.kdf(s.kdf(t.c, e, 1), ee.value, 1), se.value, 1);
              var h := s.hash(s.hash(t.h + e) + s.kdf(c, psk, 2));
              if s.unseal(s.kdf(c, psk, 3), 0, response[44..60], h).None? then end.None?
              else
                var last := s.kdf(c, psk, 1);
                end == Some(Session(Transcript(last, s.hash(h + response[44..60])),
                                    s.kdf(last, [], 1), s.kdf(last, [], 2), Word(response[4..8])))
  {
    hide Word;
  }

  /** What the initiator waits for: the first arrival of 92 bytes and type 2, as long as it is
      among the first `tries` and nothing before it was a timeout or an error. */
  lemma {:induction false} AwaitForm(received: seq<seq<byte>>, tries: nat, n: nat)
    requires n < tries && n < |received| && |received[n]| == 92 && received[n][0] == 2
    requires forall k :: 0 <= k < n ==> received[k] != [] && !(|received[k]| == 92 && received[k][0] == 2)
    ensures AwaitResponse(received, tries) == Some(received[n])
  {
    if n > 0 {
      assert received[0] != [] && !(|received[0]| == 92 && received[0][0] == 2);
      AwaitForm(received[1..], tries - 1, n - 1);
    }
  }

  /** An arrival that is awaited is such a one. */
  lemma {:induction false} AwaitedForm(received: seq<seq<byte>>, tries: nat) returns (n: nat)
    requires AwaitResponse(received, tries).Some?
    ensures n < tries && n < |received| && AwaitResponse(received, tries) == Some(received[n])
    ensures |received[n]| == 92 && received[n][0] == 2
    ensures forall k :: 0 <= k < n ==> received[k] != [] && !(|received[k]| == 92 && received[k][0] == 2)
  {
    if |received[0]| == 92 && received[0][0] == 2 {
      n := 0;
    } else {
      var m := AwaitedForm(received[1..], tries - 1);
      n := m + 1;
      assert forall k :: 1 <= k < n ==> received[k] == received[1..][k - 1];
    }
  }

  /** What a whole attempt ends with: the conclusion from the response awaited among 64
      arrivals, if it is addressed to this attempt. */
  lemma OutcomeForm(s: Suite, private: seq<byte>, responder: seq<byte>, psk: seq<byte>, a: Attempt)
    ensures Initiation(s, private, responder, a).None? ==> Outcome(s, private, responder, psk, a).None?
    ensures Initiation(s, private, responder, a).Some? ==>
              a.index.Some? && a.ephemeral.Some?
              && var arrival := AwaitResponse(a.received, 64);
                 Outcome(s, private, responder, psk, a)
                 == if arrival.Some? && arrival.value[8..12] == LeBytes(4, a.index.value)
                    then Conclude(s, private, a.ephemeral.value, psk, Initiation(s, private, responder, a).value.t, arrival.value)
                    else None
  {
    hide AwaitResponse, Initiation, Conclude, LeBytes;
    if Initiation(s, private, responder, a).Some? {
      InitiationNeedsEphemeral(s, private, responder, a);
      if AwaitResponse(a.received, 64).Some? {
        AcceptedWhenAddressed(s, private, responder, a);
      }
    }
  }

  /** No preshared key is a key of 32 zeros. */
  lemma PresharedForm(psk: Option<seq<byte>>)
    ensures psk.Some? ==> PskOrZeros(psk) == psk.value
    ensures psk.None? ==> |PskOrZeros(psk)| == 32 && forall i :: 0 <= i < 32 ==> PskOrZeros(psk)[i] == 0
  {
  }
}
