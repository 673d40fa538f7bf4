/** The base64 encoding of section 4 of RFC 4648, and the daemon's two decoders. */
module Base64Spec {
  import opened Numbers

  type sextet = v: int | 0 <= v < 64

  function Alphabet(v: sextet): char {
    if v < 26 then 'A' + v as char
    else if v < 52 then 'a' + (v - 26) as char
    else if v < 62 then '0' + (v - 52) as char
    else if v == 62 then '+' else '/'
  }

  /** The reverse table: -1 for a character outside the alphabet. */
  function Reverse(c: char): (v: int)
    ensures -1 <= v < 64
  {
    if 'A' <= c <= 'Z' then c as int - 'A' as int
    else if 'a' <= c <= 'z' then c as int - 'a' as int + 26
    else if '0' <= c <= '9' then c as int - '0' as int + 52
    else if c == '+' then 62
    else if c == '/' then 63
    else -1
  }

  predicate White(c: char) {
    c == ' ' || c == '\t' || c == '\r' || c == '\n'
  }

  /** Three bytes as four characters; one or two left over are padded. */
  function Encode(b: seq<byte>): string {
    if |b| == 0 then ""
    else if |b| == 1 then [Alphabet(b[0] / 4), Alphabet(b[0] % 4 * 16), '=', '=']
    else if |b| == 2 then [Alphabet(b[0] / 4), Alphabet(b[0] % 4 * 16 + b[1] / 16), Alphabet(b[1] % 16 * 4), '=']
    else [Alphabet(b[0] / 4), Alphabet(b[0] % 4 * 16 + b[1] / 16),
          Alphabet(b[1] % 16 * 4 + b[2] / 64), Alphabet(b[2] % 64)] + Encode(b[3..])
  }

  /** The decoder's state: a 32-bit accumulator whose high bits go stale, how many low bits
      are pending, and the bytes written. */
  datatype State = State(buffer: u32, bits: nat, out: seq<byte>)

  datatype Result = Decoded(state: State) | Refused(written: seq<byte>)

  function Shift(bits: nat): (p: nat)
    ensures p > 0
  {
    if bits == 0 then 1 else if bits == 2 then 4 else if bits == 4 then 16 else 64
  }

  /** One character of the alphabet: shift it in, and write a byte when eight bits are there. */
  function Push(s: State, v: sextet): State {
    var buffer: u32 := (s.buffer * 64) % 0x1_0000_0000 + v;
    if s.bits < 2 then State(buffer, s.bits + 6, s.out)
    else State(buffer, s.bits - 2, s.out + [buffer / Shift(s.bits - 2) % 256])
  }

  function Run(s: State, text: string, cap: nat): Result
    requires s.bits % 2 == 0 && s.bits <= 6
    decreases |text|
  {
    if text == "" || text[0] == '=' then Decoded(s)
    else if White(text[0]) then Run(s, text[1..], cap)
    else if Reverse(text[0]) < 0 then Refused(s.out)
    else if s.bits >= 2 && |s.out| >= cap then Refused(s.out)
    else Run(Push(s, Reverse(text[0])), text[1..], cap)
  }

  const START := State(0, 0, [])

  /** The bounded decoder: at most `cap` bytes, no check of the leftover bits. */
  function DecodeBounded(text: string, cap: nat): Result {
    Run(START, text, cap)
  }

  /** The unbounded decoder also refuses a lone leftover group. No text yields more bytes
      than it has characters, so that is no bound. */
  function DecodeStrict(text: string): Result {
    match Run(START, text, |text|)
    case Refused(w) => Refused(w)
    case Decoded(s) => if s.bits >= 6 then Refused(s.out) else Decoded(s)
  }

  function Strip(text: string): string {
    if text == "" then ""
    else if White(text[0]) then Strip(text[1..])
    else [text[0]] + Strip(text[1..])
  }

  lemma AlphabetReverses(v: sextet)
    ensures Reverse(Alphabet(v)) == v && !White(Alphabet(v)) && Alphabet(v) != '='
  {
  }

  /** Interleaved whitespace never changes the result. */
  lemma {:induction false} WhitespaceIsIgnored(s: State, text: string, cap: nat)
    requires s.bits % 2 == 0 && s.bits <= 6
    ensures Run(s, Strip(text), cap) == Run(s, text, cap)
    decreases |text|
  {
    hide Push, White, Reverse;
    if text != "" {
      var rest := Strip(text[1..]);
      WhitespaceIsIgnored(s, text[1..], cap);
      if text[0] != '=' && !White(text[0]) && Reverse(text[0]) >= 0 && (s.bits < 2 || |s.out| < cap) {
        assert Strip(text) == [text[0]] + rest && Strip(text)[1..] == rest;
        PushBits(s, Reverse(text[0]));
        WhitespaceIsIgnored(Push(s, Reverse(text[0])), text[1..], cap);
      } else if !White(text[0]) {
        assert Strip(text)[0] == text[0];
      } else {
        WhiteIsNotPadding(text[0]);
      }
    }
  }

  lemma PushBits(s: State, v: sextet)
    requires s.bits % 2 == 0 && s.bits <= 6
    ensures var t := Push(s, v); t.bits % 2 == 0 && t.bits <= 6 && s.out <= t.out
  {
  }

  lemma WhiteIsNotPadding(c: char)
    requires White(c)
    ensures c != '='
  {
  }

  /** The bounded decoder never writes past its capacity. */
  lemma {:induction false} NeverOverflows(s: State, text: string, cap: nat)
    requires s.bits % 2 == 0 && s.bits <= 6 && |s.out| <= cap
    ensures match Run(s, text, cap)
            case Decoded(t) => s.out <= t.out && |t.out| <= cap
            case Refused(w) => s.out <= w && |w| <= cap
    decreases |text|
  {
    hide White, Reverse;
    if text != "" && text[0] != '=' {
      if White(text[0]) {
        NeverOverflows(s, text[1..], cap);
      } else if Reverse(text[0]) >= 0 && (s.bits < 2 || |s.out| < cap) {
        PushBits(s, Reverse(text[0]));
        NeverOverflows(Push(s, Reverse(text[0])), text[1..], cap);
      }
    }
  }

  /** A character of the alphabet is pushed unless its byte would not fit. */
  lemma RunPush(s: State, v: sextet, rest: string, cap: nat)
    requires s.bits % 2 == 0 && s.bits <= 6
    ensures Run(s, [Alphabet(v)] + rest, cap) ==
            if s.bits >= 2 && |s.out| >= cap then Refused(s.out) else Run(Push(s, v), rest, cap)
  {
    hide Push, Alphabet, White, Reverse;
    AlphabetReverses(v);
    assert ([Alphabet(v)] + rest)[1..] == rest;
  }

  // The accumulator after a push: whatever was stale above the pending bits, the low
  // eight bits above the new pending ones are the byte they complete.

  lemma PushFirst(s: State, v: sextet)
    requires s.bits == 0
    ensures var t := Push(s, v); t.bits == 6 && t.out == s.out && t.buffer % 64 == v
  {
  }

  lemma Wrap64(buffer: u32)
    ensures (buffer * 64) % 0x1_0000_0000 == 4096 * (buffer / 64 % 0x10_0000) + 64 * (buffer % 64)
  {
  }

  lemma Wrap16(buffer: u32)
    ensures (buffer * 64) % 0x1_0000_0000 == 1024 * (buffer / 16 % 0x40_0000) + 64 * (buffer % 16)
  {
  }

  lemma Wrap4(buffer: u32)
    ensures (buffer * 64) % 0x1_0000_0000 == 256 * (buffer / 4 % 0x100_0000) + 64 * (buffer % 4)
  {
  }

  lemma Split16(k: nat, b: byte, low: nat)
    requires low < 16
    ensures var x := 4096 * k + 16 * (b as int) + low; x / 16 % 256 == b && x % 16 == low
  {
    var q := 256 * k + b as int;
    DivModUnique(16 * q + low, 16, q, low);
    DivModUnique(q, 256, k, b);
  }

  lemma Split4(k: nat, b: byte, low: nat)
    requires low < 4
    ensures var x := 1024 * k + 4 * (b as int) + low; x / 4 % 256 == b && x % 4 == low
  {
    var q := 256 * k + b as int;
    DivModUnique(4 * q + low, 4, q, low);
    DivModUnique(q, 256, k, b);
  }

  lemma PushSecond(s: State, v: sextet, b: byte, low: nat)
    requires s.bits == 6 && low < 16 && s.buffer % 64 * 64 + v == b as int * 16 + low
    ensures var t := Push(s, v); t.bits == 4 && t.out == s.out + [b] && t.buffer % 16 == low
  {
    Wrap64(s.buffer);
    Split16(s.buffer / 64 % 0x10_0000, b, low);
  }

  lemma PushThird(s: State, v: sextet, b: byte, low: nat)
    requires s.bits == 4 && low < 4 && s.buffer % 16 * 64 + v == b as int * 4 + low
    ensures var t := Push(s, v); t.bits == 2 && t.out == s.out + [b] && t.buffer % 4 == low
  {
    Wrap16(s.buffer);
    Split4(s.buffer / 16 % 0x40_0000, b, low);
  }

  lemma Split1(k: nat, b: byte)
    ensures (256 * k + b as int) % 256 == b
  {
    DivModUnique(256 * k + b as int, 256, k, b);
  }

  lemma PushFourth(s: State, v: sextet, b: byte)
    requires s.bits == 2 && s.buffer % 4 * 64 + v == b as int
    ensures var t := Push(s, v); t.bits == 0 && t.out == s.out + [b]
  {
    Wrap4(s.buffer);
    Split1(s.buffer / 4 % 0x100_0000, b);
  }

  /** How decoding of an encoded text ends: complete, or refused for lack of room. */
  ghost predicate EndsWith(r: Result, s: State, b: seq<byte>, cap: nat)
    requires |s.out| <= cap
  {
    if |s.out| + |b| <= cap
    then r.Decoded? && r.state.out == s.out + b && r.state.bits < 6
    else r == Refused(s.out + b[..cap - |s.out|])
  }

  /** Decoding inverts encoding for every byte string, from any stale accumulator; a
      bounded decoder without room refuses after writing what fits. */
  lemma {:induction false} RunInvertsEncode(s: State, b: seq<byte>, cap: nat)
    requires s.bits == 0 && |s.out| <= cap
    ensures EndsWith(Run(s, Encode(b), cap), s, b, cap)
    decreases |b|
  {
    hide Push, Run, Alphabet;
    if |b| == 0 {
      RunEnds(s, "", cap);
    } else {
      var text := Encode(b);
      var v0, b0 := b[0] / 4, b[0];
      var t1 := Push(s, v0);
      PushFirst(s, v0);
      RunPush(s, v0, text[1..], cap);
      assert text == [Alphabet(v0)] + text[1..];
      var high1 := if |b| == 1 then 0 else b[1] / 16;
      var v1 := b0 % 4 * 16 + high1;
      var t2 := Push(t1, v1);
      PushSecond(t1, v1, b0, high1);
      RunPush(t1, v1, text[2..], cap);
      assert text[1..] == [Alphabet(v1)] + text[2..];
      if |s.out| < cap {
        if |b| == 1 {
          RunEnds(t2, text[2..], cap);
        } else {
          RunSecondByte(s, t2, b, cap);
        }
      }
    }
  }

  lemma GroupThenRest(r: Result, s: State, t: State, b: seq<byte>, cap: nat)
    requires |b| >= 3 && |s.out| + 3 <= cap && t.out == s.out + b[..3]
    requires EndsWith(r, t, b[3..], cap)
    ensures EndsWith(r, s, b, cap)
  {
    assert b[..3] + b[3..] == b;
    if |s.out| + |b| > cap {
      var n := cap - |t.out|;
      assert b[..3] + b[3..][..n] == b[..n + 3];
    }
  }

  lemma RunEnds(s: State, text: string, cap: nat)
    requires s.bits % 2 == 0 && s.bits <= 6
    requires text == "" || text[0] == '='
    ensures Run(s, text, cap) == Decoded(s)
  {
  }

  /** The rest of a group once its first byte is out. */
  lemma {:induction false} RunSecondByte(s: State, t2: State, b: seq<byte>, cap: nat)
    requires |b| >= 2 && |s.out| < cap && s.bits == 0
    requires t2.bits == 4 && t2.out == s.out + [b[0]] && t2.buffer % 16 == b[1] / 16
    ensures EndsWith(Run(t2, Encode(b)[2..], cap), s, b, cap)
    decreases |b|, 0
  {
    hide Push, Run, Alphabet;
    var text := Encode(b);
    var high2 := if |b| == 2 then 0 else b[2] / 64;
    var v2 := b[1] % 16 * 4 + high2;
    var t3 := Push(t2, v2);
    PushThird(t2, v2, b[1], high2);
    RunPush(t2, v2, text[3..], cap);
    assert text[2..] == [Alphabet(v2)] + text[3..];
    if |t2.out| < cap {
      if |b| == 2 {
        RunEnds(t3, text[3..], cap);
      } else {
        var v3 := b[2] % 64;
        PushFourth(t3, v3, b[2]);
        RunPush(t3, v3, text[4..], cap);
        assert text[3..] == [Alphabet(v3)] + text[4..] && text[4..] == Encode(b[3..]);
        if |t3.out| < cap {
          var t4 := Push(t3, v3);
          RunInvertsEncode(t4, b[3..], cap);
          assert t4.out == s.out + b[..3];
          GroupThenRest(Run(t4, text[4..], cap), s, t4, b, cap);
        }
      }
    }
  }

  /** Both decoders invert the encoder; the bounded one exactly when there is room. */
  lemma DecodersInvertEncoder(b: seq<byte>, cap: nat)
    ensures match DecodeBounded(Encode(b), cap)
            case Decoded(t) => |b| <= cap && t.out == b
            case Refused(w) => cap < |b| && w == b[..cap]
    ensures var r := DecodeStrict(Encode(b)); r.Decoded? && r.state.out == b
  {
    hide Run, Encode;
    RunInvertsEncode(START, b, cap);
    EncodedLength(b);
    RunInvertsEncode(START, b, |Encode(b)|);
  }

  lemma {:induction false} EncodedLength(b: seq<byte>)
    ensures |Encode(b)| >= |b|
  {
    if |b| > 2 {
      EncodedLength(b[3..]);
    }
  }

  /** A text never decodes to more bytes than it has characters, so a capacity that large
      is never felt. */
  lemma {:induction false} EnoughRoom(s: State, text: string, cap: nat, more: nat)
    requires s.bits % 2 == 0 && s.bits <= 6 && |s.out| + |text| <= cap <= more
    ensures Run(s, text, cap) == Run(s, text, more)
    decreases |text|
  {
    hide White, Reverse;
    if text != "" && text[0] != '=' {
      if White(text[0]) {
        EnoughRoom(s, text[1..], cap, more);
      } else if Reverse(text[0]) >= 0 {
        EnoughRoom(Push(s, Reverse(text[0])), text[1..], cap, more);
      }
    }
  }

  lemma {:induction false} StripIsShorter(text: string)
    ensures |Strip(text)| <= |text|
  {
    if text != "" {
      StripIsShorter(text[1..]);
    }
  }

  /** Neither decoder sees whitespace. */
  lemma DecodersIgnoreWhitespace(text: string, cap: nat)
    ensures DecodeBounded(Strip(text), cap) == DecodeBounded(text, cap)
    ensures DecodeStrict(Strip(text)) == DecodeStrict(text)
  {
    hide Run, Strip;
    WhitespaceIsIgnored(START, text, cap);
    WhitespaceIsIgnored(START, text, |text|);
    StripIsShorter(text);
    EnoughRoom(START, Strip(text), |Strip(text)|, |text|);
  }

  /** An encoded text decodes to its bytes wherever whitespace has been put into it. */
  lemma SpacedTextDecodes(text: string, b: seq<byte>, cap: nat)
    requires Strip(text) == Encode(b)
    ensures match DecodeBounded(text, cap)
            case Decoded(t) => |b| <= cap && t.out == b
            case Refused(w) => cap < |b| && w == b[..cap]
    ensures var r := DecodeStrict(text); r.Decoded? && r.state.out == b
  {
    hide DecodeBounded, DecodeStrict, Strip, Encode;
    DecodersIgnoreWhitespace(text, cap);
    DecodersInvertEncoder(b, cap);
  }

  lemma {:induction false} StripSkips(a: string, w: char, b: string)
    requires White(w)
    ensures Strip(a + [w] + b) == Strip(a + b)
  {
    if a == "" {
      assert ("" + [w] + b)[1..] == b && "" + b == b;
    } else {
      assert (a + [w] + b)[1..] == a[1..] + [w] + b && (a + b)[1..] == a[1..] + b;
      StripSkips(a[1..], w, b);
    }
  }

  /** A space, a tab or a line break may be put in anywhere. */
  lemma SpaceAnywhere(a: string, w: char, b: string, cap: nat)
    requires w == ' ' || w == '\t' || w == '\r' || w == '\n'
    ensures DecodeBounded(a + [w] + b, cap) == DecodeBounded(a + b, cap)
    ensures DecodeStrict(a + [w] + b) == DecodeStrict(a + b)
  {
    hide DecodeBounded, DecodeStrict, Strip;
    StripSkips(a, w, b);
    DecodersIgnoreWhitespace(a + [w] + b, cap);
    DecodersIgnoreWhitespace(a + b, cap);
  }

  /** How many characters of the alphabet a decoder reads: those before the padding. */
  function Symbols(text: string): nat {
    if text == "" || text[0] == '=' then 0
    else (if White(text[0]) then 0 else 1) + Symbols(text[1..])
  }

  /** Every character leaves six bits more, every byte takes eight. */
  lemma {:induction false} PendingBits(s: State, text: string, cap: nat)
    requires s.bits % 2 == 0 && s.bits <= 6 && Run(s, text, cap).Decoded?
    ensures Run(s, text, cap).state.bits == (s.bits + 6 * Symbols(text)) % 8
    decreases |text|
  {
    hide White, Reverse, Push;
    if text != "" && text[0] != '=' {
      if White(text[0]) {
        PendingBits(s, text[1..], cap);
      } else {
        SixMore(s, Reverse(text[0]), Symbols(text[1..]));
        PendingBits(Push(s, Reverse(text[0])), text[1..], cap);
      }
    }
  }

  lemma SixMore(s: State, v: sextet, n: nat)
    requires s.bits % 2 == 0 && s.bits <= 6
    ensures var t := Push(s, v);
            t.bits % 2 == 0 && t.bits <= 6 && (t.bits + 6 * n) % 8 == (s.bits + 6 * (1 + n)) % 8
  {
    PushBits(s, v);
    var t := Push(s, v);
    if t.bits != s.bits + 6 {
      EightLess(t.bits + 6 * n);
      assert t.bits + 6 * n + 8 == s.bits + 6 * (1 + n);
    }
  }

  lemma EightLess(x: nat)
    ensures (x + 8) % 8 == x % 8
  {
  }

  /** More room does not change a text that decodes. */
  lemma {:induction false} RoomToSpare(s: State, text: string, cap: nat, more: nat)
    requires s.bits % 2 == 0 && s.bits <= 6 && cap <= more && Run(s, text, cap).Decoded?
    ensures Run(s, text, more) == Run(s, text, cap)
    decreases |text|
  {
    hide White, Reverse;
    if text != "" && text[0] != '=' {
      if White(text[0]) {
        RoomToSpare(s, text[1..], cap, more);
      } else {
        RoomToSpare(Push(s, Reverse(text[0])), text[1..], cap, more);
      }
    }
  }

  /** Where the bounded decoder succeeds, the other one agrees with it, except that it
      refuses exactly the texts that end in a lone group: those whose characters before the
      padding are one more than a multiple of four. */
  lemma LoneGroupExactly(text: string, cap: nat)
    requires DecodeBounded(text, cap).Decoded?
    ensures DecodeStrict(text).Refused? <==> Symbols(text) % 4 == 1
    ensures DecodeStrict(text).Decoded? ==> DecodeStrict(text) == DecodeBounded(text, cap)
  {
    hide Run, Symbols;
    var more := if cap <= |text| then |text| else cap;
    RoomToSpare(START, text, cap, more);
    EnoughRoom(START, text, |text|, more);
    PendingBits(START, text, cap);
  }

  /** One character is enough to tell the decoders apart. */
  lemma LoneCharacter()
    ensures DecodeBounded("A", 0).Decoded? && DecodeStrict("A").Refused?
  {
    hide Run;
    RunPush(START, 0, "", 0);
    assert [Alphabet(0)] + "" == "A";
    RunEnds(Push(START, 0), "", 0);
    LoneGroupExactly("A", 0);
  }

  // Section 4 of RFC 4648, literally.

  /** The table: where its ranges begin and end, and that they count up in between. */
  lemma AlphabetForm(v: sextet)
    ensures Alphabet(0) == 'A' && Alphabet(25) == 'Z' && Alphabet(26) == 'a' && Alphabet(51) == 'z'
    ensures Alphabet(52) == '0' && Alphabet(61) == '9' && Alphabet(62) == '+' && Alphabet(63) == '/'
    ensures v != 25 && v != 51 && v < 61 ==> Alphabet(v + 1) as int == Alphabet(v) as int + 1
  {
  }

  /** A character outside the table has no value, and whitespace is four characters. */
  lemma ReverseForm(c: char)
    ensures Reverse(c) >= 0 ==> Alphabet(Reverse(c)) == c
    ensures White(c) <==> c in " \t\r\n"
  {
  }

  /** The four base-64 digits of a number of 24 bits. */
  predicate Digits(n: nat, d3: sextet, d2: sextet, d1: sextet, d0: sextet) {
    n == 262144 * d3 + 4096 * d2 + 64 * d1 + d0
  }

  /** Three bytes are one number of 24 bits and its four digits in base 64; what is left over
      is filled up with zero bits, and with padding. */
  lemma EncodeForm(b: seq<byte>, d3: sextet, d2: sextet, d1: sextet, d0: sextet)
    ensures Encode([]) == ""
    ensures |b| >= 3 && Digits(65536 * (b[0] as int) + 256 * (b[1] as int) + b[2] as int, d3, d2, d1, d0) ==>
              Encode(b) == [Alphabet(d3), Alphabet(d2), Alphabet(d1), Alphabet(d0)] + Encode(b[3..])
    ensures |b| == 2 && Digits(65536 * (b[0] as int) + 256 * (b[1] as int), d3, d2, d1, d0) ==>
              Encode(b) == [Alphabet(d3), Alphabet(d2), Alphabet(d1), '=']
    ensures |b| == 1 && Digits(65536 * (b[0] as int), d3, d2, d1, d0) ==>
              Encode(b) == [Alphabet(d3), Alphabet(d2), '=', '=']
  {
    hide Alphabet;
    var x: byte, y: byte, z: byte := if |b| > 0 then b[0] else 0, if |b| > 1 then b[1] else 0, if |b| > 2 then b[2] else 0;
    if Digits(65536 * (x as int) + 256 * (y as int) + z as int, d3, d2, d1, d0) {
      DigitsOfBytes(x, y, z, d3, d2, d1, d0);
      hide Digits;
    }
  }

  lemma DigitsOfBytes(x: byte, y: byte, z: byte, d3: sextet, d2: sextet, d1: sextet, d0: sextet)
    requires Digits(65536 * (x as int) + 256 * (y as int) + z as int, d3, d2, d1, d0)
    ensures d3 == x / 4 && d2 == x % 4 * 16 + y / 16 && d1 == y % 16 * 4 + z / 64 && d0 == z % 64
  {
    var p, q, r, s, u, t := x / 4, x % 4, y / 16, y % 16, z / 64, z % 64;
    assert x == 4 * p + q && y == 16 * r + s && z == 64 * u + t;
    var e2, e1 := 16 * q + r, 4 * s + u;
    assert 0 <= p < 64 && 0 <= e2 < 64 && 0 <= e1 < 64 && 0 <= t < 64;
    assert 262144 * d3 + 4096 * d2 + 64 * d1 + d0 == 262144 * p + 4096 * e2 + 64 * e1 + t;
    SameDigits(d3, d2, d1, d0, p, e2, e1, t);
  }

  lemma SameDigits(a: int, b: int, c: int, d: int, e: int, f: int, g: int, h: int)
    requires 0 <= a < 64 && 0 <= b < 64 && 0 <= c < 64 && 0 <= d < 64
    requires 0 <= e < 64 && 0 <= f < 64 && 0 <= g < 64 && 0 <= h < 64
    requires 262144 * a + 4096 * b + 64 * c + d == 262144 * e + 4096 * f + 64 * g + h
    ensures a == e && b == f && c == g && d == h
  {
    assert a == e;
    assert b == f;
    assert c == g;
  }
}

/** The two decoder loops. */
module Base64 {
  import opened Numbers
  import opened Base64Spec

  /** The WireGuard key decoder: into a buffer of fixed capacity. */
  method DecodeInto(text: string, out: array<byte>) returns (ok: bool, outLen: nat)
    modifies out
    ensures outLen <= out.Length
    ensures ok ==> match DecodeBounded(text, out.Length)
                   case Decoded(t) => out[..outLen] == t.out
                   case Refused(_) => false
    ensures !ok ==> DecodeBounded(text, out.Length) == Refused(out[..outLen])
    ensures out[outLen..] == old(out[outLen..])
  {
    hide Run, White, Reverse, Push;
    var buffer: u32 := 0;
    var bits := 0;
    outLen := 0;
    ghost var whole := Run(START, text, out.Length);
    var p := 0;
    assert text[0..] == text && out[..0] == [];
    while p < |text|
      invariant 0 <= p <= |text| && outLen <= out.Length
      invariant bits % 2 == 0 && bits <= 6
      invariant Run(State(buffer, bits, out[..outLen]), text[p..], out.Length) == whole
      invariant out[outLen..] == old(out[outLen..])
    {
      var c := text[p];
      ghost var s := State(buffer, bits, out[..outLen]);
      RunStep(s, text[p..], out.Length);
      assert text[p..][1..] == text[p + 1..];
      if c == '=' {
        return true, outLen;
      }
      if !White(c) {
        var v := Reverse(c);
        if v < 0 {
          return false, outLen;
        }
        PushCases(s, v);
        buffer := (buffer * 64) % 0x1_0000_0000 + v;
        bits := bits + 6;
        if bits >= 8 {
          bits := bits - 8;
          if outLen >= out.Length {
            return false, outLen;
          }
          ghost var before := out[..outLen];
          out[outLen] := buffer / Shift(bits) % 256;
          outLen := outLen + 1;
          assert out[..outLen] == before + [buffer / Shift(bits) % 256];
        }
      }
      p := p + 1;
    }
    RunEnds(State(buffer, bits, out[..outLen]), text[p..], out.Length);
    return true, outLen;
  }

  lemma RunStep(s: State, text: string, cap: nat)
    requires s.bits % 2 == 0 && s.bits <= 6 && text != ""
    ensures Run(s, text, cap) ==
            if text[0] == '=' then Decoded(s)
            else if White(text[0]) then Run(s, text[1..], cap)
            else if Reverse(text[0]) < 0 || (s.bits >= 2 && |s.out| >= cap) then Refused(s.out)
            else Run(Push(s, Reverse(text[0])), text[1..], cap)
  {
    hide White, Reverse, Push;
  }

  lemma PushCases(s: State, v: sextet)
    requires s.bits % 2 == 0 && s.bits <= 6
    ensures var buffer := (s.buffer * 64) % 0x1_0000_0000 + v;
            Push(s, v) == if s.bits + 6 < 8 then State(buffer, s.bits + 6, s.out)
                          else State(buffer, s.bits - 2, s.out + [buffer / Shift(s.bits - 2) % 256])
  {
  }

  /** The catalogue decoder: appends to a growing string and refuses a lone last group. */
  method Decode(text: string) returns (ok: bool, out: seq<byte>)
    ensures match DecodeStrict(text)
            case Decoded(t) => ok && out == t.out
            case Refused(w) => !ok && out == w
  {
    hide Run, White, Reverse, Push;
    var buffer: u32 := 0;
    var bits := 0;
    out := [];
    ghost var whole := Run(START, text, |text|);
    var p := 0;
    assert text[0..] == text;
    while p < |text|
      invariant 0 <= p <= |text| && |out| <= p
      invariant bits % 2 == 0 && bits <= 6
      invariant Run(State(buffer, bits, out), text[p..], |text|) == whole
    {
      var c := text[p];
      ghost var s := State(buffer, bits, out);
      RunStep(s, text[p..], |text|);
      assert text[p..][1..] == text[p + 1..];
      if !White(c) {
        if c == '=' {
          break;
        }
        var v := Reverse(c);
        if v < 0 {
          return false, out;
        }
        PushCases(s, v);
        buffer := (buffer * 64) % 0x1_0000_0000 + v;
        bits := bits + 6;
        if bits >= 8 {
          bits := bits - 8;
          out := out + [buffer / Shift(bits) % 256];
        }
      } else {
        WhiteIsNotPadding(c);
      }
      p := p + 1;
    }
    RunEnds(State(buffer, bits, out), text[p..], |text|);
    return bits < 6, out;
  }
}
