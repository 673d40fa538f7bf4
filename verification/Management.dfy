/** The line protocol of OpenVPN's management interface: splitting a byte stream into
    lines, quoting arguments, and framing commands. */
module ManagementSpec {
  import opened Options

  // Receiving.

  /** The first line break at or after `from`, or the length. */
  function LineEnd(s: string, from: nat): (n: nat)
    requires from <= |s|
    ensures from <= n <= |s| && (n < |s| ==> s[n] == '\n')
    ensures forall i :: from <= i < n ==> s[i] != '\n'
    decreases |s| - from
  {
    if from == |s| || s[from] == '\n' then from else LineEnd(s, from + 1)
  }

  /** The complete lines of a stream, without their line breaks. */
  function Lines(s: string): seq<string>
    decreases |s|
  {
    var n := LineEnd(s, 0);
    if n == |s| then [] else [s[..n]] + Lines(s[n + 1..])
  }

  /** What follows the last line break. */
  function Rest(s: string): string
    decreases |s|
  {
    var n := LineEnd(s, 0);
    if n == |s| then s else Rest(s[n + 1..])
  }

  /** Lines written back with their line breaks. */
  function Unlines(lines: seq<string>): string {
    if lines == [] then "" else lines[0] + "\n" + Unlines(lines[1..])
  }

  predicate NoBreak(s: string) {
    forall i :: 0 <= i < |s| ==> s[i] != '\n'
  }

  lemma FirstLine(line: string, tail: string)
    requires NoBreak(line)
    ensures Lines(line + "\n" + tail) == [line] + Lines(tail)
    ensures Rest(line + "\n" + tail) == Rest(tail)
  {
    var s := line + "\n" + tail;
    var n := LineEnd(s, 0);
    assert s[|line|] == '\n';
    assert forall i :: 0 <= i < |line| ==> s[i] == line[i];
    assert n == |line|;
    assert s[..n] == line && s[n + 1..] == tail;
  }

  lemma NoLine(s: string)
    requires NoBreak(s)
    ensures Lines(s) == [] && Rest(s) == s
  {
  }

  /** No byte is lost, and the lines and the rest contain no line break. */
  lemma {:induction false} NothingIsLost(s: string)
    ensures Unlines(Lines(s)) + Rest(s) == s
    ensures NoBreak(Rest(s)) && forall i :: 0 <= i < |Lines(s)| ==> NoBreak(Lines(s)[i])
    decreases |s|
  {
    hide Lines, Rest, Unlines;
    var n := LineEnd(s, 0);
    if n < |s| {
      var line, tail := s[..n], s[n + 1..];
      NothingIsLost(tail);
      assert s == line + "\n" + tail;
      FirstLine(line, tail);
      UnlinesFirst(line, Lines(tail));
      assert line + "\n" + (Unlines(Lines(tail)) + Rest(tail)) == line + "\n" + Unlines(Lines(tail)) + Rest(tail);
    } else {
      NoLine(s);
      UnlinesNothing();
      assert "" + s == s;
    }
  }

  lemma UnlinesFirst(line: string, lines: seq<string>)
    ensures Unlines([line] + lines) == line + "\n" + Unlines(lines)
  {
    assert ([line] + lines)[1..] == lines;
  }

  lemma UnlinesNothing()
    ensures Unlines([]) == ""
  {
  }

  /** Splitting a stream that arrives in two parts: the lines of the first part, then those
      of what it left over together with the second. */
  lemma {:induction false} LinesOfTwo(a: string, b: string)
    ensures Lines(a + b) == Lines(a) + Lines(Rest(a) + b)
    ensures Rest(a + b) == Rest(Rest(a) + b)
    decreases |a|
  {
    hide Lines, Rest;
    var n := LineEnd(a, 0);
    if n == |a| {
      NoLine(a);
      assert [] + Lines(a + b) == Lines(a + b);
    } else {
      var line, tail := a[..n], a[n + 1..];
      LinesOfTwo(tail, b);
      assert a == line + "\n" + tail;
      assert a + b == line + "\n" + (tail + b);
      FirstLine(line, tail);
      FirstLine(line, tail + b);
      var more := Lines(Rest(tail) + b);
      assert [line] + (Lines(tail) + more) == [line] + Lines(tail) + more;
    }
  }

  function Concat(chunks: seq<string>): string {
    if chunks == [] then "" else Concat(chunks[..|chunks| - 1]) + chunks[|chunks| - 1]
  }

  lemma ConcatForm(chunks: seq<string>, chunk: string)
    ensures Concat([]) == "" && Concat(chunks + [chunk]) == Concat(chunks) + chunk
  {
    assert (chunks + [chunk])[..|chunks|] == chunks;
  }

  // Sending.

  /** The C string of a value ends at its first NUL. */
  function CString(v: string): string {
    if v == "" || v[0] == '\0' then "" else [v[0]] + CString(v[1..])
  }

  /** Backslashes and quotes are escaped, line breaks become letters. */
  function EscapeChar(c: char): string {
    match c
    case '\\' => "\\\\"
    case '"' => "\\\""
    case '\n' => "\\n"
    case '\r' => "\\r"
    case _ => [c]
  }

  function EscapeArg(v: string): string {
    if v == "" || v[0] == '\0' then "" else EscapeChar(v[0]) + EscapeArg(v[1..])
  }

  /** The matching reader: the value up to the closing quote, and what follows it. */
  function Unquote(s: string): Option<(string, string)> {
    if s == "" then None
    else if s[0] == '"' then Some(("", s[1..]))
    else if s[0] == '\\' then
      if |s| == 1 then None
      else
        var c := if s[1] == 'n' then '\n' else if s[1] == 'r' then '\r' else s[1];
        match Unquote(s[2..])
        case None => None
        case Some(p) => Some(([c] + p.0, p.1))
    else
      match Unquote(s[1..])
      case None => None
      case Some(p) => Some(([s[0]] + p.0, p.1))
  }

  /** A quoted argument reads back as the value, and the reader stops at its own closing
      quote whatever comes after. */
  lemma {:induction false} UnquoteEscaped(v: string, rest: string)
    ensures Unquote(EscapeArg(v) + "\"" + rest) == Some((CString(v), rest))
  {
    if v == "" || v[0] == '\0' {
      assert "" + "\"" + rest == "\"" + rest && ("\"" + rest)[1..] == rest;
    } else {
      var tail := EscapeArg(v[1..]) + "\"" + rest;
      UnquoteEscaped(v[1..], rest);
      var e := EscapeChar(v[0]);
      assert EscapeArg(v) + "\"" + rest == e + tail;
      UnquoteChar(v[0], tail);
    }
  }

  lemma UnquoteChar(c: char, tail: string)
    ensures Unquote(EscapeChar(c) + tail) ==
            match Unquote(tail) case None => None case Some(p) => Some(([c] + p.0, p.1))
  {
    var e := EscapeChar(c);
    assert (e + tail)[|e|..] == tail;
  }

  predicate OneLine(s: string) {
    forall i :: 0 <= i < |s| ==> s[i] != '\n' && s[i] != '\r' && s[i] != '\0'
  }

  /** An escaped argument contains no line break of either kind and no NUL. */
  lemma {:induction false} EscapedIsOneLine(v: string)
    ensures OneLine(EscapeArg(v))
  {
    if v != "" && v[0] != '\0' {
      EscapedIsOneLine(v[1..]);
      assert OneLine(EscapeChar(v[0]));
    }
  }

  /** `username "realm" "value"` and its like. */
  function Command(name: string, realm: string, value: string): string {
    name + " \"" + realm + "\" \"" + EscapeArg(value) + "\""
  }

  /** A command carrying any value at all is exactly one line to the reader, if and only if
      its name and realm have no line break; a realm that the reader found in a line has none. */
  lemma CommandIsOneLine(name: string, realm: string, value: string)
    ensures Lines(Command(name, realm, value) + "\n") == [Command(name, realm, value)]
            <==> NoBreak(name) && NoBreak(realm)
    ensures NoBreak(name) && NoBreak(realm) ==> Rest(Command(name, realm, value) + "\n") == ""
    ensures OneLine(Command(name, realm, value)) <==> OneLine(name) && OneLine(realm)
  {
    hide Lines, Rest, EscapeArg;
    EscapedIsOneLine(value);
    var c := Command(name, realm, value);
    CommandParts(name, realm, EscapeArg(value));
    assert c + "\n" == c + "\n" + "";
    if NoBreak(c) {
      FirstLine(c, "");
      NoLine("");
    } else {
      NothingIsLost(c + "\n");
    }
  }

  lemma CommandParts(name: string, realm: string, escaped: string)
    requires OneLine(escaped)
    ensures var c := name + " \"" + realm + "\" \"" + escaped + "\"";
            (NoBreak(c) <==> NoBreak(name) && NoBreak(realm)) && (OneLine(c) <==> OneLine(name) && OneLine(realm))
  {
    var c := name + " \"" + realm + "\" \"" + escaped + "\"";
    var n, r := |name|, |name| + 2 + |realm|;
    assert forall i :: 0 <= i < n ==> c[i] == name[i];
    assert forall i :: 0 <= i < |realm| ==> c[n + 2 + i] == realm[i];
    assert forall i :: 0 <= i < |escaped| ==> c[r + 3 + i] == escaped[i];
    assert forall i :: n + 2 <= i < r ==> c[i] == realm[i - (n + 2)];
    assert forall i :: r + 3 <= i < r + 3 + |escaped| ==> c[i] == escaped[i - (r + 3)];
    assert c[n..n + 2] == " \"" && c[r..r + 3] == "\" \"" && c[|c| - 1] == '"';
  }

  /** The other builder escapes backslashes and quotes only. */
  function EscapeQuotes(v: string): string {
    if v == "" then "" else EscapeQuote(v[0]) + EscapeQuotes(v[1..])
  }

  function EscapeQuote(c: char): string {
    if c == '\\' || c == '"' then ['\\', c] else [c]
  }

  /** It reads back as the value too. */
  lemma {:induction false} UnquoteQuotes(v: string, rest: string)
    ensures Unquote(EscapeQuotes(v) + "\"" + rest) == Some((v, rest))
  {
    if v == "" {
      assert "" + "\"" + rest == "\"" + rest && ("\"" + rest)[1..] == rest;
    } else {
      var tail := EscapeQuotes(v[1..]) + "\"" + rest;
      UnquoteQuotes(v[1..], rest);
      assert EscapeQuotes(v) + "\"" + rest == EscapeQuote(v[0]) + tail;
      UnquoteQuote(v[0], tail);
      assert [v[0]] + v[1..] == v;
    }
  }

  lemma UnquoteQuote(c: char, tail: string)
    ensures Unquote(EscapeQuote(c) + tail) ==
            match Unquote(tail) case None => None case Some(p) => Some(([c] + p.0, p.1))
  {
    var e := EscapeQuote(c);
    assert (e + tail)[|e|..] == tail;
  }

  lemma QuoteBreaks(c: char)
    ensures NoBreak(EscapeQuote(c)) <==> c != '\n'
  {
    var e := EscapeQuote(c);
    assert e[|e| - 1] == c;
  }

  /** But its output is one line exactly when its input is. */
  lemma {:induction false} QuotesKeepBreaks(v: string)
    ensures NoBreak(EscapeQuotes(v)) <==> NoBreak(v)
  {
    if v != "" {
      QuotesKeepBreaks(v[1..]);
      assert NoBreak(v) <==> v[0] != '\n' && NoBreak(v[1..]) by {
        assert forall i :: 1 <= i < |v| ==> v[i] == v[1..][i - 1];
        if NoBreak(v) {
          assert forall i :: 0 <= i < |v[1..]| ==> v[1..][i] == v[i + 1];
        }
      }
      QuoteBreaks(v[0]);
      BreaksOfTwo(EscapeQuote(v[0]), EscapeQuotes(v[1..]));
    }
  }

  lemma BreaksOfTwo(a: string, b: string)
    ensures NoBreak(a + b) <==> NoBreak(a) && NoBreak(b)
  {
    assert forall i :: 0 <= i < |a| ==> (a + b)[i] == a[i];
    assert forall i :: 0 <= i < |b| ==> (a + b)[|a| + i] == b[i];
  }

  /** What one send call does: some bytes taken, an interruption, or an error. */
  datatype SendResult = Took(n: nat) | Interrupted | Failed

  /** How many bytes of `length` a sequence of send calls gets out: a call takes at most what
      is left, and the first error, or a call that takes nothing, ends the attempt. */
  function SentCount(length: nat, results: seq<SendResult>): (n: nat)
    ensures n <= length
    decreases |results|
  {
    if length == 0 || results == [] then 0
    else
      match results[0]
      case Interrupted => SentCount(length, results[1..])
      case Failed => 0
      case Took(k) =>
        if k == 0 then 0
        else if k >= length then length
        else k + SentCount(length - k, results[1..])
  }

  function Takes(results: seq<SendResult>): nat {
    if results == [] then 0
    else (match results[0] case Took(k) => k case _ => 0) + Takes(results[1..])
  }

  predicate Endures(results: seq<SendResult>) {
    forall i :: 0 <= i < |results| ==> results[i] != Failed && results[i] != Took(0)
  }

  /** As long as no call fails, the whole line goes out exactly when the calls together
      take at least its length, however it is cut up. */
  lemma {:induction false} AllSentOnSuccess(length: nat, results: seq<SendResult>)
    requires Endures(results)
    ensures SentCount(length, results) == if Takes(results) < length then Takes(results) else length
    decreases |results|
  {
    if results != [] {
      assert forall i :: 0 <= i < |results[1..]| ==> results[1..][i] == results[i + 1];
      assert results[0] != Failed && results[0] != Took(0);
      match results[0]
      case Took(k) => AllSentOnSuccess(if k >= length then 0 else length - k, results[1..]);
      case Interrupted => AllSentOnSuccess(length, results[1..]);
      case Failed => assert false;
    }
  }

  /** The first failing call, or one that takes nothing, is the last; an interruption is no
      call at all. */
  lemma {:induction false} AfterFailure(length: nat, before: seq<SendResult>, last: SendResult, more: seq<SendResult>)
    ensures last == Failed || last == Took(0) ==>
              SentCount(length, before + [last] + more) == SentCount(length, before)
    ensures last == Interrupted ==> SentCount(length, before + [last] + more) == SentCount(length, before + more)
    decreases |before|
  {
    var all := before + [last] + more;
    if before == [] {
      assert all[1..] == more && before + more == more;
    } else {
      assert all[1..] == before[1..] + [last] + more && (before + more)[1..] == before[1..] + more;
      match before[0]
      case Took(k) => AfterFailure(if k >= length then 0 else length - k, before[1..], last, more);
      case _ => AfterFailure(length, before[1..], last, more);
    }
  }

  /** One call takes what it can of what is left. */
  lemma OneCall(length: nat, k: nat)
    ensures SentCount(length, []) == 0
    ensures SentCount(length, [Took(k)]) == if k <= length then k else length
  {
  }

  lemma {:induction false} CStringForm(v: string, n: nat)
    requires n <= |v| && (n == |v| || v[n] == '\0') && forall i :: 0 <= i < n ==> v[i] != '\0'
    ensures CString(v) == v[..n]
  {
    if n > 0 {
      CStringForm(v[1..], n - 1);
      assert v[..n] == [v[0]] + v[1..][..n - 1];
    }
  }

  /** What is written for each character, and the words around an argument. */
  lemma EscapesForm(c: char, name: string, realm: string, value: string)
    ensures EscapeChar(c) == if c == '\\' then "\\\\" else if c == '"' then "\\\"" else if c == '\n' then "\\n"
                             else if c == '\r' then "\\r" else [c]
    ensures EscapeQuote(c) == if c == '\\' then "\\\\" else if c == '"' then "\\\"" else [c]
    ensures Command(name, realm, value) == name + " \"" + realm + "\" \"" + EscapeArg(value) + "\""
  {
  }
}

/** The incremental reader and the sender. */
module Management {
  import opened ManagementSpec

  /** `parse` turns one line into an event. */
  class Reader<E> {
    const parse: string -> E
    var buffer: string

    constructor (parse: string -> E)
      ensures this.parse == parse && buffer == ""
    {
      this.parse := parse;
      buffer := "";
    }

    /** Appends a chunk and returns an event for every line it completed. */
    method Feed(chunk: string) returns (events: seq<E>)
      modifies this
      ensures events == Events(parse, Lines(old(buffer) + chunk))
      ensures buffer == Rest(old(buffer) + chunk)
    {
      events := [];
      buffer := buffer + chunk;
      ghost var all := buffer;
      var newline := FindBreak(buffer);
      while newline < |buffer|
        invariant newline == LineEnd(buffer, 0)
        invariant Events(parse, Lines(all)) == events + Events(parse, Lines(buffer))
        invariant Rest(all) == Rest(buffer)
        decreases |buffer|
      {
        var line := buffer[..newline];
        ghost var before := buffer;
        buffer := buffer[newline + 1..];
        assert Lines(before)[0] == line && Lines(before)[1..] == Lines(buffer);
        events := events + [parse(line)];
        newline := FindBreak(buffer);
      }
    }

    method FindBreak(s: string) returns (n: nat)
      ensures n == LineEnd(s, 0)
    {
      n := 0;
      while n < |s| && s[n] != '\n'
        invariant 0 <= n <= |s| && LineEnd(s, n) == LineEnd(s, 0)
      {
        n := n + 1;
      }
    }
  }

  function Events<E>(parse: string -> E, lines: seq<string>): (events: seq<E>)
    ensures |events| == |lines|
  {
    if lines == [] then [] else [parse(lines[0])] + Events(parse, lines[1..])
  }

  /** One event for each line, in order. */
  lemma {:induction false} EventsForm<E>(parse: string -> E, lines: seq<string>, i: nat)
    requires i < |lines|
    ensures Events(parse, lines)[i] == parse(lines[i])
  {
    if i > 0 {
      EventsForm(parse, lines[1..], i - 1);
    }
  }

  lemma {:induction false} EventsOfTwo<E>(parse: string -> E, a: seq<string>, b: seq<string>)
    ensures Events(parse, a + b) == Events(parse, a) + Events(parse, b)
  {
    if a == [] {
      assert a + b == b;
    } else {
      EventsOfTwo(parse, a[1..], b);
      assert (a + b)[1..] == a[1..] + b && (a + b)[0] == a[0];
      var first := [parse(a[0])];
      assert first + Events(parse, a[1..]) + Events(parse, b) == first + (Events(parse, a[1..]) + Events(parse, b));
    }
  }

  /** Feeding any chunking gives the same events and leaves the same buffer as feeding the
      concatenation at once. */
  method FeedAll<E>(r: Reader<E>, chunks: seq<string>) returns (events: seq<E>)
    requires r.buffer == ""
    modifies r
    ensures events == Events(r.parse, Lines(ManagementSpec.Concat(chunks)))
    ensures r.buffer == Rest(ManagementSpec.Concat(chunks))
  {
    events := [];
    for i := 0 to |chunks|
      invariant events == Events(r.parse, Lines(ManagementSpec.Concat(chunks[..i])))
      invariant r.buffer == Rest(ManagementSpec.Concat(chunks[..i]))
    {
      ghost var sofar := ManagementSpec.Concat(chunks[..i]);
      assert chunks[..i + 1][..i] == chunks[..i];
      LinesOfTwo(sofar, chunks[i]);
      EventsOfTwo(r.parse, Lines(sofar), Lines(Rest(sofar) + chunks[i]));
      var more := r.Feed(chunks[i]);
      events := events + more;
    }
    assert chunks[..|chunks|] == chunks;
  }

  /** Escapes an argument, character by character up to its NUL. */
  method Escape(value: string) returns (out: string)
    ensures out == EscapeArg(value)
  {
    hide EscapeArg, EscapeChar;
    out := "";
    var i := 0;
    while i < |value| && value[i] != '\0'
      invariant 0 <= i <= |value|
      invariant out + EscapeArg(value[i..]) == EscapeArg(value)
    {
      EscapeNext(value, i);
      ghost var before := out;
      match value[i] {
        case '\\' => out := out + "\\\\";
        case '"' => out := out + "\\\"";
        case '\n' => out := out + "\\n";
        case '\r' => out := out + "\\r";
        case _ => out := out + [value[i]];
      }
      EscapeCharIs(value[i]);
      assert out == before + EscapeChar(value[i]);
      i := i + 1;
    }
    EscapeEnds(value[i..]);
  }

  lemma EscapeNext(value: string, i: nat)
    requires i < |value| && value[i] != '\0'
    ensures EscapeArg(value[i..]) == EscapeChar(value[i]) + EscapeArg(value[i + 1..])
  {
    assert value[i..][1..] == value[i + 1..];
  }

  lemma EscapeCharIs(c: char)
    ensures EscapeChar(c) == (if c == '\\' then "\\\\" else if c == '"' then "\\\"" else if c == '\n' then "\\n"
                              else if c == '\r' then "\\r" else [c])
  {
  }

  lemma EscapeEnds(v: string)
    requires v == "" || v[0] == '\0'
    ensures EscapeArg(v) == ""
  {
  }

  /** The other builder's loop. */
  method EscapeQuoted(value: string) returns (escaped: string)
    ensures escaped == EscapeQuotes(value)
  {
    hide EscapeQuotes;
    escaped := "";
    assert value[0..] == value;
    for i := 0 to |value|
      invariant escaped + EscapeQuotes(value[i..]) == EscapeQuotes(value)
    {
      QuotesNext(value, i);
      ghost var before := escaped;
      if value[i] == '\\' || value[i] == '"' {
        escaped := escaped + ['\\'];
      }
      escaped := escaped + [value[i]];
      assert escaped == before + EscapeQuote(value[i]);
    }
    QuotesEnd();
    assert value[|value|..] == "";
  }

  lemma QuotesNext(value: string, i: nat)
    requires i < |value|
    ensures EscapeQuotes(value[i..]) == EscapeQuote(value[i]) + EscapeQuotes(value[i + 1..])
  {
    assert value[i..][1..] == value[i + 1..];
  }

  lemma QuotesEnd()
    ensures EscapeQuotes("") == ""
  {
  }

  /** Sends a line with its line break, resuming after partial and interrupted sends.
      `results` is what the successive send calls do; when they run out the socket is
      gone. What went out is a prefix of the framed line, and never more. */
  method SendCommand(line: string, results: seq<SendResult>) returns (sent: string)
    ensures var framed := CString(line) + "\n";
            sent == framed[..SentCount(|framed|, results)]
  {
    var framed := CString(line) + "\n";
    var data := 0;
    var call := 0;
    while data < |framed| && call < |results|
      invariant 0 <= data <= |framed| && 0 <= call <= |results|
      invariant data + SentCount(|framed| - data, results[call..]) == SentCount(|framed|, results)
      decreases |results| - call
    {
      var result := results[call];
      assert results[call..][1..] == results[call + 1..];
      call := call + 1;
      if result.Took? && result.n > 0 {
        var wrote := if result.n < |framed| - data then result.n else |framed| - data;
        data := data + wrote;
        continue;
      }
      if result.Interrupted? {
        continue;
      }
      break;
    }
    sent := framed[..data];
  }
}
