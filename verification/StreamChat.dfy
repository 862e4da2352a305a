/**
  The streaming chat reader: text arrives in arbitrary chunks, is split into lines, and each
  `data:` line contributes a piece of content.

  The reader takes the subset of the event-stream format of section 9.2 of the WHATWG HTML
  Living Standard that its backend uses: `data:` lines ended by a line feed, one JSON payload
  a line.  JSON parsing is an oracle that says what a payload amounts to.
*/
module StreamChat {

  /**
    What `JSON.parse` finds in the payload of a line: content (possibly empty), nothing
    usable (malformed, or no delta), or an error object, whose message defaults to
    "Streaming error".
  */
  datatype Payload = Content(delta: string) | Nothing | Error(message: string)

  type Json = string -> Payload

  const STREAMING_ERROR := "Streaming error"

  /** One call of the `onContent` callback. */
  datatype Callback = Callback(fullContent: string, delta: string)

  /** Everything a caller can observe of the reader. */
  datatype Observed = Observed(fullContent: string, calls: seq<Callback>, aborted: bool)

  const START := Observed("", [], false)

  /** The white space and line terminators that the JavaScript trim functions remove. */
  predicate Blank(c: char) {
    || '\U{09}' <= c <= '\U{0D}' || c == ' ' || c == '\U{A0}' || c == '\U{1680}'
    || '\U{2000}' <= c <= '\U{200A}' || c == '\U{2028}' || c == '\U{2029}'
    || c == '\U{202F}' || c == '\U{205F}' || c == '\U{3000}' || c == '\U{FEFF}'
  }

  function TrimStart(s: string): string {
    if s != [] && Blank(s[0]) then TrimStart(s[1..]) else s
  }

  function TrimEnd(s: string): string {
    if s != [] && Blank(s[|s| - 1]) then TrimEnd(s[..|s| - 1]) else s
  }

  /** The payload of a trimmed `data:` line; `[DONE]` and every other line count as `Nothing`. */
  function PayloadOf(trimmed: string, json: Json): Payload {
    if "data:" <= trimmed then
      var data := TrimStart(trimmed[5..]);
      if data == "[DONE]" then Nothing else json(data)
    else Nothing
  }

  function Deliver(o: Observed, delta: string): Observed {
    if delta == "" then o
    else o.(fullContent := o.fullContent + delta, calls := o.calls + [Callback(o.fullContent + delta, delta)])
  }

  /** A complete line.  Only an error with the default message ends the stream: the handler
      mistakes every other embedded error for a parse failure and drops it. */
  function Line(o: Observed, line: string, json: Json): Observed {
    if o.aborted then o
    else match PayloadOf(TrimEnd(line), json)
      case Content(delta) => Deliver(o, delta)
      case Nothing => o
      case Error(m) => if m == STREAMING_ERROR then o.(aborted := true) else o
  }

  function Lines(o: Observed, lines: seq<string>, json: Json): Observed {
    if lines == [] then o
    else Line(Lines(o, lines[..|lines| - 1], json), lines[|lines| - 1], json)
  }

  /** What is left in the buffer at the end: trimmed on both sides, every error dropped. */
  function Trailing(o: Observed, buffer: string, json: Json): Observed {
    if o.aborted then o
    else match PayloadOf(TrimStart(TrimEnd(buffer)), json)
      case Content(delta) => Deliver(o, delta)
      case _ => o
  }

  /** `text.split('\n')`. */
  function Split(text: string): (pieces: seq<string>)
    ensures pieces != []
  {
    if text == [] then [[]] else Push(text[0], Split(text[1..]))
  }

  function Push(c: char, pieces: seq<string>): seq<string>
    requires pieces != []
  {
    if c == '\n' then [[]] + pieces else [[c] + pieces[0]] + pieces[1..]
  }

  function Init(pieces: seq<string>): seq<string>
    requires pieces != []
  {
    pieces[..|pieces| - 1]
  }

  function Last(pieces: seq<string>): string
    requires pieces != []
  {
    pieces[|pieces| - 1]
  }

  /** The reference reader: it sees the whole text at once. */
  function OnePass(text: string, json: Json): Observed {
    Trailing(Lines(START, Init(Split(text)), json), Last(Split(text)), json)
  }

  function Concat(chunks: seq<string>): string {
    if chunks == [] then [] else Concat(chunks[..|chunks| - 1]) + chunks[|chunks| - 1]
  }

  // ---------------------------------------------------------------------------
  // Splitting
  // ---------------------------------------------------------------------------

  function Join(pieces: seq<string>): string {
    if pieces == [] then [] else if |pieces| == 1 then pieces[0] else pieces[0] + "\n" + Join(pieces[1..])
  }

  /** `Split` is the inverse of `Join` on pieces without line feeds. */
  lemma {:induction false} SplitJoins(text: string)
    ensures Join(Split(text)) == text
    ensures forall p :: p in Split(text) ==> '\n' !in p
  {
    if text == [] {
    } else {
      SplitJoins(text[1..]);
      PushJoins(text[0], Split(text[1..]));
      assert text == [text[0]] + text[1..];
    }
  }

  lemma PushJoins(c: char, pieces: seq<string>)
    requires pieces != [] && forall p :: p in pieces ==> '\n' !in p
    ensures Join(Push(c, pieces)) == [c] + Join(pieces)
    ensures forall p :: p in Push(c, pieces) ==> '\n' !in p
  {
    var next := Push(c, pieces);
    if c == '\n' {
      assert next[1..] == pieces;
    } else {
      assert next[1..] == pieces[1..];
      assert pieces[0] in pieces;
    }
  }

  lemma PushAhead(c: char, a: seq<string>, b: seq<string>)
    requires a != []
    ensures Push(c, a + b) == Push(c, a) + b
  {
  }

  lemma PushLonger(c: char, rest: seq<string>, tail: seq<string>)
    requires |rest| > 1
    ensures Push(c, Init(rest) + tail) == Init(Push(c, rest)) + tail
    ensures Last(Push(c, rest)) == Last(rest)
  {
    PushAhead(c, Init(rest), tail);
    PushAhead(c, Init(rest), [Last(rest)]);
    assert rest == Init(rest) + [Last(rest)];
  }

  lemma PushSingle(c: char, piece: string, b: string)
    ensures Push(c, Split(piece + b)) == Init(Push(c, [piece])) + Split(Last(Push(c, [piece])) + b)
  {
    if c == '\n' {
      assert Push(c, [piece]) == [[], piece];
    } else {
      assert Push(c, [piece]) == [[c] + piece];
      assert (([c] + piece) + b)[1..] == piece + b;
    }
  }

  /** Text that arrives later changes only the last piece: the completed lines stand. */
  lemma {:induction false} SplitAppend(a: string, b: string)
    ensures Split(a + b) == Init(Split(a)) + Split(Last(Split(a)) + b)
  {
    if a == [] {
      assert a + b == b && Last(Split(a)) + b == b;
    } else {
      var c, rest := a[0], Split(a[1..]);
      assert Split(a + b) == Push(c, Init(rest) + Split(Last(rest) + b)) by {
        SplitAppend(a[1..], b);
        assert (a + b)[1..] == a[1..] + b;
      }
      if |rest| > 1 {
        PushLonger(c, rest, Split(Last(rest) + b));
      } else {
        assert rest == [rest[0]] && Init(rest) + Split(rest[0] + b) == Split(rest[0] + b);
        PushSingle(c, rest[0], b);
      }
    }
  }

  /** A final line feed completes the last line. */
  lemma {:induction false} SplitFeed(text: string)
    ensures Split(text + "\n") == Split(text) + [[]]
  {
    if text == [] {
      assert text + "\n" == "\n" && "\n"[1..] == [];
    } else {
      assert (text + "\n")[1..] == text[1..] + "\n";
      SplitFeed(text[1..]);
      PushAhead(text[0], Split(text[1..]), [[]]);
    }
  }

  lemma {:induction false} LinesAppend(o: Observed, a: seq<string>, b: seq<string>, json: Json)
    ensures Lines(o, a + b, json) == Lines(Lines(o, a, json), b, json)
  {
    if b == [] {
      assert a + b == a;
    } else {
      assert (a + b)[..|a + b| - 1] == a + b[..|b| - 1];
      LinesAppend(o, a, b[..|b| - 1], json);
    }
  }

  lemma {:induction false} AbortedStays(o: Observed, lines: seq<string>, json: Json)
    requires o.aborted
    ensures Lines(o, lines, json) == o
  {
    if lines == [] {
    } else {
      AbortedStays(o, lines[..|lines| - 1], json);
    }
  }

  lemma {:induction false} ConcatAppend(a: seq<string>, b: seq<string>)
    ensures Concat(a + b) == Concat(a) + Concat(b)
  {
    if b == [] {
      assert a + b == a;
    } else {
      assert (a + b)[..|a + b| - 1] == a + b[..|b| - 1];
      ConcatAppend(a, b[..|b| - 1]);
    }
  }

  /** Once a prefix of the text has aborted the reader, nothing that follows is observed. */
  lemma AbortDecides(prefix: string, more: string, json: Json)
    requires Lines(START, Init(Split(prefix)), json).aborted
    ensures OnePass(prefix + more, json) == Lines(START, Init(Split(prefix)), json)
  {
    SplitAppend(prefix, more);
    var done, rest := Init(Split(prefix)), Split(Last(Split(prefix)) + more);
    assert Init(Split(prefix + more)) == done + Init(rest);
    LinesAppend(START, done, Init(rest), json);
    AbortedStays(Lines(START, done, json), Init(rest), json);
  }

  // ---------------------------------------------------------------------------
  // The reader
  // ---------------------------------------------------------------------------

  /** The inner loop, over the lines that a chunk completes; a throw leaves it early. */
  method ReadLines(before: Observed, lines: seq<string>, json: Json) returns (o: Observed)
    requires !before.aborted
    ensures o == Lines(before, lines, json)
  {
    o := before;
    for k := 0 to |lines|
      invariant o == Lines(before, lines[..k], json)
      invariant !o.aborted
    {
      assert lines[..k + 1][..k] == lines[..k];
      o := Line(o, lines[k], json);
      if o.aborted {
        assert lines == lines[..k + 1] + lines[k + 1..];
        LinesAppend(before, lines[..k + 1], lines[k + 1..], json);
        AbortedStays(o, lines[k + 1..], json);
        return;
      }
    }
    assert lines[..|lines|] == lines;
  }

  /**
    The read loop.  However the text is cut, the caller observes what one pass over the
    whole text yields.
  */
  method Read(chunks: seq<string>, json: Json) returns (o: Observed)
    ensures o == OnePass(Concat(chunks), json)
    ensures var lines := Init(Split(Concat(chunks)));
      o.aborted <==> SomeAborts(lines, json)
    ensures forall payloads :: AllTight(payloads) && Concat(chunks) == TextOf(payloads) ==> o == ToldAll(payloads, json)
  {
    forall payloads | AllTight(payloads) && Concat(chunks) == TextOf(payloads)
      ensures OnePass(Concat(chunks), json) == ToldAll(payloads, json)
    {
      StreamTells(payloads, json);
    }
    o := START;
    var buffer := "";
    for i := 0 to |chunks|
      invariant !o.aborted
      invariant buffer == Last(Split(Concat(chunks[..i])))
      invariant o == Lines(START, Init(Split(Concat(chunks[..i]))), json)
    {
      buffer := buffer + chunks[i];
      var lines := Split(buffer);
      buffer := Last(lines);
      NextChunk(Concat(chunks[..i]), chunks[i], json);
      PrefixGrows(chunks, i);
      o := ReadLines(o, Init(lines), json);
      if o.aborted {
        RestIsUnread(chunks, i + 1, json);
        StreamAbortedIff(chunks, json);
        return;
      }
    }
    assert chunks[..|chunks|] == chunks;
    o := Trailing(o, buffer, json);
    StreamAbortedIff(chunks, json);
  }

  lemma PrefixGrows(chunks: seq<string>, i: nat)
    requires i < |chunks|
    ensures Concat(chunks[..i + 1]) == Concat(chunks[..i]) + chunks[i]
  {
    assert chunks[..i + 1][..i] == chunks[..i];
  }

  lemma RestIsUnread(chunks: seq<string>, n: nat, json: Json)
    requires n <= |chunks|
    requires Lines(START, Init(Split(Concat(chunks[..n]))), json).aborted
    ensures OnePass(Concat(chunks), json) == Lines(START, Init(Split(Concat(chunks[..n]))), json)
  {
    assert chunks == chunks[..n] + chunks[n..];
    ConcatAppend(chunks[..n], chunks[n..]);
    AbortDecides(Concat(chunks[..n]), Concat(chunks[n..]), json);
  }

  lemma NextChunk(text: string, chunk: string, json: Json)
    ensures var lines := Split(Last(Split(text)) + chunk);
      && Last(Split(text + chunk)) == Last(lines)
      && Lines(START, Init(Split(text + chunk)), json) == Lines(Lines(START, Init(Split(text)), json), Init(lines), json)
  {
    var done, lines := Init(Split(text)), Split(Last(Split(text)) + chunk);
    SplitAppend(text, chunk);
    assert Init(Split(text + chunk)) == done + Init(lines);
    LinesAppend(START, done, Init(lines), json);
  }

  // ---------------------------------------------------------------------------
  // What the caller observes
  // ---------------------------------------------------------------------------

  function Deltas(calls: seq<Callback>): seq<string> {
    seq(|calls|, i requires 0 <= i < |calls| => calls[i].delta)
  }

  /** Every callback reports exactly the deltas delivered so far, in order, none of them empty. */
  ghost predicate Accumulates(o: Observed) {
    && o.fullContent == Concat(Deltas(o.calls))
    && forall i :: 0 <= i < |o.calls| ==>
        o.calls[i].delta != "" && o.calls[i].fullContent == Concat(Deltas(o.calls[..i + 1]))
  }

  lemma DeliverAccumulates(o: Observed, delta: string)
    requires Accumulates(o)
    ensures Accumulates(Deliver(o, delta))
  {
    if delta != "" {
      var p := Deliver(o, delta);
      var n := |o.calls|;
      assert Deltas(p.calls)[..n] == Deltas(o.calls);
      forall i | 0 <= i < |p.calls| ensures p.calls[i].fullContent == Concat(Deltas(p.calls[..i + 1])) {
        if i < n {
          assert p.calls[..i + 1] == o.calls[..i + 1];
        } else {
          assert p.calls[..i + 1] == p.calls;
        }
      }
    }
  }

  lemma {:induction false} LinesAccumulate(lines: seq<string>, json: Json)
    ensures Accumulates(Lines(START, lines, json))
  {
    if lines == [] {
    } else {
      var before := Lines(START, lines[..|lines| - 1], json);
      LinesAccumulate(lines[..|lines| - 1], json);
      match PayloadOf(TrimEnd(lines[|lines| - 1]), json)
      case Content(delta) => DeliverAccumulates(before, delta);
      case _ =>
    }
  }

  lemma FullContentIsConcatenation(text: string, json: Json)
    ensures Accumulates(OnePass(text, json))
  {
    LinesAccumulate(Init(Split(text)), json);
    match PayloadOf(TrimStart(TrimEnd(Last(Split(text)))), json)
    case Content(delta) => DeliverAccumulates(Lines(START, Init(Split(text)), json), delta);
    case _ =>
  }

  // ---------------------------------------------------------------------------
  // The final line feed
  // ---------------------------------------------------------------------------

  /**
    The two kinds of unterminated last line that the trailing code treats differently from
    the loop: content behind leading white space (only the trailing code accepts it), and an
    unindented error with the default message (only the loop lets it abort the stream).
  */
  predicate FeedSensitive(last: string, json: Json) {
    var indented := last != "" && Blank(last[0]);
    var payload := PayloadOf(TrimStart(TrimEnd(last)), json);
    if indented then payload.Content? && payload.delta != ""
    else payload == Error(STREAMING_ERROR)
  }

  lemma {:induction false} TrimEndKeepsStart(s: string)
    ensures TrimEnd(s) <= s
    ensures TrimEnd(s) != "" ==> Blank(TrimEnd(s)[0]) == Blank(s[0])
    ensures TrimEnd(s) == "" ==> s == "" || Blank(s[0])
  {
    if s == "" || !Blank(s[|s| - 1]) {
    } else {
      TrimEndKeepsStart(s[..|s| - 1]);
    }
  }

  /** A missing final line feed changes what the caller observes exactly when the reader is
      still running and the last line is of one of those two kinds. */
  lemma FinalLineFeed(text: string, json: Json)
    ensures OnePass(text + "\n", json) == OnePass(text, json)
      <==> Lines(START, Init(Split(text)), json).aborted || !FeedSensitive(Last(Split(text)), json)
  {
    var pieces := Split(text);
    var o := Lines(START, Init(pieces), json);
    SplitFeed(text);
    assert Init(pieces + [[]]) == pieces && Last(pieces + [[]]) == "";
    assert TrimStart(TrimEnd("")) == "";
    assert OnePass(text + "\n", json) == Line(o, Last(pieces), json);
    if !o.aborted { LastLine(o, Last(pieces), json); }
  }

  lemma LastLine(o: Observed, last: string, json: Json)
    requires !o.aborted
    ensures Line(o, last, json) == Trailing(o, last, json) <==> !FeedSensitive(last, json)
  {
    var trimmed := TrimEnd(last);
    TrimEndKeepsStart(last);
    if last != "" && Blank(last[0]) {
      assert !Blank('d');
      assert !("data:" <= trimmed);
    } else {
      assert TrimStart(trimmed) == trimmed;
    }
  }

  // ---------------------------------------------------------------------------
  // The line format
  // ---------------------------------------------------------------------------

  /** The space after the colon and a carriage return before the line feed are optional, the
      payload reaches the JSON parser untouched, and `[DONE]` does not end the stream. */
  lemma DataLine(o: Observed, payload: string, json: Json)
    requires payload != "" && !Blank(payload[0]) && !Blank(payload[|payload| - 1])
    requires !o.aborted
    ensures Line(o, "data:" + payload, json) == Line(o, "data: " + payload, json) == Line(o, "data: " + payload + "\r", json)
    ensures payload == "[DONE]" ==> Line(o, "data: " + payload, json) == o
    ensures payload != "[DONE]" && json(payload).Content? ==>
      Line(o, "data: " + payload, json).fullContent == o.fullContent + json(payload).delta
  {
    DataLineTrims(payload);
    var spaced := "data: " + payload;
    assert PayloadOf("data:" + payload, json) == PayloadOf(spaced, json) by {
      assert ("data:" + payload)[5..] == payload && spaced[5..] == " " + payload;
    }
  }

  lemma DataLineTrims(payload: string)
    requires payload != "" && !Blank(payload[0]) && !Blank(payload[|payload| - 1])
    ensures TrimEnd("data:" + payload) == "data:" + payload
    ensures TrimEnd("data: " + payload) == TrimEnd("data: " + payload + "\r") == "data: " + payload
    ensures TrimStart(payload) == TrimStart(" " + payload) == payload
  {
    EndsLikePayload("data:", payload);
    EndsLikePayload("data: ", payload);
    TrimEndDrops("data: " + payload, '\r');
    TrimStartDrops(' ', payload);
  }

  lemma EndsLikePayload(prefix: string, payload: string)
    requires payload != "" && !Blank(payload[|payload| - 1])
    ensures TrimEnd(prefix + payload) == prefix + payload
  {
    TrimEndStops(prefix + payload);
  }

  lemma TrimStartDrops(c: char, s: string)
    requires Blank(c)
    ensures TrimStart([c] + s) == TrimStart(s)
  {
    assert ([c] + s)[1..] == s;
  }

  lemma TrimEndStops(s: string)
    requires s != "" && !Blank(s[|s| - 1])
    ensures TrimEnd(s) == s
  {
  }

  lemma TrimEndDrops(s: string, c: char)
    requires Blank(c)
    ensures TrimEnd(s + [c]) == TrimEnd(s)
  {
    assert (s + [c])[..|s|] == s;
  }

  /** The code points of the productions WhiteSpace and LineTerminator of ECMA-262. */
  const WHITE: set<char> := {
    '\U{09}', '\U{0A}', '\U{0B}', '\U{0C}', '\U{0D}', ' ', '\U{A0}', '\U{1680}',
    '\U{2000}', '\U{2001}', '\U{2002}', '\U{2003}', '\U{2004}', '\U{2005}', '\U{2006}', '\U{2007}', '\U{2008}', '\U{2009}', '\U{200A}',
    '\U{2028}', '\U{2029}', '\U{202F}', '\U{205F}', '\U{3000}', '\U{FEFF}'
  }

  lemma BlankIsWhite(c: char)
    ensures Blank(c) <==> c in WHITE
  {
  }

  /** No visible ASCII character is white, so none is ever trimmed. */
  lemma VisibleIsKept(c: char)
    requires '!' <= c <= '~'
    ensures c !in WHITE
  {
  }

  /** Trimming an end removes white space and nothing else, and all of it. */
  lemma {:induction false} TrimEndRemovesWhite(s: string)
    ensures var r := TrimEnd(s);
      r <= s && (forall i :: |r| <= i < |s| ==> s[i] in WHITE) && (r != "" ==> r[|r| - 1] !in WHITE)
  {
    if s == "" {
    } else {
      BlankIsWhite(s[|s| - 1]);
      if s[|s| - 1] in WHITE { TrimEndRemovesWhite(s[..|s| - 1]); }
    }
  }

  lemma {:induction false} TrimStartRemovesWhite(s: string)
    ensures var r, n := TrimStart(s), |s| - |TrimStart(s)|;
      n >= 0 && s[n..] == r && (forall i :: 0 <= i < n ==> s[i] in WHITE) && (r != "" ==> r[0] !in WHITE)
  {
    if s == "" {
    } else {
      BlankIsWhite(s[0]);
      if s[0] in WHITE {
        TrimStartRemovesWhite(s[1..]);
        var n := |s[1..]| - |TrimStart(s[1..])|;
        assert forall i :: 0 < i < n + 1 ==> s[i] == s[1..][i - 1];
      }
    }
  }

  /** The reference: what a reader has been told, without lines and white space. */
  function Told(o: Observed, p: Payload): Observed {
    if o.aborted then o
    else match p
      case Content(delta) =>
        if delta == "" then o
        else Observed(o.fullContent + delta, o.calls + [Callback(o.fullContent + delta, delta)], false)
      case Nothing => o
      case Error(message) => Observed(o.fullContent, o.calls, message == "Streaming error")
  }

  function ToldAll(payloads: seq<string>, json: Json): Observed {
    if payloads == [] then Observed("", [], false)
    else
      var n := |payloads| - 1;
      var before := ToldAll(payloads[..n], json);
      if payloads[n] == "[DONE]" then before else Told(before, json(payloads[n]))
  }

  /** A payload on one line, with no white space at its ends. */
  predicate Tight(payload: string) {
    payload != "" && payload[0] !in WHITE && payload[|payload| - 1] !in WHITE && '\n' !in payload
  }

  /** A line of either form, with or without a carriage return, tells what its payload says. */
  lemma DataLineTells(o: Observed, payload: string, json: Json)
    requires Tight(payload)
    ensures var told := if payload == "[DONE]" then o else Told(o, json(payload));
      told == Line(o, "data:" + payload, json) == Line(o, "data: " + payload, json) == Line(o, "data: " + payload + "\r", json)
  {
    BlankIsWhite(payload[0]);
    BlankIsWhite(payload[|payload| - 1]);
    DataLineTrims(payload);
    assert ("data:" + payload)[5..] == payload && ("data: " + payload)[5..] == " " + payload;
  }

  /** A data line without a payload leaves it to JSON what nothing says. */
  lemma EmptyLineTells(o: Observed, json: Json)
    ensures Line(o, "data:", json) == Told(o, json(""))
  {
    assert TrimEnd("data:") == "data:" && "data:"[5..] == "";
  }

  /** Any other line tells nothing. */
  lemma OtherLineIsIgnored(o: Observed, line: string, json: Json)
    requires !("data:" <= line)
    ensures Line(o, line, json) == o
  {
    TrimEndKeepsStart(line);
  }

  /** An unterminated last line tells its content; an error in it is dropped. */
  lemma TrailingTells(o: Observed, payload: string, json: Json)
    requires Tight(payload)
    ensures Trailing(o, "data: " + payload, json) ==
      if payload != "[DONE]" && json(payload).Content? then Told(o, json(payload)) else o
  {
    BlankIsWhite(payload[0]);
    BlankIsWhite(payload[|payload| - 1]);
    DataLineTrims(payload);
    assert ("data: " + payload)[5..] == " " + payload;
    assert TrimStart("data: " + payload) == "data: " + payload;
  }

  /** A stream of such lines. */
  function TextOf(payloads: seq<string>): string {
    if payloads == [] then ""
    else
      var n := |payloads| - 1;
      TextOf(payloads[..n]) + ("data: " + payloads[n]) + "\n"
  }

  function DataLines(payloads: seq<string>): seq<string> {
    seq(|payloads|, i requires 0 <= i < |payloads| => "data: " + payloads[i])
  }

  ghost predicate AllTight(payloads: seq<string>) {
    forall p :: p in payloads ==> Tight(p)
  }

  lemma {:induction false} TextSplits(payloads: seq<string>)
    requires AllTight(payloads)
    ensures Split(TextOf(payloads)) == DataLines(payloads) + [""]
  {
    if payloads == [] {
      assert DataLines([]) == [];
    } else {
      var n := |payloads| - 1;
      var before, line := TextOf(payloads[..n]), "data: " + payloads[n];
      assert payloads[n] in payloads && forall p :: p in payloads[..n] ==> p in payloads;
      TextSplits(payloads[..n]);
      SplitAppend(before, line);
      SplitUnbroken(line);
      SplitFeed(before + line);
      assert Init(DataLines(payloads[..n]) + [""]) == DataLines(payloads[..n]) && "" + line == line;
      assert DataLines(payloads) == DataLines(payloads[..n]) + [line];
    }
  }

  lemma {:induction false} DataLinesTell(payloads: seq<string>, json: Json)
    requires AllTight(payloads)
    ensures Lines(START, DataLines(payloads), json) == ToldAll(payloads, json)
  {
    if payloads == [] {
    } else {
      var n := |payloads| - 1;
      assert payloads[n] in payloads && forall p :: p in payloads[..n] ==> p in payloads;
      DataLinesTell(payloads[..n], json);
      assert DataLines(payloads) == DataLines(payloads[..n]) + ["data: " + payloads[n]];
      OneMoreLine(START, DataLines(payloads[..n]), "data: " + payloads[n], json);
      DataLineTells(ToldAll(payloads[..n], json), payloads[n], json);
    }
  }

  /** A stream of such lines tells its payloads, one after the other. */
  lemma StreamTells(payloads: seq<string>, json: Json)
    requires AllTight(payloads)
    ensures OnePass(TextOf(payloads), json) == ToldAll(payloads, json)
  {
    TextSplits(payloads);
    DataLinesTell(payloads, json);
    var pieces := DataLines(payloads) + [""];
    assert Init(pieces) == DataLines(payloads) && Last(pieces) == "";
    NothingTrails(ToldAll(payloads, json), json);
  }

  // ---------------------------------------------------------------------------
  // Embedded errors
  // ---------------------------------------------------------------------------

  /** A line that carries an error object. */
  predicate CarriesError(line: string, json: Json) { PayloadOf(TrimEnd(line), json).Error? }

  predicate Aborts(line: string, json: Json) { PayloadOf(TrimEnd(line), json) == Error(STREAMING_ERROR) }

  ghost predicate SomeAborts(lines: seq<string>, json: Json) {
    exists i :: 0 <= i < |lines| && Aborts(lines[i], json)
  }

  lemma SomeAbortsSnoc(lines: seq<string>, json: Json)
    requires lines != []
    ensures SomeAborts(lines, json) <==> SomeAborts(lines[..|lines| - 1], json) || Aborts(lines[|lines| - 1], json)
  {
    var n := |lines| - 1;
    if i :| 0 <= i < n && Aborts(lines[..n][i], json) { assert Aborts(lines[i], json); }
    if i :| 0 <= i < |lines| && Aborts(lines[i], json) {
      if i < n { assert Aborts(lines[..n][i], json); }
    }
  }

  /** The stream ends early exactly when some line carries an error with the default message. */
  lemma {:induction false} AbortedIff(lines: seq<string>, json: Json)
    ensures Lines(START, lines, json).aborted <==> SomeAborts(lines, json)
  {
    if lines == [] {
    } else {
      AbortedIff(lines[..|lines| - 1], json);
      SomeAbortsSnoc(lines, json);
    }
  }

  /** For every chunking of a text, since the reader observes what one pass does: only its complete
      lines count, and of their errors only those with the default message. */
  lemma StreamAbortedIff(chunks: seq<string>, json: Json)
    ensures var lines := Init(Split(Concat(chunks)));
      OnePass(Concat(chunks), json).aborted <==> SomeAborts(lines, json)
  {
    AbortedIff(Init(Split(Concat(chunks))), json);
    TrailingNeverAborts(Lines(START, Init(Split(Concat(chunks))), json), Last(Split(Concat(chunks))), json);
  }

  lemma TrailingNeverAborts(o: Observed, buffer: string, json: Json)
    ensures Trailing(o, buffer, json).aborted == o.aborted
  {
  }

  /** If there are errors, the first of them has the default message. */
  ghost predicate FirstErrorAborts(lines: seq<string>, json: Json) {
    forall i :: IsFirstError(lines, i, json) ==> Aborts(lines[i], json)
  }

  ghost predicate IsFirstError(lines: seq<string>, i: int, json: Json) {
    0 <= i < |lines| && CarriesError(lines[i], json) && forall j :: 0 <= j < i ==> !CarriesError(lines[j], json)
  }

  /** By its own line, every embedded error has ended the stream. */
  ghost predicate ErrorsEndStream(lines: seq<string>, json: Json) {
    forall i :: 0 <= i < |lines| && CarriesError(lines[i], json) ==> Lines(START, lines[..i + 1], json).aborted
  }

  lemma {:induction false} FirstErrorExists(lines: seq<string>, n: nat, json: Json) returns (i: nat)
    requires n < |lines| && CarriesError(lines[n], json)
    ensures i <= n && IsFirstError(lines, i, json)
    decreases n
  {
    if j :| 0 <= j < n && CarriesError(lines[j], json) {
      i := FirstErrorExists(lines, j, json);
    } else {
      i := n;
    }
  }

  lemma PrefixAborts(lines: seq<string>, n: nat, json: Json)
    requires n <= |lines|
    ensures Lines(START, lines[..n], json).aborted <==> exists i :: 0 <= i < n && Aborts(lines[i], json)
  {
    AbortedIff(lines[..n], json);
    if i :| 0 <= i < n && Aborts(lines[i], json) { assert Aborts(lines[..n][i], json); }
    if i :| 0 <= i < n && Aborts(lines[..n][i], json) { assert Aborts(lines[i], json); }
  }

  /** Embedded errors end the stream, as they are meant to, exactly when there are none or the first
      of them has the default message. */
  lemma ErrorsAreHandledIff(lines: seq<string>, json: Json)
    ensures ErrorsEndStream(lines, json) <==> FirstErrorAborts(lines, json)
  {
    if ErrorsEndStream(lines, json) {
      forall i | IsFirstError(lines, i, json) ensures Aborts(lines[i], json) {
        PrefixAborts(lines, i + 1, json);
        var j :| 0 <= j < i + 1 && Aborts(lines[j], json);
        assert CarriesError(lines[j], json);
      }
    }
    if FirstErrorAborts(lines, json) {
      forall n | 0 <= n < |lines| && CarriesError(lines[n], json) ensures Lines(START, lines[..n + 1], json).aborted {
        var i := FirstErrorExists(lines, n, json);
        PrefixAborts(lines, n + 1, json);
      }
    }
  }

  /** Any other error is dropped like a malformed line, and what follows is delivered as if it had
      not been there. */
  lemma OtherErrorIsDropped(before: seq<string>, line: string, after: seq<string>, json: Json)
    requires CarriesError(line, json) && !Aborts(line, json)
    ensures Lines(START, before + [line] + after, json) == Lines(START, before + after, json)
  {
    var o := Lines(START, before, json);
    LinesAppend(START, before, [line], json);
    assert Init([line]) == [];
    LinesAppend(START, before + [line], after, json);
    LinesAppend(START, before, after, json);
  }

  /** However the text was cut: if the first embedded error has the default message, what is observed
      is what the lines up to it give; otherwise that error leaves no trace. */
  lemma StreamStopsAtFirstError(chunks: seq<string>, n: nat, json: Json)
    requires IsFirstError(Init(Split(Concat(chunks))), n, json)
    ensures var lines := Init(Split(Concat(chunks)));
      && (Aborts(lines[n], json) ==> OnePass(Concat(chunks), json) == Lines(START, lines[..n + 1], json))
      && (!Aborts(lines[n], json) ==> Lines(START, lines, json) == Lines(START, lines[..n] + lines[n + 1..], json))
  {
    var lines := Init(Split(Concat(chunks)));
    assert lines == lines[..n + 1] + lines[n + 1..] && lines == lines[..n] + [lines[n]] + lines[n + 1..];
    if Aborts(lines[n], json) {
      PrefixAborts(lines, n + 1, json);
      LinesAppend(START, lines[..n + 1], lines[n + 1..], json);
      AbortedStays(Lines(START, lines[..n + 1], json), lines[n + 1..], json);
    } else {
      OtherErrorIsDropped(lines[..n], lines[n], lines[n + 1..], json);
    }
  }

  /** A text in which it happens: the server reports an exhausted quota, and the reader goes on. */
  lemma QuotaErrorIsDropped(json: Json)
    requires json("Q") == Error("quota exceeded") && json("C") == Content("more")
    ensures OnePass("data:Q\ndata:C\n", json) == Observed("more", [Callback("more", "more")], false)
  {
    var q, c := "data:" + "Q", "data:" + "C";
    TightLine("Q", json);
    TightLine("C", json);
    SplitTwoLines(q, c);
    assert "data:Q\ndata:C\n" == (q + "\n") + (c + "\n");
    QuotaLine(START, q, json);
    MoreIsDelivered(c, json);
    TwoLines("data:Q\ndata:C\n", q, c, Observed("more", [Callback("more", "more")], false), json);
  }

  /** A line with that error leaves a running reader as it is, and one with content delivers it. */
  lemma QuotaLine(o: Observed, q: string, json: Json)
    requires !o.aborted && PayloadOf(TrimEnd(q), json) == Error("quota exceeded")
    ensures Line(o, q, json) == o
  {
    assert "quota exceeded"[0] != STREAMING_ERROR[0];
  }

  lemma OneMoreLine(o: Observed, lines: seq<string>, line: string, json: Json)
    ensures Lines(o, lines + [line], json) == Line(Lines(o, lines, json), line, json)
  {
    assert (lines + [line])[..|lines|] == lines;
  }

  lemma MoreIsDelivered(c: string, json: Json)
    requires PayloadOf(TrimEnd(c), json) == Content("more")
    ensures Line(START, c, json) == Observed("more", [Callback("more", "more")], false)
  {
    assert "" + "more" == "more" && [] + [Callback("more", "more")] == [Callback("more", "more")];
  }

  lemma TwoPieces(pieces: seq<string>, q: string, c: string)
    requires pieces == [q, c, ""]
    ensures Init(pieces) == ([] + [q]) + [c] && Last(pieces) == ""
  {
  }

  lemma TwoLines(text: string, q: string, c: string, o: Observed, json: Json)
    requires Split(text) == [q, c, ""] && Line(START, q, json) == START && Line(START, c, json) == o
    ensures OnePass(text, json) == o
  {
    OneMoreLine(START, [], q, json);
    OneMoreLine(START, [] + [q], c, json);
    TwoPieces(Split(text), q, c);
    NothingTrails(o, json);
  }

  lemma NothingTrails(o: Observed, json: Json)
    ensures Trailing(o, "", json) == o
  {
    assert TrimStart(TrimEnd("")) == "";
  }

  lemma TightLine(payload: string, json: Json)
    requires payload != "" && !Blank(payload[0]) && !Blank(payload[|payload| - 1]) && payload != "[DONE]"
    ensures PayloadOf(TrimEnd("data:" + payload), json) == json(payload)
  {
    DataLineTrims(payload);
    assert ("data:" + payload)[5..] == payload;
  }

  lemma SplitTwoLines(a: string, b: string)
    requires '\n' !in a && '\n' !in b
    ensures Split((a + "\n") + (b + "\n")) == [a, b, ""]
  {
    SplitUnbroken(a);
    SplitUnbroken(b);
    SplitFeed(a);
    SplitFeed(b);
    SplitAppend(a + "\n", b + "\n");
    assert "" + (b + "\n") == b + "\n";
    assert Init([a, ""]) == [a];
  }

  lemma {:induction false} SplitUnbroken(piece: string)
    requires '\n' !in piece
    ensures Split(piece) == [piece]
  {
    if piece == [] {
    } else {
      SplitUnbroken(piece[1..]);
      assert piece == [piece[0]] + piece[1..];
    }
  }
}
