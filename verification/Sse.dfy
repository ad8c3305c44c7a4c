/** The server-sent-event printer of the task event stream and the reader of remote streams (WHATWG HTML, section 9.2.6). */
module Sse {
  import opened Common
  import opened Decimal
  import opened Strings

  /** What the printer sends as JSON. */
  datatype Envelope = Envelope(eventType: string, sequence: nat, data: string)

  /** A JSON text as the reader sees it: an object with a "type" member, another object, or another value. */
  datatype Json = Typed(envelope: Envelope) | Untyped(json: string) | Scalar(json: string)

  datatype Codec = Codec(dumps: Envelope -> string, loads: string -> Option<Json>)

  /** What the reader yields. */
  datatype Payload = Whole(envelope: Envelope) | Wrapped(eventType: string, body: string)

  predicate IsSpace(c: char) { c == ' ' || c == '\t' || c == '\n' || c == '\r' }

  /** The characters at which the HTTP client ends a line; ASCII text is never one. */
  ghost predicate GoodBreaks(isBreak: char -> bool) {
    isBreak('\n') && forall c :: ' ' <= c <= '~' ==> !isBreak(c)
  }

  // ---------------------------------------------------------------- printing

  function IdLine(e: Envelope): string { "id: " + Show(e.sequence) }

  function EventLine(e: Envelope): string { "event: " + e.eventType }

  function DataLine(codec: Codec, e: Envelope): string { "data: " + codec.dumps(e) }

  function Print(codec: Codec, e: Envelope): string {
    IdLine(e) + "\n" + EventLine(e) + "\n" + DataLine(codec, e) + "\n" + "\n"
  }

  function PrintAll(codec: Codec, events: seq<Envelope>): string {
    if events == [] then "" else Print(codec, events[0]) + PrintAll(codec, events[1..])
  }

  // ---------------------------------------------------------------- reading

  function JoinLines(lines: seq<string>): string {
    if lines == [] then "" else if |lines| == 1 then lines[0] else lines[0] + "\n" + JoinLines(lines[1..])
  }

  function NameOr(name: string): string { if name != "" then name else "message" }

  /** `_parse_sse_payload`. */
  function PayloadOf(codec: Codec, name: string, data: seq<string>): Payload {
    var raw := JoinLines(data);
    match codec.loads(raw)
    case None => Wrapped(NameOr(name), raw)
    case Some(Typed(e)) => Whole(e)
    case Some(Untyped(j)) => Wrapped(NameOr(name), j)
    case Some(Scalar(j)) => Wrapped(NameOr(name), j)
  }

  /** The reader between two lines. */
  datatype Reader = Reader(name: string, data: seq<string>, out: seq<Payload>)

  const FRESH := Reader("", [], [])

  function Feed(codec: Codec, r: Reader, line: string): Reader {
    if line == "" then
      Reader("", [], if r.data != [] then r.out + [PayloadOf(codec, r.name, r.data)] else r.out)
    else if ":" <= line then r
    else if "event:" <= line then r.(name := Strip(IsSpace, line[6..]))
    else if "data:" <= line then r.(data := r.data + [DropFront(IsSpace, line[5..])])
    else r
  }

  function FeedAll(codec: Codec, r: Reader, lines: seq<string>): Reader
    decreases |lines|
  {
    if lines == [] then r else FeedAll(codec, Feed(codec, r, lines[0]), lines[1..])
  }

  function Finish(codec: Codec, r: Reader): seq<Payload> {
    if r.data != [] then r.out + [PayloadOf(codec, r.name, r.data)] else r.out
  }

  /** `_iter_sse_events`. */
  function ReadLines(codec: Codec, lines: seq<string>): seq<Payload> { Finish(codec, FeedAll(codec, FRESH, lines)) }

  method IterSseEvents(codec: Codec, lines: seq<string>) returns (out: seq<Payload>)
    ensures out == ReadLines(codec, lines)
  {
    var name, data := "", [];
    out := [];
    for n := 0 to |lines|
      invariant FeedAll(codec, Reader(name, data, out), lines[n..]) == FeedAll(codec, FRESH, lines)
    {
      var line := lines[n];
      assert lines[n..][0] == line && lines[n..][1..] == lines[n + 1..];
      if line == "" {
        if data != [] {
          out := out + [PayloadOf(codec, name, data)];
        }
        name, data := "", [];
      } else if ":" <= line {
      } else if "event:" <= line {
        name := Strip(IsSpace, line[6..]);
      } else if "data:" <= line {
        data := data + [DropFront(IsSpace, line[5..])];
      }
    }
    if data != [] {
      out := out + [PayloadOf(codec, name, data)];
    }
  }

  lemma PrintNext(codec: Codec, events: seq<Envelope>, n: nat)
    requires n < |events|
    ensures PrintAll(codec, events[n..]) == Print(codec, events[n]) + PrintAll(codec, events[n + 1..])
  {
    assert events[n..][0] == events[n] && events[n..][1..] == events[n + 1..];
  }

  /** `generate`: the chunks in order. */
  method Generate(codec: Codec, events: seq<Envelope>) returns (text: string)
    ensures text == PrintAll(codec, events)
  {
    text := "";
    for n := 0 to |events|
      invariant PrintAll(codec, events) == text + PrintAll(codec, events[n..])
    {
      PrintNext(codec, events, n);
      text := text + Print(codec, events[n]);
    }
  }

  // ---------------------------------------------------------------- round trip

  lemma {:induction false} LineEndAt(isBreak: char -> bool, line: string, b: char, rest: string)
    requires OneLine(isBreak, line) && isBreak(b)
    ensures LineEnd(isBreak, line + [b] + rest) == |line|
  {
    var s := line + [b] + rest;
    if line != [] {
      assert s[1..] == line[1..] + [b] + rest;
      LineEndAt(isBreak, line[1..], b, rest);
    }
  }

  lemma FirstLine(isBreak: char -> bool, line: string, b: char, rest: string)
    requires OneLine(isBreak, line) && isBreak(b)
    ensures Lines(isBreak, line + [b] + rest) == [line] + Lines(isBreak, rest)
  {
    var s := line + [b] + rest;
    LineEndAt(isBreak, line, b, rest);
    assert s[..|line|] == line && s[|line| + 1..] == rest;
  }

  lemma TwoLines(isBreak: char -> bool, a: string, x: char, b: string, y: char, rest: string, s: string, l: seq<string>)
    requires isBreak(x) && isBreak(y) && OneLine(isBreak, a) && OneLine(isBreak, b)
    requires s == a + [x] + (b + [y] + rest) && Lines(isBreak, rest) == l
    ensures Lines(isBreak, s) == [a, b] + l
  {
    FirstLine(isBreak, b, y, rest);
    FirstLine(isBreak, a, x, b + [y] + rest);
  }

  lemma FrontLines(isBreak: char -> bool, a: string, b: string, rest: string, l: seq<string>)
    requires isBreak('\n') && OneLine(isBreak, a) && OneLine(isBreak, b) && Lines(isBreak, rest) == l
    ensures Lines(isBreak, a + ['\n'] + (b + ['\n'] + rest)) == [a, b] + l
  {
    TwoLines(isBreak, a, '\n', b, '\n', rest, a + ['\n'] + (b + ['\n'] + rest), l);
  }

  lemma FourLines(isBreak: char -> bool, a: string, b: string, c: string, d: string, rest: string, l: seq<string>)
    requires isBreak('\n') && Lines(isBreak, rest) == l
    requires OneLine(isBreak, a) && OneLine(isBreak, b) && OneLine(isBreak, c) && OneLine(isBreak, d)
    ensures Lines(isBreak, a + ['\n'] + (b + ['\n'] + (c + ['\n'] + (d + ['\n'] + rest)))) == [a, b] + ([c, d] + l)
  {
    FrontLines(isBreak, c, d, rest, l);
    FrontLines(isBreak, a, b, c + ['\n'] + (d + ['\n'] + rest), [c, d] + l);
  }

  lemma HeaderLines(isBreak: char -> bool, e: Envelope)
    requires GoodBreaks(isBreak) && OneLine(isBreak, e.eventType)
    ensures OneLine(isBreak, IdLine(e)) && OneLine(isBreak, EventLine(e))
  {
    var id, digits := IdLine(e), Show(e.sequence);
    forall i | 0 <= i < |id| ensures !isBreak(id[i]) {
      if i >= 4 { assert id[i] == digits[i - 4] && IsDigit(digits[i - 4]); }
    }
    var line := EventLine(e);
    forall i | 0 <= i < |line| ensures !isBreak(line[i]) {
      if i >= 7 { assert line[i] == e.eventType[i - 7]; }
    }
  }

  lemma DataLineIsOne(isBreak: char -> bool, text: string)
    requires GoodBreaks(isBreak) && OneLine(isBreak, text)
    ensures OneLine(isBreak, "data: " + text)
  {
    var line := "data: " + text;
    forall i | 0 <= i < |line| ensures !isBreak(line[i]) {
      if i >= 6 { assert line[i] == text[i - 6]; }
    }
  }

  /** An event that prints on three lines; the JSON text starts with a visible character. */
  ghost predicate Printable(isBreak: char -> bool, codec: Codec, e: Envelope) {
    && OneLine(isBreak, e.eventType)
    && OneLine(isBreak, codec.dumps(e))
    && codec.dumps(e) != "" && !IsSpace(codec.dumps(e)[0])
    && codec.loads(codec.dumps(e)) == Some(Typed(e))
  }

  lemma Nested(a: string, b: string, c: string, rest: string)
    ensures a + "\n" + b + "\n" + c + "\n" + "\n" + rest == a + ['\n'] + (b + ['\n'] + (c + ['\n'] + ("" + ['\n'] + rest)))
  {}

  lemma PrintShape(codec: Codec, e: Envelope, rest: string)
    ensures Print(codec, e) + rest
         == IdLine(e) + ['\n'] + (EventLine(e) + ['\n'] + (DataLine(codec, e) + ['\n'] + ("" + ['\n'] + rest)))
  {
    Nested(IdLine(e), EventLine(e), DataLine(codec, e), rest);
  }

  lemma PrintedLines(isBreak: char -> bool, codec: Codec, e: Envelope, rest: string)
    requires GoodBreaks(isBreak) && Printable(isBreak, codec, e)
    ensures Lines(isBreak, Print(codec, e) + rest) == [IdLine(e), EventLine(e)] + ([DataLine(codec, e)] + ([""] + Lines(isBreak, rest)))
  {
    var a, b, c := IdLine(e), EventLine(e), DataLine(codec, e);
    HeaderLines(isBreak, e);
    DataLineIsOne(isBreak, codec.dumps(e));
    PrintShape(codec, e, rest);
    FourLines(isBreak, a, b, c, "", rest, Lines(isBreak, rest));
    Regroup(c, "", Lines(isBreak, rest));
  }

  lemma Regroup(c: string, d: string, l: seq<string>)
    ensures [c, d] + l == [c] + ([d] + l)
  {}

  lemma FeedId(codec: Codec, r: Reader, e: Envelope)
    ensures Feed(codec, r, IdLine(e)) == r
  {
    assert IdLine(e)[0] == 'i';
  }

  lemma FeedName(codec: Codec, r: Reader, e: Envelope)
    ensures Feed(codec, r, EventLine(e)) == r.(name := Strip(IsSpace, EventLine(e)[6..]))
  {
    assert EventLine(e)[0] == 'e' && "event:" <= EventLine(e);
  }

  lemma FeedData(codec: Codec, r: Reader, text: string)
    requires text != "" && !IsSpace(text[0])
    ensures Feed(codec, r, "data: " + text) == r.(data := r.data + [text])
  {
    DataShape(text);
    BlankDrops(text);
  }

  lemma DataShape(text: string)
    ensures
      var line := "data: " + text;
      line != "" && !(":" <= line) && !("event:" <= line) && "data:" <= line && line[5..] == [' '] + text
  {
    assert ("data: " + text)[0] == 'd';
  }

  lemma BlankDrops(text: string)
    requires text != "" && !IsSpace(text[0])
    ensures DropFront(IsSpace, [' '] + text) == text
  {
    assert ([' '] + text)[1..] == text;
  }

  lemma FeedFirst(codec: Codec, r: Reader, line: string, more: seq<string>)
    ensures FeedAll(codec, r, [line] + more) == FeedAll(codec, Feed(codec, r, line), more)
  {
    assert ([line] + more)[0] == line && ([line] + more)[1..] == more;
  }

  lemma FeedThree(codec: Codec, r: Reader, a: string, b: string, c: string, more: seq<string>, r1: Reader, r2: Reader, r3: Reader)
    requires r1 == Feed(codec, r, a) && r2 == Feed(codec, r1, b) && r3 == Feed(codec, r2, c)
    ensures FeedAll(codec, r, [a, b] + ([c] + more)) == FeedAll(codec, r3, more)
  {
    assert [a, b] + ([c] + more) == [a] + ([b] + ([c] + more));
    FeedFirst(codec, r, a, [b] + ([c] + more));
    FeedFirst(codec, r1, b, [c] + more);
    FeedFirst(codec, r2, c, more);
  }

  /** The reader after an event's id, event and first data line. */
  lemma FeedHeader(codec: Codec, e: Envelope, text: string, out: seq<Payload>, more: seq<string>, r: Reader)
    requires text != "" && !IsSpace(text[0]) && r == Reader(Strip(IsSpace, EventLine(e)[6..]), [text], out)
    ensures FeedAll(codec, Reader("", [], out), [IdLine(e), EventLine(e)] + (["data: " + text] + more)) == FeedAll(codec, r, more)
  {
    var r0 := Reader("", [], out);
    var r1 := r0.(name := r.name);
    FeedId(codec, r0, e);
    FeedName(codec, r0, e);
    FeedData(codec, r1, text);
    assert r1.(data := [] + [text]) == r;
    FeedThree(codec, r0, IdLine(e), EventLine(e), "data: " + text, more, r0, r1, r);
  }

  lemma FeedEvent(codec: Codec, isBreak: char -> bool, e: Envelope, out: seq<Payload>, lines: seq<string>)
    requires Printable(isBreak, codec, e)
    ensures FeedAll(codec, Reader("", [], out), [IdLine(e), EventLine(e)] + ([DataLine(codec, e)] + ([""] + lines)))
         == FeedAll(codec, Reader("", [], out + [Whole(e)]), lines)
  {
    var text := codec.dumps(e);
    var r := Reader(Strip(IsSpace, EventLine(e)[6..]), [text], out);
    FeedHeader(codec, e, text, out, [""] + lines, r);
    FeedBlank(codec, r, text, lines);
  }

  lemma FeedBlank(codec: Codec, r: Reader, text: string, lines: seq<string>)
    requires r.data == [text]
    ensures FeedAll(codec, r, [""] + lines) == FeedAll(codec, Reader("", [], r.out + [PayloadOf(codec, r.name, r.data)]), lines)
    ensures JoinLines(r.data) == text
  {
    assert ([""] + lines)[1..] == lines;
  }

  function Wholes(events: seq<Envelope>): seq<Payload> {
    if events == [] then [] else [Whole(events[0])] + Wholes(events[1..])
  }

  lemma WholesFirst(events: seq<Envelope>, out: seq<Payload>)
    requires events != []
    ensures out + [Whole(events[0])] + Wholes(events[1..]) == out + Wholes(events)
  {}

  lemma {:induction false} FeedPrinted(isBreak: char -> bool, codec: Codec, events: seq<Envelope>, out: seq<Payload>)
    requires GoodBreaks(isBreak) && forall i :: 0 <= i < |events| ==> Printable(isBreak, codec, events[i])
    ensures FeedAll(codec, Reader("", [], out), Lines(isBreak, PrintAll(codec, events))) == Reader("", [], out + Wholes(events))
  {
    if events == [] {
      assert out + Wholes(events) == out;
    } else {
      var e, rest := events[0], events[1..];
      PrintedLines(isBreak, codec, e, PrintAll(codec, rest));
      FeedEvent(codec, isBreak, e, out, Lines(isBreak, PrintAll(codec, rest)));
      FeedPrinted(isBreak, codec, rest, out + [Whole(e)]);
      WholesFirst(events, out);
    }
  }

  /** Reading what the event stream printed gives back exactly the events, in order. */
  lemma RoundTrip(isBreak: char -> bool, codec: Codec, events: seq<Envelope>)
    requires GoodBreaks(isBreak) && forall i :: 0 <= i < |events| ==> Printable(isBreak, codec, events[i])
    ensures ReadLines(codec, Lines(isBreak, PrintAll(codec, events))) == Wholes(events)
  {
    FeedPrinted(isBreak, codec, events, []);
    assert [] + Wholes(events) == Wholes(events);
  }

  // ---------------------------------------------------------------- exactly when it works

  /** A text the reader may put together from a JSON text that was cut after `head`. */
  predicate CutText(head: string, raw: string) { raw == head || head + "\n" <= raw }

  /** What a JSON encoder promises: an object's text, decodable as a whole and never after a cut at a line break. */
  ghost predicate Encodes(isBreak: char -> bool, codec: Codec, e: Envelope) {
    && codec.dumps(e) != "" && codec.dumps(e)[0] == '{'
    && codec.loads(codec.dumps(e)) == Some(Typed(e))
    && forall n, raw :: 0 <= n < |codec.dumps(e)| && isBreak(codec.dumps(e)[n]) && CutText(codec.dumps(e)[..n], raw) ==>
         codec.loads(raw) != Some(Typed(e))
  }

  /** The payload at position k was put together from data lines that begin with `head`. */
  ghost predicate CutPayload(codec: Codec, head: string, p: Payload) {
    exists name, data :: data != [] && data[0] == head && p == PayloadOf(codec, name, data)
  }

  /** The reader holds, or has already yielded after `out`, what was cut after `head`. */
  ghost predicate Spoiled(codec: Codec, out: seq<Payload>, head: string, r: Reader) {
    || (r.out == out && r.data != [] && r.data[0] == head)
    || (|r.out| > |out| && out <= r.out && CutPayload(codec, head, r.out[|out|]))
  }

  lemma FeedStaysSpoiled(codec: Codec, out: seq<Payload>, head: string, r: Reader, line: string)
    requires Spoiled(codec, out, head, r)
    ensures Spoiled(codec, out, head, Feed(codec, r, line))
  {
    var r' := Feed(codec, r, line);
    if r.out == out && line == "" {
      assert r'.out[|out|] == PayloadOf(codec, r.name, r.data);
    }
  }

  lemma {:induction false} FeedAllStaysSpoiled(codec: Codec, out: seq<Payload>, head: string, r: Reader, lines: seq<string>)
    requires Spoiled(codec, out, head, r)
    ensures Spoiled(codec, out, head, FeedAll(codec, r, lines))
    decreases |lines|
  {
    if lines != [] {
      FeedStaysSpoiled(codec, out, head, r, lines[0]);
      FeedAllStaysSpoiled(codec, out, head, Feed(codec, r, lines[0]), lines[1..]);
    }
  }

  lemma FinishIsSpoiled(codec: Codec, out: seq<Payload>, head: string, r: Reader)
    requires Spoiled(codec, out, head, r)
    ensures |Finish(codec, r)| > |out| && CutPayload(codec, head, Finish(codec, r)[|out|])
  {
    if r.out == out {
      assert Finish(codec, r)[|out|] == PayloadOf(codec, r.name, r.data);
    } else {
      assert Finish(codec, r)[|out|] == r.out[|out|];
    }
  }

  lemma JoinedIsCut(data: seq<string>)
    requires data != []
    ensures CutText(data[0], JoinLines(data))
  {
    if |data| > 1 { assert JoinLines(data) == data[0] + "\n" + JoinLines(data[1..]); }
  }

  lemma CutIsNotWhole(isBreak: char -> bool, codec: Codec, e: Envelope, n: nat, p: Payload)
    requires Encodes(isBreak, codec, e) && n < |codec.dumps(e)| && isBreak(codec.dumps(e)[n])
    requires CutPayload(codec, codec.dumps(e)[..n], p)
    ensures p != Whole(e)
  {
    var name, data :| data != [] && data[0] == codec.dumps(e)[..n] && p == PayloadOf(codec, name, data);
    JoinedIsCut(data);
  }

  lemma SplitAt(text: string, n: nat)
    requires n < |text|
    ensures text == text[..n] + [text[n]] + text[n + 1..]
  {}

  lemma BrokenShape(a: string, b: string, head: string, br: char, tail: string, rest: string)
    ensures a + "\n" + b + "\n" + ("data: " + (head + [br] + tail)) + "\n" + "\n" + rest
         == a + ['\n'] + (b + ['\n'] + (("data: " + head) + [br] + (tail + "\n" + "\n" + rest)))
  {}

  /** A broken event: its header lines, the data line up to the break, and whatever follows. */
  lemma BrokenLines(isBreak: char -> bool, codec: Codec, e: Envelope, n: nat, rest: string) returns (more: seq<string>)
    requires GoodBreaks(isBreak) && OneLine(isBreak, e.eventType)
    requires n < |codec.dumps(e)| && isBreak(codec.dumps(e)[n]) && OneLine(isBreak, codec.dumps(e)[..n])
    ensures Lines(isBreak, Print(codec, e) + rest) == [IdLine(e), EventLine(e)] + (["data: " + codec.dumps(e)[..n]] + more)
  {
    var text := codec.dumps(e);
    var head, tail := text[..n], text[n + 1..];
    var after := tail + "\n" + "\n" + rest;
    SplitAt(text, n);
    BrokenShape(IdLine(e), EventLine(e), head, text[n], tail, rest);
    HeaderLines(isBreak, e);
    DataLineIsOne(isBreak, head);
    more := Lines(isBreak, after);
    FirstLine(isBreak, "data: " + head, text[n], after);
    FrontLines(isBreak, IdLine(e), EventLine(e), ("data: " + head) + [text[n]] + after, ["data: " + head] + more);
  }

  /** After the three lines of a broken event the reader is spoiled. */
  lemma FeedBroken(codec: Codec, e: Envelope, head: string, out: seq<Payload>, more: seq<string>)
    requires head != "" && head[0] == '{'
    ensures Spoiled(codec, out, head, FeedAll(codec, Reader("", [], out), [IdLine(e), EventLine(e)] + (["data: " + head] + more)))
  {
    var r := Reader(Strip(IsSpace, EventLine(e)[6..]), [head], out);
    FeedHeader(codec, e, head, out, more, r);
    FeedAllStaysSpoiled(codec, out, head, r, more);
  }

  ghost predicate SomeBroken(isBreak: char -> bool, codec: Codec, events: seq<Envelope>) {
    exists i :: 0 <= i < |events| && !OneLine(isBreak, codec.dumps(events[i]))
  }

  /** The first event that does not print on one line spoils the list at its place. */
  lemma {:induction false} BrokenEventShows(isBreak: char -> bool, codec: Codec, events: seq<Envelope>, out: seq<Payload>)
    requires GoodBreaks(isBreak) && SomeBroken(isBreak, codec, events)
    requires forall i :: 0 <= i < |events| ==> Encodes(isBreak, codec, events[i]) && OneLine(isBreak, events[i].eventType)
    ensures Finish(codec, FeedAll(codec, Reader("", [], out), Lines(isBreak, PrintAll(codec, events)))) != out + Wholes(events)
  {
    var e, rest := events[0], events[1..];
    var text := PrintAll(codec, rest);
    if OneLine(isBreak, codec.dumps(e)) {
      StillBroken(isBreak, codec, events);
      PrintedLines(isBreak, codec, e, text);
      FeedEvent(codec, isBreak, e, out, Lines(isBreak, text));
      BrokenEventShows(isBreak, codec, rest, out + [Whole(e)]);
      WholesFirst(events, out);
    } else {
      BrokenFirst(isBreak, codec, e, text, out);
      WholesHere(events, out);
    }
  }

  lemma WholesHere(events: seq<Envelope>, out: seq<Payload>)
    requires events != []
    ensures |out + Wholes(events)| > |out| && (out + Wholes(events))[|out|] == Whole(events[0])
  {}

  lemma StillBroken(isBreak: char -> bool, codec: Codec, events: seq<Envelope>)
    requires SomeBroken(isBreak, codec, events) && OneLine(isBreak, codec.dumps(events[0]))
    ensures SomeBroken(isBreak, codec, events[1..])
  {
    var i :| 0 <= i < |events| && !OneLine(isBreak, codec.dumps(events[i]));
    assert events[1..][i - 1] == events[i];
  }

  lemma BrokenFirst(isBreak: char -> bool, codec: Codec, e: Envelope, rest: string, out: seq<Payload>)
    requires GoodBreaks(isBreak) && Encodes(isBreak, codec, e) && OneLine(isBreak, e.eventType)
    requires !OneLine(isBreak, codec.dumps(e))
    ensures
      var got := Finish(codec, FeedAll(codec, Reader("", [], out), Lines(isBreak, Print(codec, e) + rest)));
      |got| > |out| && got[|out|] != Whole(e)
  {
    var text := codec.dumps(e);
    var n := LineEnd(isBreak, text);
    if n == |text| { WholeLine(isBreak, text); }
    assert n > 0 && text[..n][0] == '{';
    var more := BrokenLines(isBreak, codec, e, n, rest);
    FeedBroken(codec, e, text[..n], out, more);
    var r := FeedAll(codec, Reader("", [], out), Lines(isBreak, Print(codec, e) + rest));
    FinishIsSpoiled(codec, out, text[..n], r);
    CutIsNotWhole(isBreak, codec, e, n, Finish(codec, r)[|out|]);
  }

  /**
   Any list of events comes back exactly when every JSON text is one line for the reader; json.dumps leaves U+2028
   and U+0085 in place, at which the HTTP client ends a line.
   */
  lemma RoundTripIff(isBreak: char -> bool, codec: Codec, events: seq<Envelope>)
    requires GoodBreaks(isBreak)
    requires forall i :: 0 <= i < |events| ==> Encodes(isBreak, codec, events[i]) && OneLine(isBreak, events[i].eventType)
    ensures ReadLines(codec, Lines(isBreak, PrintAll(codec, events))) == Wholes(events) <==>
            forall i :: 0 <= i < |events| ==> OneLine(isBreak, codec.dumps(events[i]))
  {
    assert [] + Wholes(events) == Wholes(events);
    if forall i :: 0 <= i < |events| ==> OneLine(isBreak, codec.dumps(events[i])) {
      RoundTrip(isBreak, codec, events);
    } else {
      BrokenEventShows(isBreak, codec, events, []);
    }
  }

  /** A concrete event with U+2028 in its data that does not come back. */
  lemma SeparatorBreaksTheRoundTrip()
    ensures
      var isBreak := c => c == '\n' || c == '\U{2028}';
      var e := Envelope("status", 1, "a\U{2028}b");
      var codec := Codec((x: Envelope) => "{" + x.data + "}", s => if s == "{a\U{2028}b}" then Some(Typed(e)) else None);
      && Encodes(isBreak, codec, e)
      && ReadLines(codec, Lines(isBreak, PrintAll(codec, [e]))) != Wholes([e])
  {
    var isBreak := c => c == '\n' || c == '\U{2028}';
    var e := Envelope("status", 1, "a\U{2028}b");
    var codec := Codec((x: Envelope) => "{" + x.data + "}", s => if s == "{a\U{2028}b}" then Some(Typed(e)) else None);
    var text := codec.dumps(e);
    assert text == "{a\U{2028}b}" && isBreak(text[2]);
    forall n, raw | 0 <= n < |text| && isBreak(text[n]) && CutText(text[..n], raw) ensures codec.loads(raw) != Some(Typed(e)) {
      assert n == 2;
      if text[..n] + "\n" <= raw { assert raw[2] == '\n'; }
    }
    RoundTripIff(isBreak, codec, [e]);
  }

  // ---------------------------------------------------------------- the formats, spelled out

  /** What an event looks like on the wire. */
  lemma PrintFormat(codec: Codec, e: Envelope)
    ensures Print(codec, e) == "id: " + Show(e.sequence) + "\n" + "event: " + e.eventType + "\n" + "data: " + codec.dumps(e) + "\n\n"
  {
    assert "\n" + "\n" == "\n\n";
  }

  /** Comment, id and other lines change nothing. */
  lemma OtherLines(codec: Codec, r: Reader, line: string)
    requires line != "" && (line[0] == ':' || (line[0] != 'e' && line[0] != 'd'))
    ensures Feed(codec, r, line) == r
  {}

  lemma EventShape(x: string)
    ensures
      var line := "event:" + x;
      line != "" && !(":" <= line) && "event:" <= line && line[6..] == x
  {
    assert ("event:" + x)[0] == 'e';
  }

  lemma EventField(codec: Codec, r: Reader, x: string)
    ensures Feed(codec, r, "event:" + x) == r.(name := Strip(IsSpace, x))
  {
    EventShape(x);
  }

  lemma AnyDataShape(x: string)
    ensures
      var line := "data:" + x;
      line != "" && !(":" <= line) && !("event:" <= line) && "data:" <= line && line[5..] == x
  {
    assert ("data:" + x)[0] == 'd';
  }

  lemma DataField(codec: Codec, r: Reader, x: string)
    ensures Feed(codec, r, "data:" + x) == r.(data := r.data + [DropFront(IsSpace, x)])
  {
    AnyDataShape(x);
  }

  /** A blank line yields the collected data, if any, and starts afresh. */
  lemma BlankLine(codec: Codec, r: Reader)
    ensures
      var r' := Feed(codec, r, "");
      r'.name == "" && r'.data == [] && r'.out == r.out + if r.data == [] then [] else [PayloadOf(codec, r.name, r.data)]
  {
    assert r.out + [] == r.out;
  }

  /** Data lines are joined by line feeds; what is no typed object is wrapped under the event's name or "message". */
  lemma PayloadMeaning(codec: Codec, name: string, first: string, more: seq<string>, e: Envelope)
    ensures JoinLines([first]) == first && (more != [] ==> JoinLines([first] + more) == first + "\n" + JoinLines(more))
    ensures
      var raw := JoinLines([first] + more);
      var p, shown := PayloadOf(codec, name, [first] + more), if name == "" then "message" else name;
      && (codec.loads(raw) == Some(Typed(e)) ==> p == Whole(e))
      && (codec.loads(raw) == None ==> p == Wrapped(shown, raw))
      && (codec.loads(raw).Some? && codec.loads(raw).value.Untyped? ==> p == Wrapped(shown, codec.loads(raw).value.json))
      && (codec.loads(raw).Some? && codec.loads(raw).value.Scalar? ==> p == Wrapped(shown, codec.loads(raw).value.json))
  {
    assert ([first] + more)[1..] == more;
  }
}
