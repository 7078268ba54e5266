/** Server-sent event frames (backend/app/domains/chat/sse.py) and the event-stream
    interpretation of the WHATWG HTML Standard, section 9.2.6, that clients apply to them. */
module Sse {
  import opened Common

  /** What one `yield` of the stream puts on the wire. */
  datatype Frame = Event(name: string, payload: string) | KeepAlive

  datatype Dispatched = Dispatched(eventType: string, data: string)

  /** `encode_sse`, and the literal comment that keeps the connection open. */
  function EncodeFrame(f: Frame): string {
    match f
    case Event(name, payload) => "event: " + name + "\ndata: " + payload + "\n\n"
    case KeepAlive => ": keep-alive\n\n"
  }

  function EncodeAll(frames: seq<Frame>): string {
    if frames == [] then "" else EncodeFrame(frames[0]) + EncodeAll(frames[1..])
  }

  // ---------------------------------------------------------------- the client's side

  /** Length of the first line: everything up to the first CR or LF. */
  function LineLength(s: string): (n: nat)
    ensures n <= |s|
    ensures n < |s| ==> s[n] == '\r' || s[n] == '\n'
  {
    if s == "" || s[0] == '\r' || s[0] == '\n' then 0 else 1 + LineLength(s[1..])
  }

  /** Lines end with CR LF, LF or CR; an unfinished last line is not processed. */
  function Lines(s: string): seq<string>
    decreases |s|
  {
    var n := LineLength(s);
    if n == |s| then []
    else if s[n] == '\r' && n + 1 < |s| && s[n + 1] == '\n' then [s[..n]] + Lines(s[n + 2..])
    else [s[..n]] + Lines(s[n + 1..])
  }

  datatype Buffers = Buffers(eventType: string, data: string)

  /** Position of the first colon, or the length of the line. */
  function ColonIndex(line: string): (i: nat)
    ensures i <= |line|
  {
    if line == "" || line[0] == ':' then 0 else 1 + ColonIndex(line[1..])
  }

  function FieldValue(line: string): string {
    var i := ColonIndex(line);
    if i == |line| then ""
    else if i + 1 < |line| && line[i + 1] == ' ' then line[i + 2..]
    else line[i + 1..]
  }

  /** A line that is not empty: a comment, or a field with its value. The fields `id` and
      `retry` have no influence on what is dispatched here, nor have unknown ones. */
  function ProcessLine(b: Buffers, line: string): Buffers {
    if line != "" && line[0] == ':' then b
    else
      var field := line[..ColonIndex(line)];
      if field == "event" then b.(eventType := FieldValue(line))
      else if field == "data" then b.(data := b.data + FieldValue(line) + "\n")
      else b
  }

  /** A blank line dispatches the event unless the data buffer is empty. */
  function Dispatch(b: Buffers): seq<Dispatched> {
    if b.data == "" then []
    else
      var data := if b.data[|b.data| - 1] == '\n' then b.data[..|b.data| - 1] else b.data;
      [Dispatched(if b.eventType == "" then "message" else b.eventType, data)]
  }

  function Interpret(b: Buffers, lines: seq<string>): seq<Dispatched>
    decreases |lines|
  {
    if lines == [] then []
    else if lines[0] == "" then Dispatch(b) + Interpret(Buffers("", ""), lines[1..])
    else Interpret(ProcessLine(b, lines[0]), lines[1..])
  }

  /** One leading byte order mark is dropped before the stream is cut into lines. */
  function Parse(stream: string): seq<Dispatched> {
    var body := if stream != "" && stream[0] == '\U{FEFF}' then stream[1..] else stream;
    Interpret(Buffers("", ""), Lines(body))
  }

  // ---------------------------------------------------------------- round trip

  predicate OneLine(s: string) {
    '\r' !in s && '\n' !in s
  }

  /** Event names are non-empty and, like the JSON payload, hold no raw line break. */
  predicate WellFormed(f: Frame) {
    f.Event? ==> f.name != "" && OneLine(f.name) && OneLine(f.payload)
  }

  /** What the client is meant to see: the events, without the comments. */
  function Events(frames: seq<Frame>): seq<Dispatched> {
    if frames == [] then []
    else
      (if frames[0].Event? then [Dispatched(frames[0].name, frames[0].payload)] else [])
      + Events(frames[1..])
  }

  lemma {:induction false} LineLengthIs(line: string, rest: string)
    requires OneLine(line)
    ensures LineLength(line + "\n" + rest) == |line|
  {
    var s := line + "\n" + rest;
    if line != "" {
      assert s[0] == line[0] && s[1..] == line[1..] + "\n" + rest;
      LineLengthIs(line[1..], rest);
    }
  }

  lemma LinesCons(line: string, rest: string)
    requires OneLine(line)
    ensures Lines(line + "\n" + rest) == [line] + Lines(rest)
  {
    var s := line + "\n" + rest;
    LineLengthIs(line, rest);
    assert s[|line|] == '\n' && s[..|line|] == line && s[|line| + 1..] == rest;
  }

  lemma {:induction false} ColonIs(field: string, value: string)
    requires ':' !in field
    ensures ColonIndex(field + ":" + value) == |field|
  {
    var s := field + ":" + value;
    if field != "" {
      assert s[0] == field[0] && s[1..] == field[1..] + ":" + value;
      ColonIs(field[1..], value);
    }
  }

  lemma FieldLine(field: string, value: string)
    requires ':' !in field
    ensures var line := field + ": " + value;
            line[..ColonIndex(line)] == field && FieldValue(line) == value
  {
    var line := field + ": " + value;
    assert line == field + ":" + (" " + value);
    ColonIs(field, " " + value);
  }

  lemma EventText(name: string, payload: string, rest: string)
    ensures EncodeFrame(Event(name, payload)) + rest
         == ("event: " + name) + "\n" + (("data: " + payload) + "\n" + ("" + "\n" + rest))
  {
  }

  lemma EventLines(name: string, payload: string, rest: string)
    requires OneLine(name) && OneLine(payload)
    ensures Lines(EncodeFrame(Event(name, payload)) + rest)
         == ["event: " + name] + (["data: " + payload] + ([""] + Lines(rest)))
  {
    var s3 := "" + "\n" + rest;
    var s2 := ("data: " + payload) + "\n" + s3;
    EventText(name, payload, rest);
    LinesCons("", rest);
    LinesCons("data: " + payload, s3);
    LinesCons("event: " + name, s2);
  }

  lemma KeepAliveLines(rest: string)
    ensures Lines(EncodeFrame(KeepAlive) + rest) == [": keep-alive"] + ([""] + Lines(rest))
  {
    var s2 := "" + "\n" + rest;
    assert EncodeFrame(KeepAlive) + rest == ": keep-alive" + "\n" + s2;
    LinesCons("", rest);
    LinesCons(": keep-alive", s2);
  }

  lemma InterpretCons(b: Buffers, line: string, rest: seq<string>)
    ensures Interpret(b, [line] + rest) ==
            if line == "" then Dispatch(b) + Interpret(Buffers("", ""), rest)
            else Interpret(ProcessLine(b, line), rest)
  {
    assert ([line] + rest)[1..] == rest;
  }

  /** The two field lines of a frame fill both buffers, and the blank line empties them. */
  lemma FieldsAndDispatch(name: string, payload: string)
    requires name != ""
    ensures ProcessLine(Buffers("", ""), "event: " + name) == Buffers(name, "")
    ensures ProcessLine(Buffers(name, ""), "data: " + payload) == Buffers(name, payload + "\n")
    ensures Dispatch(Buffers(name, payload + "\n")) == [Dispatched(name, payload)]
  {
    FieldLine("event", name);
    FieldLine("data", payload);
    assert "event: " + name == "event" + ": " + name;
    assert "data: " + payload == "data" + ": " + payload;
    assert "" + payload == payload;
    assert (payload + "\n")[..|payload|] == payload;
  }

  lemma InterpretEvent(name: string, payload: string, rest: seq<string>)
    requires name != ""
    ensures Interpret(Buffers("", ""), ["event: " + name] + (["data: " + payload] + ([""] + rest)))
         == [Dispatched(name, payload)] + Interpret(Buffers("", ""), rest)
  {
    FieldsAndDispatch(name, payload);
    InterpretCons(Buffers("", ""), "event: " + name, ["data: " + payload] + ([""] + rest));
    InterpretCons(Buffers(name, ""), "data: " + payload, [""] + rest);
    InterpretCons(Buffers(name, payload + "\n"), "", rest);
  }

  lemma InterpretKeepAlive(rest: seq<string>)
    ensures Interpret(Buffers("", ""), [": keep-alive"] + ([""] + rest))
         == Interpret(Buffers("", ""), rest)
  {
    InterpretCons(Buffers("", ""), ": keep-alive", [""] + rest);
    InterpretCons(Buffers("", ""), "", rest);
  }

  /** A frame in front of any text dispatches its own event first, and nothing lingers. */
  lemma InterpretFrame(f: Frame, rest: string)
    requires WellFormed(f)
    ensures Interpret(Buffers("", ""), Lines(EncodeFrame(f) + rest))
         == Events([f]) + Interpret(Buffers("", ""), Lines(rest))
  {
    match f
    case Event(name, payload) =>
      EventLines(name, payload, rest);
      InterpretEvent(name, payload, Lines(rest));
      assert Events([f]) == [Dispatched(name, payload)];
    case KeepAlive =>
      KeepAliveLines(rest);
      InterpretKeepAlive(Lines(rest));
      assert Events([f]) == [];
      var later := Interpret(Buffers("", ""), Lines(rest));
      assert [] + later == later;
  }

  lemma EventsCons(frames: seq<Frame>)
    requires frames != []
    ensures Events(frames) == Events([frames[0]]) + Events(frames[1..])
  {
  }

  lemma {:induction false} InterpretFrames(frames: seq<Frame>)
    requires forall f :: f in frames ==> WellFormed(f)
    ensures Interpret(Buffers("", ""), Lines(EncodeAll(frames))) == Events(frames)
  {
    if frames != [] {
      InterpretFrames(frames[1..]);
      InterpretFrame(frames[0], EncodeAll(frames[1..]));
      EventsCons(frames);
    }
  }

  /** A client that follows the standard sees exactly the events that were encoded, in order,
      whatever keep-alive comments stand between them. */
  lemma StreamRoundTrip(frames: seq<Frame>)
    requires forall f :: f in frames ==> WellFormed(f)
    ensures Parse(EncodeAll(frames)) == Events(frames)
  {
    InterpretFrames(frames);
    if frames != [] {
      assert EncodeAll(frames)[0] == EncodeFrame(frames[0])[0];
    }
  }

  // ---------------------------------------------------------------- cut streams

  lemma {:induction false} LineLengthOfPrefix(s: string, n: nat)
    requires n <= |s|
    ensures LineLength(s[..n]) == Min(n, LineLength(s))
  {
    if n > 0 && s[0] != '\r' && s[0] != '\n' {
      assert s[..n][1..] == s[1..][..n - 1];
      LineLengthOfPrefix(s[1..], n - 1);
    }
  }

  lemma PrefixSlices(s: string, n: nat, k: nat)
    requires k < n <= |s|
    ensures s[..n][..k] == s[..k] && s[..n][k] == s[k] && s[..n][k + 1..] == s[k + 1..][..n - k - 1]
  {
  }

  lemma LinesAt(s: string, k: nat)
    requires k < |s| && LineLength(s) == k && s[k] == '\n'
    ensures Lines(s) == [s[..k]] + Lines(s[k + 1..])
  {
  }

  lemma NoLine(s: string)
    requires LineLength(s) == |s|
    ensures Lines(s) == []
  {
  }

  /** The finished lines of a cut text are the first lines of the whole text. */
  lemma {:induction false} LinesOfPrefix(s: string, n: nat)
    requires n <= |s| && '\r' !in s
    ensures Lines(s[..n]) <= Lines(s)
    decreases |s|
  {
    hide Lines;
    var k := LineLength(s);
    LineLengthOfPrefix(s, n);
    if k < n {
      assert s[k] in s;
      var rest := s[k + 1..];
      PrefixSlices(s, n, k);
      LinesOfPrefix(rest, n - k - 1);
      LinesAt(s, k);
      LinesAt(s[..n], k);
    } else {
      NoLine(s[..n]);
    }
  }

  /** Without a blank line nothing is dispatched. */
  lemma {:induction false} NothingDispatched(b: Buffers, lines: seq<string>)
    requires forall i :: 0 <= i < |lines| ==> lines[i] != ""
    ensures Interpret(b, lines) == []
    decreases |lines|
  {
    if lines != [] {
      NothingDispatched(ProcessLine(b, lines[0]), lines[1..]);
    }
  }

  /** All of a frame but its last character holds no blank line. */
  lemma UnfinishedLines(f: Frame)
    requires WellFormed(f)
    ensures var most := EncodeFrame(f)[..|EncodeFrame(f)| - 1];
            && '\r' !in most
            && forall i :: 0 <= i < |Lines(most)| ==> Lines(most)[i] != ""
  {
    match f
    case Event(name, payload) => UnfinishedEvent(name, payload);
    case KeepAlive => UnfinishedComment();
  }

  lemma UnfinishedComment()
    ensures var frame := EncodeFrame(KeepAlive);
            '\r' !in frame[..|frame| - 1] && Lines(frame[..|frame| - 1]) == [": keep-alive"]
  {
    var frame := EncodeFrame(KeepAlive);
    assert frame[..|frame| - 1] == ": keep-alive" + "\n" + "";
    LinesCons(": keep-alive", "");
    assert Lines("") == [];
    assert [": keep-alive"] + [] == [": keep-alive"];
  }

  lemma UnfinishedEvent(name: string, payload: string)
    requires WellFormed(Event(name, payload))
    ensures var frame := EncodeFrame(Event(name, payload));
            && '\r' !in frame[..|frame| - 1]
            && Lines(frame[..|frame| - 1]) == ["event: " + name] + ["data: " + payload]
  {
    var frame := EncodeFrame(Event(name, payload));
    var data := ("data: " + payload) + "\n" + "";
    assert frame[..|frame| - 1] == ("event: " + name) + "\n" + data;
    LinesCons("data: " + payload, "");
    LinesCons("event: " + name, data);
    assert Lines("") == [];
    assert ["data: " + payload] + [] == ["data: " + payload];
  }

  lemma PartialFrame(f: Frame, n: nat)
    requires WellFormed(f) && n < |EncodeFrame(f)|
    ensures Interpret(Buffers("", ""), Lines(EncodeFrame(f)[..n])) == []
  {
    var most := EncodeFrame(f)[..|EncodeFrame(f)| - 1];
    UnfinishedLines(f);
    assert EncodeFrame(f)[..n] == most[..n];
    LinesOfPrefix(most, n);
    NothingDispatched(Buffers("", ""), Lines(most[..n]));
  }

  /** What the client has dispatched after reading `text` from a fresh start. */
  function Seen(text: string): seq<Dispatched> {
    Interpret(Buffers("", ""), Lines(text))
  }

  lemma SeenNothing()
    ensures Seen("") == []
  {
  }

  lemma PrefixAfter(head: seq<Dispatched>, cut: seq<Dispatched>, tail: seq<Dispatched>)
    requires cut <= tail
    ensures head + cut <= head + tail
  {
  }

  lemma {:induction false} InterpretCut(frames: seq<Frame>, n: nat)
    requires forall f :: f in frames ==> WellFormed(f)
    requires n <= |EncodeAll(frames)|
    ensures Seen(EncodeAll(frames)[..n]) <= Events(frames)
  {
    hide EncodeFrame, Events, Interpret, Lines;
    if frames == [] {
      SeenNothing();
      assert EncodeAll(frames)[..n] == "";
    } else {
      var first, rest := EncodeFrame(frames[0]), EncodeAll(frames[1..]);
      if n < |first| {
        assert EncodeAll(frames)[..n] == first[..n];
        PartialFrame(frames[0], n);
      } else {
        var cut := rest[..n - |first|];
        assert EncodeAll(frames)[..n] == first + cut;
        InterpretCut(frames[1..], n - |first|);
        PrefixAfter(Events([frames[0]]), Seen(cut), Events(frames[1..]));
        InterpretFrame(frames[0], cut);
        EventsCons(frames);
      }
    }
  }

  /** A connection cut at any character shows the client a prefix of the events: never a
      damaged or an invented one. */
  lemma CutStreamIsPrefix(frames: seq<Frame>, n: nat)
    requires forall f :: f in frames ==> WellFormed(f)
    requires n <= |EncodeAll(frames)|
    ensures Parse(EncodeAll(frames)[..n]) <= Events(frames)
  {
    InterpretCut(frames, n);
    if n > 0 {
      assert frames != [];
      assert EncodeAll(frames)[0] == EncodeFrame(frames[0])[0];
    }
  }
}
