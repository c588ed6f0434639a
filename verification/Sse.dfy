/** The framing loop of sseHandler (internal/dashboard/handlers.go) against the event stream
    interpretation of the WHATWG HTML standard, section 9.2.6. */
module Sse {
  import opened GoStrings

  // ---------------------------------------------------------------- framing

  /** bytes.IndexByte(msg, '\n'), with the length for "not there". */
  function IndexOfLF(msg: string): (i: nat)
    ensures i <= |msg| && Lacks(msg[..i], '\n') && (i < |msg| ==> msg[i] == '\n')
  {
    if msg == [] || msg[0] == '\n' then 0 else 1 + IndexOfLF(msg[1..])
  }

  function Frame(msg: string): string
    decreases |msg|
  {
    if msg == "" then "\n"
    else
      var i := IndexOfLF(msg);
      if i == |msg| then "data: " + msg + "\n\n"
      else "data: " + msg[..i] + "\n" + Frame(msg[i + 1..])
  }

  lemma Appended(written: string, a: string, b: string, c: string, rest: string)
    ensures written + (a + b + c + rest) == (written + a + b + c) + rest
    ensures rest == "" ==> written + (a + b + c) == written + a + b + c
  {
  }

  /** The loop, writing to the response as it consumes the message. */
  method WriteFrame(message: string) returns (written: string)
    ensures written == Frame(message)
  {
    var msg := message;
    written := "";
    while |msg| > 0
      invariant written + Frame(msg) == Frame(message)
      decreases |msg|
    {
      var i := IndexOfLF(msg);
      if i == |msg| {
        Appended(written, "data: ", msg, "\n\n", "");
        written := written + "data: ";
        written := written + msg;
        written := written + "\n\n";
        break;
      }
      Appended(written, "data: ", msg[..i], "\n", Frame(msg[i + 1..]));
      written := written + "data: ";
      written := written + msg[..i];
      written := written + "\n";
      msg := msg[i + 1..];
    }
    if |msg| == 0 { written := written + "\n"; }
  }

  // ---------------------------------------------------------------- interpretation

  predicate IsEol(c: char) { c == '\n' || c == '\r' }

  function FirstEol(s: string): (i: nat)
    ensures i <= |s| && (i < |s| ==> IsEol(s[i])) && forall k :: 0 <= k < i ==> !IsEol(s[k])
  {
    if s == [] || IsEol(s[0]) then 0 else 1 + FirstEol(s[1..])
  }

  /** The finished lines of a stream. They end in LF, CR or CR LF; what follows the last end is
      not a line yet. */
  function Lines(s: string): seq<string>
    decreases |s|
  {
    var i := FirstEol(s);
    if i == |s| then []
    else
      var after := if s[i] == '\r' && i + 1 < |s| && s[i + 1] == '\n' then i + 2 else i + 1;
      [s[..i]] + Lines(s[after..])
  }

  function FirstColon(line: string): (i: nat)
    ensures i <= |line|
  {
    if line == [] || line[0] == ':' then 0 else 1 + FirstColon(line[1..])
  }

  /** A line's field name and value; one space after the colon belongs to neither. */
  function Field(line: string): (string, string) {
    var i := FirstColon(line);
    if i == |line| then (line, "")
    else
      var value := line[i + 1..];
      (line[..i], if " " <= value then value[1..] else value)
  }

  /** Only data fields reach the data buffer. A comment line has an empty field name. */
  function Feed(buffer: string, line: string): string {
    var (name, value) := Field(line);
    if name == "data" then buffer + value + "\n" else buffer
  }

  /** An empty line dispatches the buffer, without its last line feed, unless it is empty. What
      is left at the end of the stream is discarded. */
  function Events(lines: seq<string>, buffer: string): seq<string> {
    if lines == [] then []
    else if lines[0] == "" then
      (if buffer == "" then [] else [Chop(buffer)]) + Events(lines[1..], "")
    else Events(lines[1..], Feed(buffer, lines[0]))
  }

  function Chop(s: string): string { if s != "" && s[|s| - 1] == '\n' then s[..|s| - 1] else s }

  function Interpret(stream: string): seq<string> { Events(Lines(stream), "") }

  // ---------------------------------------------------------------- round trip

  lemma {:induction false} FirstEolAt(line: string, rest: string)
    requires Lacks(line, '\n') && Lacks(line, '\r')
    ensures FirstEol(line + "\n" + rest) == |line|
  {
    if line != [] {
      assert (line + "\n" + rest)[1..] == line[1..] + "\n" + rest;
      FirstEolAt(line[1..], rest);
    }
  }

  lemma OneLine(line: string, rest: string)
    requires Lacks(line, '\n') && Lacks(line, '\r')
    ensures Lines(line + "\n" + rest) == [line] + Lines(rest)
  {
    FirstEolAt(line, rest);
    var s := line + "\n" + rest;
    assert s[..|line|] == line && s[|line| + 1..] == rest;
  }

  lemma DataLine(text: string, buffer: string)
    ensures Feed(buffer, "data: " + text) == buffer + text + "\n"
  {
    var line := "data: " + text;
    assert line[1..][1..][1..][1..][0] == ':';
    assert FirstColon(line) == 4 by {
      assert line[1..][0] == 'a' && line[1..][1..][0] == 't' && line[1..][1..][1..][0] == 'a';
      assert FirstColon(line[1..][1..][1..][1..]) == 0;
      assert FirstColon(line[1..][1..][1..]) == 1;
      assert FirstColon(line[1..][1..]) == 2;
    }
    assert line[..4] == "data";
    assert line[5..][1..] == text && line[5..][0] == ' ';
  }

  /** A message followed by the line feed it lacks, if any. */
  function Finished(msg: string): string {
    if msg == "" || msg[|msg| - 1] == '\n' then msg else msg + "\n"
  }

  lemma {:induction false} FramedEvents(msg: string, buffer: string)
    requires Lacks(msg, '\r')
    ensures Events(Lines(Frame(msg)), buffer) ==
            if buffer + Finished(msg) == "" then [] else [Chop(buffer + Finished(msg))]
    decreases |msg|
  {
    if msg == "" {
      BlankLine();
      assert buffer + "" == buffer;
      EventsAtBlank(buffer);
    } else {
      var i := IndexOfLF(msg);
      if i == |msg| {
        LastLine(msg, buffer);
      } else {
        var rest := msg[i + 1..];
        FramedEvents(rest, buffer + msg[..i] + "\n");
        LineThenTail(msg[..i], Frame(rest), buffer);
        FinishedSplits(msg, i, buffer);
      }
    }
  }

  lemma BlankLine()
    ensures Lines("\n") == [""]
  {
  }

  lemma EventsAtBlank(buffer: string)
    ensures Events([""], buffer) == if buffer == "" then [] else [Chop(buffer)]
  {
  }

  /** The branch for a message without line feed. */
  lemma LastLine(msg: string, buffer: string)
    requires msg != "" && Lacks(msg, '\n') && Lacks(msg, '\r')
    ensures Events(Lines("data: " + msg + "\n\n"), buffer) == [Chop(buffer + Finished(msg))]
  {
    var line := "data: " + msg;
    Untouched(msg);
    OneLine(line, "\n");
    BlankLine();
    assert "data: " + msg + "\n\n" == line + "\n" + "\n";
    EventsStep(line, [""], buffer);
    DataLine(msg, buffer);
    EventsAtBlank(Feed(buffer, line));
    assert buffer + msg + "\n" == buffer + (msg + "\n");
  }

  lemma Untouched(text: string)
    requires Lacks(text, '\n') && Lacks(text, '\r')
    ensures Lacks("data: " + text, '\n') && Lacks("data: " + text, '\r')
  {
  }

  /** One turn of the loop. */
  lemma LineThenTail(text: string, tail: string, buffer: string)
    requires Lacks(text, '\n') && Lacks(text, '\r')
    ensures Events(Lines("data: " + text + "\n" + tail), buffer) == Events(Lines(tail), buffer + text + "\n")
  {
    Untouched(text);
    OneLine("data: " + text, tail);
    EventsStep("data: " + text, Lines(tail), buffer);
    DataLine(text, buffer);
  }

  lemma FinishedSplits(msg: string, i: nat, buffer: string)
    requires i < |msg| && msg[i] == '\n'
    ensures buffer + msg[..i] + "\n" + Finished(msg[i + 1..]) == buffer + Finished(msg)
  {
  }

  lemma EventsStep(line: string, rest: seq<string>, buffer: string)
    requires line != ""
    ensures Events([line] + rest, buffer) == Events(rest, Feed(buffer, line))
  {
  }

  lemma {:induction false} NoCarriageReturn(lines: seq<string>, buffer: string)
    requires Lacks(buffer, '\r') && forall i :: 0 <= i < |lines| ==> Lacks(lines[i], '\r')
    ensures forall i :: 0 <= i < |Events(lines, buffer)| ==> Lacks(Events(lines, buffer)[i], '\r')
  {
    if lines != [] {
      NoCarriageReturn(lines[1..], "");
      NoCarriageReturn(lines[1..], Feed(buffer, lines[0]));
    }
  }

  lemma {:induction false} LinesLackReturn(s: string)
    ensures forall i :: 0 <= i < |Lines(s)| ==> Lacks(Lines(s)[i], '\r')
    decreases |s|
  {
    var i := FirstEol(s);
    if i < |s| {
      var after := if s[i] == '\r' && i + 1 < |s| && s[i + 1] == '\n' then i + 2 else i + 1;
      LinesLackReturn(s[after..]);
    }
  }

  lemma Differs(events: seq<string>, msg: string)
    requires (forall i :: 0 <= i < |events| ==> Lacks(events[i], '\r')) && !Lacks(msg, '\r')
    ensures events != [msg]
  {
    if |events| == 1 { assert Lacks(events[0], '\r'); }
  }

  /** A client that interprets the written bytes receives exactly one event for a non-empty
      message without carriage returns, holding it up to one final line feed; an empty message
      makes no event. */
  lemma FrameDelivers(msg: string)
    requires Lacks(msg, '\r')
    ensures Interpret(Frame(msg)) == if msg == "" then [] else [Chop(msg)]
  {
    FramedEvents(msg, "");
    assert "" + Finished(msg) == Finished(msg);
  }

  /** The round trip is exact for just the messages that do not contain a carriage return and
      do not end in a line feed. */
  lemma {:induction false} RoundTrip(msg: string)
    requires msg != ""
    ensures Interpret(Frame(msg)) == [msg] <==> Lacks(msg, '\r') && msg[|msg| - 1] != '\n'
  {
    if Lacks(msg, '\r') {
      FrameDelivers(msg);
    } else {
      LinesLackReturn(Frame(msg));
      NoCarriageReturn(Lines(Frame(msg)), "");
      Differs(Interpret(Frame(msg)), msg);
    }
  }
}
