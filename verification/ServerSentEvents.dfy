/**
 Server-sent events: the API's printer, and the browser's incremental parser. The
 framing is that of sections 9.2.5 and 9.2.6 of the WHATWG HTML Living Standard.
 */
module ServerSentEvents {
  import opened Collections
  import opened Option

  datatype Message = Message(id: Option<string>, event: string, data: string)

  // --------------------------------------------------------- small strings

  /** White space as `String.prototype.trim` sees it. */
  predicate IsTrimmed(c: char) {
    var n := c as int;
    || 9 <= n <= 13 || n == 32 || n == 0xA0 || n == 0xFEFF || n == 0x1680 || 0x2000 <= n <= 0x200A
    || n == 0x2028 || n == 0x2029 || n == 0x202F || n == 0x205F || n == 0x3000
  }

  function TrimStart(s: string): string {
    if s != "" && IsTrimmed(s[0]) then TrimStart(s[1..]) else s
  }

  function TrimEnd(s: string): string {
    if s != "" && IsTrimmed(s[|s| - 1]) then TrimEnd(s[..|s| - 1]) else s
  }

  function Trim(s: string): string {
    TrimEnd(TrimStart(s))
  }

  predicate OneLine(s: string) {
    forall i :: 0 <= i < |s| ==> s[i] != '\n'
  }

  function JoinLines(lines: seq<string>): string {
    if lines == [] then ""
    else if |lines| == 1 then lines[0]
    else JoinLines(lines[..|lines| - 1]) + "\n" + lines[|lines| - 1]
  }

  /** `s.split("\n")`; `line` is the one being read. */
  function LinesFrom(s: string, line: string): (r: seq<string>)
    ensures r != []
  {
    if s == "" then [line]
    else if s[0] == '\n' then [line] + LinesFrom(s[1..], "")
    else LinesFrom(s[1..], line + [s[0]])
  }

  function Lines(s: string): (r: seq<string>)
    ensures r != []
  {
    LinesFrom(s, "")
  }

  lemma {:induction false} LinesOfLine(line: string, rest: string, read: string)
    requires OneLine(line)
    ensures LinesFrom(line + rest, read) == LinesFrom(rest, read + line)
  {
    if line == "" {
      assert line + rest == rest && read + line == read;
    } else {
      var c, tail := line[0], line[1..];
      assert c in line && line + rest == [c] + (tail + rest);
      assert (line + rest)[1..] == tail + rest;
      LinesOfLine(tail, rest, read + [c]);
      assert read + [c] + tail == read + line;
    }
  }

  lemma LinesCons(line: string, rest: string)
    requires OneLine(line)
    ensures Lines(line + "\n" + rest) == [line] + Lines(rest)
    ensures Lines(line) == [line]
  {
    assert line + "\n" + rest == line + ("\n" + rest);
    LinesOfLine(line, "\n" + rest, "");
    assert ("\n" + rest)[1..] == rest && "" + line == line;
    LinesOfLine(line, "", "");
    assert line + "" == line;
  }

  lemma {:induction false} LinesAreLines(s: string, read: string)
    requires OneLine(read)
    ensures forall l <- LinesFrom(s, read) :: OneLine(l)
  {
    if s != "" {
      if s[0] == '\n' {
        LinesAreLines(s[1..], "");
      } else {
        LinesAreLines(s[1..], read + [s[0]]);
      }
    }
  }

  // -------------------------------------------------------------- the parser

  datatype Fields = Fields(id: Option<string>, event: string, data: seq<string>)

  const NO_FIELDS := Fields(None, "message", [])

  /** `.replace(/^ /, "")`. */
  function DropOneSpace(s: string): string {
    if s != "" && s[0] == ' ' then s[1..] else s
  }

  function FieldStep(f: Fields, line: string): Fields {
    if ":" <= line then f
    else if "id:" <= line then f.(id := Some(Trim(line[3..])))
    else if "event:" <= line then f.(event := Trim(line[6..]))
    else if "data:" <= line then f.(data := f.data + [DropOneSpace(line[5..])])
    else f
  }

  function FieldFold(lines: seq<string>): Fields {
    if lines == [] then NO_FIELDS else FieldStep(FieldFold(lines[..|lines| - 1]), lines[|lines| - 1])
  }

  function ParseFrame(frame: string): Option<Message> {
    var f := FieldFold(Lines(frame));
    if Trim(frame) == "" || f.data == [] then None
    else Some(Message(f.id, f.event, JoinLines(f.data)))
  }

  method ParseFrameLoop(frame: string) returns (message: Option<Message>)
    ensures message == ParseFrame(frame)
  {
    if Trim(frame) == "" {
      return None;
    }
    var id: Option<string> := None;
    var event := "message";
    var data: seq<string> := [];
    var lines := Lines(frame);
    for i := 0 to |lines|
      invariant Fields(id, event, data) == FieldFold(lines[..i])
    {
      var line := lines[i];
      assert lines[..i + 1][..i] == lines[..i];
      if ":" <= line {
        continue;
      }
      if "id:" <= line {
        id := Some(Trim(line[3..]));
      } else if "event:" <= line {
        event := Trim(line[6..]);
      } else if "data:" <= line {
        data := data + [DropOneSpace(line[5..])];
      }
    }
    assert lines[..|lines|] == lines;
    if data == [] {
      return None;
    }
    message := Some(Message(id, event, JoinLines(data)));
  }

  /** Where the first blank line starts. */
  function Separator(s: string): (r: Option<nat>)
    ensures r.Some? ==> r.value + 2 <= |s| && s[r.value] == s[r.value + 1] == '\n'
    ensures r.Some? ==> forall i :: 0 <= i < r.value ==> !(s[i] == s[i + 1] == '\n')
    ensures r.None? ==> forall i :: 0 <= i && i + 1 < |s| ==> !(s[i] == s[i + 1] == '\n')
  {
    if |s| < 2 then None
    else if s[0] == s[1] == '\n' then Some(0)
    else
      match Separator(s[1..])
      case None =>
        assert forall i :: 0 < i && i + 1 < |s| ==> s[i] == s[1..][i - 1] && s[i + 1] == s[1..][i];
        None
      case Some(i) =>
        assert forall j :: 0 < j <= i + 1 ==> s[j] == s[1..][j - 1];
        Some(i + 1)
  }

  /** The complete frames of a text, and what follows the last of them. */
  datatype Framed = Framed(frames: seq<string>, rest: string)

  function Frames(s: string): Framed
    decreases |s|
  {
    match Separator(s)
    case None => Framed([], s)
    case Some(i) =>
      var later := Frames(s[i + 2..]);
      Framed([s[..i]] + later.frames, later.rest)
  }

  function MessageOf(frame: string): seq<Message> {
    match ParseFrame(frame)
    case None => []
    case Some(m) => [m]
  }

  function MessagesOf(frames: seq<string>): seq<Message> {
    if frames == [] then [] else MessagesOf(frames[..|frames| - 1]) + MessageOf(frames[|frames| - 1])
  }

  /** What the parser makes of a whole text. */
  function Parse(text: string): seq<Message> {
    MessagesOf(Frames(text).frames) + MessageOf(Frames(text).rest)
  }

  lemma SeparatorIsFirst(s: string, i: nat)
    requires i + 2 <= |s| && s[i] == s[i + 1] == '\n'
    requires forall j :: 0 <= j < i ==> !(s[j] == s[j + 1] == '\n')
    ensures Separator(s) == Some(i)
  {
  }

  lemma SeparatorStays(a: string, b: string)
    requires Separator(a).Some?
    ensures Separator(a + b) == Separator(a)
  {
    var i := Separator(a).value;
    assert forall j :: 0 <= j < |a| ==> (a + b)[j] == a[j];
    SeparatorIsFirst(a + b, i);
  }

  /** A text that starts with a complete frame. */
  lemma FramesStep(s: string, frame: string, rest: string)
    requires s == frame + "\n\n" + rest && Separator(s) == Some(|frame|)
    ensures Frames(s) == Framed([frame] + Frames(rest).frames, Frames(rest).rest)
  {
    assert s[..|frame|] == frame && s[|frame| + 2..] == rest;
  }

  lemma SplitAtSeparator(s: string) returns (frame: string, rest: string)
    requires Separator(s).Some?
    ensures s == frame + "\n\n" + rest && Separator(s) == Some(|frame|)
  {
    var i := Separator(s).value;
    frame, rest := s[..i], s[i + 2..];
  }

  /** More text only adds frames: those already complete stay as they are. */
  lemma {:induction false} FramesGrow(a: string, b: string)
    ensures var more := Frames(Frames(a).rest + b);
            Frames(a + b) == Framed(Frames(a).frames + more.frames, more.rest)
    decreases |a|
  {
    if Separator(a).None? {
      assert [] + Frames(a + b).frames == Frames(a + b).frames;
    } else {
      var frame, rest := SplitAtSeparator(a);
      SeparatorStays(a, b);
      FramesStep(a, frame, rest);
      Assoc(frame + "\n\n", rest, b);
      FramesStep(a + b, frame, rest + b);
      FramesGrow(rest, b);
      Assoc([frame], Frames(rest).frames, Frames(Frames(rest).rest + b).frames);
    }
  }

  lemma {:induction false} MessagesConcat(a: seq<string>, b: seq<string>)
    ensures MessagesOf(a + b) == MessagesOf(a) + MessagesOf(b)
  {
    if b == [] {
      assert a + b == a;
    } else {
      var init, last := b[..|b| - 1], b[|b| - 1];
      assert a + b == (a + init) + [last];
      assert (a + b)[..|a + b| - 1] == a + init && (a + b)[|a + b| - 1] == last;
      MessagesConcat(a, init);
      Assoc(MessagesOf(a), MessagesOf(init), MessageOf(last));
    }
  }

  function Concat(chunks: seq<string>): string {
    if chunks == [] then "" else Concat(chunks[..|chunks| - 1]) + chunks[|chunks| - 1]
  }

  /** The messages of the complete frames of a text, and the text after them. */
  ghost predicate Drained(text: string, messages: seq<Message>, buffer: string) {
    && MessagesOf(Frames(text).frames) == messages + MessagesOf(Frames(buffer).frames)
    && Frames(text).rest == Frames(buffer).rest
  }

  lemma TakeFrame(text: string, messages: seq<Message>, buffer: string, i: nat)
    requires Drained(text, messages, buffer) && Separator(buffer) == Some(i)
    ensures Drained(text, messages + MessageOf(buffer[..i]), buffer[i + 2..])
    ensures ParseFrame(buffer[..i]).None? ==> Drained(text, messages, buffer[i + 2..])
  {
    var frame, rest := buffer[..i], buffer[i + 2..];
    assert Frames(buffer).frames == [frame] + Frames(rest).frames && Frames(buffer).rest == Frames(rest).rest;
    MessagesCons(frame, Frames(rest).frames);
    Regroup(messages, frame, MessagesOf(Frames(rest).frames));
  }

  lemma MessagesCons(frame: string, frames: seq<string>)
    ensures MessagesOf([frame] + frames) == MessageOf(frame) + MessagesOf(frames)
  {
    MessagesConcat([frame], frames);
    MessagesOfOne(frame);
  }

  lemma Regroup(messages: seq<Message>, frame: string, later: seq<Message>)
    ensures messages + (MessageOf(frame) + later) == (messages + MessageOf(frame)) + later
    ensures ParseFrame(frame).None? ==> messages + MessageOf(frame) == messages
  {
  }

  lemma NothingDrained(text: string)
    ensures Drained(text, [], text)
  {
    assert [] + MessagesOf(Frames(text).frames) == MessagesOf(Frames(text).frames);
  }

  lemma AllDrained(text: string, messages: seq<Message>, buffer: string)
    requires Drained(text, messages, buffer) && Separator(buffer).None?
    ensures messages == MessagesOf(Frames(text).frames) && buffer == Frames(text).rest
  {
    assert messages + [] == messages;
  }

  lemma MessagesOfOne(frame: string)
    ensures MessagesOf([frame]) == MessageOf(frame)
  {
    assert [frame][..0] == [] && MessagesOf([]) == [];
  }

  /** The inner loop: takes the complete frames off the front of the buffer. */
  method Drain(text: string) returns (messages: seq<Message>, buffer: string)
    ensures messages == MessagesOf(Frames(text).frames) && buffer == Frames(text).rest
  {
    messages, buffer := [], text;
    NothingDrained(text);
    var separator := Separator(buffer);
    while separator.Some?
      invariant separator == Separator(buffer) && Drained(text, messages, buffer)
      decreases |buffer|
    {
      var frame := buffer[..separator.value];
      TakeFrame(text, messages, buffer, separator.value);
      buffer := buffer[separator.value + 2..];
      var message := ParseFrameLoop(frame);
      if message.Some? {
        messages := messages + [message.value];
      }
      separator := Separator(buffer);
    }
    AllDrained(text, messages, buffer);
  }

  /** Whatever the chunk boundaries, the messages are those of the text as a whole. */
  method ParseSse(chunks: seq<string>) returns (messages: seq<Message>)
    ensures messages == Parse(Concat(chunks))
  {
    messages := [];
    var buffer := "";
    for i := 0 to |chunks|
      invariant messages == MessagesOf(Frames(Concat(chunks[..i])).frames)
      invariant buffer == Frames(Concat(chunks[..i])).rest
    {
      ChunkArrives(chunks, i);
      var more;
      more, buffer := Drain(buffer + chunks[i]);
      messages := messages + more;
    }
    assert chunks[..|chunks|] == chunks;
    var trailing := ParseFrameLoop(buffer);
    if trailing.Some? {
      messages := messages + [trailing.value];
    }
  }

  lemma ChunkArrives(chunks: seq<string>, i: nat)
    requires i < |chunks|
    ensures var before := Frames(Concat(chunks[..i]));
            var after := Frames(Concat(chunks[..i + 1]));
            var step := Frames(before.rest + chunks[i]);
            MessagesOf(after.frames) == MessagesOf(before.frames) + MessagesOf(step.frames) && after.rest == step.rest
  {
    assert chunks[..i + 1][..i] == chunks[..i];
    FramesGrow(Concat(chunks[..i]), chunks[i]);
    MessagesConcat(Frames(Concat(chunks[..i])).frames, Frames(Frames(Concat(chunks[..i])).rest + chunks[i]).frames);
  }

  // --------------------------------------------------------- what lines say

  const TRIMMED :=
    "\t\n\U{B}\U{C}\r \U{A0}\U{FEFF}\U{1680}\U{2000}\U{2001}\U{2002}\U{2003}\U{2004}\U{2005}\U{2006}\U{2007}" +
    "\U{2008}\U{2009}\U{200A}\U{2028}\U{2029}\U{202F}\U{205F}\U{3000}"

  predicate AllTrimmed(s: string) {
    forall i :: 0 <= i < |s| ==> IsTrimmed(s[i])
  }

  predicate TightlyTrimmed(s: string) {
    s != "" ==> !IsTrimmed(s[0]) && !IsTrimmed(s[|s| - 1])
  }

  lemma TrimmedListed(c: char)
    ensures IsTrimmed(c) <==> c in TRIMMED
  {
  }

  lemma {:induction false} TrimStartCuts(s: string) returns (before: string)
    ensures s == before + TrimStart(s) && AllTrimmed(before)
    ensures TrimStart(s) != "" ==> !IsTrimmed(TrimStart(s)[0])
  {
    if s != "" && IsTrimmed(s[0]) {
      var rest := TrimStartCuts(s[1..]);
      before := [s[0]] + rest;
      assert s == [s[0]] + s[1..];
    } else {
      before := "";
    }
  }

  lemma {:induction false} TrimEndCuts(s: string) returns (after: string)
    ensures s == TrimEnd(s) + after && AllTrimmed(after)
    ensures TrimEnd(s) != "" ==> TrimEnd(s)[0] == s[0] && !IsTrimmed(TrimEnd(s)[|TrimEnd(s)| - 1])
  {
    if s != "" && IsTrimmed(s[|s| - 1]) {
      var rest := TrimEndCuts(s[..|s| - 1]);
      after := rest + [s[|s| - 1]];
      assert s == s[..|s| - 1] + [s[|s| - 1]];
    } else {
      after := "";
    }
  }

  /** Trimming cuts white space off both ends, and all of it. */
  lemma TrimCuts(s: string)
    ensures exists before: string, after: string ::
              s == before + Trim(s) + after && AllTrimmed(before) && AllTrimmed(after) && TightlyTrimmed(Trim(s))
  {
    var before := TrimStartCuts(s);
    var after := TrimEndCuts(TrimStart(s));
    assert s == before + Trim(s) + after;
  }

  /**
   What one line does to the fields read so far: comments and unknown fields do nothing, a
   data line adds its value less one leading space, and the last id and event count.
   */
  lemma LinesAreFields(f: Fields, line: string, value: string)
    ensures line == "data:" + value ==>
              FieldStep(f, line) == f.(data := f.data + [if " " <= value then value[1..] else value])
    ensures line == "event:" + value ==> FieldStep(f, line) == f.(event := Trim(value))
    ensures line == "id:" + value ==> FieldStep(f, line) == f.(id := Some(Trim(value)))
    ensures !("data:" <= line) && !("event:" <= line) && !("id:" <= line) ==> FieldStep(f, line) == f
  {
    if line == "data:" + value {
      assert line[0] == 'd' && line[5..] == value;
    } else if line == "event:" + value {
      assert line[0] == 'e' && line[6..] == value;
    } else if line == "id:" + value {
      assert line[0] == 'i' && line[3..] == value;
    }
  }

  /** A single line of data is a message of the default name, without a number. */
  lemma PlainData(value: string)
    requires OneLine(value)
    ensures ParseFrame("data:" + value) == Some(Message(None, "message", if " " <= value then value[1..] else value))
  {
    var line := "data:" + value;
    LinesAreFields(NO_FIELDS, line, value);
    assert OneLine("data:");
    assert OneLine(line);
    LinesCons(line, "");
    var none: seq<string> := [];
    assert [line][..0] == none;
    assert FieldFold([line]) == FieldStep(NO_FIELDS, line);
    NotAllTrimmed(line);
  }

  lemma NotAllTrimmed(s: string)
    requires s != "" && s[0] == 'd'
    ensures Trim(s) != ""
  {
    var after := TrimEndCuts(s);
  }
}
