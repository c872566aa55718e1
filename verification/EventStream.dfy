/**
 What a run's event stream looks like on the wire, and what the browser's parser makes
 of it: whole, cut into chunks, or cut short.
 */
module EventStream {
  import opened Collections
  import opened Option
  import opened ServerSentEvents

  /** One item of a stream: an event, or the comment frame that keeps it alive. */
  datatype Item = Event(name: string, data: string, seqNo: Option<nat>) | Ping

  // ------------------------------------------------------------ the printer

  predicate AllDigits(s: string) {
    forall i :: 0 <= i < |s| ==> '0' <= s[i] <= '9'
  }

  function Decimal(n: nat): (r: string)
    ensures r != "" && AllDigits(r)
  {
    var digit := ['0' + (n % 10) as char];
    if n < 10 then digit else Decimal(n / 10) + digit
  }

  function FromDecimal(s: string): nat
    requires AllDigits(s)
  {
    if s == "" then 0 else 10 * FromDecimal(s[..|s| - 1]) + (s[|s| - 1] - '0') as nat
  }

  lemma {:induction false} DecimalRoundTrip(n: nat)
    ensures FromDecimal(Decimal(n)) == n && (n > 0 ==> Decimal(n)[0] != '0') && Decimal(0) == "0"
  {
    var s := Decimal(n);
    if n < 10 {
      assert s[..0] == "";
    } else {
      DecimalRoundTrip(n / 10);
      assert s[..|s| - 1] == Decimal(n / 10);
    }
  }

  function IdOf(e: Item): Option<string>
    requires e.Event?
  {
    match e.seqNo case None => None case Some(n) => Some(Decimal(n))
  }

  function HeadLines(e: Item): seq<string>
    requires e.Event?
  {
    (match IdOf(e) case None => [] case Some(id) => ["id: " + id]) + ["event: " + e.name]
  }

  /** A frame without the blank line that ends it. */
  function Body(item: Item): string {
    match item
    case Ping => ": ping"
    case Event(_, data, _) => JoinLines(HeadLines(item) + ["data: " + data])
  }

  function FormatSse(item: Item): string {
    Body(item) + "\n\n"
  }

  /** A stream, frame after frame. */
  function Stream(items: seq<Item>): string {
    if items == [] then "" else Stream(items[..|items| - 1]) + FormatSse(items[|items| - 1])
  }

  /** The messages a reader of the stream should see. */
  function Sent(items: seq<Item>): seq<Message> {
    if items == [] then []
    else Sent(items[..|items| - 1]) + MessageFor(items[|items| - 1])
  }

  function MessageFor(item: Item): seq<Message> {
    match item case Ping => [] case Event(name, data, _) => [Message(IdOf(item), name, data)]
  }

  /** Event names and JSON as the API writes them: single lines, the name without white space around it. */
  predicate Clean(item: Item) {
    item.Event? ==> OneLine(item.name) && OneLine(item.data) && Trim(item.name) == item.name
  }

  predicate AllClean(items: seq<Item>) {
    forall i :: 0 <= i < |items| ==> Clean(items[i])
  }

  // -------------------------------------------------------- lines and joins

  predicate AllOneLine(lines: seq<string>) {
    forall i :: 0 <= i < |lines| ==> OneLine(lines[i])
  }

  lemma {:induction false} LinesSnoc(s: string, line: string, read: string)
    requires OneLine(line)
    ensures LinesFrom(s + "\n" + line, read) == LinesFrom(s, read) + [line]
  {
    var all := s + "\n" + line;
    if s == "" {
      LinesCons(line, "");
      assert all[1..] == line;
    } else {
      assert all[1..] == s[1..] + "\n" + line;
      if s[0] == '\n' {
        LinesSnoc(s[1..], line, "");
        Assoc([read], LinesFrom(s[1..], ""), [line]);
      } else {
        LinesSnoc(s[1..], line, read + [s[0]]);
      }
    }
  }

  lemma {:induction false} LinesOfJoin(lines: seq<string>)
    requires lines != [] && AllOneLine(lines)
    ensures Lines(JoinLines(lines)) == lines
  {
    var init, last := lines[..|lines| - 1], lines[|lines| - 1];
    if init == [] {
      LinesCons(last, "");
    } else {
      LinesOfJoin(init);
      LinesSnoc(JoinLines(init), last, "");
    }
  }

  /** What has arrived of some lines is the first of them whole, and then part of the next. */
  lemma {:induction false} LinesOfPart(lines: seq<string>, part: string) returns (k: nat, p: string)
    requires lines != [] && AllOneLine(lines) && part <= JoinLines(lines)
    ensures k < |lines| && p <= lines[k] && Lines(part) == lines[..k] + [p]
    ensures |JoinLines(lines[..k + 1])| - |lines[k]| == |part| - |p|
  {
    var init, last := lines[..|lines| - 1], lines[|lines| - 1];
    if init == [] {
      k, p := 0, part;
      LinesCons(part, "");
      assert lines[..1] == lines;
    } else if |part| <= |JoinLines(init)| {
      k, p := LinesOfPart(init, part);
      assert init[..k] == lines[..k] && init[..k + 1] == lines[..k + 1];
    } else {
      k, p := |init|, part[|JoinLines(init)| + 1..];
      assert part == JoinLines(init) + "\n" + p;
      LinesOfJoin(init);
      LinesSnoc(JoinLines(init), p, "");
      assert lines[..k + 1] == lines;
    }
  }

  // ------------------------------------------------------------ white space

  lemma {:induction false} TrimEndKeepsHead(s: string)
    requires s != "" && !IsTrimmed(s[0])
    ensures TrimEnd(s) != "" && TrimEnd(s)[0] == s[0]
  {
    if IsTrimmed(s[|s| - 1]) {
      TrimEndKeepsHead(s[..|s| - 1]);
    }
  }

  /** Nothing to trim at either end. */
  predicate Tight(s: string) {
    s != "" ==> !IsTrimmed(s[0]) && !IsTrimmed(s[|s| - 1])
  }

  lemma {:induction false} TrimStartResult(s: string)
    ensures var r := TrimStart(s);
            |r| <= |s| && r == s[|s| - |r|..] && (r != "" ==> !IsTrimmed(r[0]))
  {
    if s != "" && IsTrimmed(s[0]) {
      var rest := s[1..];
      TrimStartResult(rest);
      var k := |rest| - |TrimStart(rest)|;
      assert rest[k..] == s[k + 1..];
    }
  }

  lemma {:induction false} TrimEndResult(s: string)
    ensures TrimEnd(s) <= s
    ensures TrimEnd(s) != "" ==> !IsTrimmed(TrimEnd(s)[|TrimEnd(s)| - 1])
  {
    if s != "" && IsTrimmed(s[|s| - 1]) {
      TrimEndResult(s[..|s| - 1]);
    }
  }

  lemma TrimResult(s: string)
    ensures Tight(Trim(s)) && (OneLine(s) ==> OneLine(Trim(s)))
    ensures Tight(s) ==> Trim(s) == s
  {
    TrimStartResult(s);
    TrimEndResult(TrimStart(s));
  }

  lemma TrimAfterSpace(s: string)
    ensures Trim(" " + s) == Trim(s)
  {
    assert (" " + s)[1..] == s;
  }

  // --------------------------------------------------------------- one frame

  /** The fields a parser can be in always hold a trimmed, single-line event name. */
  predicate TidyEvent(f: Fields) {
    OneLine(f.event) && Tight(f.event)
  }

  lemma {:induction false} EventsAreTidy(lines: seq<string>)
    requires AllOneLine(lines)
    ensures TidyEvent(FieldFold(lines))
  {
    if lines != [] {
      var last := lines[|lines| - 1];
      assert OneLine(last);
      EventsAreTidy(lines[..|lines| - 1]);
      if "event:" <= last {
        TrimResult(last[6..]);
      }
    }
  }

  lemma FoldSnoc(lines: seq<string>, line: string)
    ensures FieldFold(lines + [line]) == FieldStep(FieldFold(lines), line)
  {
    assert (lines + [line])[..|lines|] == lines;
  }

  lemma StepId(f: Fields, id: string)
    requires Tight(id)
    ensures FieldStep(f, "id: " + id) == f.(id := Some(id))
  {
    var line := "id: " + id;
    assert line[0] == 'i' && line[..3] == "id:";
    TrimAfterSpace(id);
    TrimResult(id);
    assert ("id: " + id)[3..] == " " + id;
  }

  lemma StepEvent(f: Fields, name: string)
    ensures FieldStep(f, "event: " + name) == f.(event := Trim(name))
  {
    var line := "event: " + name;
    assert line[0] == 'e' && line[..6] == "event:";
    TrimAfterSpace(name);
    assert ("event: " + name)[6..] == " " + name;
  }

  lemma StepData(f: Fields, data: string)
    ensures FieldStep(f, "data: " + data) == f.(data := f.data + [data])
    ensures FieldStep(f, "data:") == f.(data := f.data + [""])
  {
    var line := "data: " + data;
    assert line[0] == 'd' && line[..5] == "data:";
    assert ("data: " + data)[5..] == " " + data;
    assert (" " + data)[1..] == data;
  }

  lemma HeadFields(e: Item)
    requires e.Event?
    ensures FieldFold(HeadLines(e)) == Fields(IdOf(e), Trim(e.name), [])
  {
    assert FieldFold([]) == NO_FIELDS;
    match IdOf(e)
    case None =>
      FoldSnoc([], "event: " + e.name);
      StepEvent(NO_FIELDS, e.name);
    case Some(id) =>
      FoldSnoc([], "id: " + id);
      StepId(NO_FIELDS, id);
      FoldSnoc(["id: " + id], "event: " + e.name);
      StepEvent(NO_FIELDS.(id := Some(id)), e.name);
  }

  lemma HeadIsOneLine(e: Item)
    requires e.Event? && OneLine(e.name)
    ensures AllOneLine(HeadLines(e))
  {
  }

  lemma HeadText(e: Item)
    requires e.Event?
    ensures var head := JoinLines(HeadLines(e));
            head != "" && head[0] in "ie" && Body(e) == head + "\n" + ("data: " + e.data)
  {
    var lines := HeadLines(e);
    assert (lines + ["data: " + e.data])[..|lines|] == lines;
    if e.seqNo.Some? {
      assert lines[..1] == [lines[0]] && JoinLines([lines[0]]) == lines[0];
    }
  }

  lemma BodyStartsInk(e: Item, part: string)
    requires e.Event? && part != "" && part[0] == Body(e)[0]
    ensures Trim(part) != ""
  {
    HeadText(e);
    assert part[0] in "ie";
    TrimEndKeepsHead(part);
  }

  /** A clean event parses back to itself. */
  lemma CleanRoundTrip(e: Item)
    requires e.Event? && Clean(e)
    ensures ParseFrame(Body(e)) == Some(Message(IdOf(e), e.name, e.data))
  {
    HeadIsOneLine(e);
    LinesOfJoin(HeadLines(e) + ["data: " + e.data]);
    HeadFields(e);
    FoldSnoc(HeadLines(e), "data: " + e.data);
    StepData(FieldFold(HeadLines(e)), e.data);
    BodyStartsInk(e, Body(e));
    assert JoinLines([e.data]) == e.data;
  }

  // ------------------------------------------ exactly which frames round-trip

  /** Characters a list of lines takes up, line ends included. */
  function Size(lines: seq<string>): nat {
    if lines == [] then 0 else Size(lines[..|lines| - 1]) + |lines[|lines| - 1]| + 1
  }

  lemma {:induction false} SizeOfJoin(lines: seq<string>)
    requires lines != []
    ensures Size(lines) == |JoinLines(lines)| + 1
  {
    var init := lines[..|lines| - 1];
    if init == [] {
      assert Size(init) == 0;
    } else {
      SizeOfJoin(init);
    }
  }

  lemma {:induction false} SizeOfSplit(s: string, read: string)
    ensures Size(LinesFrom(s, read)) == |s| + |read| + 1
  {
    if s == "" {
      assert [read][..0] == [] && Size([]) == 0;
    } else if s[0] == '\n' {
      SizeOfSplit(s[1..], "");
      SizeCons(read, LinesFrom(s[1..], ""));
    } else {
      SizeOfSplit(s[1..], read + [s[0]]);
    }
  }

  lemma {:induction false} SizeCons(line: string, lines: seq<string>)
    ensures Size([line] + lines) == |line| + 1 + Size(lines)
  {
    var all := [line] + lines;
    if lines == [] {
      assert all[..0] == [] && Size([]) == 0;
    } else {
      assert all[..|all| - 1] == [line] + lines[..|lines| - 1];
      SizeCons(line, lines[..|lines| - 1]);
    }
  }

  lemma DataSizeStep(f: Fields, line: string)
    ensures Size(FieldStep(f, line).data) <= Size(f.data) + |line|
  {
    if "data:" <= line && !(":" <= line) {
      var d := DropOneSpace(line[5..]);
      assert (f.data + [d])[..|f.data|] == f.data;
    }
  }

  /** Every line read after the first data line gives less data than it is long. */
  lemma {:induction false} DataShrinks(first: seq<string>, lines: seq<string>)
    ensures Size(FieldFold(first + lines).data) + |lines| <= Size(FieldFold(first).data) + Size(lines)
  {
    if lines == [] {
      assert first + lines == first;
    } else {
      var init, last := lines[..|lines| - 1], lines[|lines| - 1];
      assert first + lines == (first + init) + [last];
      DataShrinks(first, init);
      FoldSnoc(first + init, last);
      DataSizeStep(FieldFold(first + init), last);
    }
  }

  lemma {:induction false} SplitLine(s: string) returns (line: string, rest: string)
    requires !OneLine(s)
    ensures OneLine(line) && s == line + "\n" + rest
  {
    if s[0] == '\n' {
      line, rest := "", s[1..];
    } else {
      line, rest := SplitLine(s[1..]);
      line := [s[0]] + line;
    }
  }

  lemma DataSizeOfOne(data: string)
    ensures Size([data]) == |data| + 1
  {
    assert [data][..0] == [] && Size([]) == 0;
  }

  /** The lines of an event whose data spans lines: those up to the first break, and the rest. */
  lemma BrokenLines(e: Item, line: string, rest: string)
    requires e.Event? && OneLine(e.name) && OneLine(line) && e.data == line + "\n" + rest
    ensures Lines(Body(e)) == HeadLines(e) + ["data: " + line] + Lines(rest)
  {
    var short := Body(e.(data := line));
    HeadIsOneLine(e);
    HeadText(e);
    HeadText(e.(data := line));
    assert Body(e) == short + "\n" + rest;
    LinesOfJoin(HeadLines(e) + ["data: " + line]);
    LinesAppend(short, rest);
  }

  lemma FirstDataLine(e: Item, line: string)
    requires e.Event?
    ensures var f := FieldFold(HeadLines(e) + ["data: " + line]);
            f.data == [line]
  {
    HeadFields(e);
    FoldSnoc(HeadLines(e), "data: " + line);
    StepData(FieldFold(HeadLines(e)), line);
  }

  /** Data that spans lines comes back shorter than it went. */
  lemma BrokenDataShrinks(e: Item)
    requires e.Event? && OneLine(e.name) && !OneLine(e.data)
    ensures var f := FieldFold(Lines(Body(e)));
            f.data != [] && |JoinLines(f.data)| < |e.data|
  {
    var line, rest := SplitLine(e.data);
    var first := HeadLines(e) + ["data: " + line];
    BrokenLines(e, line, rest);
    FirstDataLine(e, line);
    DataSizeOfOne(line);
    DataShrinks(first, Lines(rest));
    SizeOfSplit(rest, "");
    DataStays(first, Lines(rest));
    SizeOfJoin(FieldFold(Lines(Body(e))).data);
  }

  lemma {:induction false} LinesAppendFrom(s: string, rest: string, read: string)
    ensures LinesFrom(s + "\n" + rest, read) == LinesFrom(s, read) + Lines(rest)
  {
    var all := s + "\n" + rest;
    if s == "" {
      assert all[1..] == rest;
    } else {
      assert all[1..] == s[1..] + "\n" + rest;
      if s[0] == '\n' {
        LinesAppendFrom(s[1..], rest, "");
        Assoc([read], LinesFrom(s[1..], ""), Lines(rest));
      } else {
        LinesAppendFrom(s[1..], rest, read + [s[0]]);
      }
    }
  }

  lemma LinesAppend(s: string, rest: string)
    ensures Lines(s + "\n" + rest) == Lines(s) + Lines(rest)
  {
    LinesAppendFrom(s, rest, "");
  }

  lemma {:induction false} DataStays(first: seq<string>, lines: seq<string>)
    requires FieldFold(first).data != []
    ensures FieldFold(first + lines).data != []
  {
    if lines == [] {
      assert first + lines == first;
    } else {
      var init, last := lines[..|lines| - 1], lines[|lines| - 1];
      assert first + lines == (first + init) + [last];
      DataStays(first, init);
      FoldSnoc(first + init, last);
    }
  }

  // ------------------------------------------------------------ whole streams

  /** No blank line inside, and no line end at the end. */
  predicate Unbroken(s: string) {
    && s != "" && s[|s| - 1] != '\n'
    && forall i :: 0 <= i && i + 1 < |s| ==> !(s[i] == s[i + 1] == '\n')
  }

  lemma LineIsUnbroken(line: string)
    requires line != "" && OneLine(line)
    ensures Unbroken(line)
  {
  }

  lemma JoinUnbroken(s: string, line: string)
    requires Unbroken(s) && line != "" && OneLine(line)
    ensures Unbroken(s + "\n" + line)
  {
    var all := s + "\n" + line;
    forall i | 0 <= i && i + 1 < |all|
      ensures !(all[i] == all[i + 1] == '\n')
    {
      if i < |s| {
        assert all[i] == s[i];
      } else {
        assert all[i + 1] == line[i - |s|];
      }
    }
  }

  lemma BodyIsUnbroken(item: Item)
    requires Clean(item)
    ensures Unbroken(Body(item))
  {
    if item.Event? {
      HeadText(item);
      var head, event := JoinLines(HeadLines(item)), "event: " + item.name;
      LineIsUnbroken(event);
      match IdOf(item) {
        case None =>
        case Some(id) =>
          var line := "id: " + id;
          assert OneLine(line);
          LineIsUnbroken(line);
          JoinUnbroken(line, event);
          assert [line, event][..1] == [line];
      }
      JoinUnbroken(head, "data: " + item.data);
    }
  }

  lemma FrameOfBody(item: Item)
    requires Clean(item)
    ensures Frames(FormatSse(item)) == Framed([Body(item)], "")
  {
    var body := Body(item);
    BodyIsUnbroken(item);
    var all := body + "\n\n" + "";
    assert all == FormatSse(item);
    assert forall i :: 0 <= i < |body| ==> all[i] == body[i];
    SeparatorIsFirst(all, |body|);
    FramesStep(all, body, "");
    assert Frames("") == Framed([], "");
    assert [body] + [] == [body];
  }

  lemma MessageOfBody(item: Item)
    requires Clean(item)
    ensures MessageOf(Body(item)) == MessageFor(item)
  {
    if item.Event? {
      CleanRoundTrip(item);
    } else {
      LinesCons(": ping", "");
      FoldSnoc([], ": ping");
      assert [] + [": ping"] == [": ping"];
      assert FieldFold([": ping"]) == NO_FIELDS;
    }
  }

  lemma DrainedThen(s: string, a: seq<Message>, t: string, b: seq<Message>, u: string)
    requires Drained(s, a, t) && Drained(t, b, u)
    ensures Drained(s, a + b, u)
  {
    Assoc(a, b, MessagesOf(Frames(u).frames));
  }

  /** A stream of clean items breaks into their frames, with nothing left over. */
  lemma {:induction false} StreamFrames(items: seq<Item>, more: string)
    requires AllClean(items)
    ensures Drained(Stream(items) + more, Sent(items), more)
    decreases |items|
  {
    if items == [] {
      assert Stream(items) + more == more;
      NothingDrained(more);
    } else {
      var init, last := items[..|items| - 1], items[|items| - 1];
      StreamFrames(init, FormatSse(last) + more);
      FrameThen(last, more);
      Assoc(Stream(init), FormatSse(last), more);
      DrainedThen(Stream(items) + more, Sent(init), FormatSse(last) + more, MessageFor(last), more);
    }
  }

  lemma FrameThen(item: Item, more: string)
    requires Clean(item)
    ensures Drained(FormatSse(item) + more, MessageFor(item), more)
  {
    FrameOfBody(item);
    FramesGrow(FormatSse(item), more);
    assert "" + more == more;
    MessagesCons(Body(item), Frames(more).frames);
    MessageOfBody(item);
  }

  /** What the parser yields once no complete frame is left. */
  lemma ParseDrained(text: string, messages: seq<Message>, buffer: string)
    requires Drained(text, messages, buffer) && Frames(buffer) == Framed([], buffer)
    ensures Parse(text) == messages + MessageOf(buffer)
  {
    assert messages + [] == messages;
  }

  lemma NothingLeft()
    ensures Frames("") == Framed([], "") && MessageOf("") == []
  {
  }

  /**
   Printing any clean events, with any keep-alive frames between them, and cutting the
   stream anywhere: the parser yields exactly those events.
   */
  lemma StreamRoundTrip(items: seq<Item>, chunks: seq<string>)
    requires AllClean(items) && Concat(chunks) == Stream(items)
    ensures Parse(Concat(chunks)) == Sent(items)
  {
    StreamFrames(items, "");
    assert Stream(items) + "" == Stream(items);
    NothingLeft();
    ParseDrained(Stream(items), Sent(items), "");
    assert Sent(items) + [] == Sent(items);
  }

  // -------------------------------------------- exactly which events survive

  lemma FrameNameIsTidy(frame: string)
    ensures OneLine(FieldFold(Lines(frame)).event)
    ensures Trim(FieldFold(Lines(frame)).event) == FieldFold(Lines(frame)).event
  {
    LinesAreLines(frame, "");
    EventsAreTidy(Lines(frame));
    TrimResult(FieldFold(Lines(frame)).event);
  }

  lemma FrameDataIsShort(frame: string)
    requires FieldFold(Lines(frame)).data != []
    ensures |JoinLines(FieldFold(Lines(frame)).data)| < |frame|
  {
    var lines := Lines(frame);
    DataShrinks([], lines);
    assert [] + lines == lines && FieldFold([]) == NO_FIELDS && Size([]) == 0;
    SizeOfSplit(frame, "");
    SizeOfJoin(FieldFold(lines).data);
  }

  lemma FrameIsTidy(frame: string)
    ensures forall m <- MessageOf(frame) :: OneLine(m.event) && Trim(m.event) == m.event && |m.data| < |frame|
  {
    FrameNameIsTidy(frame);
    if FieldFold(Lines(frame)).data != [] {
      FrameDataIsShort(frame);
    }
  }

  /** Messages whose data is shorter than `n`, under tidy names. */
  predicate ShortMessages(messages: seq<Message>, n: nat) {
    forall i :: 0 <= i < |messages| ==>
      |messages[i].data| < n && OneLine(messages[i].event) && Trim(messages[i].event) == messages[i].event
  }

  predicate ShortFrames(frames: seq<string>, n: nat) {
    forall i :: 0 <= i < |frames| ==> |frames[i]| <= n
  }

  lemma FrameIsShort(frame: string, n: nat)
    requires |frame| <= n
    ensures ShortMessages(MessageOf(frame), n)
  {
    FrameIsTidy(frame);
    assert forall i :: 0 <= i < |MessageOf(frame)| ==> MessageOf(frame)[i] in MessageOf(frame);
  }

  lemma {:induction false} FramesAreShort(frames: seq<string>, n: nat)
    requires ShortFrames(frames, n)
    ensures ShortMessages(MessagesOf(frames), n)
  {
    if frames != [] {
      FramesAreShort(frames[..|frames| - 1], n);
      FrameIsShort(frames[|frames| - 1], n);
    }
  }

  lemma {:induction false} FramesFit(s: string)
    ensures ShortFrames(Frames(s).frames, |s|) && |Frames(s).rest| <= |s|
    decreases |s|
  {
    if Separator(s).Some? {
      FramesFit(s[Separator(s).value + 2..]);
    }
  }

  /** What is parsed from a text is shorter than the text. */
  lemma ParseIsShort(s: string)
    ensures ShortMessages(Parse(s), |s|)
  {
    FramesFit(s);
    FramesAreShort(Frames(s).frames, |s|);
    FrameIsShort(Frames(s).rest, |s|);
  }

  /** The first frame of a text, and what is parsed from the rest. */
  lemma ParseFirst(s: string, frame: string, rest: string)
    requires s == frame + "\n\n" + rest && Separator(s) == Some(|frame|)
    ensures Parse(s) == MessageOf(frame) + Parse(rest)
  {
    FramesStep(s, frame, rest);
    MessagesCons(frame, Frames(rest).frames);
    Assoc(MessageOf(frame), MessagesOf(Frames(rest).frames), MessageOf(Frames(rest).rest));
  }

  function Tidy(e: Item): Item
    requires e.Event?
  {
    e.(data := "")
  }

  /** The text of a frame up to its data holds no blank line, and ends in a space. */
  lemma HeadHasNoBreak(e: Item)
    requires e.Event? && OneLine(e.name) && Trim(e.name) == e.name
    ensures Unbroken(Body(Tidy(e))) && Body(Tidy(e))[|Body(Tidy(e))| - 1] == ' '
    ensures forall data: string :: Body(e.(data := data)) == Body(Tidy(e)) + data
  {
    BodyIsUnbroken(Tidy(e));
    BodyText(e, "");
    forall data: string
      ensures Body(e.(data := data)) == Body(Tidy(e)) + data
    {
      BodyText(e, data);
    }
  }

  lemma BreakAfterHead(head: string, data: string)
    requires Unbroken(head) && head[|head| - 1] == ' '
    ensures var cut := Separator(head + data + "\n\n");
            cut.Some? && |head| <= cut.value <= |head| + |data|
  {
    var text := head + data + "\n\n";
    assert text[|head| + |data|] == text[|head| + |data| + 1] == '\n';
    forall i | 0 <= i < |head|
      ensures !(text[i] == text[i + 1] == '\n')
    {
      assert text[i] == head[i] && (i + 1 < |head| ==> text[i + 1] == head[i + 1]);
    }
  }

  /** Where the parser ends the first frame: not before the data. */
  lemma FirstBreak(e: Item) returns (n: nat)
    requires e.Event? && OneLine(e.name) && Trim(e.name) == e.name
    ensures n <= |e.data| && Separator(FormatSse(e)) == Some(|Body(Tidy(e))| + n)
  {
    var head := Body(Tidy(e));
    HeadHasNoBreak(e);
    BreakAfterHead(head, e.data);
    assert e.(data := e.data) == e && FormatSse(e) == head + e.data + "\n\n";
    n := Separator(FormatSse(e)).value - |head|;
  }

  lemma PrefixOfPrinted(head: string, data: string, n: nat, frame: string, rest: string)
    requires head + data + "\n\n" == frame + "\n\n" + rest && |frame| == |head| + n && n <= |data|
    ensures frame == head + data[..n] && |rest| <= |data|
  {
    var text := head + data + "\n\n";
    assert |text| == |head| + |data| + 2;
    assert frame == text[..|frame|];
    assert text[..|frame|] == head + data[..n];
  }

  lemma FirstOfPrinted(e: Item, n: nat, frame: string, rest: string)
    requires e.Event? && OneLine(e.name) && Trim(e.name) == e.name && n <= |e.data|
    requires FormatSse(e) == frame + "\n\n" + rest && |frame| == |Body(Tidy(e))| + n
    ensures frame == Body(e.(data := e.data[..n])) && |rest| <= |e.data|
  {
    HeadHasNoBreak(e);
    assert e.(data := e.data) == e;
    PrefixOfPrinted(Body(Tidy(e)), e.data, n, frame, rest);
  }

  /** The first frame holds a beginning of the data; what is parsed after it is shorter than the data. */
  lemma PrintedParse(e: Item) returns (n: nat, rest: string)
    requires e.Event? && OneLine(e.name) && Trim(e.name) == e.name
    ensures n <= |e.data| && |rest| <= |e.data|
    ensures Parse(FormatSse(e)) == MessageOf(Body(e.(data := e.data[..n]))) + Parse(rest)
  {
    n := FirstBreak(e);
    var frame;
    frame, rest := SplitAtSeparator(FormatSse(e));
    FirstOfPrinted(e, n, frame, rest);
    ParseFirst(FormatSse(e), frame, rest);
  }

  lemma FirstFrameIsShort(e: Item, n: nat)
    requires e.Event? && OneLine(e.name) && Trim(e.name) == e.name && !OneLine(e.data) && n <= |e.data|
    ensures ShortMessages(MessageOf(Body(e.(data := e.data[..n]))), |e.data|)
  {
    var first := e.(data := e.data[..n]);
    FrameIsTidy(Body(first));
    assert forall m <- MessageOf(Body(first)) :: OneLine(m.event) && Trim(m.event) == m.event;
    if OneLine(first.data) {
      assert n < |e.data|;
      CleanRoundTrip(first);
    } else {
      BrokenDataShrinks(first);
    }
  }

  /** Data that spans lines is never parsed back: every message is shorter. */
  lemma BrokenDataIsLost(e: Item)
    requires e.Event? && OneLine(e.name) && Trim(e.name) == e.name && !OneLine(e.data)
    ensures ShortMessages(Parse(FormatSse(e)), |e.data|)
  {
    var n, rest := PrintedParse(e);
    FirstFrameIsShort(e, n);
    ParseIsShort(rest);
  }

  /** An event survives printing and parsing exactly when it is clean. */
  lemma RoundTripIffClean(e: Item)
    requires e.Event?
    ensures Parse(FormatSse(e)) == [Message(IdOf(e), e.name, e.data)] <==> Clean(e)
  {
    var whole := [Message(IdOf(e), e.name, e.data)];
    if Clean(e) {
      assert [e][..0] == [] && Stream([e]) == "" + FormatSse(e) == FormatSse(e);
      assert MessageFor(e) == whole && Sent([e]) == [] + whole == whole;
      assert [FormatSse(e)][..0] == [] && Concat([FormatSse(e)]) == "" + FormatSse(e);
      StreamRoundTrip([e], [FormatSse(e)]);
    } else if OneLine(e.name) && Trim(e.name) == e.name {
      BrokenDataIsLost(e);
      assert whole[0].data == e.data;
    } else {
      ParseIsShort(FormatSse(e));
      assert whole[0].event == e.name;
    }
  }

  // -------------------------------------------------------- streams cut short

  lemma PrefixOfConcat(a: string, b: string, text: string)
    requires text <= a + b
    ensures |text| < |a| ==> text < a
    ensures |text| >= |a| ==> text[|a|..] <= b && text == a + text[|a|..]
  {
    assert text == (a + b)[..|text|];
  }

  /** Where a prefix of a stream stops. */
  lemma {:induction false} WhereItStops(items: seq<Item>, text: string) returns (k: nat, part: string)
    requires text <= Stream(items)
    ensures k <= |items| && text == Stream(items[..k]) + part
    ensures if k == |items| then part == "" else part < FormatSse(items[k])
    decreases |items|
  {
    if text == Stream(items) {
      k, part := |items|, "";
      assert items[..k] == items;
    } else {
      var init, last := items[..|items| - 1], items[|items| - 1];
      PrefixOfConcat(Stream(init), FormatSse(last), text);
      if |text| < |Stream(init)| {
        k, part := WhereItStops(init, text);
        assert init[..k] == items[..k];
      } else {
        k, part := |init|, text[|Stream(init)|..];
        assert items[..k] == init;
      }
    }
  }

  lemma UnbrokenPart(body: string, part: string)
    requires Unbroken(body) && part < body + "\n\n"
    ensures Separator(part).None?
  {
    var all := body + "\n\n";
    forall i | 0 <= i && i + 1 < |part|
      ensures !(part[i] == part[i + 1] == '\n')
    {
      assert part[i] == all[i] && part[i + 1] == all[i + 1] && all[i] == body[i];
    }
  }

  lemma PartHasNoFrame(item: Item, part: string)
    requires Clean(item) && part < FormatSse(item)
    ensures Frames(part) == Framed([], part)
  {
    BodyIsUnbroken(item);
    UnbrokenPart(Body(item), part);
  }

  /**
   A connection that drops: every event that arrived whole is delivered, and then
   whatever the parser makes of the frame it was cut in.
   */
  lemma CutStream(items: seq<Item>, text: string) returns (k: nat, part: string)
    requires AllClean(items) && text <= Stream(items)
    ensures k <= |items| && text == Stream(items[..k]) + part
    ensures if k == |items| then part == "" else part < FormatSse(items[k])
    ensures Parse(text) == Sent(items[..k]) + MessageOf(part)
  {
    k, part := WhereItStops(items, text);
    StreamFrames(items[..k], part);
    if k == |items| {
      NothingLeft();
    } else {
      PartHasNoFrame(items[k], part);
    }
    ParseDrained(text, Sent(items[..k]), part);
  }

  lemma PartOfData(e: Item, part: string, p: string)
    requires e.Event? && part <= Body(e) && p <= "data: " + e.data && Lines(part) == HeadLines(e) + [p]
    requires |Body(e)| - |"data: " + e.data| == |part| - |p|
    ensures MessageOf(part) != [] <==> |part| + |e.data| + 1 >= |Body(e)|
  {
    CutInData(e, part, p);
  }

  lemma PartOfHead(e: Item, part: string, k: nat, p: string)
    requires e.Event? && k < |HeadLines(e)| && p <= HeadLines(e)[k] && Lines(part) == HeadLines(e)[..k] + [p]
    requires |JoinLines(HeadLines(e)[..k + 1])| - |HeadLines(e)[k]| == |part| - |p|
    ensures MessageOf(part) == [] && |part| + |e.data| + 1 < |Body(e)|
  {
    HeadText(e);
    HeadPartHasNoData(e, k, p);
    JoinGrows(HeadLines(e), k + 1);
  }

  lemma HeadOfSlice(head: seq<string>, last: string, k: nat)
    requires k <= |head|
    ensures (head + [last])[..k] == head[..k]
    ensures if k == |head|
            then head[..k] == head && (head + [last])[..k + 1] == head + [last] && (head + [last])[k] == last
            else (head + [last])[..k + 1] == head[..k + 1] && (head + [last])[k] == head[k]
  {
  }

  lemma CutBodyIsDispatched(e: Item, part: string)
    requires e.Event? && Clean(e) && part <= Body(e)
    ensures MessageOf(part) != [] <==> |part| + |e.data| + 1 >= |Body(e)|
  {
    HeadIsOneLine(e);
    var k, p := LinesOfPart(HeadLines(e) + ["data: " + e.data], part);
    HeadOfSlice(HeadLines(e), "data: " + e.data, k);
    if k == |HeadLines(e)| {
      PartOfData(e, part, p);
    } else {
      PartOfHead(e, part, k, p);
    }
  }

  lemma BreakAddsNothing(s: string)
    ensures FieldFold(Lines(s + "\n")) == FieldFold(Lines(s))
  {
    LinesSnoc(s, "", "");
    assert s + "\n" + "" == s + "\n";
    FoldSnoc(Lines(s), "");
  }

  /** The line break after the data line adds an empty line, which says nothing. */
  lemma BodyAndBreak(e: Item)
    requires e.Event? && Clean(e)
    ensures MessageOf(Body(e) + "\n") != []
  {
    CutBodyIsDispatched(e, Body(e));
    BreakAddsNothing(Body(e));
    HeadText(e);
    BodyStartsInk(e, Body(e) + "\n");
  }

  /**
   The parser dispatches a cut frame as soon as the word `data:` has arrived. The
   standard (section 9.2.6) says an event that is incomplete at the end of the stream
   is discarded.
   */
  lemma CutFrameIsDispatched(e: Item, part: string)
    requires e.Event? && Clean(e) && part < FormatSse(e)
    ensures MessageOf(part) != [] <==> |part| + |e.data| + 1 >= |Body(e)|
  {
    PrefixOfConcat(Body(e), "\n\n", part);
    if |part| < |Body(e)| {
      CutBodyIsDispatched(e, part);
    } else if part[|Body(e)|..] == "" {
      assert part == Body(e);
      CutBodyIsDispatched(e, part);
    } else {
      assert part[|Body(e)|..] == "\n";
      BodyAndBreak(e);
    }
  }

  lemma CutInData(e: Item, part: string, p: string)
    requires e.Event? && part <= Body(e) && p <= "data: " + e.data
    requires Lines(part) == HeadLines(e) + [p] && |part| - |p| == |Body(e)| - |e.data| - 6
    ensures MessageOf(part) != [] <==> |p| >= 5
  {
    HeadFields(e);
    FoldSnoc(HeadLines(e), p);
    CutDataLine(FieldFold(HeadLines(e)), e.data, p);
    if |p| >= 5 {
      HeadText(e);
      BodyStartsInk(e, part);
    }
  }

  lemma CutDataLine(f: Fields, data: string, p: string)
    requires f.data == [] && p <= "data: " + data
    ensures FieldStep(f, p).data != [] <==> |p| >= 5
  {
    var line := "data: " + data;
    assert line[0] == 'd' && line[..5] == "data:";
    if |p| >= 5 {
      assert p[..5] == line[..5];
    }
  }

  /** A line that cannot be a data line. */
  predicate NotData(line: string) {
    line != "" ==> line[0] != 'd'
  }

  lemma {:induction false} NoDataLines(lines: seq<string>)
    requires forall i :: 0 <= i < |lines| ==> NotData(lines[i])
    ensures FieldFold(lines).data == []
  {
    if lines != [] {
      assert NotData(lines[|lines| - 1]);
      NoDataLines(lines[..|lines| - 1]);
    }
  }

  lemma HeadPartHasNoData(e: Item, k: nat, p: string)
    requires e.Event? && k < |HeadLines(e)| && p <= HeadLines(e)[k]
    ensures FieldFold(HeadLines(e)[..k] + [p]).data == []
  {
    assert forall i :: 0 <= i < |HeadLines(e)| ==> NotData(HeadLines(e)[i]);
    assert p != "" ==> p[0] == HeadLines(e)[k][0];
    NoDataLines(HeadLines(e)[..k] + [p]);
  }

  lemma {:induction false} JoinGrows(lines: seq<string>, k: nat)
    requires 0 < k <= |lines|
    ensures |JoinLines(lines[..k])| <= |JoinLines(lines)|
    decreases |lines|
  {
    if k < |lines| {
      var init := lines[..|lines| - 1];
      JoinGrows(init, k);
      assert init[..k] == lines[..k];
    } else {
      assert lines[..k] == lines;
    }
  }

  /** So a stream cut inside an event's data delivers a message nobody sent. */
  lemma CutDataIsDelivered(items: seq<Item>, e: Item, kept: string) returns (text: string)
    requires AllClean(items + [e]) && e.Event? && kept < e.data
    ensures text < Stream(items + [e])
    ensures Parse(text) == Sent(items) + [Message(IdOf(e), e.name, kept)]
  {
    var cut := Body(e.(data := kept));
    CleanParts(items, e, kept);
    CutBody(e, kept);
    text := Stream(items) + cut;
    assert text < Stream(items) + FormatSse(e);
    StreamFrames(items, cut);
    PartHasNoFrame(e, cut);
    ParseDrained(text, Sent(items), cut);
  }

  lemma CutBody(e: Item, kept: string)
    requires e.Event? && Clean(e) && Clean(e.(data := kept)) && kept < e.data
    ensures Body(e.(data := kept)) < FormatSse(e)
    ensures MessageOf(Body(e.(data := kept))) == [Message(IdOf(e), e.name, kept)]
  {
    BodyText(e, e.data);
    BodyText(e, kept);
    StartsAlike(JoinLines(HeadLines(e)) + "\ndata: ", kept, e.data, "\n\n");
    MessageOfBody(e.(data := kept));
  }

  /** The same event with other data has the same head. */
  lemma BodyText(e: Item, data: string)
    requires e.Event?
    ensures Body(e.(data := data)) == JoinLines(HeadLines(e)) + "\ndata: " + data
  {
    var other := e.(data := data);
    HeadText(other);
    assert HeadLines(other) == HeadLines(e);
    var head := JoinLines(HeadLines(e));
    assert head + "\n" + ("data: " + data) == head + "\ndata: " + data;
  }

  lemma StartsAlike(a: string, b: string, c: string, d: string)
    requires b < c
    ensures a + b < a + c + d
  {
    assert c == b + c[|b|..];
    assert a + c + d == a + b + (c[|b|..] + d);
  }

  lemma CleanParts(items: seq<Item>, e: Item, kept: string)
    requires AllClean(items + [e]) && e.Event? && kept < e.data
    ensures AllClean(items) && Clean(e) && Clean(e.(data := kept))
    ensures Stream(items + [e]) == Stream(items) + FormatSse(e)
  {
    assert (items + [e])[..|items|] == items && (items + [e])[|items|] == e;
    assert forall i :: 0 <= i < |items| ==> items[i] == (items + [e])[i];
    assert forall i :: 0 <= i < |kept| ==> kept[i] == e.data[i];
  }
}
