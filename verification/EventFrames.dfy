/** The server-sent event frames of `internal/api/eventstream.go` and `activity.go`, and the reader
    they are written for: sections 9.2.5 and 9.2.6 of the HTML Standard. */
module EventFrames {
  import opened Text

  predicate IsBreak(c: char) {
    c == '\r' || c == '\n'
  }

  predicate NoBreaks(s: string) {
    forall i :: 0 <= i < |s| ==> !IsBreak(s[i])
  }

  // ----- What the writers do to text

  /** `strings.NewReplacer("\r\n", by, "\r", by, "\n", by).Replace(s)` */
  function ReplaceBreaks(s: string, sub: string): string {
    if s == "" then ""
    else if s[0] == '\r' && |s| > 1 && s[1] == '\n' then sub + ReplaceBreaks(s[2..], sub)
    else if IsBreak(s[0]) then sub + ReplaceBreaks(s[1..], sub)
    else [s[0]] + ReplaceBreaks(s[1..], sub)
  }

  function StripBreaks(s: string): string {
    ReplaceBreaks(s, "")
  }

  function NormaliseBreaks(s: string): string {
    ReplaceBreaks(s, "\n")
  }

  /** `strings.TrimRight(s, "\n")` */
  function TrimNewlines(s: string): string {
    if s != "" && s[|s| - 1] == '\n' then TrimNewlines(s[..|s| - 1]) else s
  }

  /** `strings.SplitSeq(s, "\n")` */
  function Split(s: string): (lines: seq<string>)
    ensures |lines| > 0
  {
    if s == "" then [""]
    else if s[0] == '\n' then [""] + Split(s[1..])
    else Grow(s[0], Split(s[1..]))
  }

  function Grow(c: char, lines: seq<string>): (r: seq<string>)
    requires |lines| > 0
    ensures |r| == |lines|
  {
    [[c] + lines[0]] + lines[1..]
  }

  function Line(text: string): string {
    text + "\n"
  }

  /** Every line with its newline. */
  function Terminated(lines: seq<string>): string {
    if lines == [] then "" else Line(lines[0]) + Terminated(lines[1..])
  }

  // ----- The frames

  datatype Frame = EventFrame(id: nat, kind: string, data: string)
                 | ActivityFrame(id: nat, markup: string)
                 | Heartbeat

  /** An event's data is compact JSON, which escapes the breaks inside it. */
  predicate FrameOk(f: Frame) {
    f.EventFrame? ==> NoBreaks(f.data)
  }

  predicate FramesOk(frames: seq<Frame>) {
    forall f :: f in frames ==> FrameOk(f)
  }

  function Body(markup: string): string {
    TrimNewlines(NormaliseBreaks(markup))
  }

  function DataLines(lines: seq<string>): string {
    if lines == [] then "" else Line("data: " + lines[0]) + DataLines(lines[1..])
  }

  /** The bytes of one frame. */
  function FrameText(f: Frame): string {
    match f
    case EventFrame(id, kind, data) =>
      Line("id: " + Decimal(id)) + (Line("event: " + StripBreaks(kind)) + (Line("data: " + data) + Line("")))
    case ActivityFrame(id, markup) =>
      Line("id: " + Decimal(id)) + (Line("event: activity") + (DataLines(Split(Body(markup))) + Line("")))
    case Heartbeat => Line(":") + Line("")
  }

  function StreamText(frames: seq<Frame>): string {
    if frames == [] then "" else FrameText(frames[0]) + StreamText(frames[1..])
  }

  // ----- The reader of the HTML Standard

  datatype Message = Message(id: string, kind: string, data: string)

  /** The three buffers of section 9.2.6, the last event ID string, and the messages dispatched. */
  datatype Reader = Reader(idBuffer: string, kind: string, data: string, lastId: string, sent: seq<Message>)

  /** The lines of a stream, ended by CRLF, CR or LF; the last one is not ended. */
  function LinesOf(s: string): (lines: seq<string>)
    ensures |lines| > 0
  {
    if s == "" then [""]
    else if s[0] == '\r' && |s| > 1 && s[1] == '\n' then [""] + LinesOf(s[2..])
    else if IsBreak(s[0]) then [""] + LinesOf(s[1..])
    else Grow(s[0], LinesOf(s[1..]))
  }

  function Ended(s: string): seq<string> {
    LinesOf(s)[..|LinesOf(s)| - 1]
  }

  function DropNewline(s: string): string {
    if s != "" && s[|s| - 1] == '\n' then s[..|s| - 1] else s
  }

  /** A blank line: without data nothing is sent, and an empty type is "message". */
  function Dispatch(r: Reader): Reader {
    if r.data == "" then r.(lastId := r.idBuffer, kind := "")
    else
      var kind := if r.kind == "" then "message" else r.kind;
      Reader(r.idBuffer, "", "", r.idBuffer, r.sent + [Message(r.idBuffer, kind, DropNewline(r.data))])
  }

  function DropSpace(value: string): string {
    if value != "" && value[0] == ' ' then value[1..] else value
  }

  /** Fields the standard does not name are ignored; `retry` only sets the reconnection time. */
  function TakeField(r: Reader, name: string, value: string): Reader {
    if name == "event" then r.(kind := value)
    else if name == "data" then r.(data := r.data + value + "\n")
    else if name == "id" && '\0' !in value then r.(idBuffer := value)
    else r
  }

  function TakeLine(r: Reader, line: string): Reader {
    if line == "" then Dispatch(r)
    else if line[0] == ':' then r
    else TakeField(r, BeforeColon(line), DropSpace(AfterColon(line)))
  }

  function TakeLines(r: Reader, lines: seq<string>): Reader
    decreases |lines|
  {
    if lines == [] then r else TakeLines(TakeLine(r, lines[0]), lines[1..])
  }

  function Started(): Reader {
    Reader("", "", "", "", [])
  }

  /** A leading byte order mark is dropped; an unfinished line at the end is discarded. */
  function Read(stream: string): Reader {
    var s := if stream != "" && stream[0] == '\U{FEFF}' then stream[1..] else stream;
    TakeLines(Started(), Ended(s))
  }

  // ----- What a reader should be told

  function Told(f: Frame): seq<Message> {
    match f
    case EventFrame(id, kind, data) =>
      [Message(Decimal(id), if StripBreaks(kind) == "" then "message" else StripBreaks(kind), data)]
    case ActivityFrame(id, markup) => [Message(Decimal(id), "activity", Body(markup))]
    case Heartbeat => []
  }

  function ToldAll(frames: seq<Frame>): seq<Message> {
    if frames == [] then [] else Told(frames[0]) + ToldAll(frames[1..])
  }

  /** The id of the last message, which the reader sends back as Last-Event-ID. */
  function LastId(before: string, told: seq<Message>): string {
    if told == [] then before else told[|told| - 1].id
  }

  // ----- Breaks and lines

  /** Stripping removes exactly the break characters. */
  function Kept(s: string): string {
    if s == "" then "" else if IsBreak(s[0]) then Kept(s[1..]) else [s[0]] + Kept(s[1..])
  }

  lemma {:induction false} StripKeepsTheRest(s: string)
    ensures StripBreaks(s) == Kept(s) && NoBreaks(StripBreaks(s))
  {
    if s != "" {
      if s[0] == '\r' && |s| > 1 && s[1] == '\n' {
        StripKeepsTheRest(s[2..]);
        assert s[1..][1..] == s[2..];
      } else {
        StripKeepsTheRest(s[1..]);
      }
    }
  }

  predicate NoReturns(s: string) {
    forall i :: 0 <= i < |s| ==> s[i] != '\r'
  }

  /** After normalising, a split at newlines sees every break the reader would. */
  lemma {:induction false} NormaliseKeepsLines(s: string)
    ensures Split(NormaliseBreaks(s)) == LinesOf(s) && NoReturns(NormaliseBreaks(s))
  {
    if s != "" {
      var rest := if s[0] == '\r' && |s| > 1 && s[1] == '\n' then s[2..] else s[1..];
      NormaliseKeepsLines(rest);
      assert NormaliseBreaks(s)[1..] == NormaliseBreaks(rest);
    }
  }

  /** Trimming removes exactly the newlines at the end. */
  lemma {:induction false} TrimDropsNewlines(s: string)
    ensures TrimNewlines(s) <= s && forall i :: |TrimNewlines(s)| <= i < |s| ==> s[i] == '\n'
    ensures var t := TrimNewlines(s); t == "" || t[|t| - 1] != '\n'
  {
    if s != "" && s[|s| - 1] == '\n' { TrimDropsNewlines(s[..|s| - 1]); }
  }

  lemma {:induction false} TrimKeepsNoReturns(s: string)
    requires NoReturns(s)
    ensures NoReturns(TrimNewlines(s))
  {
    if s != "" && s[|s| - 1] == '\n' { TrimKeepsNoReturns(s[..|s| - 1]); }
  }

  predicate Unbroken(lines: seq<string>) {
    forall i :: 0 <= i < |lines| ==> NoBreaks(lines[i])
  }

  lemma {:induction false} SplitUnbroken(s: string)
    requires NoReturns(s)
    ensures Unbroken(Split(s))
  {
    if s != "" { SplitUnbroken(s[1..]); }
  }

  lemma {:induction false} SplitTerminated(s: string)
    ensures Terminated(Split(s)) == Line(s)
  {
    if s == "" {
      assert [""][1..] == [];
    } else {
      var rest := Split(s[1..]);
      SplitTerminated(s[1..]);
      if s[0] == '\n' {
        assert Split(s)[1..] == rest;
      } else {
        assert Split(s)[1..] == rest[1..];
        assert Terminated(Split(s)) == [s[0]] + Terminated(rest);
      }
    }
  }

  lemma {:induction false} LineRead(line: string, rest: string)
    requires NoBreaks(line)
    ensures LinesOf(line + "\n" + rest) == [line] + LinesOf(rest)
  {
    var s := line + "\n" + rest;
    if line == "" {
      assert s[1..] == rest;
    } else {
      LineRead(line[1..], rest);
      assert s[1..] == line[1..] + "\n" + rest && !IsBreak(s[0]);
      assert [line[0]] + line[1..] == line;
      assert ([line[1..]] + LinesOf(rest))[1..] == LinesOf(rest);
    }
  }

  lemma {:induction false} LinesRead(lines: seq<string>, rest: string)
    requires Unbroken(lines)
    ensures Ended(Terminated(lines) + rest) == lines + Ended(rest)
  {
    hide LinesOf, NoBreaks;
    if lines != [] {
      LineRead(lines[0], Terminated(lines[1..]) + rest);
      LinesRead(lines[1..], rest);
      assert Terminated(lines) + rest == lines[0] + "\n" + (Terminated(lines[1..]) + rest);
    } else {
      assert Terminated(lines) + rest == rest;
    }
  }

  // ----- One frame, line by line

  function DataFields(lines: seq<string>): seq<string> {
    if lines == [] then [] else ["data: " + lines[0]] + DataFields(lines[1..])
  }

  function Header(id: nat, kind: string): seq<string> {
    ["id: " + Decimal(id), "event: " + kind]
  }

  function FrameLines(f: Frame): seq<string> {
    match f
    case EventFrame(id, kind, data) =>
      Header(id, StripBreaks(kind)) + (["data: " + data] + [""])
    case ActivityFrame(id, markup) =>
      Header(id, "activity") + (DataFields(Split(Body(markup))) + [""])
    case Heartbeat => [":"] + [""]
  }

  lemma {:induction false} TerminatedAppend(a: seq<string>, b: seq<string>)
    ensures Terminated(a + b) == Terminated(a) + Terminated(b)
  {
    if a == [] {
      assert a + b == b;
    } else {
      TerminatedAppend(a[1..], b);
      assert (a + b)[1..] == a[1..] + b;
    }
  }

  lemma {:induction false} DataFieldsText(lines: seq<string>)
    requires Unbroken(lines)
    ensures Terminated(DataFields(lines)) == DataLines(lines) && Unbroken(DataFields(lines))
    ensures forall i :: 0 <= i < |DataFields(lines)| ==> DataFields(lines)[i] != ""
  {
    hide Line;
    if lines != [] {
      DataFieldsText(lines[1..]);
      assert DataFields(lines)[1..] == DataFields(lines[1..]);
    }
  }

  lemma LineFirst(line: string, lines: seq<string>)
    ensures Terminated([line] + lines) == Line(line) + Terminated(lines)
  {
    assert ([line] + lines)[1..] == lines;
  }

  lemma BlankEnds()
    ensures Terminated([""]) == Line("")
  {
    LineFirst("", []);
    assert [""] + [] == [""];
  }

  lemma HeaderIsLines(id: nat, kind: string, rest: seq<string>)
    ensures Terminated(Header(id, kind) + rest)
      == Line("id: " + Decimal(id)) + (Line("event: " + kind) + Terminated(rest))
  {
    var a, b := "id: " + Decimal(id), "event: " + kind;
    LineFirst(a, [b] + rest);
    LineFirst(b, rest);
    assert Header(id, kind) + rest == [a] + ([b] + rest);
  }

  lemma FrameIsLines(f: Frame)
    ensures FrameText(f) == Terminated(FrameLines(f))
  {
    match f
    case EventFrame(id, kind, data) =>
      HeaderIsLines(id, StripBreaks(kind), ["data: " + data] + [""]);
      LineFirst("data: " + data, [""]);
      BlankEnds();
    case ActivityFrame(id, markup) =>
      var body := Split(Body(markup));
      BodyUnbroken(markup);
      DataFieldsText(body);
      HeaderIsLines(id, "activity", DataFields(body) + [""]);
      assert "event: " + "activity" == "event: activity";
      TerminatedAppend(DataFields(body), [""]);
      BlankEnds();
    case Heartbeat =>
      LineFirst(":", [""]);
      BlankEnds();
  }

  lemma BodyUnbroken(markup: string)
    ensures Unbroken(Split(Body(markup)))
  {
    NormaliseKeepsLines(markup);
    TrimKeepsNoReturns(NormaliseBreaks(markup));
    SplitUnbroken(Body(markup));
  }

  lemma DigitsUnbroken(id: nat)
    ensures NoBreaks(Decimal(id)) && '\0' !in Decimal(id)
  {
    DecimalDigits(id);
  }

  /** A frame ends in its only blank line, and no line of it holds a break. */
  lemma FrameShape(f: Frame)
    requires FrameOk(f)
    ensures Unbroken(FrameLines(f))
    ensures var n := |FrameLines(f)|; n > 0 && FrameLines(f)[n - 1] == "" && Solid(FrameLines(f)[..n - 1])
  {
    match f
    case EventFrame(id, kind, data) =>
      HeaderUnbroken(id, StripBreaks(kind));
      StripKeepsTheRest(kind);
      hide Header, StripBreaks;
      ShapeOf(Header(id, StripBreaks(kind)), ["data: " + data]);
    case ActivityFrame(id, markup) =>
      HeaderUnbroken(id, "activity");
      BodyUnbroken(markup);
      DataFieldsText(Split(Body(markup)));
      hide Header, Body, Split, DataFields;
      ShapeOf(Header(id, "activity"), DataFields(Split(Body(markup))));
    case Heartbeat =>
  }

  lemma ShapeOf(head: seq<string>, fields: seq<string>)
    requires Unbroken(head) && Solid(head) && Unbroken(fields) && Solid(fields)
    ensures var lines := head + (fields + [""]);
      Unbroken(lines) && lines[|lines| - 1] == "" && Solid(lines[..|lines| - 1])
  {
    var lines := head + (fields + [""]);
    assert lines[..|lines| - 1] == head + fields;
  }

  lemma HeaderUnbroken(id: nat, kind: string)
    ensures Solid(Header(id, kind)) && (NoBreaks(kind) ==> Unbroken(Header(id, kind)))
  {
    DigitsUnbroken(id);
  }

  predicate Solid(lines: seq<string>) {
    forall i :: 0 <= i < |lines| ==> lines[i] != ""
  }

  // ----- The reader on one frame

  lemma {:induction false} TakeAppend(r: Reader, a: seq<string>, b: seq<string>)
    ensures TakeLines(r, a + b) == TakeLines(TakeLines(r, a), b)
    decreases |a|
  {
    if a == [] {
      assert a + b == b;
    } else {
      TakeAppend(TakeLine(r, a[0]), a[1..], b);
      assert (a + b)[1..] == a[1..] + b;
    }
  }

  lemma FieldLine(name: string, value: string, line: string)
    requires name != "" && ':' !in name && line == name + ": " + value
    ensures line != "" && line[0] != ':' && BeforeColon(line) == name && DropSpace(AfterColon(line)) == value
  {
    ColonSplit(name, " " + value);
    assert line == name + ":" + (" " + value);
    assert name[0] in name;
  }

  lemma IdLine(r: Reader, id: nat)
    ensures TakeLine(r, "id: " + Decimal(id)) == r.(idBuffer := Decimal(id))
  {
    assert "id: " == "id" + ": ";
    FieldLine("id", Decimal(id), "id: " + Decimal(id));
    DigitsUnbroken(id);
  }

  lemma EventLine(r: Reader, kind: string)
    ensures TakeLine(r, "event: " + kind) == r.(kind := kind)
  {
    assert "event: " == "event" + ": ";
    FieldLine("event", kind, "event: " + kind);
  }

  lemma DataLine(r: Reader, data: string)
    ensures TakeLine(r, "data: " + data) == r.(data := r.data + data + "\n")
  {
    assert "data: " == "data" + ": ";
    FieldLine("data", data, "data: " + data);
  }

  lemma {:induction false} DataRead(r: Reader, lines: seq<string>)
    ensures TakeLines(r, DataFields(lines)) == r.(data := r.data + Terminated(lines))
    decreases |lines|
  {
    if lines == [] {
      assert r.data + Terminated(lines) == r.data;
    } else {
      TakeFirst(r, "data: " + lines[0], DataFields(lines[1..]));
      DataLine(r, lines[0]);
      DataRead(r.(data := r.data + lines[0] + "\n"), lines[1..]);
      LineAfter(r.data, lines[0], Terminated(lines[1..]));
    }
  }

  lemma LineAfter(before: string, line: string, rest: string)
    ensures before + line + "\n" + rest == before + (Line(line) + rest)
  {
  }

  /** Between two frames nothing is buffered but the id already told. */
  predicate Between(r: Reader) {
    r.data == "" && r.kind == "" && r.idBuffer == r.lastId
  }

  function After(r: Reader, told: seq<Message>): Reader {
    Reader(LastId(r.idBuffer, told), "", "", LastId(r.lastId, told), r.sent + told)
  }

  lemma TakeFirst(r: Reader, a: string, rest: seq<string>)
    ensures TakeLines(r, [a] + rest) == TakeLines(TakeLine(r, a), rest)
  {
    assert ([a] + rest)[1..] == rest;
  }

  lemma TakeBlank(r: Reader)
    ensures TakeLines(r, [""]) == Dispatch(r)
  {
    TakeFirst(r, "", []);
    assert [""] + [] == [""];
  }

  lemma HeaderRead(r: Reader, id: nat, kind: string, rest: seq<string>)
    ensures TakeLines(r, Header(id, kind) + rest)
      == TakeLines(r.(idBuffer := Decimal(id), kind := kind), rest)
  {
    var a, b := "id: " + Decimal(id), "event: " + kind;
    assert Header(id, kind) + rest == [a] + ([b] + rest);
    TakeFirst(r, a, [b] + rest);
    IdLine(r, id);
    var r1 := r.(idBuffer := Decimal(id));
    TakeFirst(r1, b, rest);
    EventLine(r1, kind);
  }

  lemma DataEnd(data: string)
    ensures DropNewline("" + data + "\n") == data && "" + Line(data) == "" + data + "\n"
  {
    assert ("" + data + "\n")[..|data|] == data;
  }

  lemma EventRead(r: Reader, f: Frame)
    requires Between(r) && f.EventFrame?
    ensures TakeLines(r, FrameLines(f)) == After(r, Told(f))
  {
    var kind, c := StripBreaks(f.kind), "data: " + f.data;
    HeaderRead(r, f.id, kind, [c] + [""]);
    var r1 := r.(idBuffer := Decimal(f.id), kind := kind);
    TakeFirst(r1, c, [""]);
    DataLine(r1, f.data);
    TakeBlank(TakeLine(r1, c));
    DataEnd(f.data);
  }

  lemma ActivityRead(r: Reader, f: Frame)
    requires Between(r) && f.ActivityFrame?
    ensures TakeLines(r, FrameLines(f)) == After(r, Told(f))
  {
    var fields := DataFields(Split(Body(f.markup)));
    HeaderRead(r, f.id, "activity", fields + [""]);
    var r1 := r.(idBuffer := Decimal(f.id), kind := "activity");
    TakeAppend(r1, fields, [""]);
    DataRead(r1, Split(Body(f.markup)));
    SplitTerminated(Body(f.markup));
    TakeBlank(TakeLines(r1, fields));
    DataEnd(Body(f.markup));
  }

  lemma HeartbeatRead(r: Reader)
    requires Between(r)
    ensures TakeLines(r, FrameLines(Heartbeat)) == After(r, Told(Heartbeat))
  {
    TakeFirst(r, ":", [""]);
    TakeBlank(r);
    assert r.sent + [] == r.sent;
  }

  lemma FrameRead(r: Reader, f: Frame)
    requires Between(r)
    ensures TakeLines(r, FrameLines(f)) == After(r, Told(f))
  {
    match f
    case EventFrame(_, _, _) => EventRead(r, f);
    case ActivityFrame(_, _) => ActivityRead(r, f);
    case Heartbeat => HeartbeatRead(r);
  }

  // ----- Whole streams

  function StreamLines(frames: seq<Frame>): seq<string> {
    if frames == [] then [] else FrameLines(frames[0]) + StreamLines(frames[1..])
  }

  lemma {:induction false} StreamIsLines(frames: seq<Frame>)
    requires FramesOk(frames)
    ensures StreamText(frames) == Terminated(StreamLines(frames)) && Unbroken(StreamLines(frames))
  {
    if frames != [] {
      FrameIsLines(frames[0]);
      FrameShape(frames[0]);
      StreamIsLines(frames[1..]);
      TerminatedAppend(FrameLines(frames[0]), StreamLines(frames[1..]));
    }
  }

  lemma AfterBoth(r: Reader, a: seq<Message>, b: seq<Message>)
    ensures After(After(r, a), b) == After(r, a + b)
  {
    assert r.sent + a + b == r.sent + (a + b);
    if b == [] { assert a + b == a; }
  }

  lemma {:induction false} FramesRead(r: Reader, frames: seq<Frame>)
    requires Between(r)
    ensures TakeLines(r, StreamLines(frames)) == After(r, ToldAll(frames))
    decreases |frames|
  {
    if frames == [] {
      assert r.sent + [] == r.sent;
    } else {
      var told := Told(frames[0]);
      TakeAppend(r, FrameLines(frames[0]), StreamLines(frames[1..]));
      FrameRead(r, frames[0]);
      FramesRead(After(r, told), frames[1..]);
      AfterBoth(r, told, ToldAll(frames[1..]));
    }
  }

  lemma NoMark(frames: seq<Frame>)
    ensures StreamText(frames) != "" ==> StreamText(frames)[0] != '\U{FEFF}'
  {
    if frames != [] {
      var t := FrameText(frames[0]);
      assert t[0] == 'i' || t[0] == ':';
    }
  }

  /** Any run of frames reads back as one message per event and activity frame, in order, with its id,
      its break-free type and its data; a heartbeat tells nothing. */
  lemma ReadBack(frames: seq<Frame>)
    requires FramesOk(frames)
    ensures Read(StreamText(frames)).sent == ToldAll(frames)
    ensures Read(StreamText(frames)).lastId == LastId("", ToldAll(frames))
  {
    NoMark(frames);
    StreamIsLines(frames);
    LinesRead(StreamLines(frames), "");
    assert Terminated(StreamLines(frames)) + "" == StreamText(frames);
    assert StreamLines(frames) + Ended("") == StreamLines(frames);
    FramesRead(Started(), frames);
    assert Started().sent + ToldAll(frames) == ToldAll(frames);
  }

  // ----- A connection cut anywhere

  /** The frames wholly inside the first `k` characters. */
  function Whole(frames: seq<Frame>, k: nat): (n: nat)
    ensures n <= |frames|
  {
    if frames == [] || k < |FrameText(frames[0])| then 0
    else 1 + Whole(frames[1..], k - |FrameText(frames[0])|)
  }

  lemma {:induction false} UnendedLine(s: string)
    requires NoBreaks(s)
    ensures LinesOf(s) == [s] && Ended(s) == []
  {
    if s != "" {
      UnendedLine(s[1..]);
      assert [s[0]] + s[1..] == s;
    }
  }

  /** A proper prefix of some lines ends only a proper prefix of them. */
  lemma {:induction false} CutLines(lines: seq<string>, k: nat) returns (j: nat)
    requires Unbroken(lines) && k < |Terminated(lines)|
    ensures j < |lines| && Ended(Terminated(lines)[..k]) == lines[..j]
  {
    var head, text := lines[0], Terminated(lines);
    if k <= |head| {
      j := 0;
      assert text[..k] == head[..k];
      UnendedLine(head[..k]);
    } else {
      var rest := Terminated(lines[1..]);
      var k' := k - |head| - 1;
      var i := CutLines(lines[1..], k');
      assert text[..k] == head + "\n" + rest[..k'];
      LineRead(head, rest[..k']);
      j := i + 1;
      assert lines[..j] == [head] + lines[1..][..i];
    }
  }

  lemma {:induction false} SolidLines(r: Reader, lines: seq<string>)
    requires Solid(lines)
    ensures TakeLines(r, lines).sent == r.sent && TakeLines(r, lines).lastId == r.lastId
    decreases |lines|
  {
    if lines != [] { SolidLines(TakeLine(r, lines[0]), lines[1..]); }
  }

  /** A frame cut short tells nothing. */
  lemma CutFrame(r: Reader, f: Frame, k: nat)
    requires FrameOk(f) && k < |FrameText(f)|
    ensures var after := TakeLines(r, Ended(FrameText(f)[..k])); after.sent == r.sent && after.lastId == r.lastId
  {
    FrameIsLines(f);
    FrameShape(f);
    var j := CutLines(FrameLines(f), k);
    assert FrameLines(f)[..j] == FrameLines(f)[..|FrameLines(f)| - 1][..j];
    SolidLines(r, FrameLines(f)[..j]);
  }

  /** The reader at the cut: told exactly the frames that arrived whole. */
  ghost predicate ToldWhole(r: Reader, frames: seq<Frame>, k: nat, after: Reader) {
    && after.sent == r.sent + ToldAll(frames[..Whole(frames, k)])
    && after.lastId == LastId(r.lastId, ToldAll(frames[..Whole(frames, k)]))
  }

  lemma {:induction false} CutFrames(r: Reader, frames: seq<Frame>, k: nat)
    requires Between(r) && FramesOk(frames) && k <= |StreamText(frames)|
    ensures ToldWhole(r, frames, k, TakeLines(r, Ended(StreamText(frames)[..k])))
    decreases |frames|
  {
    if frames == [] || k < |FrameText(frames[0])| {
      CutFirst(r, frames, k);
    } else {
      var k' := k - |FrameText(frames[0])|;
      TakePast(FrameText(frames[0]), StreamText(frames[1..]), k);
      CutAfterFrame(r, frames[0], StreamText(frames[1..])[..k']);
      CutFrames(After(r, Told(frames[0])), frames[1..], k');
      WholePast(r, frames, k, TakeLines(r, Ended(StreamText(frames)[..k])));
    }
  }

  lemma CutFirst(r: Reader, frames: seq<Frame>, k: nat)
    requires FramesOk(frames) && k <= |StreamText(frames)|
    requires frames == [] || k < |FrameText(frames[0])|
    ensures ToldWhole(r, frames, k, TakeLines(r, Ended(StreamText(frames)[..k])))
  {
    assert frames[..0] == [];
    if frames == [] {
      assert StreamText(frames)[..k] == "";
    } else {
      TakeShort(FrameText(frames[0]), StreamText(frames[1..]), k);
      CutFrame(r, frames[0], k);
    }
  }

  lemma TakeShort(a: string, b: string, k: nat)
    requires k < |a|
    ensures (a + b)[..k] == a[..k]
  {
  }

  lemma TakePast(a: string, b: string, k: nat)
    requires |a| <= k <= |a + b|
    ensures (a + b)[..k] == a + b[..k - |a|]
  {
  }

  lemma WholePast(r: Reader, frames: seq<Frame>, k: nat, after: Reader)
    requires Between(r) && frames != [] && |FrameText(frames[0])| <= k
    requires ToldWhole(After(r, Told(frames[0])), frames[1..], k - |FrameText(frames[0])|, after)
    ensures ToldWhole(r, frames, k, after)
  {
    var rest, n := frames[1..], Whole(frames[1..], k - |FrameText(frames[0])|);
    ToldPast(frames, n);
    AfterBoth(r, Told(frames[0]), ToldAll(rest[..n]));
  }

  lemma ToldPast(frames: seq<Frame>, n: nat)
    requires frames != [] && n <= |frames[1..]|
    ensures ToldAll(frames[..n + 1]) == Told(frames[0]) + ToldAll(frames[1..][..n])
  {
    assert frames[..n + 1] == [frames[0]] + frames[1..][..n];
    ToldFirst(frames[0], frames[1..][..n]);
  }

  lemma CutAfterFrame(r: Reader, f: Frame, rest: string)
    requires Between(r) && FrameOk(f)
    ensures TakeLines(r, Ended(FrameText(f) + rest)) == TakeLines(After(r, Told(f)), Ended(rest))
  {
    FrameIsLines(f);
    FrameShape(f);
    LinesRead(FrameLines(f), rest);
    TakeAppend(r, FrameLines(f), Ended(rest));
    FrameRead(r, f);
  }

  lemma ToldFirst(f: Frame, frames: seq<Frame>)
    ensures ToldAll([f] + frames) == Told(f) + ToldAll(frames)
  {
    assert ([f] + frames)[1..] == frames;
  }

  /** However many characters of the stream arrive, the reader has exactly the messages of the frames
      that arrived whole, and will ask to resume after the last of them. */
  lemma CutStream(frames: seq<Frame>, k: nat)
    requires FramesOk(frames) && k <= |StreamText(frames)|
    ensures Read(StreamText(frames)[..k]).sent == ToldAll(frames[..Whole(frames, k)])
    ensures Read(StreamText(frames)[..k]).lastId == LastId("", ToldAll(frames[..Whole(frames, k)]))
  {
    NoMark(frames);
    CutFrames(Started(), frames, k);
    assert Started().sent + ToldAll(frames[..Whole(frames, k)]) == ToldAll(frames[..Whole(frames, k)]);
  }

  /** The written type is read back exactly when stripping leaves something of it. */
  lemma TypeKeptExactly(id: nat, kind: string, data: string)
    requires NoBreaks(data)
    ensures Read(FrameText(EventFrame(id, kind, data))).sent == [Message(Decimal(id), kind, data)]
      <==> NoBreaks(kind) && kind != ""
  {
    var f := EventFrame(id, kind, data);
    ReadBack([f]);
    assert StreamText([f]) == FrameText(f);
    assert ToldAll([f]) == Told(f);
    StripKeepsTheRest(kind);
    if NoBreaks(kind) { KeptWhole(kind); }
  }

  lemma {:induction false} KeptWhole(s: string)
    requires NoBreaks(s)
    ensures Kept(s) == s
  {
    if s != "" { KeptWhole(s[1..]); }
  }

  // ----- The writers

  class FrameWriter {
    var out: string

    constructor ()
      ensures out == ""
    {
      out := "";
    }

    method WriteEventFrame(id: nat, kind: string, data: string)
      modifies this
      ensures out == old(out) + FrameText(EventFrame(id, kind, data))
    {
      var text := "id: " + Decimal(id) + "\nevent: " + StripBreaks(kind) + "\ndata: " + data + "\n\n";
      EventFormat(id, kind, data);
      out := out + text;
    }

    /** One `data:` line for each line of the markup. */
    method WriteActivityFrame(id: nat, markup: string)
      modifies this
      ensures out == old(out) + FrameText(ActivityFrame(id, markup))
    {
      out := out + ("id: " + Decimal(id) + "\nevent: activity\n");
      ActivityFormat(id, markup);
      var lines := Split(TrimNewlines(NormaliseBreaks(markup)));
      ghost var head := out;
      var i := 0;
      while i < |lines|
        invariant 0 <= i <= |lines|
        invariant out + DataLines(lines[i..]) == head + DataLines(lines)
      {
        DataLinesStep(out, lines, i);
        out := out + ("data: " + lines[i] + "\n");
        i := i + 1;
      }
      assert out + DataLines(lines[i..]) == out;
      out := out + "\n";
    }

    method WriteHeartbeat()
      modifies this
      ensures out == old(out) + FrameText(Heartbeat)
    {
      out := out + ":\n\n";
    }
  }

  /** The format string of an event frame, line by line. */
  lemma EventFormat(id: nat, kind: string, data: string)
    ensures "id: " + Decimal(id) + "\nevent: " + StripBreaks(kind) + "\ndata: " + data + "\n\n"
      == FrameText(EventFrame(id, kind, data))
  {
    var a, b, c := "id: " + Decimal(id), "event: " + StripBreaks(kind), "data: " + data;
    FieldNext(a, "event: ", StripBreaks(kind), "\nevent: ");
    FieldNext(Line(a) + b, "data: ", data, "\ndata: ");
    assert Line(Line(a) + b) + c + "\n\n" == Line(a) + (Line(b) + (Line(c) + Line("")));
  }

  lemma FieldNext(before: string, name: string, value: string, sep: string)
    requires sep == "\n" + name
    ensures before + sep + value == Line(before) + (name + value)
  {
  }

  lemma ActivityFormat(id: nat, markup: string)
    ensures "id: " + Decimal(id) + "\nevent: activity\n" + DataLines(Split(Body(markup))) + "\n"
      == FrameText(ActivityFrame(id, markup))
  {
    assert "\nevent: activity\n" == "\n" + Line("event: activity");
  }

  lemma DataLinesStep(out: string, lines: seq<string>, i: nat)
    requires i < |lines|
    ensures out + ("data: " + lines[i] + "\n") + DataLines(lines[i + 1..]) == out + DataLines(lines[i..])
  {
    assert lines[i..][1..] == lines[i + 1..];
  }
}
