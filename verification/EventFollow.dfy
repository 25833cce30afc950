/** Following the event log live (`internal/api/eventstream.go`): the start cursor, the poll loop, the
    head a bare follow starts from, and what a client has received after any run of log growth, polls,
    deliveries, cuts and reconnects. */
module EventFollow {
  import opened Text
  import opened EventLog
  import opened EventFrames

  const STREAM_PAGE_SIZE: nat := 200
  const MAX_INT64: nat := 0x7FFF_FFFF_FFFF_FFFF

  // ----- The start cursor

  function ParseDigits(text: string, value: nat): Option<nat> {
    if text == "" then Some(value)
    else if !IsDigit(text[0]) then None
    else ParseDigits(text[1..], value * 10 + (text[0] as int - '0' as int))
  }

  /** `strconv.ParseInt(text, 10, 64)`; `None` is its error. */
  function ParseInt64(text: string): Option<int> {
    if text == "" then None
    else
      var negative := text[0] == '-';
      var digits := if text[0] == '-' || text[0] == '+' then text[1..] else text;
      if digits == "" then None
      else
        match ParseDigits(digits, 0)
        case None => None
        case Some(n) =>
          if negative then (if n <= MAX_INT64 + 1 then Some(0 - n) else None)
          else if n <= MAX_INT64 then Some(n) else None
  }

  /** 422, the head (the source's -1), or a given id. */
  datatype Start = Malformed | FromHead | After(cursor: nat)

  function Named(text: string): Start {
    match ParseInt64(text)
    case Some(n) => if n < 0 then Malformed else After(n)
    case None => Malformed
  }

  /** `Last-Event-ID` wins over `?after=`, but a malformed `?after=` is refused either way. */
  function StartOf(after: string, lastEventId: string): Start {
    var given := if after == "" then FromHead else Named(after);
    if given.Malformed? || lastEventId == "" then given else Named(lastEventId)
  }

  lemma {:induction false} ParseAppend(text: string, c: char, value: nat)
    requires IsDigit(c) && ParseDigits(text, value).Some?
    ensures ParseDigits(text + [c], value)
      == Some(ParseDigits(text, value).value * 10 + (c as int - '0' as int))
  {
    if text == "" {
      assert (text + [c])[1..] == "";
    } else {
      assert (text + [c])[1..] == text[1..] + [c];
      ParseAppend(text[1..], c, value * 10 + (text[0] as int - '0' as int));
    }
  }

  lemma {:induction false} ParsePrinted(n: nat)
    ensures ParseDigits(Decimal(n), 0) == Some(n)
  {
    if n < 10 {
      assert Decimal(n)[1..] == "";
    } else {
      ParsePrinted(n / 10);
      ParseAppend(Decimal(n / 10), Digit(n % 10), 0);
    }
  }

  /** The id of a frame, sent back by the client, is read as that id exactly when it fits an int64. */
  lemma NamedDecimal(n: nat)
    ensures Named(Decimal(n)) == if n <= MAX_INT64 then After(n) else Malformed
  {
    DecimalDigits(n);
    ParsePrinted(n);
  }

  // ----- The follow as a state machine

  /** An event's body is the JSON its frame carries. */
  type Entry = Event<string>

  /** `conn` is the cursor of the open stream; `wire` is written but not yet received; `got` is everything
      the client received since it started following; `base` is the cursor its last stream with nothing
      received before it began at, and `first` the one of its very first stream. */
  datatype World = World(log: seq<Entry>, conn: Option<nat>, wire: seq<Entry>, got: seq<Entry>,
                         base: nat, first: Option<nat>)

  datatype Action = Grow(e: Entry) | Connect | Poll(written: nat) | Receive(n: nat) | Cut

  /** The newest matching id, 0 when there is none. */
  function Head(log: seq<Entry>, kind: string): nat {
    LastOr(0, Matching(log, 0, kind))
  }

  /** What the browser sends back: the id of the last message, nothing before the first. */
  function LastEventId(got: seq<Entry>): string {
    if got == [] then "" else Decimal(got[|got| - 1].id)
  }

  function Take<T>(s: seq<T>, n: nat): seq<T> {
    if n <= |s| then s[..n] else s
  }

  function Opened(w: World, cursor: nat): World {
    World(w.log, Some(cursor), [], w.got,
          if w.got == [] then cursor else w.base,
          if w.first.Some? then w.first else Some(cursor))
  }

  /** One step; a step that cannot happen changes nothing. `Poll(n)` writes the first `n` frames of the
      page and, when that is not all of it, the handler returns on the write error. */
  function Next(w: World, kind: string, after: string, a: Action): World {
    match a
    case Grow(e) =>
      if LastOr(0, w.log) < e.id <= MAX_INT64 then w.(log := w.log + [e]) else w
    case Connect =>
      (match StartOf(after, LastEventId(w.got))
       case Malformed => w
       case FromHead => Opened(w, Head(w.log, kind))
       case After(cursor) => Opened(w, cursor))
    case Poll(written) =>
      if w.conn.None? then w
      else
        var page := ListEvents(w.log, w.conn.value, kind, STREAM_PAGE_SIZE);
        var sent := Take(page, written);
        w.(wire := w.wire + sent,
           conn := if written < |page| then None else Some(LastOr(w.conn.value, sent)))
    case Receive(n) => w.(wire := w.wire[|Take(w.wire, n)|..], got := w.got + Take(w.wire, n))
    case Cut => w.(conn := None, wire := [])
  }

  function Run(w: World, kind: string, after: string, actions: seq<Action>): World
    decreases |actions|
  {
    if actions == [] then w else Run(Next(w, kind, after, actions[0]), kind, after, actions[1..])
  }

  function Before(log: seq<Entry>): World {
    World(log, None, [], [], 0, None)
  }

  predicate IdsFit(log: seq<Entry>) {
    forall i :: 0 <= i < |log| ==> log[i].id <= MAX_INT64
  }

  /** What was received, and what is on the wire after it, is a prefix of the matching log past `base`,
      and an open stream stands right behind it. */
  predicate InStep(w: World, kind: string) {
    var sent := w.got + w.wire;
    && sent <= Matching(w.log, w.base, kind)
    && (w.conn.Some? ==> w.conn.value == LastOr(w.base, sent))
  }

  /** Where the follow began: at the given cursor, or at a head of the log. */
  predicate Origin(w: World, kind: string, after: string) {
    match w.first
    case None => w.got == [] && w.wire == [] && w.conn.None?
    case Some(first) =>
      (match StartOf(after, "")
       case Malformed => false
       case FromHead => first <= w.base <= Head(w.log, kind)
       case After(cursor) => first == cursor && w.base == cursor)
  }

  predicate Inv(w: World, kind: string, after: string) {
    Ordered(w.log) && IdsFit(w.log) && InStep(w, kind) && Origin(w, kind, after)
  }

  // ----- Every step keeps the invariant

  lemma HeadGrows(log: seq<Entry>, e: Entry, kind: string)
    requires Ordered(log) && LastOr(0, log) < e.id
    ensures Ordered(log + [e]) && Head(log, kind) <= Head(log + [e], kind)
  {
    MatchingMembers(log, 0, kind);
    var m := Matching(log, 0, kind);
    if m != [] {
      var last := m[|m| - 1];
      assert Picks(last, 0, kind) && last in m;
    }
  }

  lemma GrowKeeps(w: World, kind: string, after: string, e: Entry)
    requires Inv(w, kind, after)
    ensures Inv(Next(w, kind, after, Grow(e)), kind, after)
  {
    if LastOr(0, w.log) < e.id <= MAX_INT64 {
      HeadGrows(w.log, e, kind);
    }
  }

  lemma ConnectKeeps(w: World, kind: string, after: string)
    requires Inv(w, kind, after)
    ensures Inv(Next(w, kind, after, Connect), kind, after)
  {
    hide Decimal, ParseDigits, Matching, Ordered;
    if w.got == [] {
      assert w.got + [] == [];
    } else {
      var m, last := Matching(w.log, w.base, kind), w.got[|w.got| - 1];
      MatchingMembers(w.log, w.base, kind);
      assert w.got + w.wire <= m && last == (w.got + w.wire)[|w.got| - 1] == m[|w.got| - 1];
      assert last in m && Picks(last, w.base, kind);
      NamedDecimal(last.id);
      DecimalDigits(last.id);
      assert w.got + [] == w.got;
    }
  }

  lemma PollKeeps(w: World, kind: string, after: string, written: nat)
    requires Inv(w, kind, after)
    ensures Inv(Next(w, kind, after, Poll(written)), kind, after)
  {
    if w.conn.Some? {
      var page := ListEvents(w.log, w.conn.value, kind, STREAM_PAGE_SIZE);
      PageFollows(w, kind);
    }
  }

  /** The next page is what comes right after everything written. */
  lemma PageFollows(w: World, kind: string)
    requires Ordered(w.log) && InStep(w, kind) && w.conn.Some?
    ensures Matching(w.log, w.conn.value, kind) == Matching(w.log, w.base, kind)[|w.got + w.wire|..]
    ensures ListEvents(w.log, w.conn.value, kind, STREAM_PAGE_SIZE)
      <= Matching(w.log, w.base, kind)[|w.got + w.wire|..]
  {
    var m, sent := Matching(w.log, w.base, kind), w.got + w.wire;
    assert m[..|sent|] == sent;
    Resume(w.log, w.base, kind, |sent|);
  }

  lemma NextKeeps(w: World, kind: string, after: string, a: Action)
    requires Inv(w, kind, after)
    ensures Inv(Next(w, kind, after, a), kind, after)
  {
    match a
    case Grow(e) => GrowKeeps(w, kind, after, e);
    case Connect => ConnectKeeps(w, kind, after);
    case Poll(written) => PollKeeps(w, kind, after, written);
    case Receive(n) => 
    case Cut => assert w.got + [] <= w.got + w.wire;
  }

  lemma {:induction false} RunKeeps(w: World, kind: string, after: string, actions: seq<Action>)
    requires Inv(w, kind, after)
    ensures Inv(Run(w, kind, after, actions), kind, after)
    decreases |actions|
  {
    if actions != [] {
      NextKeeps(w, kind, after, actions[0]);
      RunKeeps(Next(w, kind, after, actions[0]), kind, after, actions[1..]);
    }
  }

  // ----- What a client has received

  /** After any run, what arrived is a gap-free prefix of the matching log past the base cursor, in id
      order and so without duplicates. */
  lemma ReceivesInOrder(log: seq<Entry>, kind: string, after: string, actions: seq<Action>)
    requires Ordered(log) && IdsFit(log)
    ensures var w := Run(Before(log), kind, after, actions);
      && w.got <= Matching(w.log, w.base, kind) && Ordered(w.got)
      && forall e: Entry :: e in w.got ==> Picks(e, w.base, kind) && e.id > w.base && (kind == "" || e.kind == kind)
  {
    RunKeeps(Before(log), kind, after, actions);
    var w := Run(Before(log), kind, after, actions);
    MatchingOrdered(w.log, w.base, kind);
    MatchingMembers(w.log, w.base, kind);
    assert w.got <= w.got + w.wire;
    forall e: Entry | e in w.got
      ensures Picks(e, w.base, kind) && e.id > w.base && (kind == "" || e.kind == kind)
    {
      assert e in Matching(w.log, w.base, kind);
    }
  }

  /** A client that names its own cursor never loses an event, however often it is cut off. */
  lemma CursorNeverGaps(log: seq<Entry>, kind: string, after: string, cursor: nat,
                        actions: seq<Action>)
    requires Ordered(log) && IdsFit(log) && StartOf(after, "") == After(cursor)
    ensures var w := Run(Before(log), kind, after, actions);
      w.got <= Matching(w.log, cursor, kind)
  {
    RunKeeps(Before(log), kind, after, actions);
  }

  /** A bare follow that is cut off before its first message starts over at the newer head: what it receives
      has a gap after its first head exactly when it has received something and a matching event came in
      between. */
  lemma BareGapExactly(log: seq<Entry>, kind: string, actions: seq<Action>)
    requires Ordered(log) && IdsFit(log)
    ensures var w := Run(Before(log), kind, "", actions);
      && (w.first.None? ==> w.got == [])
      && (w.first.Some? ==>
          (w.got <= Matching(w.log, w.first.value, kind) <==> w.got == [] || UpTo(w.log, w.first.value, w.base, kind) == []))
  {
    RunKeeps(Before(log), kind, "", actions);
    var w := Run(Before(log), kind, "", actions);
    if w.first.Some? && w.got != [] { GapExactly(w, kind); }
  }

  lemma GapExactly(w: World, kind: string)
    requires Inv(w, kind, "") && w.first.Some? && w.got != []
    ensures w.got <= Matching(w.log, w.first.value, kind) <==> UpTo(w.log, w.first.value, w.base, kind) == []
  {
    var early, late := UpTo(w.log, w.first.value, w.base, kind), Matching(w.log, w.base, kind);
    MatchingSplits(w.log, w.first.value, w.base, kind);
    UpToMembers(w.log, w.first.value, w.base, kind);
    MatchingOrdered(w.log, w.base, kind);
    assert w.got[0] == (w.got + w.wire)[0] == late[0];
    assert late[0] in late;
    if early == [] {
      assert early + late == late;
    } else {
      assert early[0] in early;
      assert (early + late)[0] == early[0];
    }
  }

  /** Connect, cut off before anything arrives, an event comes in, connect again, another comes in. */
  function GapRun(missed: Entry, seen: Entry): seq<Action> {
    [Connect, Cut, Grow(missed), Connect, Grow(seen), Poll(1), Receive(1)]
  }

  lemma GapMatching(missed: Entry, seen: Entry)
    requires 0 < missed.id < seen.id
    ensures var none: seq<Entry> := []; Matching(none, 0, "") == []
    ensures Matching([missed], 0, "") == [missed] && Matching([missed], missed.id, "") == []
    ensures Matching([missed, seen], 0, "") == [missed, seen] && Matching([missed, seen], missed.id, "") == [seen]
  {
    assert [missed][..0] == [] && [missed, seen][..1] == [missed];
  }

  /** The second connection starts at the newer head. */
  lemma GapReconnects(missed: Entry, seen: Entry)
    requires 0 < missed.id < seen.id <= MAX_INT64
    ensures Next(Next(Next(Next(Before([]), "", "", Connect), "", "", Cut), "", "", Grow(missed)), "", "", Connect)
      == World([missed], Some(missed.id), [], [], missed.id, Some(0))
  {
    GapMatching(missed, seen);
    hide Matching, ListEvents;
    var w1 := Next(Before([]), "", "", Connect);
    assert w1 == World([], Some(0), [], [], 0, Some(0));
    var w3 := Next(Next(w1, "", "", Cut), "", "", Grow(missed));
    assert w3 == World([missed], None, [], [], 0, Some(0));
  }

  lemma GapPage(w: World, seen: Entry)
    requires w.conn.Some? && w.wire == w.got == [] && Matching(w.log, w.conn.value, "") == [seen]
    ensures Next(Next(w, "", "", Poll(1)), "", "", Receive(1)) == w.(conn := Some(seen.id), got := [seen])
  {
    hide Matching, StartOf, Head, Opened;
    assert ListEvents(w.log, w.conn.value, "", STREAM_PAGE_SIZE) == [seen];
    hide ListEvents;
    var w' := Next(w, "", "", Poll(1));
    assert w' == w.(wire := [seen], conn := Some(seen.id));
  }

  lemma GapPolls(missed: Entry, seen: Entry)
    requires 0 < missed.id < seen.id <= MAX_INT64
    ensures Next(Next(Next(World([missed], Some(missed.id), [], [], missed.id, Some(0)), "", "", Grow(seen)), "", "", Poll(1)), "", "", Receive(1))
      == World([missed, seen], Some(seen.id), [], [seen], missed.id, Some(0))
  {
    GapMatching(missed, seen);
    hide Matching, StartOf, Head, Opened;
    var w4 := World([missed], Some(missed.id), [], [], missed.id, Some(0));
    var w5 := Next(w4, "", "", Grow(seen));
    assert w5 == World([missed, seen], Some(missed.id), [], [], missed.id, Some(0));
    GapPage(w5, seen);
  }

  /** The client followed from an empty log, and never gets the first event of it. */
  lemma BareFollowMisses(missed: Entry, seen: Entry)
    requires 0 < missed.id < seen.id <= MAX_INT64
    ensures var w := Run(Before([]), "", "", GapRun(missed, seen));
      && w.first == Some(0) && w.log == [missed, seen] && w.got == [seen]
      && Matching(w.log, 0, "") == [missed, seen] && !(w.got <= Matching(w.log, 0, ""))
  {
    var a := GapRun(missed, seen);
    GapMatching(missed, seen);
    hide Next, Matching;
    GapReconnects(missed, seen);
    GapPolls(missed, seen);
    var w0 := Before([]);
    var w1 := RunStep(w0, "", "", a);
    var w2 := RunStep(w1, "", "", a[1..]);
    var w3 := RunStep(w2, "", "", a[2..]);
    var w4 := RunStep(w3, "", "", a[3..]);
    var w5 := RunStep(w4, "", "", a[4..]);
    var w6 := RunStep(w5, "", "", a[5..]);
    var w7 := RunStep(w6, "", "", a[6..]);
    assert a[7..] == [];
  }

  lemma RunStep(w: World, kind: string, after: string, actions: seq<Action>) returns (next: World)
    requires actions != []
    ensures next == Next(w, kind, after, actions[0])
    ensures Run(w, kind, after, actions) == Run(next, kind, after, actions[1..])
  {
    next := Next(w, kind, after, actions[0]);
  }

  /** When a page comes back short and is written whole, everything past the base is written. */
  lemma ShortPageCatchesUp(w: World, kind: string, after: string, written: nat)
    requires Inv(w, kind, after) && w.conn.Some?
    requires |ListEvents(w.log, w.conn.value, kind, STREAM_PAGE_SIZE)| < STREAM_PAGE_SIZE
    requires written >= |ListEvents(w.log, w.conn.value, kind, STREAM_PAGE_SIZE)|
    ensures var v := Next(w, kind, after, Poll(written));
      v.conn.Some? && v.got + v.wire == Matching(w.log, w.base, kind)
  {
    PageFollows(w, kind);
    var m, sent := Matching(w.log, w.base, kind), w.got + w.wire;
    assert m == sent + m[|sent|..];
    var page := ListEvents(w.log, w.conn.value, kind, STREAM_PAGE_SIZE);
    assert page == m[|sent|..];
    assert w.got + (w.wire + page) == sent + page;
  }

  // ----- From bytes to received events

  function FrameOf(e: Entry): Frame {
    EventFrame(e.id, e.kind, e.body)
  }

  function FramesOf(events: seq<Entry>): (frames: seq<Frame>)
    ensures |frames| == |events|
  {
    seq(|events|, i requires 0 <= i < |events| => FrameOf(events[i]))
  }

  lemma FramesOfTake(events: seq<Entry>, n: nat)
    requires n <= |events|
    ensures FramesOf(events)[..n] == FramesOf(events[..n])
  {
    hide FrameOf;
  }

  lemma {:induction false} ToldLast(events: seq<Entry>)
    ensures |ToldAll(FramesOf(events))| == |events|
    ensures LastId("", ToldAll(FramesOf(events))) == LastEventId(events)
  {
    if events != [] {
      ToldLast(events[1..]);
      var rest := FramesOf(events[1..]);
      assert FramesOf(events)[1..] == rest;
    }
  }

  /** What a client is to learn of an event: its id in decimal, its type without line breaks, or "message"
      when nothing is left of it, and its own body. */
  predicate Says(m: Message, e: Entry) {
    m == Message(Decimal(e.id), if Kept(e.kind) == "" then "message" else Kept(e.kind), e.body)
  }

  lemma {:induction false} FramesSay(events: seq<Entry>)
    ensures |ToldAll(FramesOf(events))| == |events|
    ensures forall i :: 0 <= i < |events| ==> Says(ToldAll(FramesOf(events))[i], events[i])
  {
    if events != [] {
      FramesSay(events[1..]);
      StripKeepsTheRest(events[0].kind);
      assert FramesOf(events)[1..] == FramesOf(events[1..]);
    }
  }

  /** Reading what is written of some events gives one message for each that arrived whole, and it says exactly
      what the event says. */
  lemma ReadsEvents(events: seq<Entry>, k: nat) returns (n: nat)
    requires forall i :: 0 <= i < |events| ==> NoBreaks(events[i].body)
    requires k <= |Written(events)|
    ensures n <= |events| && |Written(events[..n])| <= k && (n < |events| ==> k < |Written(events[..n + 1])|)
    ensures var reader := Read(Written(events)[..k]);
      && |reader.sent| == n && (forall i :: 0 <= i < n ==> Says(reader.sent[i], events[i]))
      && reader.lastId == if n == 0 then "" else Decimal(events[n - 1].id)
  {
    var frames := FramesOf(events);
    n := Whole(frames, k);
    CutStream(frames, k);
    FramesOfTake(events, n);
    FramesSay(events[..n]);
    WholeFits(frames, k);
    if n < |events| { FramesOfTake(events, n + 1); }
  }

  lemma {:induction false} WholeFits(frames: seq<Frame>, k: nat)
    requires k <= |StreamText(frames)|
    ensures var n := Whole(frames, k); |StreamText(frames[..n])| <= k && (n < |frames| ==> k < |StreamText(frames[..n + 1])|)
  {
    hide FrameText;
    var n := Whole(frames, k);
    if frames == [] || k < |FrameText(frames[0])| {
      assert frames[..0] == [];
      if frames != [] {
        assert frames[..1] == [frames[0]] + [];
        StreamCons(frames[0], []);
      }
    } else {
      WholeFits(frames[1..], k - |FrameText(frames[0])|);
      assert frames[..n] == [frames[0]] + frames[1..][..n - 1];
      StreamCons(frames[0], frames[1..][..n - 1]);
      if n < |frames| {
        assert frames[..n + 1] == [frames[0]] + frames[1..][..n];
        StreamCons(frames[0], frames[1..][..n]);
      }
    }
  }

  /** However many bytes of a page arrive before the connection drops, the client has read a prefix of the
      page and asks for exactly the rest of the log: nothing is repeated and nothing is skipped. */
  lemma CutResumes(log: seq<Entry>, kind: string, after: string, cursor: nat, k: nat)
    returns (n: nat)
    requires Ordered(log) && IdsFit(log) && StartOf(after, "") == After(cursor)
    requires forall i :: 0 <= i < |log| ==> NoBreaks(log[i].body)
    requires k <= |StreamText(FramesOf(ListEvents(log, cursor, kind, STREAM_PAGE_SIZE)))|
    ensures var page := ListEvents(log, cursor, kind, STREAM_PAGE_SIZE);
      var reader := Read(StreamText(FramesOf(page))[..k]);
      && n == Whole(FramesOf(page), k) <= |page|
      && reader.sent == ToldAll(FramesOf(page[..n])) && |reader.sent| == n
      && (forall i :: 0 <= i < n ==> Says(reader.sent[i], page[i]))
      && StartOf(after, reader.lastId) == After(LastOr(cursor, page[..n]))
      && Matching(log, LastOr(cursor, page[..n]), kind) == Matching(log, cursor, kind)[n..]
  {
    var m, page := Matching(log, cursor, kind), ListEvents(log, cursor, kind, STREAM_PAGE_SIZE);
    PageOk(log, kind, cursor);
    n := Whole(FramesOf(page), k);
    CutPage(page, k);
    hide Read, FramesOf, StreamText, Matching, Says, ToldAll, Decimal, Whole;
    assert page[..n] == m[..n];
    Resume(log, cursor, kind, n);
    if n > 0 {
      NamedDecimal(page[n - 1].id);
      DecimalDigits(page[n - 1].id);
    }
  }

  lemma CutPage(page: seq<Entry>, k: nat)
    requires forall i :: 0 <= i < |page| ==> NoBreaks(page[i].body)
    requires k <= |StreamText(FramesOf(page))|
    ensures var reader, n := Read(StreamText(FramesOf(page))[..k]), Whole(FramesOf(page), k);
      && n <= |page| && reader.sent == ToldAll(FramesOf(page[..n])) && |reader.sent| == n
      && (forall i :: 0 <= i < n ==> Says(reader.sent[i], page[i]))
      && reader.lastId == LastEventId(page[..n])
  {
    var n := Whole(FramesOf(page), k);
    hide Read, StreamText, Says, Decimal, Whole;
    FramesOfTake(page, n);
    CutStream(FramesOf(page), k);
    ToldLast(page[..n]);
    FramesSay(page[..n]);
  }

  lemma PageOk(log: seq<Entry>, kind: string, cursor: nat)
    requires IdsFit(log) && forall i :: 0 <= i < |log| ==> NoBreaks(log[i].body)
    ensures var page := ListEvents(log, cursor, kind, STREAM_PAGE_SIZE);
      forall i :: 0 <= i < |page| ==> NoBreaks(page[i].body) && page[i].id <= MAX_INT64
  {
    MatchingMembers(log, cursor, kind);
    var page := ListEvents(log, cursor, kind, STREAM_PAGE_SIZE);
    forall i | 0 <= i < |page|
      ensures NoBreaks(page[i].body) && page[i].id <= MAX_INT64
    {
      assert page[i] in Matching(log, cursor, kind) && Picks(page[i], cursor, kind);
      assert page[i] in log;
    }
  }

  // ----- The activity stream's page

  /** `store.TaskActivity`: past a cursor oldest first, from 0 the newest page, newest first. */
  function TaskActivity(rows: seq<Entry>, after: nat, limit: nat): seq<Entry> {
    if after == 0 then Page(Reversed(rows), limit) else Page(Matching(rows, after, ""), limit)
  }

  function Reversed<T>(s: seq<T>): seq<T> {
    if s == [] then [] else [s[|s| - 1]] + Reversed(s[..|s| - 1])
  }

  function ActivityAfter(rows: seq<Entry>, after: nat, limit: nat): seq<Entry> {
    var page := TaskActivity(rows, after, limit);
    if after > 0 then page else Reversed(page)
  }

  lemma ReversedPage<T>(s: seq<T>, limit: nat)
    ensures |Reversed(s)| == |s|
    ensures Reversed(Page(Reversed(s), limit)) == if |s| <= limit then s else s[|s| - limit..]
  {
    ReversedAt(s);
    var page := Page(Reversed(s), limit);
    ReversedAt(page);
    var want := if |s| <= limit then s else s[|s| - limit..];
    forall i | 0 <= i < |page|
      ensures Reversed(page)[i] == want[i]
    {
      assert page[|page| - 1 - i] == Reversed(s)[|page| - 1 - i];
    }
  }

  lemma {:induction false} ReversedAt<T>(s: seq<T>)
    ensures |Reversed(s)| == |s|
    ensures forall i :: 0 <= i < |s| ==> Reversed(s)[i] == s[|s| - 1 - i]
  {
    if s != [] { ReversedAt(s[..|s| - 1]); }
  }

  /** From a row's id an activity poll reads on like the event log. From 0 (`?after=0`, or a table empty at
      the opening) it reads the newest page, so it skips rows exactly when there are more than a page. */
  lemma ActivityPageExactly(rows: seq<Entry>, after: nat, limit: nat)
    requires Ordered(rows) && limit > 0
    ensures ActivityAfter(rows, after, limit) == Page(Matching(rows, after, ""), limit)
      <==> after > 0 || |rows| <= limit
    ensures after == 0 ==> LastOr(0, ActivityAfter(rows, 0, limit)) == LastOr(0, rows)
  {
    if after == 0 {
      AllMatch(rows);
      ReversedPage(rows, limit);
      hide Matching, Reversed;
      if |rows| > limit {
        assert rows[|rows| - limit..][0].id > rows[..limit][0].id;
      }
    }
  }

  lemma {:induction false} AllMatch(rows: seq<Entry>)
    ensures Matching(rows, 0, "") == rows
  {
    if rows != [] { AllMatch(rows[..|rows| - 1]); }
  }

  // ----- The handler

  lemma {:induction false} StreamAppend(a: seq<Frame>, b: seq<Frame>)
    ensures StreamText(a + b) == StreamText(a) + StreamText(b)
  {
    hide FrameText;
    if a == [] {
      assert a + b == b;
    } else {
      StreamAppend(a[1..], b);
      StreamCons(a[0], a[1..] + b);
      assert a + b == [a[0]] + (a[1..] + b);
    }
  }

  lemma StreamCons(f: Frame, rest: seq<Frame>)
    ensures StreamText([f] + rest) == FrameText(f) + StreamText(rest)
  {
    hide FrameText;
    assert ([f] + rest)[1..] == rest;
  }

  lemma FramesOfAppend(a: seq<Entry>, b: seq<Entry>)
    ensures FramesOf(a + b) == FramesOf(a) + FramesOf(b)
  {
    hide FrameOf;
  }

  function Written(events: seq<Entry>): string {
    StreamText(FramesOf(events))
  }

  lemma WrittenAppend(a: seq<Entry>, b: seq<Entry>)
    ensures Written(a + b) == Written(a) + Written(b)
  {
    FramesOfAppend(a, b);
    StreamAppend(FramesOf(a), FramesOf(b));
  }

  lemma WrittenOne(e: Entry)
    ensures Written([e]) == FrameText(FrameOf(e))
  {
    hide FrameText;
    assert FramesOf([e]) == [FrameOf(e)];
    assert [FrameOf(e)][1..] == [] && StreamText([FrameOf(e)][1..]) == "";
  }

  lemma NothingWritten()
    ensures Written([]) == ""
  {
  }

  class EventStream {
    const kind: string
    const writer: FrameWriter
    var cursor: nat

    constructor (kind: string, writer: FrameWriter, cursor: nat)
      ensures this.kind == kind && this.writer == writer && this.cursor == cursor
    {
      this.kind := kind;
      this.writer := writer;
      this.cursor := cursor;
    }

    /** One turn of the loop: a page, its frames, or a heartbeat when the stream has been quiet too long. */
    method Poll(log: seq<Entry>, quiet: bool) returns (full: bool)
      modifies this, writer
      ensures var page := ListEvents(log, old(cursor), kind, STREAM_PAGE_SIZE);
        && cursor == LastOr(old(cursor), page)
        && full == (|page| == STREAM_PAGE_SIZE)
        && writer.out == old(writer.out)
          + (if page == [] && quiet then FrameText(Heartbeat) else Written(page))
    {
      hide FrameText, FramesOf, ListEvents;
      var events := ListEvents(log, cursor, kind, STREAM_PAGE_SIZE);
      if |events| > 0 {
        var i := 0;
        while i < |events|
          invariant 0 <= i <= |events|
          invariant cursor == LastOr(old(cursor), events[..i])
          invariant writer.out == old(writer.out) + Written(events[..i])
        {
          assert events[..i + 1] == events[..i] + [events[i]];
          WrittenAppend(events[..i], [events[i]]);
          WrittenOne(events[i]);
          assert FrameOf(events[i]) == EventFrame(events[i].id, events[i].kind, events[i].body);
          writer.WriteEventFrame(events[i].id, events[i].kind, events[i].body);
          cursor := events[i].id;
          i := i + 1;
        }
        assert events[..i] == events;
      } else if quiet {
        writer.WriteHeartbeat();
      }
      full := |events| == STREAM_PAGE_SIZE;
    }

    /** Polling on while pages are full writes the whole backlog, each event once. */
    method Drain(log: seq<Entry>)
      requires Ordered(log)
      modifies this, writer
      ensures writer.out == old(writer.out) + Written(Matching(log, old(cursor), kind))
      ensures cursor == LastOr(old(cursor), Matching(log, old(cursor), kind))
    {
      hide FrameText, Written;
      ghost var m := Matching(log, cursor, kind);
      ghost var n: nat := 0;
      assert m[..0] == [];
      NothingWritten();
      var full := true;
      while full
        invariant n <= |m|
        invariant cursor == LastOr(old(cursor), m[..n])
        invariant writer.out == old(writer.out) + Written(m[..n])
        invariant !full ==> n == |m|
        decreases |m| - n, full
      {
        Resume(log, old(cursor), kind, n);
        full := Poll(log, false);
        DrainStep(m, n, old(cursor));
        n := n + |Page(m[n..], STREAM_PAGE_SIZE)|;
      }
      assert m[..n] == m;
    }
  }

  lemma DrainStep(m: seq<Entry>, n: nat, start: nat)
    requires n <= |m|
    ensures var page := Page(m[n..], STREAM_PAGE_SIZE);
      && n + |page| <= |m|
      && Written(m[..n + |page|]) == Written(m[..n]) + Written(page)
      && LastOr(LastOr(start, m[..n]), page) == LastOr(start, m[..n + |page|])
  {
    hide Written;
    var page := Page(m[n..], STREAM_PAGE_SIZE);
    assert m[..n + |page|] == m[..n] + page;
    WrittenAppend(m[..n], page);
  }

  /** Query `i` sees `logs[i]`; the search ends on the first short page, and then `head` is the newest
      matching id of the log that query saw. It is still searching only if every page was full. */
  method StreamHead(logs: seq<seq<Entry>>, kind: string) returns (head: nat, queries: nat, done: bool)
    requires Growing(logs)
    ensures queries <= |logs|
    ensures done ==> queries > 0 && head == Head(logs[queries - 1], kind)
    ensures !done ==> queries == |logs| && (|logs| > 0 ==> |Matching(logs[|logs| - 1], 0, kind)| >= |logs| * STREAM_PAGE_SIZE)
  {
    hide Matching, Ordered;
    head, queries, done := 0, 0, false;
    ghost var n: nat := 0;
    while queries < |logs| && !done
      invariant queries <= |logs|
      invariant done ==> queries > 0 && head == Head(logs[queries - 1], kind)
      invariant !done && queries > 0 ==>
        n <= |Matching(logs[queries - 1], 0, kind)| && head == LastOr(0, Matching(logs[queries - 1], 0, kind)[..n])
      invariant queries == 0 ==> n == 0 && head == 0
      invariant !done ==> n >= queries * STREAM_PAGE_SIZE
      decreases |logs| - queries
    {
      var log := logs[queries];
      ghost var m := Matching(log, 0, kind);
      if queries > 0 { PrefixSeen(logs[queries - 1], log, 0, kind); }
      assert n <= |m| && head == LastOr(0, m[..n]);
      Resume(log, 0, kind, n);
      var events := ListEvents(log, head, kind, STREAM_PAGE_SIZE);
      HeadStep(m, n);
      if |events| == 0 {
        done := true;
      } else {
        head := events[|events| - 1].id;
        done := |events| < STREAM_PAGE_SIZE;
      }
      n := n + |events|;
      queries := queries + 1;
    }
  }

  lemma HeadStep(m: seq<Entry>, n: nat)
    requires n <= |m|
    ensures var page := Page(m[n..], STREAM_PAGE_SIZE);
      && n + |page| <= |m|
      && (page != [] ==> page[|page| - 1].id == LastOr(0, m[..n + |page|]))
      && (|page| < STREAM_PAGE_SIZE ==> n + |page| == |m| && m[..n + |page|] == m)
  {
  }
}
