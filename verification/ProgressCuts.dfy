/** A progress stream over many connections: cut anywhere, reconnecting from the id of the last frame received,
    while the log grows and second transactions run. */
module ProgressCuts {
  import opened Text
  import opened EventLog
  import opened ProgressFrames

  /** A received frame: what it is about, and its id. */
  datatype Told = Told(subject: Subject, id: nat)

  /** `start` is the cursor the client named; the stream stands at `cursor`. */
  datatype Follow = Follow(log: seq<Entry>, start: nat, cursor: nat, told: seq<Told>)

  /** What does not change: the rows of document IRIs, the project, and the subjects it has refs for. */
  datatype Setting = Setting(rows: map<string, int>, project: string, subjects: set<Subject>)

  /** `Deliver` is one poll whose refs come in this order and whose first `received` frames arrive; when that
      is not all of them, the connection is cut and the client comes back. */
  datatype Step = Record(e: Entry) | Amend(i: nat, touch: Touch) | Deliver(refs: seq<Ref>, received: nat) | Reconnect

  function Batch(f: Follow): seq<Entry> {
    Ready(ListEvents(f.log, f.cursor, "", MAX_EVENT_LIST_LIMIT))
  }

  /** The store answers for exactly the subjects touched in the batch that the project has refs for. */
  ghost predicate AnswersAll(c: Setting, events: seq<Entry>, refs: seq<Ref>) {
    && Answers(events, c.rows, refs)
    && forall s :: s in c.subjects && LastTouch(events, c.rows, s).Some? ==>
      exists i :: 0 <= i < |Shown(refs, c.project)| && SubjectOf(Shown(refs, c.project)[i]) == Some(s)
  }

  /** What the frames of a batch tell, in order. */
  function Tells(c: Setting, events: seq<Entry>, refs: seq<Ref>): (t: seq<Told>)
    ensures |t| == |Shown(refs, c.project)|
  {
    var shown := Shown(refs, c.project);
    seq(|shown|, i requires 0 <= i < |shown| =>
      Told(if SubjectOf(shown[i]).Some? then SubjectOf(shown[i]).value else DocIri(""),
           FrameOf(shown[i], OriginOf(events, c.rows, shown[i])).id))
  }

  lemma TellsFrames(c: Setting, events: seq<Entry>, refs: seq<Ref>)
    ensures var t, frames := Tells(c, events, refs), FramesOf(events, c.rows, refs, c.project);
      |t| == |frames| && forall i :: 0 <= i < |t| ==> t[i].id == frames[i].id
  {
    FramesOfShown(events, c.rows, refs, c.project);
  }

  /** Where the client asks to resume. */
  function ResumeAt(start: nat, told: seq<Told>): nat {
    if told == [] then start else told[|told| - 1].id
  }

  /** Everything told once the first frames of the batch have arrived. */
  function Arrived(c: Setting, f: Follow, refs: seq<Ref>, received: nat): seq<Told> {
    var t := Tells(c, Batch(f), refs);
    f.told + if received < |t| then t[..received] else t
  }

  ghost function Next(c: Setting, f: Follow, a: Step): Follow {
    match a
    case Record(e) => if LastOr(0, f.log) < e.id then f.(log := f.log + [e]) else f
    case Amend(i, touch) =>
      if i < |f.log| && MayApply(f.log[i], touch) then f.(log := f.log[i := Applied(f.log[i], touch)]) else f
    case Deliver(refs, received) =>
      if !AnswersAll(c, Batch(f), refs) then f
      else
        var told := Arrived(c, f, refs, received);
        f.(told := told,
           cursor := if received < |Tells(c, Batch(f), refs)| then ResumeAt(f.start, told) else LastOr(f.cursor, Batch(f)))
    case Reconnect => f.(cursor := ResumeAt(f.start, f.told))
  }

  ghost function Run(c: Setting, f: Follow, steps: seq<Step>): Follow
    decreases |steps|
  {
    if steps == [] then f else Run(c, Next(c, f, steps[0]), steps[1..])
  }

  // ----- What loses nothing

  /** The cut falls before a frame whose id is not larger than where the client resumes. */
  ghost predicate CutLoses(c: Setting, f: Follow, refs: seq<Ref>, received: nat) {
    var t := Tells(c, Batch(f), refs);
    exists j :: received <= j < |t| && t[j].id <= ResumeAt(f.start, Arrived(c, f, refs, received))
  }

  /** A second transaction names something more on an event still ahead of the stream, or nothing new. */
  predicate AddsAhead(c: Setting, f: Follow, i: nat, touch: Touch) {
    i < |f.log| && MayApply(f.log[i], touch) ==>
      && Subjects(f.log[i].body.touch, c.rows) <= Subjects(touch, c.rows)
      && (f.log[i].id <= f.cursor && f.start < f.log[i].id ==> Subjects(touch, c.rows) <= Subjects(f.log[i].body.touch, c.rows))
  }

  ghost predicate Harmless(c: Setting, f: Follow, a: Step) {
    match a
    case Record(_) => true
    case Amend(i, touch) => AddsAhead(c, f, i, touch)
    case Deliver(refs, received) => AnswersAll(c, Batch(f), refs) && received < |Tells(c, Batch(f), refs)| ==> !CutLoses(c, f, refs, received)
    case Reconnect => true
  }

  ghost predicate AllHarmless(c: Setting, f: Follow, steps: seq<Step>)
    decreases |steps|
  {
    steps == [] || (Harmless(c, f, steps[0]) && AllHarmless(c, Next(c, f, steps[0]), steps[1..]))
  }

  ghost predicate ToldSince(f: Follow, s: Subject, id: nat) {
    exists t :: t in f.told && t.subject == s && t.id >= id
  }

  ghost predicate StillToCome(c: Setting, f: Follow, s: Subject, id: nat) {
    exists e: Entry :: e in f.log && e.id >= id && e.id > f.cursor && s in Subjects(e.body.touch, c.rows)
  }

  /** Each touch past the start has been told, by its frame or a newer one, or will be. */
  ghost predicate NothingMissed(c: Setting, f: Follow) {
    forall e: Entry, s :: e in f.log && e.id > f.start && s in Subjects(e.body.touch, c.rows) && s in c.subjects ==>
      ToldSince(f, s, e.id) || StillToCome(c, f, s, e.id)
  }

  /** The start, or no further than the log. */
  predicate Reached(f: Follow, id: nat) {
    id == f.start || id <= LastOr(0, f.log)
  }

  ghost predicate Inv(c: Setting, f: Follow) {
    && Ordered(f.log) && ResumeAt(f.start, f.told) <= f.cursor
    && Reached(f, f.cursor) && Reached(f, ResumeAt(f.start, f.told))
    && NothingMissed(c, f)
  }

  // ----- Every harmless step keeps it

  lemma RecordKeeps(c: Setting, f: Follow, e: Entry)
    requires Inv(c, f)
    ensures Inv(c, Next(c, f, Record(e)))
  {
    hide Subjects;
    var f' := Next(c, f, Record(e));
    forall x: Entry, s | x in f'.log && x.id > f'.start && s in Subjects(x.body.touch, c.rows) && s in c.subjects
      ensures ToldSince(f', s, x.id) || StillToCome(c, f', s, x.id)
    {
      if x in f.log {
        if StillToCome(c, f, s, x.id) {
          var y: Entry :| y in f.log && y.id >= x.id && y.id > f.cursor && s in Subjects(y.body.touch, c.rows);
          assert y in f'.log;
        }
      } else {
        assert x == e && x.id > f.cursor;
      }
    }
  }

  lemma AmendKeeps(c: Setting, f: Follow, i: nat, touch: Touch)
    requires Inv(c, f) && AddsAhead(c, f, i, touch)
    ensures Inv(c, Next(c, f, Amend(i, touch)))
  {
    hide Subjects;
    var f' := Next(c, f, Amend(i, touch));
    if i < |f.log| && MayApply(f.log[i], touch) {
      var was, now := f.log[i], Applied(f.log[i], touch);
      assert now in f'.log by { assert f'.log[i] == now; }
      forall x: Entry, s | x in f'.log && x.id > f'.start && s in Subjects(x.body.touch, c.rows) && s in c.subjects
        ensures ToldSince(f', s, x.id) || StillToCome(c, f', s, x.id)
      {
        var k :| 0 <= k < |f'.log| && f'.log[k] == x;
        if k == i && was.id > f.cursor {
          assert now.id >= x.id && s in Subjects(now.body.touch, c.rows);
        } else {
          var old_ := f.log[k];
          assert old_ in f.log && old_.id == x.id && s in Subjects(old_.body.touch, c.rows);
          if StillToCome(c, f, s, x.id) {
            var y: Entry :| y in f.log && y.id >= x.id && y.id > f.cursor && s in Subjects(y.body.touch, c.rows);
            var j :| 0 <= j < |f.log| && f.log[j] == y;
            assert f'.log[j] in f'.log && s in Subjects(f'.log[j].body.touch, c.rows);
          }
        }
      }
    }
  }

  lemma ReconnectKeeps(c: Setting, f: Follow)
    requires Inv(c, f)
    ensures Inv(c, Next(c, f, Reconnect))
  {
    hide Subjects;
    var f' := Next(c, f, Reconnect);
    forall x: Entry, s | x in f'.log && x.id > f'.start && s in Subjects(x.body.touch, c.rows) && s in c.subjects
      ensures ToldSince(f', s, x.id) || StillToCome(c, f', s, x.id)
    {
      if StillToCome(c, f, s, x.id) {
        var y: Entry :| y in f.log && y.id >= x.id && y.id > f.cursor && s in Subjects(y.body.touch, c.rows);
        assert y in f'.log && y.id > f'.cursor;
      }
    }
  }

  /** The batch holds every event of the log up to its last. */
  lemma BatchReaches(f: Follow, e: Entry)
    requires Ordered(f.log) && e in f.log && f.cursor < e.id <= LastOr(f.cursor, Batch(f))
    ensures e in Batch(f)
  {
    var m, b := Matching(f.log, f.cursor, ""), Batch(f);
    MatchingMembers(f.log, f.cursor, "");
    MatchingOrdered(f.log, f.cursor, "");
    assert Picks(e, f.cursor, "") && e in m;
    var i :| 0 <= i < |m| && m[i] == e;
    assert b <= m;
    assert b != [] ==> b[|b| - 1] == m[|b| - 1];
    assert b[i] == m[i];
  }

  lemma BatchOrdered(f: Follow)
    requires Ordered(f.log)
    ensures Ordered(Batch(f)) && forall e: Entry :: e in Batch(f) ==> e in f.log && e.id > f.cursor
  {
    var m, b := Matching(f.log, f.cursor, ""), Batch(f);
    MatchingMembers(f.log, f.cursor, "");
    MatchingOrdered(f.log, f.cursor, "");
    assert b <= m;
    forall e: Entry | e in b
      ensures e in f.log && e.id > f.cursor
    {
      var i :| 0 <= i < |b| && b[i] == e;
      assert m[i] == e && e in m && Picks(e, f.cursor, "");
    }
  }

  /** A subject of the project touched in the batch has a frame with the id of its newest touch. */
  lemma Tellable(c: Setting, events: seq<Entry>, refs: seq<Ref>, e: Entry, s: Subject) returns (j: nat, newest: Entry)
    requires Ordered(events) && AnswersAll(c, events, refs)
    requires e in events && s in Subjects(e.body.touch, c.rows) && s in c.subjects
    ensures newest in events && s in Subjects(newest.body.touch, c.rows) && newest.id >= e.id
    ensures j < |Tells(c, events, refs)| && Tells(c, events, refs)[j] == Told(s, newest.id)
  {
    hide Subjects;
    LastTouchIsNewest(events, c.rows, s);
    var i :| 0 <= i < |events| && events[i] == e;
    newest := LastTouch(events, c.rows, s).value;
    j :| 0 <= j < |Shown(refs, c.project)| && SubjectOf(Shown(refs, c.project)[j]) == Some(s);
  }

  lemma DeliverKeeps(c: Setting, f: Follow, refs: seq<Ref>, received: nat)
    requires Inv(c, f) && Harmless(c, f, Deliver(refs, received))
    ensures Inv(c, Next(c, f, Deliver(refs, received)))
  {
    hide Subjects, Batch, Tells;
    var f' := Next(c, f, Deliver(refs, received));
    if AnswersAll(c, Batch(f), refs) {
      var t := Tells(c, Batch(f), refs);
      ResumesBehind(c, f, refs, received);
      BatchOrdered(f);
      forall x: Entry, s | x in f'.log && x.id > f'.start && s in Subjects(x.body.touch, c.rows) && s in c.subjects
        ensures ToldSince(f', s, x.id) || StillToCome(c, f', s, x.id)
      {
        if ToldSince(f, s, x.id) {
          var y :| y in f.told && y.subject == s && y.id >= x.id;
          assert y in f'.told;
        } else {
          var y: Entry :| y in f.log && y.id >= x.id && y.id > f.cursor && s in Subjects(y.body.touch, c.rows);
          DeliverTells(c, f, refs, received, y, s);
        }
      }
    }
  }

  /** What was still to come has been told, or still is. */
  lemma DeliverTells(c: Setting, f: Follow, refs: seq<Ref>, received: nat, y: Entry, s: Subject)
    requires Ordered(f.log) && ResumeAt(f.start, f.told) <= f.cursor && AnswersAll(c, Batch(f), refs)
    requires Harmless(c, f, Deliver(refs, received))
    requires y in f.log && y.id > f.cursor && s in Subjects(y.body.touch, c.rows) && s in c.subjects
    requires Next(c, f, Deliver(refs, received)).cursor <= LastOr(f.cursor, Batch(f))
    ensures var f' := Next(c, f, Deliver(refs, received)); ToldSince(f', s, y.id) || StillToCome(c, f', s, y.id)
  {
    hide Subjects, Batch, Tells;
    var f', t := Next(c, f, Deliver(refs, received)), Tells(c, Batch(f), refs);
    if y.id <= f'.cursor {
      BatchReaches(f, y);
      BatchOrdered(f);
      var j, newest := Tellable(c, Batch(f), refs, y, s);
      if j < received || received >= |t| {
        var arrived := if received < |t| then t[..received] else t;
        assert arrived[j] == t[j] && arrived[j] in f.told + arrived;
        assert t[j] in f'.told;
      } else {
        assert t[j].id > f'.cursor;
        assert newest in f'.log;
      }
    }
  }

  /** A cut resumes behind the last frame received, never past the batch. */
  lemma ResumesBehind(c: Setting, f: Follow, refs: seq<Ref>, received: nat)
    requires Inv(c, f) && AnswersAll(c, Batch(f), refs)
    ensures var f' := Next(c, f, Deliver(refs, received));
      && f'.cursor <= LastOr(f.cursor, Batch(f)) && ResumeAt(f.start, f'.told) <= f'.cursor
      && Reached(f', f'.cursor) && Reached(f', ResumeAt(f.start, f'.told))
  {
    hide Subjects, NothingMissed, AnswersAll, Batch, Tells, Ordered;
    BatchOrdered(f);
    LastTold(c, f, refs, received);
    var b := Batch(f);
    if b != [] {
      assert b[|b| - 1] in b;
      NoneAfterLast(f.log, b[|b| - 1]);
    }
  }

  /** The last id told lies in the batch, or nothing of it was received. */
  lemma LastTold(c: Setting, f: Follow, refs: seq<Ref>, received: nat)
    requires Ordered(f.log) && AnswersAll(c, Batch(f), refs)
    ensures var told := Arrived(c, f, refs, received);
      told != f.told ==> told != [] && told[|told| - 1].id <= LastOr(f.cursor, Batch(f)) && told[|told| - 1].id <= LastOr(0, f.log)
  {
    hide Subjects, AnswersAll, Batch, Tells;
    BatchOrdered(f);
    var t, b := Tells(c, Batch(f), refs), Batch(f);
    var arrived := if received < |t| then t[..received] else t;
    if arrived == [] {
      assert f.told + arrived == f.told;
    } else {
      var i := |arrived| - 1;
      assert (f.told + arrived)[|f.told| + i] == t[i];
      TellsInside(c, b, refs, i);
      var e: Entry :| e in b && e.id == t[i].id;
      NoneAfterLast(b, e);
      NoneAfterLast(f.log, e);
    }
  }

  lemma TellsInside(c: Setting, events: seq<Entry>, refs: seq<Ref>, i: nat)
    requires Ordered(events) && AnswersAll(c, events, refs) && i < |Tells(c, events, refs)|
    ensures exists e: Entry :: e in events && e.id == Tells(c, events, refs)[i].id
  {
    hide Subjects;
    FramesOfShown(events, c.rows, refs, c.project);
    var ref := Shown(refs, c.project)[i];
    assert ref in refs && OriginOf(events, c.rows, ref).Some?;
    LastTouchIsNewest(events, c.rows, SubjectOf(ref).value);
  }

  lemma NoneAfterLast(events: seq<Entry>, e: Entry)
    requires Ordered(events) && e in events
    ensures events != [] && e.id <= events[|events| - 1].id
  {
    var i :| 0 <= i < |events| && events[i] == e;
  }

  lemma StepKeeps(c: Setting, f: Follow, a: Step)
    requires Inv(c, f) && Harmless(c, f, a)
    ensures Inv(c, Next(c, f, a))
  {
    hide Inv, Next, Harmless;
    match a
    case Record(e) => RecordKeeps(c, f, e);
    case Amend(i, touch) => assert AddsAhead(c, f, i, touch) by { HarmlessAmend(c, f, i, touch); } AmendKeeps(c, f, i, touch);
    case Deliver(refs, received) => DeliverKeeps(c, f, refs, received);
    case Reconnect => ReconnectKeeps(c, f);
  }

  lemma HarmlessAmend(c: Setting, f: Follow, i: nat, touch: Touch)
    requires Harmless(c, f, Amend(i, touch))
    ensures AddsAhead(c, f, i, touch)
  {
  }

  lemma {:induction false} RunKeeps(c: Setting, f: Follow, steps: seq<Step>)
    requires Inv(c, f) && AllHarmless(c, f, steps)
    ensures Inv(c, Run(c, f, steps))
    decreases |steps|
  {
    hide Inv, Next, Harmless;
    if steps != [] {
      StepKeeps(c, f, steps[0]);
      RunKeeps(c, Next(c, f, steps[0]), steps[1..]);
    }
  }

  /** Over every run of new events, second transactions, polls, cuts and reconnects: as long as no cut falls
      before a frame whose id is not larger than where the client resumes, and no second transaction names
      something new behind the stream, each touch past the start has been told, or is still to come. */
  lemma NothingMissedThroughCuts(c: Setting, log: seq<Entry>, start: nat, steps: seq<Step>)
    requires Ordered(log) && AllHarmless(c, Follow(log, start, start, []), steps)
    ensures NothingMissed(c, Run(c, Follow(log, start, start, []), steps))
  {
    assert NothingMissed(c, Follow(log, start, start, [])) by { FreshFollow(c, log, start); }
    RunKeeps(c, Follow(log, start, start, []), steps);
  }

  lemma FreshFollow(c: Setting, log: seq<Entry>, start: nat)
    ensures NothingMissed(c, Follow(log, start, start, []))
  {
    hide Subjects;
    var f := Follow(log, start, start, []);
    forall e: Entry, s | e in f.log && e.id > f.start && s in Subjects(e.body.touch, c.rows) && s in c.subjects
      ensures StillToCome(c, f, s, e.id)
    {
      assert e.id >= e.id;
    }
  }

  lemma NothingAhead(f: Follow)
    requires Matching(f.log, f.cursor, "") == []
    ensures forall e: Entry :: e in f.log ==> e.id <= f.cursor
  {
    MatchingMembers(f.log, f.cursor, "");
    forall e: Entry | e in f.log
      ensures e.id <= f.cursor
    {
      assert !Picks(e, f.cursor, "");
    }
  }

  /** Once the stream has read to the end of the log, each touched subject has been told. */
  lemma ToldAtTheEnd(c: Setting, f: Follow, e: Entry, s: Subject)
    requires NothingMissed(c, f) && Matching(f.log, f.cursor, "") == []
    requires e in f.log && e.id > f.start && s in Subjects(e.body.touch, c.rows) && s in c.subjects
    ensures ToldSince(f, s, e.id)
  {
    hide Subjects, Matching, ToldSince;
    NothingAhead(f);
  }
}
