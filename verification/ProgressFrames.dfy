/** The progress stream of `internal/api/progress.go`: holding back before an event whose correlation is
    still being applied, and attributing a batch's frames to the newest event that touched their subject. */
module ProgressFrames {
  import opened Text
  import opened EventLog

  // ----- Events and what they touch

  /** What `progress.Resolve` reduces an event to; `""` and 0 stand for nothing named. */
  datatype Touch = Touch(kind: string, task: string, tasks: seq<string>, doc: int, iri: string)

  datatype Body = Body(source: string, applied: bool, receivedAt: int, touch: Touch)

  type Entry = Event<Body>

  datatype Subject = TaskOf(id: string) | DocRow(row: int) | DocIri(iri: string)

  /** The subjects of a touch: one task, else a set of tasks, else one document, by row or by IRI. `rows`
      gives the row of each IRI that names a live document. */
  function Subjects(t: Touch, rows: map<string, int>): set<Subject> {
    if t.task != "" then {TaskOf(t.task)}
    else if t.tasks != [] then set id | id in t.tasks :: TaskOf(id)
    else if t.doc != 0 then {DocRow(t.doc)}
    else if t.iri == "" then {}
    else if t.iri in rows then {DocRow(rows[t.iri])}
    else {DocIri(t.iri)}
  }

  /** The newest event touching a subject. */
  function LastTouch(events: seq<Entry>, rows: map<string, int>, s: Subject): Option<Entry> {
    if events == [] then None
    else
      var last := events[|events| - 1];
      if s in Subjects(last.body.touch, rows) then Some(last) else LastTouch(events[..|events| - 1], rows, s)
  }

  lemma {:induction false} LastTouchIsNewest(events: seq<Entry>, rows: map<string, int>, s: Subject)
    requires Ordered(events)
    ensures LastTouch(events, rows, s).None? <==> forall i :: 0 <= i < |events| ==> s !in Subjects(events[i].body.touch, rows)
    ensures LastTouch(events, rows, s).Some? ==>
      var o := LastTouch(events, rows, s).value;
      && o in events && s in Subjects(o.body.touch, rows)
      && forall i :: 0 <= i < |events| && s in Subjects(events[i].body.touch, rows) ==> events[i].id <= o.id
  {
    hide Subjects;
    if events != [] {
      var n := |events| - 1;
      LastTouchIsNewest(events[..n], rows, s);
      forall i | 0 <= i < n
        ensures events[i] == events[..n][i] && events[i].id < events[n].id
      {
      }
      assert events[..n] + [events[n]] == events;
    }
  }

  // ----- Attribution

  function Newer(a: Option<Entry>, b: Option<Entry>): Option<Entry> {
    if a.None? then b
    else if b.None? || a.value.id > b.value.id then a
    else b
  }

  /** Resolving one more IRI merges its newest event into its document's, and changes nothing else. */
  lemma {:induction false} ResolveIri(events: seq<Entry>, rows: map<string, int>, iri: string, row: int)
    requires Ordered(events) && iri !in rows
    ensures LastTouch(events, rows[iri := row], DocRow(row))
      == Newer(LastTouch(events, rows, DocRow(row)), LastTouch(events, rows, DocIri(iri)))
    ensures forall s :: s != DocRow(row) && s != DocIri(iri) ==>
      LastTouch(events, rows[iri := row], s) == LastTouch(events, rows, s)
  {
    if events != [] {
      var init, last := events[..|events| - 1], events[|events| - 1];
      ResolveIri(init, rows, iri, row);
      LastTouchIsNewest(init, rows, DocRow(row));
      LastTouchIsNewest(init, rows, DocIri(iri));
      assert forall e: Entry :: e in init ==> e.id < last.id;
      SubjectsResolve(last.body.touch, rows, iri, row);
      hide Subjects;
    }
  }

  lemma SubjectsResolve(t: Touch, rows: map<string, int>, iri: string, row: int)
    requires iri !in rows
    ensures forall s :: s != DocRow(row) && s != DocIri(iri) ==>
      (s in Subjects(t, rows[iri := row]) <==> s in Subjects(t, rows))
    ensures DocRow(row) in Subjects(t, rows[iri := row]) <==> DocRow(row) in Subjects(t, rows) || DocIri(iri) in Subjects(t, rows)
    ensures !(DocRow(row) in Subjects(t, rows) && DocIri(iri) in Subjects(t, rows))
  {
  }

  /** The id lists sent to the lookup, and the event each id's frame is attributed to. */
  datatype Origins = Origins(taskIds: seq<string>, docIds: seq<int>,
                             taskOrigin: map<string, Entry>, docOrigin: map<int, Entry>)

  ghost predicate Distinct<T(!new)>(s: seq<T>) {
    forall i, j :: 0 <= i < j < |s| ==> s[i] != s[j]
  }

  ghost predicate Lists<T(!new), U>(ids: seq<T>, origin: map<T, U>) {
    Distinct(ids) && forall id :: id in ids <==> id in origin
  }

  function Recorded<T>(origin: map<T, Entry>, id: T): Option<Entry> {
    if id in origin then Some(origin[id]) else None
  }

  /** Every subject touched in the batch has its newest event as origin, and no other has one. */
  ghost predicate Attributed(events: seq<Entry>, rows: map<string, int>, o: Origins) {
    && Lists(o.taskIds, o.taskOrigin) && Lists(o.docIds, o.docOrigin)
    && (forall id {:trigger TaskOf(id)} :: Recorded(o.taskOrigin, id) == LastTouch(events, rows, TaskOf(id)))
    && (forall row {:trigger DocRow(row)} :: Recorded(o.docOrigin, row) == LastTouch(events, rows, DocRow(row)))
  }

  /** The source's `noteTask`, also how it keeps the newest event of an IRI. */
  method Note(ids: seq<string>, origin: map<string, Entry>, id: string, e: Entry)
    returns (ids': seq<string>, origin': map<string, Entry>)
    requires Lists(ids, origin)
    ensures Lists(ids', origin') && origin' == origin[id := e]
  {
    ids' := if id in origin then ids else ids + [id];
    origin' := origin[id := e];
  }

  method NoteAll(ids: seq<string>, origin: map<string, Entry>, names: seq<string>, e: Entry)
    returns (ids': seq<string>, origin': map<string, Entry>)
    requires Lists(ids, origin)
    ensures Lists(ids', origin')
    ensures forall id :: Recorded(origin', id) == if id in names then Some(e) else Recorded(origin, id)
  {
    ids', origin' := ids, origin;
    for i := 0 to |names|
      invariant Lists(ids', origin')
      invariant forall id :: Recorded(origin', id) == if id in names[..i] then Some(e) else Recorded(origin, id)
    {
      ids', origin' := Note(ids', origin', names[i], e);
      assert names[..i + 1] == names[..i] + [names[i]];
    }
    assert names[..|names|] == names;
  }

  /** The source's `noteDoc`: the newer event wins, in whatever order they come. */
  method NoteDoc(ids: seq<int>, origin: map<int, Entry>, row: int, e: Entry)
    returns (ids': seq<int>, origin': map<int, Entry>)
    requires Lists(ids, origin)
    ensures Lists(ids', origin')
    ensures forall r :: Recorded(origin', r) == if r == row then Newer(Recorded(origin, row), Some(e)) else Recorded(origin, r)
  {
    ids', origin' := ids, origin;
    if row !in origin {
      ids' := ids + [row];
    } else if origin[row].id > e.id {
      return;
    }
    origin' := origin[row := e];
  }

  /** What the loop over the batch has recorded, IRIs still unresolved. */
  ghost predicate Noted(events: seq<Entry>, rows: map<string, int>, tasks: map<string, Entry>, docs: map<int, Entry>,
                        iris: map<string, Entry>) {
    && (forall id {:trigger TaskOf(id)} :: Recorded(tasks, id) == LastTouch(events, rows, TaskOf(id)))
    && (forall row {:trigger DocRow(row)} :: Recorded(docs, row) == LastTouch(events, rows, DocRow(row)))
    && (forall iri {:trigger DocIri(iri)} :: iri !in rows ==> Recorded(iris, iri) == LastTouch(events, rows, DocIri(iri)))
  }

  method NoteEvents(events: seq<Entry>)
    returns (taskIds: seq<string>, taskOrigin: map<string, Entry>, docIds: seq<int>, docOrigin: map<int, Entry>,
             iris: seq<string>, iriOrigin: map<string, Entry>)
    requires Ordered(events)
    ensures Lists(taskIds, taskOrigin) && Lists(docIds, docOrigin) && Lists(iris, iriOrigin)
    ensures Noted(events, map[], taskOrigin, docOrigin, iriOrigin)
  {
    taskIds, taskOrigin, docIds, docOrigin, iris, iriOrigin := [], map[], [], map[], [], map[];
    for i := 0 to |events|
      invariant Lists(taskIds, taskOrigin) && Lists(docIds, docOrigin) && Lists(iris, iriOrigin)
      invariant Noted(events[..i], map[], taskOrigin, docOrigin, iriOrigin)
    {
      var e := events[i];
      var t := e.body.touch;
      NotedStep(events, i);
      if t.task != "" {
        taskIds, taskOrigin := Note(taskIds, taskOrigin, t.task, e);
      } else if |t.tasks| > 0 {
        taskIds, taskOrigin := NoteAll(taskIds, taskOrigin, t.tasks, e);
      } else if t.doc != 0 {
        docIds, docOrigin := NoteDoc(docIds, docOrigin, t.doc, e);
      } else if t.iri != "" {
        iris, iriOrigin := Note(iris, iriOrigin, t.iri, e);
      }
    }
    assert events[..|events|] == events;
  }

  lemma NotedStep(events: seq<Entry>, i: nat)
    requires Ordered(events) && i < |events|
    ensures forall s ::
      LastTouch(events[..i + 1], map[], s) ==
        (if s in Subjects(events[i].body.touch, map[]) then Some(events[i]) else LastTouch(events[..i], map[], s))
    ensures forall s :: LastTouch(events[..i], map[], s).Some? ==> LastTouch(events[..i], map[], s).value.id < events[i].id
  {
    assert events[..i + 1][..i] == events[..i];
    forall s | LastTouch(events[..i], map[], s).Some?
      ensures LastTouch(events[..i], map[], s).value.id < events[i].id
    {
      LastTouchIsNewest(events[..i], map[], s);
      assert LastTouch(events[..i], map[], s).value in events[..i];
    }
  }

  lemma NotedResolve(events: seq<Entry>, rows: map<string, int>, iri: string, row: int, tasks: map<string, Entry>,
                     docs: map<int, Entry>, docs': map<int, Entry>, iris: map<string, Entry>)
    requires Ordered(events) && Noted(events, rows, tasks, docs, iris) && iri !in rows && iri in iris
    requires forall r :: Recorded(docs', r) == if r == row then Newer(Recorded(docs, row), Some(iris[iri])) else Recorded(docs, r)
    ensures Noted(events, rows[iri := row], tasks, docs', iris)
  {
    hide Subjects, LastTouch, Newer;
    ResolveIri(events, rows, iri, row);
    assert DocIri(iri).iri == iri && Recorded(iris, iri) == LastTouch(events, rows, DocIri(iri));
    assert DocRow(row).row == row;
  }

  /** `table` is what `DocIDsBySubjectIRI` would answer for any IRI; only the batch's IRIs are asked for, and
      the answer is a map, iterated in no particular order. */
  method ProgressOrigins(events: seq<Entry>, table: map<string, int>) returns (o: Origins)
    requires Ordered(events)
    ensures Attributed(events, table, o)
  {
    hide Noted, LastTouch;
    var taskIds, taskOrigin, docIds, docOrigin, iris, iriOrigin := NoteEvents(events);
    var rows := map iri | iri in table && iri in iris :: table[iri];
    var todo := rows.Keys;
    ghost var done: map<string, int> := map[];
    while todo != {}
      invariant Lists(docIds, docOrigin)
      invariant todo !! done.Keys && todo + done.Keys == rows.Keys
      invariant forall iri :: iri in done ==> done[iri] == rows[iri]
      invariant Noted(events, done, taskOrigin, docOrigin, iriOrigin)
      decreases todo
    {
      var iri :| iri in todo;
      var docIds', docOrigin' := NoteDoc(docIds, docOrigin, rows[iri], iriOrigin[iri]);
      NotedResolve(events, done, iri, rows[iri], taskOrigin, docOrigin, docOrigin', iriOrigin);
      docIds, docOrigin := docIds', docOrigin';
      todo, done := todo - {iri}, done[iri := rows[iri]];
    }
    assert done == rows;
    o := Origins(taskIds, docIds, taskOrigin, docOrigin);
    NotedAttributed(events, table, rows, iris, iriOrigin, o);
  }

  lemma NotedAttributed(events: seq<Entry>, table: map<string, int>, rows: map<string, int>, iris: seq<string>,
                        iriOrigin: map<string, Entry>, o: Origins)
    requires rows == map iri | iri in table && iri in iris :: table[iri]
    requires Lists(o.taskIds, o.taskOrigin) && Lists(o.docIds, o.docOrigin) && Lists(iris, iriOrigin)
    requires Noted(events, rows, o.taskOrigin, o.docOrigin, iriOrigin)
    ensures Attributed(events, table, o)
  {
    hide LastTouch;
    AskedSuffices(events, table, rows, iris, iriOrigin);
    assert forall id {:trigger TaskOf(id)} :: !TaskOf(id).DocIri?;
    assert forall row {:trigger DocRow(row)} :: !DocRow(row).DocIri?;
  }

  /** IRIs the batch does not name make no difference. */
  lemma AskedSuffices(events: seq<Entry>, table: map<string, int>, rows: map<string, int>, iris: seq<string>,
                      iriOrigin: map<string, Entry>)
    requires rows == map iri | iri in table && iri in iris :: table[iri]
    requires forall iri :: iri in iris <==> iri in iriOrigin
    requires forall iri {:trigger DocIri(iri)} :: iri !in rows ==> Recorded(iriOrigin, iri) == LastTouch(events, rows, DocIri(iri))
    ensures forall s: Subject :: !s.DocIri? ==> LastTouch(events, rows, s) == LastTouch(events, table, s)
  {
    forall s: Subject | !s.DocIri?
      ensures LastTouch(events, rows, s) == LastTouch(events, table, s)
    {
      forall iri | iri in table && iri !in rows
        ensures LastTouch(events, rows, DocIri(iri)).None?
      {
        assert DocIri(iri).iri == iri;
      }
      SameTouch(events, table, rows, s);
    }
  }

  lemma {:induction false} SameTouch(events: seq<Entry>, table: map<string, int>, rows: map<string, int>, s: Subject)
    requires !s.DocIri? && forall iri :: iri in rows ==> iri in table && table[iri] == rows[iri]
    requires forall iri :: iri in table && iri !in rows ==> LastTouch(events, rows, DocIri(iri)).None?
    ensures LastTouch(events, rows, s) == LastTouch(events, table, s)
  {
    if events != [] {
      var last := events[|events| - 1].body.touch;
      SameTouch(events[..|events| - 1], table, rows, s);
      if DocIri(last.iri) in Subjects(last, rows) && last.iri in table {
        assert LastTouch(events, rows, DocIri(last.iri)).Some?;
      }
    }
  }

  /** The attribution does not depend on the order the IRIs are taken in. */
  lemma AttributionDetermined(events: seq<Entry>, rows: map<string, int>, a: Origins, b: Origins)
    requires Attributed(events, rows, a) && Attributed(events, rows, b)
    ensures a.taskOrigin == b.taskOrigin && a.docOrigin == b.docOrigin
    ensures (forall id :: id in a.taskIds <==> id in b.taskIds) && (forall row :: row in a.docIds <==> row in b.docIds)
  {
    forall id
      ensures Recorded(a.taskOrigin, id) == Recorded(b.taskOrigin, id)
    {
      assert TaskOf(id).id == id;
    }
    forall row
      ensures Recorded(a.docOrigin, row) == Recorded(b.docOrigin, row)
    {
      assert DocRow(row).row == row;
    }
    SameRecords(a.taskOrigin, b.taskOrigin);
    SameRecords(a.docOrigin, b.docOrigin);
  }

  lemma SameRecords<T(!new)>(a: map<T, Entry>, b: map<T, Entry>)
    requires forall id :: Recorded(a, id) == Recorded(b, id)
    ensures a == b
  {
    forall id
      ensures id in a <==> id in b
    {
      assert Recorded(a, id) == Recorded(b, id);
    }
    forall id | id in a
      ensures a[id] == b[id]
    {
      assert Recorded(a, id) == Recorded(b, id);
    }
  }

  // ----- Frames

  /** A row of `store.ProgressRefs`: a task's place, or a document's. */
  datatype Ref = Ref(project: string, task: string, plan: int, specs: seq<int>)

  datatype Frame = Frame(id: nat, kind: string, at: int, task: string, plan: int, specs: seq<int>)

  /** The id a ref answers for: its task, else its plan, else the one spec it is. */
  function SubjectOf(ref: Ref): Option<Subject> {
    if ref.task != "" then Some(TaskOf(ref.task))
    else if ref.plan != 0 then Some(DocRow(ref.plan))
    else if |ref.specs| == 1 then Some(DocRow(ref.specs[0]))
    else None
  }

  /** A ref about nothing in the batch carries the zero origin. */
  function FrameOf(ref: Ref, origin: Option<Entry>): Frame {
    match origin
    case Some(e) => Frame(e.id, e.kind, e.body.receivedAt, ref.task, ref.plan, ref.specs)
    case None => Frame(0, "", 0, ref.task, ref.plan, ref.specs)
  }

  function OriginOf(events: seq<Entry>, rows: map<string, int>, ref: Ref): Option<Entry> {
    if SubjectOf(ref).None? then None else LastTouch(events, rows, SubjectOf(ref).value)
  }

  /** The frames of one project, in the order of the refs. */
  function FramesOf(events: seq<Entry>, rows: map<string, int>, refs: seq<Ref>, project: string): seq<Frame> {
    if refs == [] then []
    else
      var init, last := FramesOf(events, rows, refs[..|refs| - 1], project), refs[|refs| - 1];
      if last.project == project then init + [FrameOf(last, OriginOf(events, rows, last))] else init
  }

  /** `refs` is what the store answers for the ids asked about. */
  method ProgressFrames(events: seq<Entry>, rows: map<string, int>, o: Origins, refs: seq<Ref>, project: string)
    returns (frames: seq<Frame>)
    requires Attributed(events, rows, o)
    ensures frames == FramesOf(events, rows, refs, project)
  {
    frames := [];
    for i := 0 to |refs|
      invariant frames == FramesOf(events, rows, refs[..i], project)
    {
      var ref := refs[i];
      assert refs[..i + 1][..i] == refs[..i];
      if ref.project != project { continue; }
      var origin: Option<Entry> := None;
      if ref.task != "" {
        assert TaskOf(ref.task).id == ref.task;
        origin := Recorded(o.taskOrigin, ref.task);
      } else if ref.plan != 0 {
        assert DocRow(ref.plan).row == ref.plan;
        origin := Recorded(o.docOrigin, ref.plan);
      } else if |ref.specs| == 1 {
        assert DocRow(ref.specs[0]).row == ref.specs[0];
        origin := Recorded(o.docOrigin, ref.specs[0]);
      }
      frames := frames + [FrameOf(ref, origin)];
    }
    assert refs[..|refs|] == refs;
  }

  /** Every frame is about a ref of the project, and carries the id, type and time of the newest event of the
      batch that touched its subject. */
  lemma {:induction false} FramesAttributed(events: seq<Entry>, rows: map<string, int>, refs: seq<Ref>, project: string,
                                            f: Frame) returns (ref: Ref)
    requires Ordered(events) && f in FramesOf(events, rows, refs, project)
    ensures ref in refs && ref.project == project && f == FrameOf(ref, OriginOf(events, rows, ref))
    ensures forall s :: SubjectOf(ref) == Some(s) && (exists e :: e in events && s in Subjects(e.body.touch, rows)) ==>
      exists e :: e in events && s in Subjects(e.body.touch, rows) && f.id == e.id && f.kind == e.kind
        && (forall i :: 0 <= i < |events| && s in Subjects(events[i].body.touch, rows) ==> events[i].id <= e.id)
    decreases |refs|
  {
    hide Subjects;
    ref := refs[|refs| - 1];
    if f in FramesOf(events, rows, refs[..|refs| - 1], project) {
      ref := FramesAttributed(events, rows, refs[..|refs| - 1], project, f);
      assert refs == refs[..|refs| - 1] + [refs[|refs| - 1]];
    } else if SubjectOf(ref).Some? {
      LastTouchIsNewest(events, rows, SubjectOf(ref).value);
    }
  }

  /** The event names the document by its row, or by an IRI that stands for it; tasks come before documents. */
  predicate NamesDoc(t: Touch, rows: map<string, int>, row: int) {
    && t.task == "" && t.tasks == []
    && if t.doc != 0 then t.doc == row else t.iri != "" && t.iri in rows && rows[t.iri] == row
  }

  /** The event is about what the ref answers for. */
  predicate About(e: Entry, rows: map<string, int>, ref: Ref) {
    var t := e.body.touch;
    if ref.task != "" then if t.task != "" then t.task == ref.task else ref.task in t.tasks
    else if ref.plan != 0 then NamesDoc(t, rows, ref.plan)
    else |ref.specs| == 1 && NamesDoc(t, rows, ref.specs[0])
  }

  /** The frame repeats the ref, with the id, type and arrival of the last event about it; none, and they are
      empty. */
  ghost predicate FrameTold(events: seq<Entry>, rows: map<string, int>, ref: Ref, f: Frame) {
    && f.task == ref.task && f.plan == ref.plan && f.specs == ref.specs
    && if exists i :: 0 <= i < |events| && About(events[i], rows, ref) then
         exists i :: 0 <= i < |events| && LastAbout(events, rows, ref, i)
           && f.id == events[i].id && f.kind == events[i].kind && f.at == events[i].body.receivedAt
       else f.id == 0 && f.kind == "" && f.at == 0
  }

  predicate LastAbout(events: seq<Entry>, rows: map<string, int>, ref: Ref, i: nat)
    requires i < |events|
  {
    About(events[i], rows, ref) && forall j :: i < j < |events| ==> !About(events[j], rows, ref)
  }

  lemma AboutSubject(e: Entry, rows: map<string, int>, ref: Ref)
    ensures About(e, rows, ref) <==> SubjectOf(ref).Some? && SubjectOf(ref).value in Subjects(e.body.touch, rows)
  {
  }

  lemma {:induction false} LastAboutIs(events: seq<Entry>, rows: map<string, int>, ref: Ref) returns (i: nat)
    ensures OriginOf(events, rows, ref).None? <==> forall j :: 0 <= j < |events| ==> !About(events[j], rows, ref)
    ensures OriginOf(events, rows, ref).Some? ==>
      i < |events| && LastAbout(events, rows, ref, i) && OriginOf(events, rows, ref).value == events[i]
  {
    hide Subjects, SubjectOf, About;
    i := 0;
    if events == [] {
    } else {
      var n := |events| - 1;
      AboutSubject(events[n], rows, ref);
      i := LastAboutIs(events[..n], rows, ref);
      if About(events[n], rows, ref) { i := n; }
      assert forall j :: 0 <= j < n ==> events[..n][j] == events[j];
    }
  }

  lemma FrameIsTold(events: seq<Entry>, rows: map<string, int>, ref: Ref)
    ensures FrameTold(events, rows, ref, FrameOf(ref, OriginOf(events, rows, ref)))
  {
    hide OriginOf, About;
    var i := LastAboutIs(events, rows, ref);
  }

  /** One frame for each ref of the project and for no other, in the order of the refs. */
  lemma {:induction false} FramesTold(events: seq<Entry>, rows: map<string, int>, refs: seq<Ref>, project: string)
    returns (from: seq<nat>)
    ensures var frames := FramesOf(events, rows, refs, project);
      && |from| == |frames|
      && (forall i :: 0 <= i < |from| ==> from[i] < |refs| && FrameTold(events, rows, refs[from[i]], frames[i]))
      && (forall i, j :: 0 <= i < j < |from| ==> from[i] < from[j])
      && (forall k: nat :: k < |refs| ==> (k in from <==> refs[k].project == project))
  {
    hide FrameTold, OriginOf, FrameOf;
    from := [];
    if refs != [] {
      var n := |refs| - 1;
      from := FramesTold(events, rows, refs[..n], project);
      FrameIsTold(events, rows, refs[n]);
      assert n !in from;
      assert forall k: nat :: k < n ==> refs[..n][k] == refs[k];
      if refs[n].project == project { from := from + [n]; }
    }
  }

  // ----- A cut inside a batch

  /** The store answers only for subjects it was asked about, so every ref has an origin in the batch. */
  ghost predicate Answers(events: seq<Entry>, rows: map<string, int>, refs: seq<Ref>) {
    forall ref :: ref in refs ==> OriginOf(events, rows, ref).Some?
  }

  /** The part of the batch a client reads again that reconnects after the id of the last frame it got. */
  function Reread(events: seq<Entry>, lastId: nat): seq<Entry> {
    Matching(events, lastId, "")
  }

  /** They are what the next poll begins with, on whatever the log has grown to. */
  lemma RereadFirst(log: seq<Entry>, cursor: nat, events: seq<Entry>, lastId: nat)
    requires cursor <= lastId && events <= Matching(log, cursor, "")
    ensures Reread(events, lastId) <= Matching(log, lastId, "")
  {
    PrefixSeen(events, Matching(log, cursor, ""), lastId, "");
    MatchingTwice(log, cursor, lastId);
  }

  lemma {:induction false} MatchingTwice(log: seq<Entry>, after: nat, later: nat)
    requires after <= later
    ensures Matching(Matching(log, after, ""), later, "") == Matching(log, later, "")
  {
    if log != [] {
      var init, last := Matching(log[..|log| - 1], after, ""), log[|log| - 1];
      MatchingTwice(log[..|log| - 1], after, later);
      if Picks(last, after, "") { assert (init + [last])[..|init|] == init; }
    }
  }

  /** Some event that is read again touches what the frame is about. */
  ghost predicate ShownAgain(events: seq<Entry>, rows: map<string, int>, ref: Ref, lastId: nat) {
    SubjectOf(ref).Some? && LastTouch(Reread(events, lastId), rows, SubjectOf(ref).value).Some?
  }

  /** A subject touched in the batch is touched again after a cut exactly when its newest event is past it. */
  lemma TouchedAgainExactly(events: seq<Entry>, rows: map<string, int>, s: Subject, lastId: nat)
    requires Ordered(events) && lastId > 0 && LastTouch(events, rows, s).Some?
    ensures LastTouch(Reread(events, lastId), rows, s).Some? <==> lastId < LastTouch(events, rows, s).value.id
  {
    hide Subjects;
    var late, o := Reread(events, lastId), LastTouch(events, rows, s).value;
    MatchingMembers(events, lastId, "");
    MatchingOrdered(events, lastId, "");
    LastTouchIsNewest(events, rows, s);
    LastTouchIsNewest(late, rows, s);
    if LastTouch(late, rows, s).Some? {
      var n := LastTouch(late, rows, s).value;
      assert Picks(n, lastId, "") && n in events;
      var i :| 0 <= i < |events| && events[i] == n;
    }
    if lastId < o.id {
      assert Picks(o, lastId, "") && o in late;
      var i :| 0 <= i < |late| && late[i] == o;
    }
  }

  /** The refs of the project, in the order of its frames. */
  function Shown(refs: seq<Ref>, project: string): seq<Ref> {
    if refs == [] then []
    else
      var init, last := Shown(refs[..|refs| - 1], project), refs[|refs| - 1];
      if last.project == project then init + [last] else init
  }

  lemma {:induction false} FramesOfShown(events: seq<Entry>, rows: map<string, int>, refs: seq<Ref>, project: string)
    ensures |FramesOf(events, rows, refs, project)| == |Shown(refs, project)|
    ensures forall i :: 0 <= i < |Shown(refs, project)| ==>
      && Shown(refs, project)[i] in refs
      && FramesOf(events, rows, refs, project)[i] == FrameOf(Shown(refs, project)[i], OriginOf(events, rows, Shown(refs, project)[i]))
  {
    hide OriginOf, FrameOf;
    if refs != [] {
      FramesOfShown(events, rows, refs[..|refs| - 1], project);
      assert refs == refs[..|refs| - 1] + [refs[|refs| - 1]];
    }
  }

  /** The connection is cut after frame `k` of the batch: what a later frame is about is shown again exactly
      when that frame's id is larger. */
  lemma CutShowsAgainExactly(events: seq<Entry>, rows: map<string, int>, refs: seq<Ref>, project: string, k: nat, j: nat)
    requires Ordered(events) && Answers(events, rows, refs) && k < j < |Shown(refs, project)|
    ensures var frames := FramesOf(events, rows, refs, project);
      && |frames| == |Shown(refs, project)|
      && (ShownAgain(events, rows, Shown(refs, project)[j], frames[k].id) <==> frames[k].id < frames[j].id)
  {
    hide OriginOf, LastTouch, Subjects, Reread;
    var frames, shown := FramesOf(events, rows, refs, project), Shown(refs, project);
    FramesOfShown(events, rows, refs, project);
    OriginIsNewest(events, rows, shown[k]);
    OriginIsNewest(events, rows, shown[j]);
    TouchedAgainExactly(events, rows, SubjectOf(shown[j]).value, frames[k].id);
  }

  lemma OriginIsNewest(events: seq<Entry>, rows: map<string, int>, ref: Ref)
    requires Ordered(events) && OriginOf(events, rows, ref).Some?
    ensures SubjectOf(ref).Some? && OriginOf(events, rows, ref) == LastTouch(events, rows, SubjectOf(ref).value)
    ensures FrameOf(ref, OriginOf(events, rows, ref)).id == OriginOf(events, rows, ref).value.id > 0
  {
    LastTouchIsNewest(events, rows, SubjectOf(ref).value);
  }

  predicate Rising(frames: seq<Frame>) {
    forall k, j :: 0 <= k < j < |frames| ==> frames[k].id < frames[j].id
  }

  ghost predicate LosesNothing(events: seq<Entry>, rows: map<string, int>, refs: seq<Ref>, project: string)
  {
    var frames, shown := FramesOf(events, rows, refs, project), Shown(refs, project);
    forall k, j :: 0 <= k < j < |frames| && j < |shown| ==> ShownAgain(events, rows, shown[j], frames[k].id)
  }

  /** A batch survives every cut exactly when it sends its frames in strictly rising order of their ids. */
  lemma CutLosesNothingExactly(events: seq<Entry>, rows: map<string, int>, refs: seq<Ref>, project: string)
    requires Ordered(events) && Answers(events, rows, refs)
    ensures LosesNothing(events, rows, refs, project) <==> Rising(FramesOf(events, rows, refs, project))
  {
    hide Answers, FramesOf, Shown, ShownAgain;
    var frames, shown := FramesOf(events, rows, refs, project), Shown(refs, project);
    FramesOfShown(events, rows, refs, project);
    forall k, j | 0 <= k < j < |frames|
      ensures ShownAgain(events, rows, shown[j], frames[k].id) <==> frames[k].id < frames[j].id
    {
      CutShowsAgainExactly(events, rows, refs, project, k, j);
    }
  }

  function TaskTouch(id: string): Touch {
    Touch("task", id, [], 0, "")
  }

  function DocTouch(row: int): Touch {
    Touch("doc", "", [], row, "")
  }

  function Noticed(id: nat, kind: string, touch: Touch): Entry {
    Event(id, kind, Body("worklode", true, 0, touch))
  }

  /** Event 1 is about task T, event 2 about document 7. */
  function TwoEvents(): seq<Entry> {
    [Noticed(1, "task.done", TaskTouch("T")), Noticed(2, "doc.patched", DocTouch(7))]
  }

  /** The store's answer: documents before tasks. */
  function TwoRefs(): seq<Ref> {
    [Ref("p", "", 7, []), Ref("p", "T", 0, [])]
  }

  /** Cut after the document's frame, which carries id 2, the client never learns of the task. */
  lemma CutLosesTask()
    ensures Ordered(TwoEvents()) && Answers(TwoEvents(), map[], TwoRefs())
    ensures |FramesOf(TwoEvents(), map[], TwoRefs(), "p")| == 2
    ensures FramesOf(TwoEvents(), map[], TwoRefs(), "p")[0].id == 2
    ensures !ShownAgain(TwoEvents(), map[], TwoRefs()[1], 2)
  {
    var events, refs := TwoEvents(), TwoRefs();
    assert events[..1] == [events[0]] && events[..1][..0] == [];
    assert LastTouch(events[..1], map[], TaskOf("T")) == Some(events[0]);
    assert LastTouch(events, map[], TaskOf("T")) == Some(events[0]);
    assert LastTouch(events, map[], DocRow(7)) == Some(events[1]);
    assert refs[..1] == [refs[0]] && refs[..1][..0] == [];
    assert FramesOf(events, map[], refs[..1], "p") == [FrameOf(refs[0], Some(events[1]))];
    TouchedAgainExactly(events, map[], TaskOf("T"), 2);
  }

  // ----- Holding back

  /** A GitHub delivery whose correlation the second transaction has not written yet. */
  predicate Held(e: Entry) {
    && e.body.source == "github" && !e.body.applied && e.body.touch.task == ""
    && (e.body.touch.kind == "pr" || e.body.touch.kind == "ci")
  }

  /** The events before the first held one. */
  function Ready(events: seq<Entry>): (r: seq<Entry>)
    ensures r <= events
  {
    if events == [] || Held(events[0]) then [] else [events[0]] + Ready(events[1..])
  }

  lemma ReadyStep(events: seq<Entry>, i: nat)
    requires i < |events|
    ensures events[..i] + Ready(events[i..]) ==
      if Held(events[i]) then events[..i] else events[..i + 1] + Ready(events[i + 1..])
  {
    hide Held;
    assert events[i..][0] == events[i] && events[i..][1..] == events[i + 1..];
    var tail := Ready(events[i + 1..]);
    assert Ready(events[i..]) == if Held(events[i]) then [] else [events[i]] + tail;
    hide Ready;
    assert events[..i] + ([events[i]] + tail) == events[..i + 1] + tail;
  }

  /** A pr or ci delivery of GitHub that is not applied and names no task yet. */
  predicate AwaitsTask(e: Entry) {
    e.body.touch.kind in {"pr", "ci"} && e.body.source == "github" && e.body.touch.task == "" && !e.body.applied
  }

  method HoldBack(events: seq<Entry>) returns (r: seq<Entry>)
    ensures r == Ready(events) <= events
    ensures forall i :: 0 <= i < |r| ==> !AwaitsTask(events[i])
    ensures |r| < |events| ==> AwaitsTask(events[|r|])
  {
    ReadyNotHeld(events);
    assert forall e :: AwaitsTask(e) <==> Held(e);
    hide Held, Ready, AwaitsTask;
    assert events[..0] + Ready(events[0..]) == Ready(events) by { assert events[0..] == events; }
    for i := 0 to |events|
      invariant Ready(events) == events[..i] + Ready(events[i..])
    {
      ReadyStep(events, i);
      if Held(events[i]) {
        return events[..i];
      }
    }
    return events;
  }

  lemma {:induction false} ReadyNotHeld(events: seq<Entry>)
    ensures forall i :: 0 <= i < |Ready(events)| ==> !Held(events[i])
    ensures |Ready(events)| < |events| ==> Held(events[|Ready(events)|])
  {
    if events != [] && !Held(events[0]) { ReadyNotHeld(events[1..]); }
  }

  datatype World = World(log: seq<Entry>, cursor: nat, consumed: seq<Entry>)

  datatype Action = Grow(e: Entry) | Apply(i: nat, touch: Touch) | Poll

  function Applied(e: Entry, touch: Touch): Entry {
    e.(body := e.body.(applied := true, touch := touch))
  }

  /** A delivery's second transaction marks it applied and may merge what it correlates into its payload;
      the kind is its type's and stays. */
  predicate MayApply(e: Entry, touch: Touch) {
    !e.body.applied && touch.kind == e.body.touch.kind
  }

  predicate Applies(w: World, a: Action) {
    a.Apply? && a.i < |w.log| && MayApply(w.log[a.i], a.touch)
  }

  function Next(w: World, a: Action): World {
    match a
    case Grow(e) => if LastOr(0, w.log) < e.id then w.(log := w.log + [e]) else w
    case Apply(i, touch) => if Applies(w, a) then w.(log := w.log[i := Applied(w.log[i], touch)]) else w
    case Poll =>
      var events := Ready(ListEvents(w.log, w.cursor, "", MAX_EVENT_LIST_LIMIT));
      w.(cursor := LastOr(w.cursor, events), consumed := w.consumed + events)
  }

  function Run(w: World, actions: seq<Action>): World
    decreases |actions|
  {
    if actions == [] then w else Run(Next(w, actions[0]), actions[1..])
  }

  /** The same event; whether it has been applied, and what it touches, may differ. */
  predicate SameEvent(a: Entry, b: Entry) {
    a.id == b.id && a.kind == b.kind
  }

  /** What was consumed is, event by event, the log past the start. */
  ghost predicate Consumed(w: World, start: nat) {
    var m := Matching(w.log, start, "");
    && |w.consumed| <= |m| && w.cursor == LastOr(start, m[..|w.consumed|])
    && forall i :: 0 <= i < |w.consumed| ==> SameEvent(w.consumed[i], m[i]) && !Held(m[i])
  }

  /** Each event was consumed with the touch the log now shows for it. */
  ghost predicate Current(w: World, start: nat) {
    var m := Matching(w.log, start, "");
    forall i :: 0 <= i < |w.consumed| && i < |m| ==> w.consumed[i].body.touch == m[i].body.touch
  }

  /** Event by event, an old touch is explained: its event has been applied since. */
  ghost predicate Settled(w: World, start: nat) {
    var m := Matching(w.log, start, "");
    forall i :: 0 <= i < |w.consumed| && i < |m| ==> w.consumed[i].body.touch == m[i].body.touch || m[i].body.applied
  }

  ghost predicate Inv(w: World, start: nat) {
    Ordered(w.log) && Consumed(w, start) && Settled(w, start)
  }

  /** A second transaction that changes what an event touches after the stream has passed it. */
  predicate Late(w: World, a: Action, start: nat) {
    Applies(w, a) && a.touch != w.log[a.i].body.touch && start < w.log[a.i].id <= w.cursor
  }

  predicate LateIn(w: World, actions: seq<Action>, start: nat)
    decreases |actions|
  {
    actions != [] && (Late(w, actions[0], start) || LateIn(Next(w, actions[0]), actions[1..], start))
  }

  /** Position `k` of the matching log is position `i` of the log, and applying changes it there only. */
  lemma {:induction false} MatchingApplied(log: seq<Entry>, i: nat, touch: Touch, start: nat) returns (k: nat)
    requires i < |log| && Ordered(log)
    ensures var m, m' := Matching(log, start, ""), Matching(log[i := Applied(log[i], touch)], start, "");
      && (log[i].id > start ==> k < |m| && m[k] == log[i] && m' == m[k := Applied(log[i], touch)])
      && (log[i].id <= start ==> m' == m)
  {
    var now := log[i := Applied(log[i], touch)];
    var init, last := log[..|log| - 1], log[|log| - 1];
    if i == |log| - 1 {
      assert now[..|log| - 1] == init;
      k := |Matching(init, start, "")|;
    } else {
      k := MatchingApplied(init, i, touch, start);
      assert now[..|log| - 1] == init[i := Applied(init[i], touch)];
    }
  }

  /** The k-th event past the start is consumed exactly when the cursor has reached it. */
  lemma PassedExactly(w: World, start: nat, k: nat)
    requires Ordered(w.log) && Consumed(w, start) && k < |Matching(w.log, start, "")|
    ensures k < |w.consumed| <==> Matching(w.log, start, "")[k].id <= w.cursor
  {
    var m := Matching(w.log, start, "");
    MatchingOrdered(w.log, start, "");
    assert m[k] in m;
    if w.consumed != [] {
      assert w.cursor == m[|w.consumed| - 1].id;
    }
  }

  lemma ApplyKeeps(w: World, a: Action, start: nat)
    requires Inv(w, start) && Applies(w, a)
    ensures Inv(Next(w, a), start)
    ensures Current(Next(w, a), start) <==> Current(w, start) && !Late(w, a, start)
  {
    var was, now := w.log[a.i], Applied(w.log[a.i], a.touch);
    var w' := Next(w, a);
    assert Ordered(w'.log);
    var k := MatchingApplied(w.log, a.i, a.touch, start);
    if was.id > start {
      PassedExactly(w, start, k);
      CursorSame(Matching(w.log, start, ""), Matching(w'.log, start, ""), k, now, |w.consumed|, start);
      hide Ordered, Matching;
      TouchChanged(w, w', k, now, start);
    }
  }

  /** One event of the matching log, unapplied so far, has been applied. */
  lemma TouchChanged(w: World, w': World, k: nat, now: Entry, start: nat)
    requires w'.consumed == w.consumed && w'.cursor == w.cursor && k < |Matching(w.log, start, "")|
    requires Matching(w'.log, start, "") == Matching(w.log, start, "")[k := now]
    requires !Matching(w.log, start, "")[k].body.applied && now == Applied(Matching(w.log, start, "")[k], now.body.touch)
    requires now.body.touch.kind == Matching(w.log, start, "")[k].body.touch.kind
    requires Settled(w, start) && Consumed(w, start)
    requires LastOr(start, Matching(w'.log, start, "")[..|w.consumed|]) == w.cursor
    ensures Settled(w', start) && Consumed(w', start)
    ensures Current(w', start) <==>
      Current(w, start) && !(k < |w.consumed| && now.body.touch != Matching(w.log, start, "")[k].body.touch)
  {
    hide Matching;
    var m, m' := Matching(w.log, start, ""), Matching(w'.log, start, "");
    if k < |w.consumed| {
      assert w.consumed[k].body.touch == m[k].body.touch;
      assert m'[k] == now;
    }
    if Current(w', start) {
      forall i | 0 <= i < |w.consumed|
        ensures w.consumed[i].body.touch == m[i].body.touch
      {
        if i != k { assert m'[i] == m[i]; }
      }
    }
  }

  lemma CursorSame(m: seq<Entry>, m': seq<Entry>, k: nat, now: Entry, n: nat, start: nat)
    requires k < |m| && m' == m[k := now] && now.id == m[k].id && n <= |m|
    ensures LastOr(start, m[..n]) == LastOr(start, m'[..n])
  {
  }

  lemma GrowKeeps(w: World, e: Entry, start: nat)
    requires Inv(w, start)
    ensures Inv(Next(w, Grow(e)), start)
    ensures Current(Next(w, Grow(e)), start) <==> Current(w, start)
  {
    if LastOr(0, w.log) < e.id {
      assert (w.log + [e])[..|w.log|] == w.log;
      var m, m' := Matching(w.log, start, ""), Matching(w.log + [e], start, "");
      assert m <= m';
      assert m'[..|w.consumed|] == m[..|w.consumed|];
      if Current(Next(w, Grow(e)), start) {
        assert forall i :: 0 <= i < |w.consumed| && i < |m| ==> m[i] == m'[i];
      }
    }
  }

  /** The events consumed so far, and the next ones of the log. */
  lemma ConsumedMore(consumed: seq<Entry>, events: seq<Entry>, m: seq<Entry>, start: nat)
    requires |consumed| <= |m| && events <= m[|consumed|..]
    requires forall i :: 0 <= i < |consumed| ==> SameEvent(consumed[i], m[i]) && !Held(m[i])
    requires forall i :: 0 <= i < |events| ==> !Held(events[i])
    ensures var n := |consumed + events|;
      && n <= |m| && LastOr(LastOr(start, m[..|consumed|]), events) == LastOr(start, m[..n])
      && (forall i :: 0 <= i < n ==> SameEvent((consumed + events)[i], m[i]) && !Held(m[i]))
      && (forall i :: |consumed| <= i < n ==> (consumed + events)[i] == m[i])
  {
    hide Held;
    var n := |consumed|;
    assert m[..n + |events|] == m[..n] + events;
    forall i | n <= i < n + |events|
      ensures (consumed + events)[i] == m[i] && !Held(m[i])
    {
      assert m[i] == m[n..][i - n] == events[i - n];
    }
  }

  lemma TouchesMore(w: World, w': World, start: nat)
    requires w'.log == w.log && w.consumed <= w'.consumed && |w'.consumed| <= |Matching(w.log, start, "")|
    requires forall i :: |w.consumed| <= i < |w'.consumed| ==> w'.consumed[i] == Matching(w.log, start, "")[i]
    ensures Current(w', start) <==> Current(w, start)
    ensures Settled(w, start) ==> Settled(w', start)
  {
    hide Matching;
    if Current(w', start) {
      assert forall i :: 0 <= i < |w.consumed| ==> w.consumed[i] == w'.consumed[i];
    }
  }

  lemma PollKeeps(w: World, start: nat)
    requires Inv(w, start)
    ensures Inv(Next(w, Poll), start)
    ensures Current(Next(w, Poll), start) <==> Current(w, start)
  {
    hide Held, SameEvent, Matching, Ready, Current, Settled;
    var m, n := Matching(w.log, start, ""), |w.consumed|;
    Resume(w.log, start, "", n);
    var page := ListEvents(w.log, w.cursor, "", MAX_EVENT_LIST_LIMIT);
    ReadyNotHeld(page);
    assert page <= m[n..];
    ConsumedMore(w.consumed, Ready(page), m, start);
    TouchesMore(w, Next(w, Poll), start);
  }

  lemma StepKeeps(w: World, a: Action, start: nat)
    requires Inv(w, start)
    ensures Inv(Next(w, a), start)
    ensures Current(Next(w, a), start) <==> Current(w, start) && !Late(w, a, start)
  {
    match a
    case Grow(e) => GrowKeeps(w, e, start);
    case Apply(i, touch) => if Applies(w, a) { ApplyKeeps(w, a, start); }
    case Poll => PollKeeps(w, start);
  }

  lemma {:induction false} RunKeeps(w: World, start: nat, actions: seq<Action>)
    requires Inv(w, start)
    ensures Inv(Run(w, actions), start)
    ensures Current(Run(w, actions), start) <==> Current(w, start) && !LateIn(w, actions, start)
    decreases |actions|
  {
    hide Inv, Current, Late, Next;
    if actions != [] {
      StepKeeps(w, actions[0], start);
      RunKeeps(Next(w, actions[0]), start, actions[1..]);
    }
  }

  /** Whatever the interleaving of new events, second transactions and polls: the events consumed are
      gap-free and in order past the start, and all of them were consumed with the touch the log now shows
      exactly when no second transaction changed what an event touches after the stream had passed it. */
  lemma TouchesCurrentExactly(log: seq<Entry>, start: nat, actions: seq<Action>)
    requires Ordered(log)
    ensures var w0 := World(log, start, []);
      var w := Run(w0, actions);
      Consumed(w, start) && (Current(w, start) <==> !LateIn(w0, actions, start))
  {
    RunKeeps(World(log, start, []), start, actions);
  }

  /** Holding back works for what it holds: only a delivery that is not held back can be overtaken, that is
      one of another kind, of another source, or with a task named from the start. */
  lemma LateIsUnheld(w: World, a: Action, start: nat)
    requires Inv(w, start) && Late(w, a, start)
    ensures !Held(w.log[a.i])
  {
    var m := Matching(w.log, start, "");
    MatchingMembers(w.log, start, "");
    assert Picks(w.log[a.i], start, "") && w.log[a.i] in m;
    var k :| 0 <= k < |m| && m[k] == w.log[a.i];
    PassedExactly(w, start, k);
  }

  /** Second transactions that change only what is held back. */
  predicate HeldWritesOnly(w: World, actions: seq<Action>)
    decreases |actions|
  {
    actions == [] ||
    ((Applies(w, actions[0]) && actions[0].touch != w.log[actions[0].i].body.touch ==> Held(w.log[actions[0].i]))
     && HeldWritesOnly(Next(w, actions[0]), actions[1..]))
  }

  /** So as long as late correlations come for pr and ci deliveries only, none is lost. */
  lemma NoHeldTouchLost(log: seq<Entry>, start: nat, actions: seq<Action>)
    requires Ordered(log) && HeldWritesOnly(World(log, start, []), actions)
    ensures Current(Run(World(log, start, []), actions), start)
  {
    HeldNeverLate(World(log, start, []), start, actions);
    RunKeeps(World(log, start, []), start, actions);
  }

  lemma {:induction false} HeldNeverLate(w: World, start: nat, actions: seq<Action>)
    requires Inv(w, start) && HeldWritesOnly(w, actions)
    ensures !LateIn(w, actions, start)
    decreases |actions|
  {
    hide Inv, Held, Next, Current;
    if actions != [] {
      if Late(w, actions[0], start) { LateIsUnheld(w, actions[0], start); }
      StepKeeps(w, actions[0], start);
      HeldNeverLate(Next(w, actions[0]), start, actions[1..]);
    }
  }

  // ----- A push that is overtaken

  function Delivery(id: nat, kind: string, family: string): Entry {
    Event(id, kind, Body("github", false, 0, Touch(family, "", [], 0, "")))
  }

  /** The stream polls between the two transactions of a delivery. */
  function OvertakenRun(e: Entry, touch: Touch): seq<Action> {
    [Grow(e), Poll, Apply(0, touch)]
  }

  /** And any unapplied delivery that is not held back can be: it has been consumed without what its second
      transaction named, and is not read again. */
  lemma UnheldCanBeLost(e: Entry, touch: Touch)
    requires e.id > 0 && !Held(e) && MayApply(e, touch) && touch != e.body.touch
    ensures var w := Run(World([], 0, []), OvertakenRun(e, touch));
      && w.log == [Applied(e, touch)] && w.consumed == [e]
      && !Current(w, 0) && Matching(w.log, w.cursor, "") == []
  {
    var done := Applied(e, touch);
    var w3 := World([done], e.id, [e]);
    AloneInLog(e);
    AloneInLog(done);
    hide Matching, Held;
    assert w3.consumed[0].body.touch != Matching(w3.log, 0, "")[0].body.touch;
    assert !Current(w3, 0);
    hide Current;
    OvertakenSteps(e, touch);
  }

  lemma OvertakenSteps(e: Entry, touch: Touch)
    requires e.id > 0 && !Held(e) && MayApply(e, touch)
    ensures Run(World([], 0, []), OvertakenRun(e, touch)) == World([Applied(e, touch)], e.id, [e])
  {
    AloneInLog(e);
    hide Matching, Held, Ready;
    ThreeSteps(World([], 0, []), Grow(e), Poll, Apply(0, touch));
    assert Next(World([], 0, []), Grow(e)) == World([e], 0, []);
    assert ListEvents([e], 0, "", MAX_EVENT_LIST_LIMIT) == [e];
    assert Next(World([e], 0, []), Poll) == World([e], e.id, [e]);
    assert Next(World([e], e.id, [e]), Apply(0, touch)) == World([Applied(e, touch)], e.id, [e]);
  }

  /** So can a push whose second transaction names the task it moved. */
  lemma PushTouchLost(id: nat, task: string)
    requires id > 0
    ensures var push, touch := Delivery(id, "push", "deploy"), Touch("deploy", "", [task], 0, "");
      var w := Run(World([], 0, []), OvertakenRun(push, touch));
      && |w.log| == |w.consumed| == 1 && w.log[0].body.touch.tasks == [task] && w.consumed[0].body.touch.tasks == []
      && !Current(w, 0) && Matching(w.log, w.cursor, "") == []
  {
    UnheldCanBeLost(Delivery(id, "push", "deploy"), Touch("deploy", "", [task], 0, ""));
    hide Run, Current, Matching;
  }

  /** A log of one event. */
  lemma AloneInLog(e: Entry)
    ensures Matching([e], 0, "") == [e] && (e.id > 0 ==> Matching([e], e.id, "") == [])
    ensures Ready([e]) == if Held(e) then [] else [e]
  {
    assert [e][..0] == [] && [e][1..] == [];
  }

  lemma ThreeSteps(w: World, a: Action, b: Action, c: Action)
    ensures Run(w, [a, b, c]) == Next(Next(Next(w, a), b), c)
  {
    hide Next;
    assert [a, b, c][1..] == [b, c] && [b, c][1..] == [c] && [c][1..] == [];
    assert Run(Next(Next(w, a), b), [c]) == Run(Next(Next(Next(w, a), b), c), []);
    assert Run(Next(w, a), [b, c]) == Run(Next(Next(w, a), b), [c]);
  }

  // ----- Standing still

  /** A poll that finds events stands still exactly when the first of them is held. */
  lemma StandsStillExactly(w: World)
    requires Matching(w.log, w.cursor, "") != []
    ensures Next(w, Poll).consumed == w.consumed <==> Held(Matching(w.log, w.cursor, "")[0])
  {
    var page := ListEvents(w.log, w.cursor, "", MAX_EVENT_LIST_LIMIT);
    assert page[0] == Matching(w.log, w.cursor, "")[0];
    if !Held(page[0]) { assert |w.consumed + Ready(page)| > |w.consumed|; }
  }

  /** The i-th event of the log is the next to consume, and held. */
  ghost predicate StuckAt(w: World, i: nat) {
    && Ordered(w.log) && i < |w.log| && Held(w.log[i])
    && Matching(w.log, w.cursor, "") != [] && Matching(w.log, w.cursor, "")[0] == w.log[i]
  }

  /** Its second transaction runs, and the stream polls after that. */
  predicate FreedAndPolled(w: World, i: nat, actions: seq<Action>)
    decreases |actions|
  {
    actions != [] &&
    if Applies(w, actions[0]) && actions[0].i == i then Poll in actions[1..]
    else FreedAndPolled(Next(w, actions[0]), i, actions[1..])
  }

  lemma {:induction false} ConsumedGrows(w: World, actions: seq<Action>)
    ensures w.consumed <= Run(w, actions).consumed
    decreases |actions|
  {
    hide Ready, ListEvents;
    if actions != [] { ConsumedGrows(Next(w, actions[0]), actions[1..]); }
  }

  lemma StuckSteps(w: World, i: nat, a: Action)
    requires StuckAt(w, i) && !(Applies(w, a) && a.i == i)
    ensures StuckAt(Next(w, a), i) && Next(w, a).consumed == w.consumed
  {
    var m := Matching(w.log, w.cursor, "");
    match a
    case Grow(e) =>
      if LastOr(0, w.log) < e.id { assert (w.log + [e])[..|w.log|] == w.log; }
    case Apply(j, touch) =>
      if Applies(w, a) {
        var k := MatchingApplied(w.log, j, touch, w.cursor);
      }
    case Poll =>
      assert ListEvents(w.log, w.cursor, "", MAX_EVENT_LIST_LIMIT)[0] == m[0];
  }

  /** The next event to consume has been applied, and so is not held. */
  ghost predicate FreeAt(w: World) {
    Ordered(w.log) && Matching(w.log, w.cursor, "") != [] && Matching(w.log, w.cursor, "")[0].body.applied
  }

  lemma FreeGrows(w: World, e: Entry)
    requires FreeAt(w)
    ensures FreeAt(Next(w, Grow(e))) && Next(w, Grow(e)).consumed == w.consumed
  {
    hide ListEvents, Ready;
    if LastOr(0, w.log) < e.id { assert (w.log + [e])[..|w.log|] == w.log; }
  }

  lemma FreeApplies(w: World, i: nat, touch: Touch)
    requires FreeAt(w)
    ensures FreeAt(Next(w, Apply(i, touch))) && Next(w, Apply(i, touch)).consumed == w.consumed
  {
    hide ListEvents, Ready;
    if Applies(w, Apply(i, touch)) {
      var k := MatchingApplied(w.log, i, touch, w.cursor);
      assert Ordered(Next(w, Apply(i, touch)).log);
      hide Matching, Ordered;
    }
  }

  lemma FreeSteps(w: World, a: Action)
    requires FreeAt(w)
    ensures a.Poll? ==> Next(w, a).consumed != w.consumed
    ensures !a.Poll? ==> FreeAt(Next(w, a)) && Next(w, a).consumed == w.consumed
  {
    if a.Poll? { FreePolls(w); }
    hide Next, FreeAt;
    match a
    case Grow(e) => FreeGrows(w, e);
    case Apply(i, touch) => FreeApplies(w, i, touch);
    case Poll => 
  }

  lemma FreePolls(w: World)
    requires FreeAt(w)
    ensures Next(w, Poll).consumed != w.consumed
  {
    hide Next, ListEvents, Ordered;
    StandsStillExactly(w);
  }

  lemma {:induction false} FreeRuns(w: World, actions: seq<Action>)
    requires FreeAt(w)
    ensures Run(w, actions).consumed == w.consumed <==> Poll !in actions
    decreases |actions|
  {
    hide Next, FreeAt;
    if actions != [] {
      assert actions == [actions[0]] + actions[1..];
      FreeSteps(w, actions[0]);
      if actions[0].Poll? {
        ConsumedGrows(w, [Poll]);
        ConsumedGrows(Next(w, Poll), actions[1..]);
        assert [Poll][1..] == [] && Run(Next(w, Poll), []) == Next(w, Poll);
      } else {
        FreeRuns(Next(w, actions[0]), actions[1..]);
      }
    }
  }

  lemma StuckFreed(w: World, i: nat, a: Action)
    requires StuckAt(w, i) && Applies(w, a) && a.i == i
    ensures FreeAt(Next(w, a)) && Next(w, a).consumed == w.consumed
  {
    var k := MatchingApplied(w.log, i, a.touch, w.cursor);
    MatchingOrdered(w.log, w.cursor, "");
  }

  /** With a held event next, a run consumes anything exactly when the event's second transaction commits
      and the stream polls after that. */
  lemma {:induction false} StuckUntilApplied(w: World, i: nat, actions: seq<Action>)
    requires StuckAt(w, i)
    ensures Run(w, actions).consumed == w.consumed <==> !FreedAndPolled(w, i, actions)
    decreases |actions|
  {
    hide StuckAt, Next, FreeAt;
    if actions != [] {
      if Applies(w, actions[0]) && actions[0].i == i {
        StuckFreed(w, i, actions[0]);
        FreeRuns(Next(w, actions[0]), actions[1..]);
      } else {
        StuckSteps(w, i, actions[0]);
        StuckUntilApplied(Next(w, actions[0]), i, actions[1..]);
      }
    }
  }
}
