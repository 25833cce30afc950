/** Content-addressed blobs kept in two stores: an index row and an object (`internal/api/blobs.go`), and the
    two garbage-collection sweeps over them (`internal/api/blobgc.go`). Any write may fail, before or after it
    took effect, and any row may fail to be read; a handler that stops half-way is one whose remaining writes
    all fail before taking effect. */
module BlobStores {
  import opened Text

  /** `FailedAfter`: the write took effect, but its caller was told it did not. */
  datatype Fate = Done | FailedBefore | FailedAfter

  datatype Ref = Ref(task: string, hash: string)

  /** Index rows by creation time, objects by modification time. */
  datatype Stores = Stores(rows: map<string, int>, refs: set<Ref>, objects: map<string, int>)

  predicate Cited(refs: set<Ref>, hash: string) {
    exists r :: r in refs && r.hash == hash
  }

  predicate Referenced(s: Stores, hash: string) {
    Cited(s.refs, hash)
  }

  /** Every row has its object, and every reference its row (the foreign key). */
  predicate Sound(s: Stores) {
    s.rows.Keys <= s.objects.Keys && forall r :: r in s.refs ==> r.hash in s.rows
  }

  // ----- Upload

  /** Whether the row can be read, and what becomes of the two writes. */
  datatype StoreFates = StoreFates(read: bool, put: Fate, insert: Fate)

  /** The object first, then the row, which an existing one survives unchanged. Known bytes touch nothing,
      but bytes whose row cannot be read are taken for unknown. */
  function StoreBlob(s: Stores, hash: string, fates: StoreFates, now: int): Stores {
    if (hash in s.rows && fates.read) || fates.put == FailedBefore then s
    else
      var s := s.(objects := s.objects[hash := now]);
      if fates.put == FailedAfter || fates.insert == FailedBefore || hash in s.rows then s
      else s.(rows := s.rows[hash := now])
  }

  datatype UploadFates = UploadFates(poster: StoreFates, blob: StoreFates)

  /** A video's poster is stored as a blob of its own first; its failures do not fail the upload. */
  function Upload(s: Stores, hash: string, poster: Option<string>, fates: UploadFates, now: int): Stores {
    var s := if poster.Some? then StoreBlob(s, poster.value, fates.poster, now) else s;
    StoreBlob(s, hash, fates.blob, now)
  }

  // ----- Garbage collection

  /** What becomes of each write of a sweep, by hash; the rows that cannot be read; and the references other
      requests add between its listing of rows and their deletion. */
  datatype GcFates = GcFates(row: string -> Fate, object_: string -> Fate, list: Fate, orphan: string -> Fate,
                             unread: set<string>, arrivals: set<Ref>)

  /** References need their row (the foreign key). */
  function Attach(s: Stores, arrivals: set<Ref>): Stores {
    s.(refs := s.refs + set r | r in arrivals && r.hash in s.rows)
  }

  predicate Unreferenced(s: Stores, hash: string, cutoff: int) {
    hash in s.rows && s.rows[hash] < cutoff && !Referenced(s, hash)
  }

  /** Sweep 1 after its listing, the references checked once more: rows, then their objects. */
  function FirstSweep(s: Stores, cutoff: int, fates: GcFates): Stores {
    s.(rows := map h | h in s.rows && !(Unreferenced(s, h, cutoff) && fates.row(h) != FailedBefore) :: s.rows[h],
       objects := map h | h in s.objects && !(Tried(s, h, cutoff, fates) && fates.object_(h) != FailedBefore)
         :: s.objects[h])
  }

  predicate Tried(s: Stores, hash: string, cutoff: int, fates: GcFates) {
    Unreferenced(s, hash, cutoff) && fates.row(hash) == Done
  }

  predicate Orphan(s: Stores, hash: string, cutoff: int) {
    hash in s.objects && s.objects[hash] <= cutoff && hash !in s.rows
  }

  /** What sweep 2 takes for an orphan: any failure to read the row counts as there being none. */
  predicate TakenForOrphan(s: Stores, hash: string, cutoff: int, unread: set<string>) {
    hash in s.objects && s.objects[hash] <= cutoff && (hash !in s.rows || hash in unread)
  }

  /** Sweep 2: objects without a row. */
  function SecondSweep(s: Stores, cutoff: int, fates: GcFates): Stores {
    if fates.list != Done then s
    else
      s.(objects := map h | h in s.objects && !(TakenForOrphan(s, h, cutoff, fates.unread) && fates.orphan(h) != FailedBefore)
        :: s.objects[h])
  }

  /** `late` is the clock when the second sweep computes its own cutoff. */
  function Sweep(s: Stores, now: int, late: int, grace: int, dryRun: bool, fates: GcFates): Stores {
    var s := Attach(s, fates.arrivals);
    if dryRun then s else SecondSweep(FirstSweep(s, now - grace, fates), late - grace, fates)
  }

  // ----- Runs

  datatype World = World(now: int, stores: Stores)

  datatype Action =
    | Wait(seconds: nat)
    | UploadStep(hash: string, poster: Option<string>, uploadFates: UploadFates)
    | AddRef(ref: Ref)
    | DropRef(ref: Ref)
    | GcStep(grace: int, dryRun: bool, gcFates: GcFates)

  function Next(w: World, a: Action): World {
    match a
    case Wait(seconds) => w.(now := w.now + seconds)
    case UploadStep(hash, poster, fates) => w.(stores := Upload(w.stores, hash, poster, fates, w.now))
    case AddRef(ref) =>
      if ref.hash in w.stores.rows then w.(stores := w.stores.(refs := w.stores.refs + {ref})) else w
    case DropRef(ref) => w.(stores := w.stores.(refs := w.stores.refs - {ref}))
    case GcStep(grace, dryRun, fates) => w.(stores := Sweep(w.stores, w.now, w.now, grace, dryRun, fates))
  }

  function Run(w: World, actions: seq<Action>): World
    decreases |actions|
  {
    if actions == [] then w else Run(Next(w, actions[0]), actions[1..])
  }

  predicate Misread(s: Stores, h: string, cutoff: int, fates: GcFates) {
    h in s.objects && s.objects[h] <= cutoff && h in fates.unread && fates.orphan(h) != FailedBefore
  }

  /** Sweep 2 deletes the object of a row it could not read. */
  predicate Misreads(s: Stores, now: int, late: int, grace: int, dryRun: bool, fates: GcFates) {
    var s1 := FirstSweep(Attach(s, fates.arrivals), now - grace, fates);
    && !dryRun && fates.list == Done
    && exists h :: h in s1.rows && Misread(s1, h, late - grace, fates)
  }

  /** Whatever fails, a sweep never takes the row of a referenced hash, not even of one referenced after its
      listing. It leaves every row its object exactly when it does not delete the object of a row it could
      not read. */
  lemma SweepSoundExactly(s: Stores, now: int, late: int, grace: int, dryRun: bool, fates: GcFates)
    requires Sound(s)
    ensures var s' := Sweep(s, now, late, grace, dryRun, fates);
      && s'.refs == Attach(s, fates.arrivals).refs
      && (forall h :: Referenced(s', h) ==> h in s'.rows && h in s.rows && s'.rows[h] == s.rows[h])
      && (forall h :: h in s'.rows ==> h in s.rows && s'.rows[h] == s.rows[h])
      && (forall h :: h in s'.objects ==> h in s.objects && s'.objects[h] == s.objects[h])
      && (Sound(s') <==> !Misreads(s, now, late, grace, dryRun, fates))
  {
    var t := Attach(s, fates.arrivals);
    forall h | Referenced(t, h)
      ensures h in t.rows
    {
      var r :| r in t.refs && r.hash == h;
    }
    if !dryRun {
      FirstKeepsSound(t, now - grace, fates);
      SecondSoundExactly(FirstSweep(t, now - grace, fates), late - grace, fates);
    }
  }

  lemma FirstKeepsSound(t: Stores, cutoff: int, fates: GcFates)
    requires Sound(t)
    ensures var s1 := FirstSweep(t, cutoff, fates);
      && Sound(s1) && s1.refs == t.refs
      && (forall h :: Referenced(t, h) && h in t.rows ==> h in s1.rows)
      && (forall h :: h in s1.rows ==> h in t.rows && s1.rows[h] == t.rows[h])
      && (forall h :: h in s1.objects ==> h in t.objects && s1.objects[h] == t.objects[h])
  {
    var s1 := FirstSweep(t, cutoff, fates);
    assert forall h :: h in s1.rows ==> !Tried(t, h, cutoff, fates);
    forall r | r in t.refs
      ensures r.hash in s1.rows
    {
      assert Referenced(t, r.hash);
    }
  }

  lemma SecondSoundExactly(s: Stores, cutoff: int, fates: GcFates)
    requires Sound(s)
    ensures var s' := SecondSweep(s, cutoff, fates);
      && s'.rows == s.rows && s'.refs == s.refs
      && (forall h :: h in s'.objects ==> h in s.objects && s'.objects[h] == s.objects[h])
      && (Sound(s') <==> !(fates.list == Done && exists h :: h in s.rows && Misread(s, h, cutoff, fates)))
  {
    var s' := SecondSweep(s, cutoff, fates);
    if fates.list == Done {
      forall h | h in s.rows
        ensures h !in s'.objects <==> Misread(s, h, cutoff, fates)
      {
        assert h in s.objects;
      }
    }
  }

  /** Some sweep of the run deletes the object of a row it could not read. */
  predicate MisreadsIn(w: World, actions: seq<Action>)
    decreases |actions|
  {
    actions != [] &&
    (|| (actions[0].GcStep? && Misreads(w.stores, w.now, w.now, actions[0].grace, actions[0].dryRun, actions[0].gcFates))
     || MisreadsIn(Next(w, actions[0]), actions[1..]))
  }

  /** Over every run of uploads, references and sweeps, whatever write fails, each row has its object and each
      reference its row, unless a sweep deletes the object of a row it could not read. */
  lemma {:induction false} RowsKeepObjects(w: World, actions: seq<Action>)
    requires Sound(w.stores) && !MisreadsIn(w, actions)
    ensures Sound(Run(w, actions).stores)
    decreases |actions|
  {
    hide Sound, Upload, Sweep, Misreads;
    if actions != [] {
      StepSoundExactly(w, actions[0]);
      RowsKeepObjects(Next(w, actions[0]), actions[1..]);
    }
  }

  lemma StepSoundExactly(w: World, a: Action)
    requires Sound(w.stores)
    ensures Sound(Next(w, a).stores)
      <==> !(a.GcStep? && Misreads(w.stores, w.now, w.now, a.grace, a.dryRun, a.gcFates))
  {
    match a
    case UploadStep(_, _, _) =>
    case GcStep(grace, dryRun, fates) => SweepSoundExactly(w.stores, w.now, w.now, grace, dryRun, fates);
    case _ =>
  }

  /** One sweep whose every write succeeds and which fails to read one row: a referenced blob loses its object. */
  lemma MisreadTakesObject(task: string, hash: string)
    ensures var s := Stores(map[hash := 0], {Ref(task, hash)}, map[hash := 0]);
      var fates := GcFates(_ => Done, _ => Done, Done, _ => Done, {hash}, {});
      var s' := Sweep(s, 1, 1, 0, false, fates);
      Sound(s) && Referenced(s', hash) && hash in s'.rows && hash !in s'.objects
  {
    var s := Stores(map[hash := 0], {Ref(task, hash)}, map[hash := 0]);
    var fates := GcFates(_ => Done, _ => Done, Done, _ => Done, {hash}, {});
    NoArrivals(s);
    assert Ref(task, hash) in s.refs && Referenced(s, hash);
    var s1 := FirstSweep(s, 1, fates);
    assert hash in s1.rows && hash in s1.objects && s1.refs == s.refs;
    assert TakenForOrphan(s1, hash, 1, fates.unread);
  }

  // ----- A lost object stays lost

  predicate Missing(s: Stores, hash: string) {
    hash in s.rows && hash !in s.objects
  }

  /** These bytes are uploaded, alone or as a poster, their row cannot be read, and the object is written. */
  predicate Restores(a: Action, hash: string) {
    && a.UploadStep?
    && (|| (a.hash == hash && !a.uploadFates.blob.read && a.uploadFates.blob.put != FailedBefore)
        || (a.poster == Some(hash) && !a.uploadFates.poster.read && a.uploadFates.poster.put != FailedBefore))
  }

  /** A sweep deletes the row. */
  predicate Collects(w: World, a: Action, hash: string) {
    && a.GcStep? && !a.dryRun
    && Unreferenced(Attach(w.stores, a.gcFates.arrivals), hash, w.now - a.grace) && a.gcFates.row(hash) != FailedBefore
  }

  /** Uploading the bytes again is answered as stored while their row can be read, and restores nothing: an
      object is missing after a step exactly when the step neither restores it nor collects its row. */
  lemma MissingStep(w: World, a: Action, hash: string)
    requires Missing(w.stores, hash)
    ensures Missing(Next(w, a).stores, hash) <==> !Restores(a, hash) && !Collects(w, a, hash)
  {
    if a.GcStep? && !a.dryRun {
      var t := Attach(w.stores, a.gcFates.arrivals);
      assert FirstSweep(t, w.now - a.grace, a.gcFates).objects.Keys <= t.objects.Keys;
    }
  }

  predicate RegainedIn(w: World, actions: seq<Action>, hash: string)
    decreases |actions|
  {
    actions != [] && (Restores(actions[0], hash) || Collects(w, actions[0], hash) || RegainedIn(Next(w, actions[0]), actions[1..], hash))
  }

  /** Over every run, it stays missing until such a step. */
  lemma {:induction false} MissingLasts(w: World, actions: seq<Action>, hash: string)
    requires Missing(w.stores, hash) && !RegainedIn(w, actions, hash)
    ensures Missing(Run(w, actions).stores, hash)
    decreases |actions|
  {
    hide Missing, Restores, Collects, Next;
    if actions != [] {
      MissingStep(w, actions[0], hash);
      MissingLasts(Next(w, actions[0]), actions[1..], hash);
    }
  }

  // ----- What an undisturbed sweep leaves

  ghost predicate Undisturbed(fates: GcFates) {
    fates.list == Done && fates.unread == {} && fates.arrivals == {} && forall h :: fates.row(h) == fates.object_(h) == fates.orphan(h) == Done
  }

  lemma NoArrivals(s: Stores)
    ensures Attach(s, {}) == s
  {
    assert s.refs + (set r: Ref | r in {} && r.hash in s.rows) == s.refs;
  }

  /** Without failures exactly the unreferenced rows past the grace period go, with their objects, and exactly
      the row-less objects past it: whatever earlier failures left behind is collected. */
  lemma SweepCollectsExactly(s: Stores, now: int, late: int, grace: int, fates: GcFates)
    requires Undisturbed(fates)
    ensures var s' := Sweep(s, now, late, grace, false, fates);
      && (forall h :: h in s'.rows <==> h in s.rows && (Referenced(s, h) || s.rows[h] >= now - grace))
      && (forall h :: h in s'.objects <==>
            h in s.objects && (if h in s.rows then h in s'.rows else s.objects[h] > late - grace))
  {
    NoArrivals(s);
    var s1 := FirstSweep(s, now - grace, fates);
    assert forall h :: h in s.rows && h !in s1.rows ==> Tried(s, h, now - grace, fates);
  }

  /** Uploaded bytes that were acknowledged have both row and object. */
  lemma UploadStores(s: Stores, hash: string, poster: Option<string>, fates: UploadFates, now: int)
    requires Sound(s) && fates.blob.put == Done && fates.blob.insert == Done
    ensures var s' := Upload(s, hash, poster, fates, now); hash in s'.rows && hash in s'.objects
    ensures var s' := Upload(s, hash, poster, fates, now);
      forall h :: h in s.rows ==> h in s'.rows && s'.rows[h] == s.rows[h]
  {
  }

  /** A dry run names exactly what an undisturbed run right after it would delete. */
  lemma DryRunForetells(s: Stores, now: int, grace: int, fates: GcFates)
    requires Undisturbed(fates)
    ensures var s' := Sweep(s, now, now, grace, false, fates);
      && (forall h :: h in s.rows && h !in s'.rows <==> Unreferenced(s, h, now - grace))
      && (forall h :: h in s.objects && h !in s'.objects <==>
            Orphan(s, h, now - grace) || (Unreferenced(s, h, now - grace) && h in s.objects))
  {
    SweepCollectsExactly(s, now, now, grace, fates);
  }

  // ----- The handlers

  ghost predicate Distinct(hashes: seq<string>) {
    forall i, j :: 0 <= i < j < |hashes| ==> hashes[i] != hashes[j]
  }

  ghost predicate Lists(hashes: seq<string>, want: set<string>) {
    && Distinct(hashes)
    && (forall h :: h in hashes <==> h in want)
  }

  lemma ListsMore(hashes: seq<string>, want: set<string>, h: string)
    requires Lists(hashes, want) && h !in want
    ensures Lists(hashes + [h], want + {h})
  {
  }

  function OrphansAmong(s: Stores, listed: seq<string>, cutoff: int, unread: set<string>): set<string> {
    set h | h in listed && TakenForOrphan(s, h, cutoff, unread)
  }

  /** What the first loop has done to the stores for the hashes in `done`. */
  ghost predicate SweptRows(s: Stores, t: Stores, known: set<string>, done: seq<string>, fates: GcFates) {
    && t.refs == s.refs
    && (forall h :: h in t.rows <==> h in s.rows && !(h in done && !Cited(s.refs, h) && fates.row(h) != FailedBefore))
    && (forall h :: h in t.rows ==> t.rows[h] == s.rows[h])
    && (forall h :: h in t.objects <==>
          h in s.objects && !(h in done && !Cited(s.refs, h) && fates.row(h) == Done && fates.object_(h) != FailedBefore))
    && (forall h :: h in t.objects ==> t.objects[h] == s.objects[h])
    && (forall h :: h in known <==> h in done && !Cited(s.refs, h) && fates.row(h) == Done && fates.object_(h) == Done)
  }

  lemma SweptNone(s: Stores, fates: GcFates)
    ensures SweptRows(s, s, {}, [], fates)
  {
  }

  lemma SweptStep(s: Stores, t: Stores, known: set<string>, unref: seq<string>, i: nat, fates: GcFates)
    requires i < |unref| && SweptRows(s, t, known, unref[..i], fates) && Distinct(unref)
    requires forall h :: h in unref ==> h in s.rows
    ensures unref[i] in t.rows && unref[i] !in known && t.refs == s.refs
  {
    hide Cited;
    NewAt(unref, i);
  }

  lemma WritesDone(fates: GcFates, h: string)
    ensures Undisturbed(fates) ==> fates.row(h) == Done && fates.object_(h) == Done
  {
  }

  /** One more listed hash: its row, then its object. */
  lemma SweptNext(s: Stores, t: Stores, u: Stores, known: set<string>, known': set<string>, unref: seq<string>, i: nat,
                  fates: GcFates)
    requires i < |unref| && SweptRows(s, t, known, unref[..i], fates) && Distinct(unref)
    requires u.refs == t.refs
    requires var h := unref[i]; var free := !Cited(t.refs, h);
      && u.rows == (if fates.row(h) != FailedBefore && free then t.rows - {h} else t.rows)
      && u.objects == (if free && fates.row(h) == Done && fates.object_(h) != FailedBefore then t.objects - {h} else t.objects)
      && known' == (if free && fates.row(h) == Done && fates.object_(h) == Done then known + {h} else known)
    ensures SweptRows(s, u, known', unref[..i + 1], fates)
  {
    hide Cited;
    NewAt(unref, i);
  }

  lemma NewAt(hashes: seq<string>, i: nat)
    requires i < |hashes| && Distinct(hashes)
    ensures hashes[i] in hashes && hashes[i] !in hashes[..i]
    ensures forall h :: h in hashes[..i + 1] <==> h in hashes[..i] || h == hashes[i]
  {
    assert hashes[..i + 1] == hashes[..i] + [hashes[i]];
  }

  /** The objects left once `gone` has been deleted, where deleting had an effect. */
  ghost predicate LeftBy(s: Stores, objects: map<string, int>, gone: set<string>, dryRun: bool, fates: GcFates) {
    && (forall h :: h in objects <==> h in s.objects && !(!dryRun && h in gone && fates.orphan(h) != FailedBefore))
    && (forall h :: h in objects ==> objects[h] == s.objects[h])
  }

  lemma LeftMore(s: Stores, was: map<string, int>, now: map<string, int>, gone: set<string>, h: string, orphan: bool,
                 dryRun: bool, fates: GcFates)
    requires LeftBy(s, was, gone, dryRun, fates) && h in was && h !in gone
    requires now == if orphan && !dryRun && fates.orphan(h) != FailedBefore then was - {h} else was
    ensures LeftBy(s, now, gone + if orphan then {h} else {}, dryRun, fates)
  {
  }

  lemma StillThere(s: Stores, objects: map<string, int>, listed: seq<string>, i: nat, cutoff: int, dryRun: bool, fates: GcFates)
    requires i < |listed| && Distinct(listed) && listed[i] in s.objects
    requires LeftBy(s, objects, OrphansAmong(s, listed[..i], cutoff, fates.unread), dryRun, fates)
    ensures listed[i] in objects && objects[listed[i]] == s.objects[listed[i]]
    ensures listed[i] !in OrphansAmong(s, listed[..i], cutoff, fates.unread)
    ensures objects.Keys <= s.objects.Keys
  {
    NewAt(listed, i);
  }

  lemma SweepBegins(s: Stores, listed: seq<string>, cutoff: int, dryRun: bool, fates: GcFates)
    requires Lists(listed, s.objects.Keys)
    ensures Distinct(listed) && forall h :: h in listed <==> h in s.objects
    ensures listed[..|listed|] == listed && listed[..0] == []
    ensures Lists([], OrphansAmong(s, [], cutoff, fates.unread))
    ensures LeftBy(s, s.objects, OrphansAmong(s, [], cutoff, fates.unread), dryRun, fates)
    ensures OrphansAmong(s, listed, cutoff, fates.unread) == set h | h in s.objects && TakenForOrphan(s, h, cutoff, fates.unread)
  {
    assert OrphansAmong(s, [], cutoff, fates.unread) == {};
  }

  lemma AllLeft(s: Stores, listed: seq<string>, cutoff: int, dryRun: bool, fates: GcFates)
    requires forall h :: h in listed <==> h in s.objects
    ensures forall objects :: LeftBy(s, objects, OrphansAmong(s, listed, cutoff, fates.unread), dryRun, fates) ==>
      && (forall h :: h in objects <==>
          h in s.objects && !(!dryRun && TakenForOrphan(s, h, cutoff, fates.unread) && fates.orphan(h) != FailedBefore))
      && (forall h :: h in objects ==> objects[h] == s.objects[h])
  {
  }

  lemma SameTaken(s: Stores, t: Stores, h: string, cutoff: int, unread: set<string>)
    requires t.rows == s.rows && h in s.objects && h in t.objects && t.objects[h] == s.objects[h]
    ensures TakenForOrphan(t, h, cutoff, unread) == TakenForOrphan(s, h, cutoff, unread)
  {
  }

  lemma OrphanDone(fates: GcFates, h: string)
    ensures Undisturbed(fates) ==> fates.orphan(h) == Done
  {
  }

  lemma OrphansStep(s: Stores, listed: seq<string>, i: nat, cutoff: int, unread: set<string>)
    requires i < |listed| && Distinct(listed)
    ensures OrphansAmong(s, listed[..i + 1], cutoff, unread) == OrphansAmong(s, listed[..i], cutoff, unread)
      + if TakenForOrphan(s, listed[i], cutoff, unread) then {listed[i]} else {}
    ensures listed[i] !in OrphansAmong(s, listed[..i], cutoff, unread)
  {
    hide TakenForOrphan;
    assert listed[..i + 1] == listed[..i] + [listed[i]];
  }

  datatype GcReport = GcReport(unreferenced: seq<string>, orphans: seq<string>, deleted: nat, errors: nat)

  class BlobServer {
    var rows: map<string, int>
    var refs: set<Ref>
    var objects: map<string, int>

    constructor ()
      ensures View() == Stores(map[], {}, map[])
    {
      rows, refs, objects := map[], {}, map[];
    }

    function View(): Stores
      reads this
    {
      Stores(rows, refs, objects)
    }

    method StoreObjectThenRow(hash: string, fates: StoreFates, now: int) returns (stored: bool)
      modifies this
      ensures View() == StoreBlob(old(View()), hash, fates, now)
      ensures stored == ((hash in old(rows) && fates.read) || (fates.put == Done && fates.insert == Done))
      ensures stored ==> hash in rows
      ensures hash in old(rows) && fates.read ==> View() == old(View())
    {
      if hash in rows && fates.read { return true; }
      if fates.put != FailedBefore { objects := objects[hash := now]; }
      if fates.put != Done { return false; }
      if fates.insert != FailedBefore && hash !in rows { rows := rows[hash := now]; }
      return fates.insert == Done;
    }

    method UploadBlob(hash: string, poster: Option<string>, fates: UploadFates, now: int) returns (stored: bool)
      modifies this
      ensures View() == Upload(old(View()), hash, poster, fates, now)
      ensures stored ==> hash in rows
      ensures poster != Some(hash) ==>
        (stored <==> (hash in old(rows) && fates.blob.read) || (fates.blob.put == Done && fates.blob.insert == Done))
    {
      if poster.Some? {
        var _ := StoreObjectThenRow(poster.value, fates.poster, now);
      }
      stored := StoreObjectThenRow(hash, fates.blob, now);
    }

    /** The store's query: rows nothing references, older than the cutoff, in some order. */
    method ListUnreferenced(cutoff: int) returns (hashes: seq<string>)
      ensures Lists(hashes, set h | h in rows && Unreferenced(View(), h, cutoff))
    {
      hashes := [];
      var todo := rows.Keys;
      while todo != {}
        invariant todo <= rows.Keys
        invariant Lists(hashes, set h | h in rows && h !in todo && Unreferenced(View(), h, cutoff))
        decreases todo
      {
        hide Lists, Unreferenced;
        var h :| h in todo;
        assert (set k | k in rows && k !in todo && Unreferenced(View(), k, cutoff))
          == set k | k in rows && k !in todo - {h} && k != h && Unreferenced(View(), k, cutoff);
        todo := todo - {h};
        ghost var before := set k | k in rows && k !in todo && k != h && Unreferenced(View(), k, cutoff);
        if Unreferenced(View(), h, cutoff) {
          ListsMore(hashes, before, h);
          hashes := hashes + [h];
          assert before + {h} == set k | k in rows && k !in todo && Unreferenced(View(), k, cutoff);
        } else {
          assert before == set k | k in rows && k !in todo && Unreferenced(View(), k, cutoff);
        }
      }
    }

    method DeleteObject(hash: string, fate: Fate) returns (ok: bool)
      modifies this`objects
      ensures objects == if fate != FailedBefore then old(objects) - {hash} else old(objects)
      ensures ok == (fate == Done)
    {
      if fate != FailedBefore { objects := objects - {hash}; }
      ok := fate == Done;
    }

    /** Sweep 1. `known` is what it deleted completely, `spared` what was referenced since the listing. */
    method SweepRows(unref: seq<string>, fates: GcFates) returns (known: set<string>, spared: nat, errors: nat)
      requires Distinct(unref) && forall h :: h in unref ==> h in rows
      modifies this`rows, this`objects
      ensures SweptRows(old(View()), View(), known, unref, fates)
      ensures errors + spared + |known| == |unref|
      ensures (forall h :: h in unref ==> !Cited(refs, h)) ==> spared == 0
      ensures Undisturbed(fates) ==> errors == 0
    {
      hide Cited, Distinct, SweptRows, Undisturbed;
      ghost var s := View();
      known, spared, errors := {}, 0, 0;
      SweptNone(s, fates);
      for i := 0 to |unref|
        invariant SweptRows(s, View(), known, unref[..i], fates)
        invariant errors + spared + |known| == i
        invariant (forall h :: h in unref ==> !Cited(refs, h)) ==> spared == 0
        invariant Undisturbed(fates) ==> errors == 0
      {
        var h := unref[i];
        ghost var t, before := View(), known;
        SweptStep(s, t, before, unref, i, fates);
        WritesDone(fates, h);
        var swept, failed := SweepRow(h, fates);
        if swept {
          known := known + {h};
        } else if failed {
          errors := errors + 1;
        } else {
          spared := spared + 1;
        }
        SweptNext(s, t, View(), before, known, unref, i, fates);
      }
      assert unref[..|unref|] == unref;
    }

    /** One listed row, then its object. */
    method SweepRow(h: string, fates: GcFates) returns (swept: bool, failed: bool)
      requires h in rows
      modifies this`rows, this`objects
      ensures rows == if fates.row(h) != FailedBefore && !Cited(refs, h) then old(rows) - {h} else old(rows)
      ensures objects == if !Cited(refs, h) && fates.row(h) == Done && fates.object_(h) != FailedBefore
                         then old(objects) - {h} else old(objects)
      ensures swept == (!Cited(refs, h) && fates.row(h) == Done && fates.object_(h) == Done)
      ensures failed == (fates.row(h) != Done || (!Cited(refs, h) && fates.object_(h) != Done))
    {
      hide Cited;
      var deleted, ok := DeleteRow(h, fates.row(h));
      if !ok { return false, true; }
      if !deleted { return false, false; }
      ok := DeleteObject(h, fates.object_(h));
      return ok, !ok;
    }

    /** Checks the references again before deleting. A failed statement is an error even when there was
        nothing to delete. */
    method DeleteRow(h: string, fate: Fate) returns (deleted: bool, ok: bool)
      requires h in rows
      modifies this`rows
      ensures rows == if fate != FailedBefore && !Cited(refs, h) then old(rows) - {h} else old(rows)
      ensures deleted == !Cited(refs, h) && ok == (fate == Done)
    {
      deleted := !Cited(refs, h);
      if fate != FailedBefore && deleted { rows := rows - {h}; }
      ok := fate == Done;
    }

    /** One listed object: too young, just deleted, found in the index, or taken for an orphan. */
    method SweepObject(h: string, cutoff: int, known: set<string>, dryRun: bool, unread: set<string>, fate: Fate)
      returns (orphan: bool, ok: bool)
      requires h in objects && known !! objects.Keys
      modifies this`objects
      ensures orphan == TakenForOrphan(old(View()), h, cutoff, unread)
      ensures objects == if orphan && !dryRun && fate != FailedBefore then old(objects) - {h} else old(objects)
      ensures ok == (orphan && !dryRun && fate == Done)
    {
      if objects[h] > cutoff { return false, false; }
      if h in known { return false, false; }
      if h in rows && h !in unread { return false, false; }
      if dryRun { return true, false; }
      orphan := true;
      ok := DeleteObject(h, fate);
    }

    /** Sweep 2 over the listed objects. */
    method SweepObjects(listed: seq<string>, cutoff: int, known: set<string>, dryRun: bool, fates: GcFates)
      returns (orphans: seq<string>, deleted: nat, errors: nat)
      requires Lists(listed, objects.Keys)
      requires known !! objects.Keys
      modifies this`objects
      ensures Lists(orphans, set h | h in old(objects) && TakenForOrphan(old(View()), h, cutoff, fates.unread))
      ensures forall h :: h in objects <==>
        h in old(objects) && !(!dryRun && TakenForOrphan(old(View()), h, cutoff, fates.unread) && fates.orphan(h) != FailedBefore)
      ensures forall h :: h in objects ==> objects[h] == old(objects)[h]
      ensures deleted + errors == if dryRun then 0 else |orphans|
      ensures Undisturbed(fates) ==> errors == 0
    {
      hide Referenced, Distinct, Lists, OrphansAmong, TakenForOrphan, Undisturbed, LeftBy;
      ghost var s := View();
      orphans, deleted, errors := [], 0, 0;
      SweepBegins(s, listed, cutoff, dryRun, fates);
      for i := 0 to |listed|
        invariant rows == s.rows && refs == s.refs
        invariant Lists(orphans, OrphansAmong(s, listed[..i], cutoff, fates.unread))
        invariant LeftBy(s, objects, OrphansAmong(s, listed[..i], cutoff, fates.unread), dryRun, fates)
        invariant deleted + errors == if dryRun then 0 else |orphans|
        invariant Undisturbed(fates) ==> errors == 0
      {
        var h := listed[i];
        OrphansStep(s, listed, i, cutoff, fates.unread);
        NewAt(listed, i);
        ghost var before := objects;
        StillThere(s, objects, listed, i, cutoff, dryRun, fates);
        SameTaken(s, View(), h, cutoff, fates.unread);
        OrphanDone(fates, h);
        var orphan, ok := SweepObject(h, cutoff, known, dryRun, fates.unread, fates.orphan(h));
        if orphan {
          ListsMore(orphans, OrphansAmong(s, listed[..i], cutoff, fates.unread), h);
          orphans := orphans + [h];
          if !dryRun {
            if ok { deleted := deleted + 1; } else { errors := errors + 1; }
          }
        }
        assert OrphansAmong(s, listed[..i], cutoff, fates.unread) + {} == OrphansAmong(s, listed[..i], cutoff, fates.unread);
        LeftMore(s, before, objects, OrphansAmong(s, listed[..i], cutoff, fates.unread), h, orphan, dryRun, fates);
      }
      AllLeft(s, listed, cutoff, dryRun, fates);
    }

    method ListObjects() returns (hashes: seq<string>)
      ensures Lists(hashes, objects.Keys)
    {
      hashes := [];
      var todo := objects.Keys;
      while todo != {}
        invariant todo <= objects.Keys
        invariant Lists(hashes, objects.Keys - todo)
        decreases todo
      {
        var h :| h in todo;
        todo := todo - {h};
        hashes := hashes + [h];
      }
    }

    /** Sweep 1 with its listing, and the references that arrive after it. */
    method SweepRowHalf(cutoff: int, dryRun: bool, fates: GcFates)
      returns (unref: seq<string>, known: set<string>, errors: nat)
      modifies this
      ensures View() == if dryRun then Attach(old(View()), fates.arrivals)
                        else FirstSweep(Attach(old(View()), fates.arrivals), cutoff, fates)
      ensures Lists(unref, set h | h in old(rows) && Unreferenced(old(View()), h, cutoff))
      ensures known !! objects.Keys
      ensures dryRun ==> known == {} && errors == 0
      ensures !dryRun && Undisturbed(fates) ==> errors == 0 && |known| == |unref|
    {
      ghost var s := View();
      hide Cited, Referenced, Unreferenced, Orphan, FirstSweep, Lists, Undisturbed;
      unref := ListUnreferenced(cutoff);
      Arrive(fates.arrivals);
      ghost var t := View();
      UnreferencedListed(s, t, unref, cutoff, fates);
      known, errors := {}, 0;
      if !dryRun {
        var spared: nat;
        known, spared, errors := SweepRows(unref, fates);
        RowsSwept(t, View(), known, unref, cutoff, fates);
      }
    }

    /** Sweep 2 with its listing. */
    method SweepObjectHalf(cutoff: int, known: set<string>, dryRun: bool, fates: GcFates)
      returns (orphans: seq<string>, deleted: nat, errors: nat)
      requires known !! objects.Keys
      modifies this`objects
      ensures View() == if dryRun then old(View()) else SecondSweep(old(View()), cutoff, fates)
      ensures fates.list == Done ==>
        Lists(orphans, set h | h in old(objects) && TakenForOrphan(old(View()), h, cutoff, fates.unread))
      ensures fates.list == Done ==> deleted + errors == if dryRun then 0 else |orphans|
      ensures fates.list == Done && Undisturbed(fates) ==> errors == 0
    {
      ghost var s := View();
      hide TakenForOrphan, SecondSweep, Lists, Undisturbed;
      if fates.list != Done {
        SecondSweepUnlisted(s, cutoff, fates);
        return [], 0, 1;
      }
      var listed := ListObjects();
      orphans, deleted, errors := SweepObjects(listed, cutoff, known, dryRun, fates);
      if dryRun {
        assert objects == s.objects;
      } else {
        ObjectsSwept(s, View(), cutoff, fates);
      }
    }

    /** Both sweeps. The report counts every deletion once. */
    method BlobGc(now: int, late: int, grace: int, dryRun: bool, fates: GcFates) returns (report: GcReport)
      modifies this
      ensures View() == Sweep(old(View()), now, late, grace, dryRun, fates)
      ensures Lists(report.unreferenced, set h | h in old(rows) && Unreferenced(old(View()), h, now - grace))
      ensures fates.list == Done && (dryRun || Undisturbed(fates)) ==>
        && Lists(report.orphans, set h | h in old(objects) && TakenForOrphan(old(View()), h, late - grace, fates.unread))
        && report.errors == 0 && report.deleted == if dryRun then 0 else |report.unreferenced| + |report.orphans|
    {
      ghost var s := View();
      hide Unreferenced, TakenForOrphan, FirstSweep, SecondSweep, Lists, Undisturbed, Attach;
      var unref, known, errors := SweepRowHalf(now - grace, dryRun, fates);
      var orphans, gone, failed := SweepObjectHalf(late - grace, known, dryRun, fates);
      if dryRun {
        SameOrphansAttached(s, fates.arrivals, late - grace, fates.unread);
      } else if Undisturbed(fates) {
        SameOrphans(s, now - grace, late - grace, fates);
      }
      return GcReport(unref, orphans, |known| + gone, errors + failed);
    }

    /** Other requests' references, in between. */
    method Arrive(arrivals: set<Ref>)
      modifies this`refs
      ensures View() == Attach(old(View()), arrivals)
    {
      refs := refs + set r | r in arrivals && r.hash in rows;
    }
  }

  /** Of the rows listed, exactly those not referenced since are still unreferenced. */
  lemma UnreferencedListed(s: Stores, t: Stores, unref: seq<string>, cutoff: int, fates: GcFates)
    requires Lists(unref, set h | h in s.rows && Unreferenced(s, h, cutoff)) && t == Attach(s, fates.arrivals)
    ensures Distinct(unref) && forall h :: h in unref ==> h in t.rows
    ensures forall h :: h in unref && !Cited(t.refs, h) <==> Unreferenced(t, h, cutoff)
    ensures Undisturbed(fates) ==> forall h :: h in unref ==> !Cited(t.refs, h)
  {
    if Undisturbed(fates) { NoArrivals(s); }
  }

  lemma SameOrphansAttached(s: Stores, arrivals: set<Ref>, late: int, unread: set<string>)
    ensures var t := Attach(s, arrivals);
      && t.objects == s.objects
      && (set h | h in t.objects && TakenForOrphan(t, h, late, unread)) == set h | h in s.objects && TakenForOrphan(s, h, late, unread)
  {
  }

  lemma RowsSwept(t: Stores, s1: Stores, known: set<string>, unref: seq<string>, cutoff: int, fates: GcFates)
    requires forall h :: h in unref && !Cited(t.refs, h) <==> Unreferenced(t, h, cutoff)
    requires SweptRows(t, s1, known, unref, fates)
    ensures s1 == FirstSweep(t, cutoff, fates) && known !! s1.objects.Keys
    ensures (forall h :: h in unref ==> !Cited(t.refs, h)) && Undisturbed(fates) ==> forall h :: h in unref <==> h in known
  {
    hide Cited, Unreferenced;
    var want := FirstSweep(t, cutoff, fates);
    assert s1.rows == want.rows;
    assert s1.objects == want.objects;
  }

  lemma SecondSweepUnlisted(s: Stores, cutoff: int, fates: GcFates)
    requires fates.list != Done
    ensures SecondSweep(s, cutoff, fates) == s
  {
  }

  lemma ObjectsSwept(s1: Stores, s2: Stores, cutoff: int, fates: GcFates)
    requires fates.list == Done && s2.rows == s1.rows && s2.refs == s1.refs
    requires forall h :: h in s2.objects <==>
      h in s1.objects && !(TakenForOrphan(s1, h, cutoff, fates.unread) && fates.orphan(h) != FailedBefore)
    requires forall h :: h in s2.objects ==> s2.objects[h] == s1.objects[h]
    ensures s2 == SecondSweep(s1, cutoff, fates)
  {
    hide TakenForOrphan;
    assert s2.objects == SecondSweep(s1, cutoff, fates).objects;
  }

  /** What sweep 1 deletes leaves no orphan when nothing fails. */
  lemma SameOrphans(s: Stores, cutoff: int, late: int, fates: GcFates)
    requires Undisturbed(fates)
    ensures var s1 := FirstSweep(Attach(s, fates.arrivals), cutoff, fates);
      (set h | h in s1.objects && TakenForOrphan(s1, h, late, fates.unread))
        == set h | h in s.objects && TakenForOrphan(s, h, late, fates.unread)
  {
    hide Cited;
    NoArrivals(s);
    var s1 := FirstSweep(s, cutoff, fates);
    assert forall h :: h in s.rows && h !in s1.rows ==> Tried(s, h, cutoff, fates) && h !in s1.objects;
  }
}
