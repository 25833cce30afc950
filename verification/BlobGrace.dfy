/** Uploads and the grace period of the sweeps (`internal/api/blobs.go`, `internal/api/blobgc.go`): what an
    upload writes and when, and which uploads a later sweep leaves alone. */
module BlobGrace {
  import opened Text
  import opened BlobStores

  /** The bytes have a row that can be read: nothing is written for them. */
  predicate IsKnown(s: Stores, hash: string, fates: StoreFates) {
    hash in s.rows && fates.read
  }

  /** Of one hash: a written object is as old as the upload, and so is a row that was not there before. */
  predicate StoredTold(s: Stores, t: Stores, hash: string, fates: StoreFates, now: int) {
    var object_ := !IsKnown(s, hash, fates) && fates.put != FailedBefore;
    var row := !IsKnown(s, hash, fates) && fates.put == Done && fates.insert != FailedBefore && hash !in s.rows;
    && (hash in t.objects <==> hash in s.objects || object_)
    && (hash in t.objects ==> t.objects[hash] == if object_ then now else s.objects[hash])
    && (hash in t.rows <==> hash in s.rows || row)
    && (hash in t.rows ==> t.rows[hash] == if row then now else s.rows[hash])
  }

  predicate Untouched(s: Stores, t: Stores, hash: string) {
    && (hash in t.objects <==> hash in s.objects) && (hash in t.rows <==> hash in s.rows)
    && (hash in s.objects ==> t.objects[hash] == s.objects[hash]) && (hash in s.rows ==> t.rows[hash] == s.rows[hash])
  }

  /** An upload writes for its own bytes and its poster's, and touches nothing else. */
  lemma UploadTold(s: Stores, hash: string, poster: Option<string>, fates: UploadFates, now: int, h: string)
    requires poster != Some(hash)
    ensures var t := Upload(s, hash, poster, fates, now);
      && t.refs == s.refs
      && StoredTold(s, t, hash, fates.blob, now)
      && (poster.Some? ==> StoredTold(s, t, poster.value, fates.poster, now))
      && (h != hash && poster != Some(h) ==> Untouched(s, t, h))
  {
  }

  /** When the sweep finds the bytes: their row is young enough, or something references them. */
  predicate Spared(s: Stores, hash: string, cutoff: int) {
    hash in s.rows ==> Referenced(s, hash) || s.rows[hash] >= cutoff
  }

  /** An acknowledged upload whose grace period is not over survives an undisturbed sweep exactly when the bytes
      were not known already under an old row that nothing references: uploading known bytes again does not
      make them any younger. */
  lemma UploadSurvivesExactly(s: Stores, hash: string, poster: Option<string>, fates: UploadFates, now: int,
                              later: int, grace: int, gc: GcFates)
    requires Sound(s) && poster != Some(hash) && Undisturbed(gc)
    requires IsKnown(s, hash, fates.blob) || (fates.blob.put == Done && fates.blob.insert == Done)
    requires now <= later <= now + grace
    ensures var t := Upload(s, hash, poster, fates, now);
      var u := Sweep(t, later, later, grace, false, gc);
      && hash in t.rows && hash in t.objects
      && (hash in u.rows && hash in u.objects <==> Spared(s, hash, later - grace))
      && (hash in u.rows <==> hash in u.objects)
  {
    UploadTold(s, hash, poster, fates, now, hash);
    hide Upload, Sweep, Referenced, Undisturbed;
    SweepCollectsExactly(Upload(s, hash, poster, fates, now), later, later, grace, gc);
    SameReferences(s, Upload(s, hash, poster, fates, now), hash);
  }

  lemma SameReferences(s: Stores, t: Stores, hash: string)
    requires s.refs == t.refs
    ensures Referenced(s, hash) == Referenced(t, hash)
  {
  }

  /** An upload that was cut off between its two writes leaves an object that no sweep takes before its grace
      period is over. */
  lemma HalfUploadSurvives(s: Stores, hash: string, fates: UploadFates, now: int, later: int, grace: int, gc: GcFates)
    requires hash !in s.rows && fates.blob.put != FailedBefore && Undisturbed(gc) && later < now + grace
    ensures hash in Sweep(Upload(s, hash, None, fates, now), later, later, grace, false, gc).objects
  {
    UploadTold(s, hash, None, fates, now, hash);
    hide Upload, Sweep, Undisturbed;
    SweepCollectsExactly(Upload(s, hash, None, fates, now), later, later, grace, gc);
  }
}
