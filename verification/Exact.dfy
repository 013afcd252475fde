/** Record counts: while every file has a size the usage index is exactly the one a rescan
    builds, counts included, and the capacity report counts what is on disk. */
module Exact {
  import opened Basics
  import Text
  import opened Maps
  import opened Accounting
  import opened DiskModel
  import opened Trails
  import opened StoreSpec
  import opened Invariants
  import opened Quota

  ghost predicate Positive(c: Charges<Id, Owner>) {
    forall k | k in c :: c[k].size > 0
  }

  /** Every file, active or in trash, has a size. */
  ghost predicate Sized(d: Disk) {
    Positive(FileCharges(d)) && Positive(TrashCharges(d))
  }

  /** A valid index is the rescanned one. */
  ghost predicate ExactIndex(s: Store) {
    s.usageValid ==> s.usage == RescanUsage(s.disk)
  }

  /** A good state with an exact index. */
  ghost predicate Counted(cfg: Config, s: Store) {
    Inv(cfg, s) && ExactIndex(s) && Sized(s.disk) && AllFit(s.disk)
  }

  // ---------------------------------------------------------------- one bucket

  lemma BucketReleasesExactly(c: Charges<Id, Owner>, id: Id, x: Charge<Owner>)
    requires Positive(c) && Fits(c) && GetAt(c, id) == Some(x)
    ensures Released(Rescan(c), x.owner, x.size) == Rescan(SetAt(c, id, None))
  {
    PositiveSizesStayExact(c, id);
  }

  lemma BucketChargesExactly(c: Charges<Id, Owner>, id: Id, x: Charge<Owner>)
    requires Positive(c) && GetAt(c, id) == None && x.size > 0 && Fits(SetAt(c, id, Some(x)))
    ensures Charged(Rescan(c), x.owner, x.size) == Rescan(SetAt(c, id, Some(x)))
  {
    FitsBeforeAdd(c, id, x);
    BytesNonNegative(c, x.owner);
    ChargeExactIff(c, id, x);
  }

  lemma SessionsHaveSizes(d: Disk)
    requires Ready(d)
    ensures Positive(UploadCharges(d))
  {
    forall id | id in UploadCharges(d) ensures UploadCharges(d)[id].size > 0 {
      assert SessionReady(d.uploads[id], id);
    }
  }

  lemma SizedWithout(c: Charges<Id, Owner>, id: Id)
    requires Positive(c)
    ensures Positive(SetAt(c, id, None))
  {}

  // ---------------------------------------------------------------- one move

  lemma ExactUpload(d: Disk, id: Id, dir: SessionDir, x: Charge<Owner>)
    requires Ready(d) && Fits(UploadCharges(PatchSession(d, id, Some(dir))))
    requires id !in d.uploads && UploadCharge(dir) == Some(x) && x.size > 0
    ensures MovedUsage(RescanUsage(d), x.owner, None, Some(Uploads), x.size)
            == RescanUsage(PatchSession(d, id, Some(dir)))
  {
    SessionsHaveSizes(d);
    ChargesAt(d, id);
    ChargesOfSession(d, id, Some(dir));
    BucketChargesExactly(UploadCharges(d), id, x);
  }

  lemma ExactUploadEnd(d: Disk, id: Id, dir: Option<SessionDir>, x: Charge<Owner>)
    requires Positive(UploadCharges(d)) && Fits(UploadCharges(d))
    requires id in d.uploads && UploadCharge(d.uploads[id]) == Some(x) && (dir.Some? ==> UploadCharge(dir.value).None?)
    ensures MovedUsage(RescanUsage(d), x.owner, Some(Uploads), None, x.size) == RescanUsage(PatchSession(d, id, dir))
  {
    ChargesAt(d, id);
    ChargesOfSession(d, id, dir);
    BucketReleasesExactly(UploadCharges(d), id, x);
  }

  lemma ExactUnchanged(d: Disk, id: Id, dir: Option<SessionDir>)
    requires id in d.uploads && UploadCharge(d.uploads[id]) == UploadChargeAt(dir)
    ensures RescanUsage(PatchSession(d, id, dir)) == RescanUsage(d)
  {
    UploadUnchanged(d, id, dir);
  }

  lemma ExactFile(d: Disk, id: Id, slot: Slot, x: Charge<Owner>)
    requires Positive(FileCharges(d)) && Fits(FileCharges(Patch(d, id, slot)))
    requires id !in d.manifests && id !in d.trash && slot.trash.None?
    requires slot.manifest.Some? && FileCharge(slot.manifest.value) == Some(x) && x.size > 0
    ensures MovedUsage(RescanUsage(d), x.owner, None, Some(Files), x.size) == RescanUsage(Patch(d, id, slot))
  {
    ChargesAt(d, id);
    ChargesOfPatch(d, id, slot);
    BucketChargesExactly(FileCharges(d), id, x);
    RemoveAbsent(TrashCharges(d), id);
  }

  /** A charge that moves between two exact buckets leaves both exact. */
  lemma ExactMove(from: Charges<Id, Owner>, to: Charges<Id, Owner>, id: Id, x: Charge<Owner>)
    requires Positive(from) && Positive(to) && Fits(from) && Fits(SetAt(to, id, Some(x)))
    requires GetAt(from, id) == Some(x) && GetAt(to, id) == None
    ensures Released(Rescan(from), x.owner, x.size) == Rescan(SetAt(from, id, None))
    ensures Charged(Rescan(to), x.owner, x.size) == Rescan(SetAt(to, id, Some(x)))
  {
    BucketReleasesExactly(from, id, x);
    assert from[id].size > 0;
    BucketChargesExactly(to, id, x);
  }

  lemma MovedBetween(f: Bucket<Owner>, t: Bucket<Owner>, u: Bucket<Owner>, o: Owner, size: int)
    ensures MovedUsage(Usage(f, t, u), o, Some(Files), Some(Trash), size)
            == Usage(Released(f, o, size), Charged(t, o, size), u)
    ensures MovedUsage(Usage(f, t, u), o, Some(Trash), Some(Files), size)
            == Usage(Charged(f, o, size), Released(t, o, size), u)
  {}

  lemma ExactTrashed(d: Disk, id: Id, f: File, x: Charge<Owner>)
    requires Sized(d) && AllFit(d) && AllFit(Patch(d, id, DeletedSlot(View(d, id), f)))
    requires id in d.manifests && id !in d.trash && FileCharge(d.manifests[id]) == Some(x) == FileCharge(f)
    ensures MovedUsage(RescanUsage(d), x.owner, Some(Files), Some(Trash), x.size)
            == RescanUsage(Patch(d, id, DeletedSlot(View(d, id), f)))
  {
    ChargesAt(d, id);
    ChargesOfPatch(d, id, DeletedSlot(View(d, id), f));
    ExactMove(FileCharges(d), TrashCharges(d), id, x);
    MovedBetween(Rescan(FileCharges(d)), Rescan(TrashCharges(d)), Rescan(UploadCharges(d)), x.owner, x.size);
  }

  lemma ExactUntrashed(d: Disk, id: Id, f: File, x: Charge<Owner>)
    requires Sized(d) && AllFit(d)
    requires id !in d.manifests && id in d.trash && TrashCharge(d.trash[id]) == Some(x) == FileCharge(f)
    requires AllFit(Patch(d, id, RestoredSlot(View(d, id), f)))
    ensures MovedUsage(RescanUsage(d), x.owner, Some(Trash), Some(Files), x.size)
            == RescanUsage(Patch(d, id, RestoredSlot(View(d, id), f)))
  {
    ChargesAt(d, id);
    ChargesOfPatch(d, id, RestoredSlot(View(d, id), f));
    ExactMove(TrashCharges(d), FileCharges(d), id, x);
    MovedBetween(Rescan(FileCharges(d)), Rescan(TrashCharges(d)), Rescan(UploadCharges(d)), x.owner, x.size);
  }

  lemma ChargesOfPurge(d: Disk, id: Id)
    ensures
      var e := Patch(d, id, View(d, id).(trash := None));
      && FileCharges(e) == FileCharges(d) && UploadCharges(e) == UploadCharges(d)
      && TrashCharges(e) == SetAt(TrashCharges(d), id, None)
         && GetAt(TrashCharges(d), id) == TrashChargeAt(GetAt(d.trash, id))
  {
    ChargesAt(d, id);
    ChargesOfPatch(d, id, View(d, id).(trash := None));
    SetSame(FileCharges(d), id);
  }

  lemma ExactPurged(d: Disk, id: Id, x: Charge<Owner>)
    requires Sized(d) && AllFit(d) && id in d.trash && TrashCharge(d.trash[id]) == Some(x)
    ensures
      var e := Patch(d, id, View(d, id).(trash := None));
      MovedUsage(RescanUsage(d), x.owner, Some(Trash), None, x.size) == RescanUsage(e) && Sized(e)
  {
    ChargesOfPurge(d, id);
    BucketReleasesExactly(TrashCharges(d), id, x);
    SizedWithout(TrashCharges(d), id);
  }

  lemma ExactPublished(d: Disk, id: Id, fileId: Id, f: File, done: Session, x: Charge<Owner>)
    requires Ready(d) && Sized(d) && View(d, fileId) == VACANT && id in d.uploads && d.uploads[id].data.Some?
    requires AllFit(d) && AllFit(CompletedDisk(d, id, fileId, f, done))
    requires FileCharge(f) == Some(x) && x.size > 0 && done.status.Completed?
    ensures
      var stored := Patch(d, fileId, StoredSlot(d.uploads[id].data.value, f));
      && MovedUsage(RescanUsage(d), x.owner, None, Some(Files), x.size) == RescanUsage(stored)
      && Positive(UploadCharges(stored)) && Fits(UploadCharges(stored))
  {
    ChargesOfCompletion(d, id, fileId, f, done);
    SessionsHaveSizes(d);
    ExactFile(d, fileId, StoredSlot(d.uploads[id].data.value, f), x);
  }

  lemma TwoMoves(u: Usage, v: Usage, w: Usage, owner: Owner, size: int)
    requires v == MovedUsage(u, owner, None, Some(Files), size) && w == MovedUsage(v, owner, Some(Uploads), None, size)
    ensures w == MovedUsage(u, owner, Some(Uploads), Some(Files), size)
  {
    MovedInTwoSteps(u, owner, size);
  }

  /** The session of a published file gives its reservation back. */
  lemma ExactSettled(d: Disk, id: Id, dir: SessionDir, done: Session, x: Charge<Owner>)
    requires Positive(UploadCharges(d)) && Fits(UploadCharges(d)) && GetAt(d.uploads, id) == Some(dir)
    requires UploadCharge(dir) == Some(x) && done.status.Completed?
    ensures MovedUsage(RescanUsage(d), x.owner, Some(Uploads), None, x.size)
            == RescanUsage(PatchSession(d, id, Some(dir.(data := None, manifest := Some(done)))))
  {
    ExactUploadEnd(d, id, Some(dir.(data := None, manifest := Some(done))), x);
  }

  lemma ExactCompleted(d: Disk, id: Id, fileId: Id, f: File, done: Session, x: Charge<Owner>)
    requires Ready(d) && Sized(d) && View(d, fileId) == VACANT && id in d.uploads && d.uploads[id].data.Some?
    requires AllFit(d) && AllFit(CompletedDisk(d, id, fileId, f, done))
    requires UploadCharge(d.uploads[id]) == Some(x) && FileCharge(f) == Some(x) && x.size > 0 && done.status.Completed?
    ensures MovedUsage(RescanUsage(d), x.owner, Some(Uploads), Some(Files), x.size)
            == RescanUsage(CompletedDisk(d, id, fileId, f, done))
  {
    var stored := Patch(d, fileId, StoredSlot(d.uploads[id].data.value, f));
    var after := CompletedDisk(d, id, fileId, f, done);
    ExactPublished(d, id, fileId, f, done, x);
    assert MovedUsage(RescanUsage(stored), x.owner, Some(Uploads), None, x.size) == RescanUsage(after) by {
      ExactSettled(stored, id, d.uploads[id], done, x);
    }
    TwoMoves(RescanUsage(d), RescanUsage(stored), RescanUsage(after), x.owner, x.size);
  }

  // ---------------------------------------------------------------- every operation

  lemma LoadIsExact(s: Store)
    requires ExactIndex(s)
    ensures ExactIndex(Load(s)) && ExactIndex(Rebuild(s).0)
  {}

  lemma GateIsExact(s: Store, pause: Pause)
    requires ExactIndex(s)
    ensures ExactIndex(PauseGate(s, pause).0)
  {}

  lemma PutCommitIsExact(cfg: Config, s: Store, id: Id, bytes: Bytes, info: Info, now: int)
    requires Counted(cfg, s) && View(s.disk, id) == VACANT && bytes != []
    requires AllFit(PutCommit(cfg, s, id, bytes, info, now).disk)
    ensures ExactIndex(PutCommit(cfg, s, id, bytes, info, now))
  {
    var f := NewFile(cfg, id, bytes, info, now);
    ExactFile(s.disk, id, StoredSlot(bytes, f), Charge(info.owner, f.size));
  }

  lemma StoredBytesHaveSize(cfg: Config, d: Disk, id: Id, bytes: Bytes, info: Info, now: int)
    requires Sized(Patch(d, id, StoredSlot(bytes, NewFile(cfg, id, bytes, info, now))))
    ensures bytes != []
  {
    var f := NewFile(cfg, id, bytes, info, now);
    ChargesOfPatch(d, id, StoredSlot(bytes, f));
    assert FileCharges(Patch(d, id, StoredSlot(bytes, f)))[id].size == |bytes|;
  }

  lemma PutIsExact(cfg: Config, s: Store, pause: Pause, id: Id, body: Body, info: Info, now: int)
    requires Counted(cfg, s)
    requires AllFit(Put(cfg, s, pause, id, body, info, now).0.disk)
    requires Sized(Put(cfg, s, pause, id, body, info, now).0.disk)
    ensures ExactIndex(Put(cfg, s, pause, id, body, info, now).0)
  {
    var gated := PauseGate(s, pause).0;
    GateIsExact(s, pause);
    GateKeepsInv(cfg, s, pause);
    LoadIsExact(gated);
    LoadKeepsInv(cfg, gated);
    var t := Load(gated);
    if PauseGate(s, pause).1.None? && PutError(cfg, t, id, body, info).None? {
      FreeIsVacant(cfg.sha, t.disk, id);
      StoredBytesHaveSize(cfg, t.disk, id, body.bytes, info, now);
      PutCommitIsExact(cfg, t, id, body.bytes, info, now);
    }
  }

  lemma DropSessionIsExact(cfg: Config, s: Store, id: Id)
    requires Counted(cfg, s) && ReadSession(s.disk, id).Ok?
    ensures
      var u, t := ReadSession(s.disk, id).value, s.(disk := PatchSession(s.disk, id, None));
      ExactIndex(if u.status.Completed? then t else Moved(t, u.info.owner, Some(Uploads), None, u.size))
  {
    var u := ReadSession(s.disk, id).value;
    SoundIsReady(cfg.sha, s.disk);
    SessionsHaveSizes(s.disk);
    if u.status.Completed? {
      ExactUnchanged(s.disk, id, None);
    } else {
      ExactUploadEnd(s.disk, id, None, Charge(u.info.owner, u.size));
    }
  }

  lemma SweepOneIsExact(cfg: Config, s: Store, id: Id, now: int)
    requires Counted(cfg, s)
    ensures Counted(cfg, SweepOne(cfg, s, id, now))
  {
    SweepOneKeepsInv(cfg, s, id, now);
    if id in s.disk.uploads && Expired(cfg, s.disk.uploads[id], id, now) {
      DropSessionIsExact(cfg, s, id);
      ChargesOfSession(s.disk, id, None);
    }
  }

  lemma {:induction false} SweepIsExact(cfg: Config, s: Store, listing: seq<Id>, now: int)
    requires Counted(cfg, s)
    ensures Counted(cfg, SweepAll(cfg, s, listing, now))
  {
    if listing != [] {
      var n := |listing| - 1;
      SweepIsExact(cfg, s, listing[..n], now);
      SweepOneIsExact(cfg, SweepAll(cfg, s, listing[..n], now), listing[n], now);
    }
  }

  lemma AdmitIsExact(cfg: Config, s: Store, id: Id, size: int, checksum: string, info: Info, now: int)
    requires Counted(cfg, s) && size > 0
    requires AllFit(Admit(cfg, s, id, size, checksum, info, now).0.disk)
    ensures ExactIndex(Admit(cfg, s, id, size, checksum, info, now).0)
  {
    if Admit(cfg, s, id, size, checksum, info, now).1.Ok? {
      SoundIsReady(cfg.sha, s.disk);
      ExactUpload(s.disk, id, StartedDir(NewSession(id, size, checksum, info, now)), Charge(info.owner, size));
    }
  }

  lemma StartIsExact(
    cfg: Config, s: Store, pause: Pause, listing: seq<Id>, id: Id, size: int, checksum: string, info: Info, now: int)
    requires Counted(cfg, s) && AllFit(StartUpload(cfg, s, pause, listing, id, size, checksum, info, now).0.disk)
    ensures ExactIndex(StartUpload(cfg, s, pause, listing, id, size, checksum, info, now).0)
  {
    var gated := PauseGate(s, pause).0;
    GateIsExact(s, pause);
    GateKeepsInv(cfg, s, pause);
    SweepIsExact(cfg, gated, listing, now);
    var swept := SweepAll(cfg, gated, listing, now);
    LoadIsExact(swept);
    LoadKeepsInv(cfg, swept);
    if size > 0 && !Load(swept).loadFailed && PauseGate(s, pause).1.None?
       && (checksum == "" || Text.IsSha256(checksum))
    {
      AdmitIsExact(cfg, Load(swept), id, size, Text.Lower(Text.TrimSpace(checksum)), info, now);
    }
  }

  lemma AppendIsExact(
    cfg: Config, s: Store, pause: Pause, id: Id, offset: int, chunkSize: int, body: Body, checksum: string, now: int)
    requires Counted(cfg, s)
    ensures ExactIndex(AppendUpload(cfg, s, pause, id, offset, chunkSize, body, checksum, now).0)
  {
    GateIsExact(s, pause);
    GateKeepsInv(cfg, s, pause);
    AppendCases(cfg, s, pause, id, offset, chunkSize, body, checksum, now);
    if AppendUpload(cfg, s, pause, id, offset, chunkSize, body, checksum, now).1.Ok? {
      var u, dir := ReadSession(s.disk, id).value, s.disk.uploads[id];
      assert SessionReady(dir, id);
      ExactUnchanged(s.disk, id, Some(AppendedDir(dir, body.bytes, Grown(u, body.bytes, now))));
    }
  }

  lemma CompleteIsExact(cfg: Config, s: Store, id: Id, fileId: Id, now: int)
    requires Counted(cfg, s) && View(s.disk, fileId) == VACANT
    requires AllFit(CompleteUpload(cfg, s, id, fileId, now).0.disk)
    ensures ExactIndex(CompleteUpload(cfg, s, id, fileId, now).0)
  {
    if ReadSession(s.disk, id).Ok? && ReadSession(s.disk, id).value.status.Uploading? {
      var u := ReadSession(s.disk, id).value;
      assert SessionReady(s.disk.uploads[id], id);
      if CompleteUpload(cfg, s, id, fileId, now).1.Ok? {
        SoundIsReady(cfg.sha, s.disk);
        ExactCompleted(
          s.disk, id, fileId, CompletedFile(cfg, u, fileId, s.disk.uploads[id].data.value),
          CompletedSession(u, fileId, now),
          Charge(u.info.owner, u.size));
      }
    }
  }

  lemma AbortIsExact(cfg: Config, s: Store, id: Id)
    requires Counted(cfg, s)
    ensures ExactIndex(AbortUpload(s, id).0)
  {
    if AbortUpload(s, id).1.Ok? && ReadSession(s.disk, id).Ok? {
      DropSessionIsExact(cfg, s, id);
    }
  }

  lemma DeleteIsExact(cfg: Config, s: Store, id: Id, now: int)
    requires Counted(cfg, s) && AllFit(Delete(s, id, now).0.disk)
    ensures ExactIndex(Delete(s, id, now).0)
  {
    var slot := View(s.disk, id);
    assert SlotSound(cfg.sha, slot, id);
    if slot.manifest.Some? {
      var f := slot.manifest.value.(deletedAt := Some(now));
      ExactTrashed(s.disk, id, f, Charge(f.info.owner, f.size));
    }
  }

  lemma RestoreIsExact(cfg: Config, s: Store, id: Id)
    requires Counted(cfg, s) && AllFit(Restore(s, id).0.disk)
    ensures ExactIndex(Restore(s, id).0)
  {
    assert SlotSound(cfg.sha, View(s.disk, id), id);
    if Restore(s, id).1.Ok? {
      var f := ReadTrash(s.disk, id).value.(deletedAt := None);
      ExactUntrashed(s.disk, id, f, Charge(f.info.owner, f.size));
    }
  }

  lemma PurgeOneIsExact(cfg: Config, s: Store, id: Id, olderThan: Option<int>)
    requires Counted(cfg, s) && ReadTrash(s.disk, id).Ok?
    ensures Counted(cfg, PurgeOne(s, id, olderThan))
  {
    var f := ReadTrash(s.disk, id).value;
    PurgeOneKeepsInv(cfg, s, id, olderThan);
    if Purged(f, olderThan) {
      ExactPurged(s.disk, id, Charge(f.info.owner, f.size));
    }
  }

  lemma {:induction false} PurgeIsExact(cfg: Config, s: Store, listing: seq<Id>, olderThan: Option<int>)
    requires Counted(cfg, s)
    ensures Counted(cfg, PurgeAll(s, listing, olderThan).0)
  {
    if listing != [] {
      var n := |listing| - 1;
      PurgeIsExact(cfg, s, listing[..n], olderThan);
      var (t, e) := PurgeAll(s, listing[..n], olderThan);
      if e.None? && ReadTrash(t.disk, listing[n]).Ok? {
        PurgeOneIsExact(cfg, t, listing[n], olderThan);
      }
    }
  }

  // ---------------------------------------------------------------- the capacity report

  /** What 64-bit additions make of a sum, in whatever order they are done. */
  function Wrapped(x: int): int {
    (x + TWO_63) % TWO_64 - TWO_63
  }

  lemma WrappedSum(a: int, b: int)
    ensures Wrapped(Wrapped(a) + b) == Wrapped(a + b)
  {}

  /** The entries of a bucket that a pass over it has met. */
  ghost predicate Met(seen: Bucket<Owner>, bucket: Bucket<Owner>, todo: set<Owner>) {
    forall o :: GetAt(seen, o) == if o in todo then None else GetAt(bucket, o)
  }

  lemma OneMoreMet(seen: Bucket<Owner>, bucket: Bucket<Owner>, todo: set<Owner>, o: Owner)
    requires Met(seen, bucket, todo) && o in todo && o in bucket
    ensures Met(seen[o := bucket[o]], bucket, todo - {o})
    ensures TotalRecords(seen[o := bucket[o]]) == TotalRecords(seen) + bucket[o].records
    ensures TotalBytes(seen[o := bucket[o]]) == TotalBytes(seen) + bucket[o].bytes
  {
    assert GetAt(seen, o) == None;
    NewEntry(seen, o, bucket[o]);
    var more := seen[o := bucket[o]];
    forall p ensures GetAt(more, p) == if p in todo - {o} then None else GetAt(bucket, p) {
      assert GetAt(seen, p) == if p in todo then None else GetAt(bucket, p);
    }
  }

  lemma AllMet(seen: Bucket<Owner>, bucket: Bucket<Owner>)
    requires Met(seen, bucket, {})
    ensures seen == bucket
  {
    SameGets(seen, bucket);
  }

  /** The figures of the capacity report that come from the index. */
  datatype Figures = Figures(objectCount: int, objectBytes: int, metadataCount: int, trashCount: int, trashBytes: int)

  ghost function Capacity(u: Usage): Figures {
    Figures(TotalRecords(u.files), Wrapped(TotalBytes(u.files)), TotalRecords(u.files),
            TotalRecords(u.trash), Wrapped(TotalBytes(u.trash)))
  }

  /** The report on the rescanned index counts the records on disk and adds up their sizes. */
  lemma CapacityOfRescan(d: Disk)
    ensures Capacity(RescanUsage(d))
            == Figures(|FileCharges(d)|, Wrapped(Sum(FileCharges(d), Sizes())), |FileCharges(d)|,
                       |TrashCharges(d)|, Wrapped(Sum(TrashCharges(d), Sizes())))
  {
    RescanShows(FileCharges(d));
    ShownCounts(Rescan(FileCharges(d)), FileCharges(d));
    RescanShows(TrashCharges(d));
    ShownCounts(Rescan(TrashCharges(d)), TrashCharges(d));
  }

  lemma ChargesPerEntry(sha: Bytes -> string, d: Disk)
    requires Sound(sha, d)
    ensures |FileCharges(d)| == |d.manifests| == |d.objects| && |TrashCharges(d)| == |d.trash|
  {
    forall id
      ensures id in d.objects <==> id in d.manifests
      ensures id in FileCharges(d) <==> id in d.manifests
      ensures id in TrashCharges(d) <==> id in d.trash
    {
      assert SlotSound(sha, View(d, id), id);
    }
    SameKeys(d.objects, d.manifests);
    SameKeys(FileCharges(d), d.manifests);
    SameKeys(TrashCharges(d), d.trash);
  }

  /** In a counted state the report counts the objects, the manifests and the trash entries
      that are on disk, and adds up their sizes. */
  lemma CapacityCountsTheDisk(cfg: Config, s: Store)
    requires Counted(cfg, s) && s.usageValid
    ensures Capacity(s.usage)
            == Figures(|s.disk.objects|, Wrapped(Sum(FileCharges(s.disk), Sizes())), |s.disk.manifests|,
                       |s.disk.trash|, Wrapped(Sum(TrashCharges(s.disk), Sizes())))
  {
    CapacityOfRescan(s.disk);
    ChargesPerEntry(cfg.sha, s.disk);
  }
}
