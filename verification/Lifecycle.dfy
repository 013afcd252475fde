/** What becomes of one file or one upload over several operations. */
module Lifecycle {
  import opened Basics
  import opened Text
  import opened Maps
  import opened Accounting
  import opened DiskModel
  import opened Trails
  import opened StoreSpec
  import opened Invariants
  import opened Quota
  import opened Soundness
  import opened Exact
  import opened CutOff
  import opened Operations
  import opened OneStep
  import opened Runs
  import R = Recovery

  // ---------------------------------------------------------------- Delete and Restore

  /** Delete followed by Restore gives back the whole directory: the same record under the
      same identifier, the same bytes, and every other entry as it was. */
  lemma DeleteThenRestore(cfg: Config, s: Store, id: Id, now: int)
    requires Sound(cfg.sha, s.disk) && id in s.disk.manifests
    ensures Delete(s, id, now).1 == Ok(())
    ensures
      var (t, r) := Restore(Delete(s, id, now).0, id);
      t.disk == s.disk && r == Ok(s.disk.manifests[id])
  {
    var slot := View(s.disk, id);
    assert SlotSound(cfg.sha, slot, id);
    var f := slot.manifest.value;
    var trashed := f.(deletedAt := Some(now));
    var d := Patch(s.disk, id, DeletedSlot(slot, trashed));
    ViewPatch(s.disk, id, DeletedSlot(slot, trashed), id);
    assert ReadTrash(d, id) == Ok(trashed);
    assert trashed.(deletedAt := None) == f;
    PatchPatch(s.disk, id, DeletedSlot(slot, trashed), RestoredSlot(DeletedSlot(slot, trashed), f));
    assert RestoredSlot(DeletedSlot(slot, trashed), f) == slot;
    PatchSame(s.disk, id);
  }

  lemma DeletedCharges(cfg: Config, s: Store, id: Id, now: int)
    requires Sound(cfg.sha, s.disk) && id in s.disk.manifests
    ensures
      var f, d := s.disk.manifests[id], Delete(s, id, now).0.disk;
      var x := Charge(f.info.owner, f.size);
      && id in FileCharges(s.disk) && FileCharges(s.disk)[id] == x && id !in TrashCharges(s.disk)
      && FileCharges(d) == FileCharges(s.disk) - {id} && TrashCharges(d) == TrashCharges(s.disk)[id := x]
      && UploadCharges(d) == UploadCharges(s.disk)
  {
    var slot := View(s.disk, id);
    assert SlotSound(cfg.sha, slot, id);
    ChargesAt(s.disk, id);
    ChargesOfPatch(s.disk, id, DeletedSlot(slot, slot.manifest.value.(deletedAt := Some(now))));
  }

  lemma DeletedUsage(cfg: Config, s: Store, id: Id, now: int)
    requires Sound(cfg.sha, s.disk) && id in s.disk.manifests
    ensures
      var f, t := s.disk.manifests[id], Delete(s, id, now).0;
      && t == Moved(s.(disk := t.disk), f.info.owner, Some(Files), Some(Trash), f.size)
      && Restore(t, id).0 == Moved(t.(disk := s.disk), f.info.owner, Some(Trash), Some(Files), f.size)
  {
    DeleteThenRestore(cfg, s, id, now);
    assert SlotSound(cfg.sha, View(s.disk, id), id);
  }

  /** The owner has records, but none with a size. */
  ghost predicate OnlyEmpty(c: Charges<Id, Owner>, o: Owner) {
    RecordsOf(c, o) > 0 && BytesOf(c, o) == 0
  }

  lemma FilesAndBackIff(c: Charges<Id, Owner>, id: Id, x: Charge<Owner>)
    requires NonNegative(c) && Fits(c) && id in c && c[id] == x && x.size > 0
    ensures Charged(Released(Rescan(c), x.owner, x.size), x.owner, x.size) == Rescan(c)
            <==> !OnlyEmpty(c - {id}, x.owner)
  {
    RescanAt(c, x.owner);
    AfterRelease(c, id, x.owner);
    RecordsOfOwner(c, x.owner);
    assert BytesOf(c, x.owner) <= MAX_INT64;
    ReleaseThenChargeIff(Rescan(c), x.owner, x.size);
    BytesNeedRecords(c - {id}, x.owner);
  }

  lemma TrashAndBackIff(c: Charges<Id, Owner>, id: Id, x: Charge<Owner>)
    requires NonNegative(c) && id !in c && Fits(c[id := x]) && x.size > 0
    ensures Released(Charged(Rescan(c), x.owner, x.size), x.owner, x.size) == Rescan(c) <==> !OnlyEmpty(c, x.owner)
  {
    RescanAt(c, x.owner);
    FitsBeforeAdd(c, id, x);
    BytesNonNegative(c, x.owner);
    RecordsOfOwner(c, x.owner);
    ChargeThenReleaseIff(Rescan(c), x.owner, x.size);
  }

  lemma MovedAndBackIff(u: Usage, o: Owner, size: int)
    ensures
      MovedUsage(MovedUsage(u, o, Some(Files), Some(Trash), size), o, Some(Trash), Some(Files), size) == u
      <==> && Charged(Released(u.files, o, size), o, size) == u.files
           && Released(Charged(u.trash, o, size), o, size) == u.trash
  {}

  /** With empty files about: from an exact index Delete and Restore give the index back if and
      only if the file is empty itself, or neither the owner's other active files nor those in
      trash, if there are any, are all empty. */
  lemma DeleteThenRestoreIndexIff(cfg: Config, s: Store, id: Id, now: int)
    requires Inv(cfg, s) && s.usageValid && ExactIndex(s) && id in s.disk.manifests
    requires AllFit(s.disk) && AllFit(Delete(s, id, now).0.disk)
    ensures
      var f := s.disk.manifests[id];
      Restore(Delete(s, id, now).0, id).0 == s
      <==> f.size == 0
           || (!OnlyEmpty(FileCharges(s.disk) - {id}, f.info.owner) && !OnlyEmpty(TrashCharges(s.disk), f.info.owner))
  {
    DeletedUsage(cfg, s, id, now);
    DeletedCharges(cfg, s, id, now);
    SoundIsReady(cfg.sha, s.disk);
    ReadyIsNonNegative(s.disk);
    var f := s.disk.manifests[id];
    var x := Charge(f.info.owner, f.size);
    MovedAndBackIff(s.usage, x.owner, x.size);
    if f.size > 0 {
      FilesAndBackIff(FileCharges(s.disk), id, x);
      TrashAndBackIff(TrashCharges(s.disk), id, x);
    }
  }

  lemma SizedIsNotOnlyEmpty(c: Charges<Id, Owner>, o: Owner)
    requires Positive(c)
    ensures !OnlyEmpty(c, o)
  {
    SumAtLeast(c, RecordFor(o), BytesFor(o));
  }

  /** In a counted state, such as any that an orderly run without empty files reaches, the index
      is exact in between and comes back too, counts included. */
  lemma DeleteThenRestoreIndex(cfg: Config, s: Store, id: Id, now: int)
    requires Counted(cfg, s) && s.usageValid && id in s.disk.manifests && AllFit(Delete(s, id, now).0.disk)
    ensures Delete(s, id, now).0.usage == RescanUsage(Delete(s, id, now).0.disk)
    ensures Restore(Delete(s, id, now).0, id).0 == s
  {
    var owner := s.disk.manifests[id].info.owner;
    DeletedUsage(cfg, s, id, now);
    DeleteIsExact(cfg, s, id, now);
    SizedIsNotOnlyEmpty(FileCharges(s.disk) - {id}, owner);
    SizedIsNotOnlyEmpty(TrashCharges(s.disk), owner);
    DeleteThenRestoreIndexIff(cfg, s, id, now);
  }

  /** Deleting again changes nothing. */
  lemma DeleteTwice(cfg: Config, s: Store, id: Id, now: int, later: int)
    requires Sound(cfg.sha, s.disk)
    ensures Delete(Delete(s, id, now).0, id, later) == (Delete(s, id, now).0, Ok(()))
  {
    var slot := View(s.disk, id);
    assert SlotSound(cfg.sha, slot, id);
    if slot.manifest.Some? {
      ViewPatch(s.disk, id, DeletedSlot(slot, slot.manifest.value.(deletedAt := Some(now))), id);
    }
  }

  /** A file deleted at t is destroyed by exactly those purges whose bound is not before t, and by
      those without a bound. */
  lemma DeletedIsPurgedIff(
    cfg: Config, s: Store, id: Id, t: int, listing: seq<Id>, olderThan: Option<int>)
    requires Sound(cfg.sha, s.disk) && id in s.disk.manifests && id in listing
    requires PurgeAll(Delete(s, id, t).0, listing, olderThan).1.None?
    ensures
      var purged := PurgeAll(Delete(s, id, t).0, listing, olderThan).0.disk;
      && (id in purged.trash <==> olderThan.Some? && olderThan.value < t)
      && id !in purged.manifests && id !in purged.objects
  {
    var slot := View(s.disk, id);
    assert SlotSound(cfg.sha, slot, id);
    var trashed := slot.manifest.value.(deletedAt := Some(t));
    var deleted := Delete(s, id, t).0;
    ViewPatch(s.disk, id, DeletedSlot(slot, trashed), id);
    assert ReadTrash(deleted.disk, id) == Ok(trashed);
    PurgeRemovesExactly(deleted, listing, olderThan, id);
    PurgeLeavesFiles(deleted, listing, olderThan);
  }

  lemma {:induction false} PurgeLeavesFiles(s: Store, listing: seq<Id>, olderThan: Option<int>)
    ensures
      var d := PurgeAll(s, listing, olderThan).0.disk;
      d.objects == s.disk.objects && d.manifests == s.disk.manifests
  {
    if listing != [] {
      var n := |listing| - 1;
      var t, id := PurgeAll(s, listing[..n], olderThan).0, listing[n];
      PurgeLeavesFiles(s, listing[..n], olderThan);
      SetSame(t.disk.objects, id);
      SetSame(t.disk.manifests, id);
    }
  }

  // ---------------------------------------------------------------- reservations

  /** A session that was started at t outlives every sweep up to its time to live, and no later
      one. */
  lemma StartedIsSweptIff(
    cfg: Config, s: Store, pause: Pause, before: seq<Id>, id: Id, size: int, checksum: string, info: Info, t: int,
    listing: seq<Id>, now: int)
    requires StartUpload(cfg, s, pause, before, id, size, checksum, info, t).1.Ok? && id in listing
    ensures
      var started := StartUpload(cfg, s, pause, before, id, size, checksum, info, t).0;
      && id in started.disk.uploads
      && (id in SweepAll(cfg, started, listing, now).disk.uploads <==> cfg.ttl <= 0 || now < t + cfg.ttl)
  {
    var started := StartUpload(cfg, s, pause, before, id, size, checksum, info, t).0;
    var u := NewSession(id, size, Lower(TrimSpace(checksum)), info, t);
    assert ReadSession(started.disk, id) == Ok(u);
    R.SweepRemovesExactly(cfg, started, listing, now, id);
  }

  /** Every accepted chunk begins the time to live again. */
  lemma AppendedIsSweptIff(
    cfg: Config, s: Store, pause: Pause, id: Id, offset: int, chunkSize: int, body: Body, checksum: string, t: int,
    listing: seq<Id>, now: int)
    requires AppendUpload(cfg, s, pause, id, offset, chunkSize, body, checksum, t).1.Ok? && id in listing
    ensures
      var appended := AppendUpload(cfg, s, pause, id, offset, chunkSize, body, checksum, t).0;
      && id in appended.disk.uploads
      && (id in SweepAll(cfg, appended, listing, now).disk.uploads <==> cfg.ttl <= 0 || now < t + cfg.ttl)
  {
    AppendCases(cfg, s, pause, id, offset, chunkSize, body, checksum, t);
    var appended := AppendUpload(cfg, s, pause, id, offset, chunkSize, body, checksum, t).0;
    var u := ReadSession(s.disk, id).value;
    AcceptedChunk(cfg, u, chunkSize, body, checksum);
    assert ReadSession(appended.disk, id) == Ok(Grown(u, body.bytes, t));
    R.SweepRemovesExactly(cfg, appended, listing, now, id);
  }

  /** A completed session is of no more use: the next sweep drops it, and the file stays. */
  lemma CompletedIsSwept(cfg: Config, s: Store, id: Id, fileId: Id, t: int, listing: seq<Id>, now: int)
    requires View(s.disk, fileId) == VACANT && CompleteUpload(cfg, s, id, fileId, t).1.Ok? && id in listing
    ensures
      var done := CompleteUpload(cfg, s, id, fileId, t).0;
      var swept := SweepAll(cfg, done, listing, now).disk;
      && id in done.disk.uploads && (id in swept.uploads <==> cfg.ttl <= 0)
      && swept.objects == done.disk.objects && swept.manifests == done.disk.manifests
  {
    var done := CompleteUpload(cfg, s, id, fileId, t).0;
    CompleteOutcomes(cfg, s, id, fileId, t);
    assert ReadSession(done.disk, id).Ok? && ReadSession(done.disk, id).value.status.Completed?;
    R.SweepRemovesExactly(cfg, done, listing, now, id);
    R.SweepIsExpiry(cfg, done, listing, now);
  }

  // ---------------------------------------------------------------- one upload over a run

  ghost predicate Open(d: Disk, id: Id) {
    && id in d.uploads && ReadSessionDir(d.uploads[id], id).Ok?
    && d.uploads[id].manifest.value.status.Uploading?
  }

  /** The session as the client described it, whatever has arrived so far. */
  function Declared(u: Session): Session {
    u.(received := 0, updatedAt := 0)
  }

  /** The operation of a step, also when the process ended during it. */
  function Doing(op: Op): Op {
    if op.OpCrash? then op.during else op
  }

  /** The bytes a step adds to the session: an accepted chunk, or nothing. */
  ghost function Accepted(cfg: Config, s: Store, op: Op, t: Store, id: Id): Bytes {
    if Doing(op).OpAppend? && Doing(op).id == id && GetAt(t.disk.uploads, id) != GetAt(s.disk.uploads, id)
    then Doing(op).body.bytes else []
  }

  /** Step by step, the bytes a run adds to the session. */
  ghost function AcceptedChunks(cfg: Config, states: seq<Store>, ops: seq<Op>, id: Id): (chunks: seq<Bytes>)
    requires |states| == |ops| + 1
    ensures |chunks| == |ops|
  {
    seq(|ops|, i requires 0 <= i < |ops| => Accepted(cfg, states[i], ops[i], states[i + 1], id))
  }

  function Concat(chunks: seq<Bytes>): Bytes {
    if chunks == [] then [] else Concat(chunks[..|chunks| - 1]) + chunks[|chunks| - 1]
  }

  lemma SweepLeavesOrDrops(cfg: Config, s: Store, listing: seq<Id>, now: int, id: Id)
    requires id in SweepAll(cfg, s, listing, now).disk.uploads
    ensures id in s.disk.uploads && SweepAll(cfg, s, listing, now).disk.uploads[id] == s.disk.uploads[id]
  {
    R.SweepIsExpiry(cfg, s, listing, now);
  }

  /** Apart from its own appends and its completion nothing changes a session that stays. */
  ghost predicate SessionStep(cfg: Config, s: Store, op: Op, t: Store, id: Id) {
    || (&& id in s.disk.uploads && GetAt(t.disk.uploads, id) == GetAt(s.disk.uploads, id)
        && Accepted(cfg, s, op, t, id) == [])
    || (&& Doing(op).OpAppend? && Doing(op).id == id && Open(s.disk, id) && Open(t.disk, id)
        && Accepted(cfg, s, op, t, id) == Doing(op).body.bytes
        && t.disk.uploads[id].data == Some(s.disk.uploads[id].data.value + Doing(op).body.bytes)
        && Declared(t.disk.uploads[id].manifest.value) == Declared(s.disk.uploads[id].manifest.value))
    || (Doing(op).OpComplete? && Doing(op).id == id && id in t.disk.uploads && !Open(t.disk, id))
  }

  lemma AppendStep(cfg: Config, s: Store, op: Op, t: Store, id: Id)
    requires Sound(cfg.sha, s.disk) && op.OpAppend? && id in s.disk.uploads && t == Apply(cfg, s, op)
    ensures SessionStep(cfg, s, op, t, id)
  {
    AppendCases(cfg, s, op.pause, op.id, op.offset, op.chunkSize, op.body, op.checksum, op.now);
    if t.disk != s.disk {
      var u, dir := ReadSession(s.disk, op.id).value, s.disk.uploads[op.id];
      assert SessionReady(dir, op.id);
      AcceptedChunk(cfg, u, op.chunkSize, op.body, op.checksum);
      if op.id == id {
        assert t.disk.uploads[id] == AppendedDir(dir, op.body.bytes, Grown(u, op.body.bytes, op.now));
        assert |t.disk.uploads[id].data.value| > |dir.data.value|;
      }
    }
  }

  lemma CompleteStep(cfg: Config, s: Store, op: Op, t: Store, id: Id)
    requires Sound(cfg.sha, s.disk) && op.OpComplete? && Fresh(s, op) && id in s.disk.uploads && t == Apply(cfg, s, op)
    ensures SessionStep(cfg, s, op, t, id)
  {
    CompleteOutcomes(cfg, s, op.id, op.fileId, op.now);
    if op.id in s.disk.uploads {
      assert SessionReady(s.disk.uploads[op.id], op.id);
    }
  }

  /** Every other operation leaves the session as it was or removes it. */
  lemma OthersLeaveSession(cfg: Config, s: Store, op: Op, t: Store, id: Id)
    requires Sound(cfg.sha, s.disk) && Fresh(s, op) && id in s.disk.uploads && t == Apply(cfg, s, op)
    requires id in t.disk.uploads
    requires !op.OpAppend? && !op.OpComplete? && !op.OpCrash?
    ensures t.disk.uploads[id] == s.disk.uploads[id]
  {
    if op.OpStart? {
      StartLeavesOthers(cfg, s, op, t, id);
    } else if op.OpSweep? {
      SweepLeavesOrDrops(cfg, s, op.listing, op.now, id);
    } else if op.OpRecover? {
      RecoverLeavesSession(cfg, s, Repair(op.listing, op.now), id);
    } else if FileOp(op) {
      FileOpLeavesUploads(cfg, s, op, t);
    }
  }

  lemma RecoverLeavesSession(cfg: Config, s: Store, repair: Repair, id: Id)
    requires Sound(cfg.sha, s.disk) && id in Recovered(cfg, s, repair).disk.uploads
    ensures id in s.disk.uploads && Recovered(cfg, s, repair).disk.uploads[id] == s.disk.uploads[id]
  {
    CleanedOfSound(cfg, s, repair.now);
    RebuildAgrees(SweepAll(cfg, s, repair.listing, repair.now));
    SweepLeavesOrDrops(cfg, s, repair.listing, repair.now, id);
  }

  lemma FileOpLeavesUploads(cfg: Config, s: Store, op: Op, t: Store)
    requires FileOp(op) && t == Apply(cfg, s, op)
    ensures t.disk.uploads == s.disk.uploads
  {
    if op.OpPut? {
      PutCases(cfg, s, op.pause, op.id, op.body, op.info, op.now);
    } else if op.OpPurge? {
      PurgeLeavesUploads(s, op.listing, op.olderThan);
    }
  }

  lemma ApplySession(cfg: Config, s: Store, op: Op, t: Store, id: Id)
    requires Sound(cfg.sha, s.disk) && Fresh(s, op) && id in s.disk.uploads && t == Apply(cfg, s, op)
    requires id in t.disk.uploads && !op.OpCrash?
    ensures SessionStep(cfg, s, op, t, id)
  {
    if op.OpAppend? {
      AppendStep(cfg, s, op, t, id);
    } else if op.OpComplete? {
      CompleteStep(cfg, s, op, t, id);
    } else {
      OthersLeaveSession(cfg, s, op, t, id);
    }
  }

  lemma AdmitOutcomes(cfg: Config, s: Store, id: Id, size: int, checksum: string, info: Info, now: int)
    ensures
      var uploads := Admit(cfg, s, id, size, checksum, info, now).0.disk.uploads;
      uploads == s.disk.uploads || uploads - {id} == s.disk.uploads - {id}
  {
    var u := NewSession(id, size, checksum, info, now);
    assert s.disk.uploads[id := StartedDir(u)] - {id} == s.disk.uploads - {id};
  }

  lemma StartOutcomes(
    cfg: Config, s: Store, pause: Pause, listing: seq<Id>, id: Id, size: int, checksum: string, info: Info, now: int)
    ensures
      var uploads := StartUpload(cfg, s, pause, listing, id, size, checksum, info, now).0.disk.uploads;
      var swept := SweepAll(cfg, PauseGate(s, pause).0, listing, now).disk.uploads;
      || uploads == s.disk.uploads
      || uploads == swept
      || (uploads - {id} == swept - {id})
  {
    GateKeepsDisk(s, pause);
    var t := Load(SweepAll(cfg, PauseGate(s, pause).0, listing, now));
    AdmitOutcomes(cfg, t, id, size, Lower(TrimSpace(checksum)), info, now);
  }

  lemma StartLeavesOthers(cfg: Config, s: Store, op: Op, t: Store, id: Id)
    requires op.OpStart? && id in s.disk.uploads && op.id != id && t == Apply(cfg, s, op) && id in t.disk.uploads
    ensures t.disk.uploads[id] == s.disk.uploads[id]
  {
    var gated, uploads := PauseGate(s, op.pause).0, t.disk.uploads;
    GateKeepsDisk(s, op.pause);
    StartOutcomes(cfg, s, op.pause, op.listing, op.id, op.size, op.checksum, op.info, op.now);
    if uploads != s.disk.uploads {
      var swept := SweepAll(cfg, gated, op.listing, op.now).disk.uploads;
      assert id in uploads - {op.id} || uploads == swept;
      SweepLeavesOrDrops(cfg, gated, op.listing, op.now, id);
    }
  }

  lemma SweptInPartLeaves(cfg: Config, s: Store, listing: seq<Id>, now: int, t: Store, id: Id)
    requires SweptInPart(cfg, s, listing, now, t) && id in t.disk.uploads
    ensures id in s.disk.uploads && t.disk.uploads[id] == s.disk.uploads[id]
  {
    var n: nat :| n <= |listing| && SweptUpTo(cfg, s, listing, now, n, t);
    SweepLeavesOrDrops(cfg, s, listing[..n], now, id);
  }

  lemma InterruptedSession(cfg: Config, s: Store, op: Op, t: Store, id: Id)
    requires Sound(cfg.sha, s.disk) && Interrupted(cfg, s, op, t) && id in t.disk.uploads
    ensures id in s.disk.uploads && t.disk.uploads[id] == s.disk.uploads[id]
  {
    if t.disk != s.disk {
      if op.OpStart? {
        GateKeepsDisk(s, op.pause);
        SweptInPartLeaves(cfg, PauseGate(s, op.pause).0, op.listing, op.now, t, id);
      } else if op.OpSweep? {
        SweptInPartLeaves(cfg, s, op.listing, op.now, t, id);
      } else if op.OpRecover? {
        CleanedOfSound(cfg, s, op.now);
        SweptInPartLeaves(cfg, s, op.listing, op.now, t, id);
      } else {
        var n: nat :| n <= |op.listing| && t == PurgeAll(s, op.listing[..n], op.olderThan).0;
        PurgeLeavesUploads(s, op.listing[..n], op.olderThan);
      }
    }
  }

  /** What a new process finds of a session, next to litter. */
  lemma RebootLeavesSession(cfg: Config, d: Disk, left: Disk, repair: Repair, id: Id)
    requires Ready(d) && R.Littered(d, left) && R.CanQuarantine(left, repair.now)
    requires id in Recovered(cfg, Opened(left), repair).disk.uploads
    ensures id in d.uploads && Recovered(cfg, Opened(left), repair).disk.uploads[id] == d.uploads[id]
  {
    var cleaned := Opened(left).(disk := R.Cleaned(left, repair.now));
    CleanedOfLitter(d, left, repair.now);
    RebuildAgrees(SweepAll(cfg, cleaned, repair.listing, repair.now));
    SweepLeavesOrDrops(cfg, cleaned, repair.listing, repair.now, id);
  }

  lemma MendedSession(cfg: Config, s: Store, op: Op, t: Store, id: Id)
    requires ValidConfig(cfg) && Sound(cfg.sha, s.disk) && op.OpCrash? && !op.during.OpCrash? && Fresh(s, op.during)
    requires Mended(cfg, s, op) && t == Apply(cfg, s, op) && id in s.disk.uploads && id in t.disk.uploads
    ensures SessionStep(cfg, s, op, t, id)
  {
    var m :| Arrived(cfg, s, op.during, m) && R.Littered(m.disk, op.left);
    ArrivalKeeps(cfg, s, op.during, m);
    SoundIsReady(cfg.sha, m.disk);
    RebootLeavesSession(cfg, m.disk, op.left, op.repair.value, id);
    ArrivalSession(cfg, s, op.during, m, id);
    SameSessionStep(cfg, s, op, m, t, id);
  }

  lemma ArrivalSession(cfg: Config, s: Store, op: Op, t: Store, id: Id)
    requires Sound(cfg.sha, s.disk) && Fresh(s, op) && !op.OpCrash? && Arrived(cfg, s, op, t)
    requires id in s.disk.uploads && id in t.disk.uploads
    ensures SessionStep(cfg, s, op, t, id)
  {
    if Interrupted(cfg, s, op, t) {
      InterruptedSession(cfg, s, op, t, id);
    } else {
      ApplySession(cfg, s, op, t, id);
    }
  }

  lemma SameSessionStep(cfg: Config, s: Store, op: Op, after: Store, t: Store, id: Id)
    requires op.OpCrash? && !op.during.OpCrash? && SessionStep(cfg, s, op.during, after, id)
    requires GetAt(t.disk.uploads, id) == GetAt(after.disk.uploads, id)
    ensures SessionStep(cfg, s, op, t, id)
  {}

  lemma StepSession(cfg: Config, s: Store, op: Op, t: Store, id: Id)
    requires ValidConfig(cfg) && Sound(cfg.sha, s.disk) && Orderly(cfg, s, op, t)
    requires id in s.disk.uploads && id in t.disk.uploads
    ensures SessionStep(cfg, s, op, t, id)
  {
    if Interrupted(cfg, s, op, t) {
      InterruptedSession(cfg, s, op, t, id);
    } else if op.OpCrash? {
      MendedSession(cfg, s, op, t, id);
    } else {
      ApplySession(cfg, s, op, t, id);
    }
  }

  /** One step of the run below. */
  lemma StepExtendsThePart(cfg: Config, s: Store, op: Op, t: Store, id: Id)
    requires ValidConfig(cfg) && Sound(cfg.sha, s.disk) && Orderly(cfg, s, op, t)
    requires id in s.disk.uploads && Open(t.disk, id)
    ensures Open(s.disk, id)
    ensures t.disk.uploads[id].data == Some(s.disk.uploads[id].data.value + Accepted(cfg, s, op, t, id))
    ensures Declared(t.disk.uploads[id].manifest.value) == Declared(s.disk.uploads[id].manifest.value)
  {
    StepSession(cfg, s, op, t, id);
    if Open(s.disk, id) {
      AppendNothing(s.disk.uploads[id].data.value);
    }
  }

  /** What the run below shows of the session between its first and last state. */
  ghost predicate Extended(first: SessionDir, last: SessionDir, more: Bytes) {
    && first.manifest.Some? && last.manifest.Some? && first.data.Some?
    && last.data == Some(first.data.value + more)
    && Declared(last.manifest.value) == Declared(first.manifest.value)
  }

  lemma ExtendedTwice(a: SessionDir, b: SessionDir, c: SessionDir, x: Bytes, y: Bytes)
    requires Extended(a, b, x) && Extended(b, c, y)
    ensures Extended(a, c, x + y)
  {
    Associative(a.data.value, x, y);
  }

  lemma OpenIsCounted(sha: Bytes -> string, d: Disk, id: Id)
    requires Sound(sha, d) && Open(d, id)
    ensures d.uploads[id].data.Some?
    ensures |d.uploads[id].data.value| == d.uploads[id].manifest.value.received <= d.uploads[id].manifest.value.size
  {
    assert SessionReady(d.uploads[id], id);
  }

  /** An orderly run from a sound store in which the session is never removed. */
  ghost predicate Calm(cfg: Config, states: seq<Store>, ops: seq<Op>, id: Id) {
    && OrderlyRun(cfg, states, ops) && Sound(cfg.sha, states[0].disk)
    && forall i | 0 <= i < |states| :: id in states[i].disk.uploads
  }

  lemma CalmIsGood(cfg: Config, states: seq<Store>, ops: seq<Op>, id: Id, i: nat)
    requires ValidConfig(cfg) && Calm(cfg, states, ops, id) && i <= |ops|
    ensures Sound(cfg.sha, states[i].disk)
  {
    OrderlyPrefix(cfg, states, ops, i);
    RunStaysSound(cfg, states[..i + 1], ops[..i]);
  }

  lemma CalmStep(cfg: Config, states: seq<Store>, ops: seq<Op>, id: Id, i: nat)
    requires ValidConfig(cfg) && Calm(cfg, states, ops, id) && i < |ops| && Open(states[i + 1].disk, id)
    ensures Open(states[i].disk, id)
    ensures Extended(states[i].disk.uploads[id], states[i + 1].disk.uploads[id],
                     AcceptedChunks(cfg, states, ops, id)[i])
  {
    CalmIsGood(cfg, states, ops, id, i);
    assert Orderly(cfg, states[i], ops[i], states[i + 1]);
    StepExtendsThePart(cfg, states[i], ops[i], states[i + 1], id);
  }

  /** Directories that grow one chunk at a time grow by all of them. */
  lemma {:induction false} ChunksAddUp(dirs: seq<SessionDir>, chunks: seq<Bytes>, n: nat)
    requires |dirs| == |chunks| + 1 && n <= |chunks|
    requires dirs[0].manifest.Some? && dirs[0].data.Some?
    requires forall i | 0 <= i < n :: Extended(dirs[i], dirs[i + 1], chunks[i])
    ensures Extended(dirs[0], dirs[n], Concat(chunks[..n]))
  {
    if n == 0 {
      AppendNothing(dirs[0].data.value);
    } else {
      ChunksAddUp(dirs, chunks, n - 1);
      assert chunks[..n][..n - 1] == chunks[..n - 1];
      ExtendedTwice(dirs[0], dirs[n - 1], dirs[n], Concat(chunks[..n - 1]), chunks[n - 1]);
    }
  }

  lemma {:induction false} OpenAllAlong(cfg: Config, states: seq<Store>, ops: seq<Op>, id: Id, i: nat)
    requires ValidConfig(cfg) && Calm(cfg, states, ops, id) && i <= |ops| && Open(states[|ops|].disk, id)
    ensures Open(states[i].disk, id)
    decreases |ops| - i
  {
    if i < |ops| {
      OpenAllAlong(cfg, states, ops, id, i + 1);
      CalmStep(cfg, states, ops, id, i);
    }
  }

  /** Every state's directory of the session, in order. */
  ghost function Dirs(states: seq<Store>, id: Id): (dirs: seq<SessionDir>)
    requires forall i | 0 <= i < |states| :: id in states[i].disk.uploads
    ensures |dirs| == |states| && forall i | 0 <= i < |states| :: dirs[i] == states[i].disk.uploads[id]
  {
    seq(|states|, i requires 0 <= i < |states| => states[i].disk.uploads[id])
  }

  lemma DirsGrow(cfg: Config, states: seq<Store>, ops: seq<Op>, id: Id, i: nat)
    requires ValidConfig(cfg) && Calm(cfg, states, ops, id) && Open(states[|ops|].disk, id) && i < |ops|
    ensures Extended(Dirs(states, id)[i], Dirs(states, id)[i + 1], AcceptedChunks(cfg, states, ops, id)[i])
  {
    OpenAllAlong(cfg, states, ops, id, i + 1);
    CalmStep(cfg, states, ops, id, i);
  }

  /** Over any such run that leaves the session open, data.part is what it held at the start
      followed by the accepted chunks in order; its length is the received count and never
      passes the declared size. */
  lemma PartIsTheAcceptedChunks(cfg: Config, states: seq<Store>, ops: seq<Op>, id: Id)
    requires ValidConfig(cfg) && Calm(cfg, states, ops, id) && Open(states[|ops|].disk, id)
    ensures Open(states[0].disk, id)
    ensures Extended(
      states[0].disk.uploads[id], states[|ops|].disk.uploads[id], Concat(AcceptedChunks(cfg, states, ops, id)))
    ensures
      var last := states[|ops|].disk.uploads[id];
      |last.data.value| == last.manifest.value.received <= last.manifest.value.size
  {
    var n, dirs, chunks := |ops|, Dirs(states, id), AcceptedChunks(cfg, states, ops, id);
    CalmIsGood(cfg, states, ops, id, n);
    OpenIsCounted(cfg.sha, states[n].disk, id);
    OpenAllAlong(cfg, states, ops, id, 0);
    OpenIsCounted(cfg.sha, states[0].disk, id);
    forall i | 0 <= i < n ensures Extended(dirs[i], dirs[i + 1], chunks[i]) {
      DirsGrow(cfg, states, ops, id, i);
    }
    ChunksAddUp(dirs, chunks, n);
    assert chunks[..n] == chunks;
  }

  lemma AppendNothing<T>(a: seq<T>)
    ensures a + [] == a
  {}

  lemma Associative<T>(a: seq<T>, b: seq<T>, c: seq<T>)
    ensures (a + b) + c == a + (b + c)
  {}

  /** A successful CompleteUpload publishes exactly the bytes of data.part, with the declared
      size and, when one was declared, the declared checksum. */
  lemma CompletePublishesThePart(cfg: Config, s: Store, id: Id, fileId: Id, now: int)
    requires ValidConfig(cfg) && Sound(cfg.sha, s.disk) && Open(s.disk, id) && View(s.disk, fileId) == VACANT
    requires CompleteUpload(cfg, s, id, fileId, now).1.Ok?
    ensures
      var (t, r) := CompleteUpload(cfg, s, id, fileId, now);
      var u := s.disk.uploads[id].manifest.value;
      && fileId in t.disk.objects && fileId in t.disk.manifests
      && t.disk.manifests[fileId] == r.value
      && Some(t.disk.objects[fileId]) == s.disk.uploads[id].data
      && |t.disk.objects[fileId]| == r.value.size == u.size
      && r.value.checksum == cfg.sha(t.disk.objects[fileId])
      && (u.checksum != "" ==> EqualFold(u.checksum, r.value.checksum))
      && r.value.info == u.info && r.value.createdAt == u.createdAt
      && t.disk.uploads[id].data.None?
      && ReadSession(t.disk, id) == Ok(u.(status := Completed, fileId := Some(fileId), updatedAt := now))
  {
    assert SessionReady(s.disk.uploads[id], id);
  }
}
