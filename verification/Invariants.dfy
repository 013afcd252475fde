/** What every operation of the store keeps, over whole runs: sound files, an index that
    agrees with a rescan, and every owner within quota. */
module Invariants {
  import opened Basics
  import opened Text
  import opened Maps
  import opened Accounting
  import opened DiskModel
  import opened Trails
  import opened StoreSpec

  ghost predicate AgreesAll(u: Usage, d: Disk) {
    && Agrees(u.files, FileCharges(d))
    && Agrees(u.trash, TrashCharges(d))
    && Agrees(u.uploads, UploadCharges(d))
  }

  /** Every file is complete and in one place, and a valid index agrees with a rescan. */
  ghost predicate Inv(cfg: Config, s: Store) {
    && Sound(cfg.sha, s.disk)
    && (s.usageValid ==> AgreesAll(s.usage, s.disk))
    && (s.loaded && !s.loadFailed ==> s.usageValid)
  }

  // ---------------------------------------------------------------- charges of a patch

  lemma ChargesOfPatch(d: Disk, id: Id, s: Slot)
    ensures FileCharges(Patch(d, id, s)) == SetAt(FileCharges(d), id, FileChargeAt(s.manifest))
    ensures TrashCharges(Patch(d, id, s)) == SetAt(TrashCharges(d), id, TrashChargeAt(s.trash))
    ensures UploadCharges(Patch(d, id, s)) == UploadCharges(d)
  {
    SelectSet(d.manifests, FileCharge, id, s.manifest);
    SelectSet(d.trash, TrashCharge, id, s.trash);
  }

  lemma ChargesOfSession(d: Disk, id: Id, dir: Option<SessionDir>)
    ensures UploadCharges(PatchSession(d, id, dir)) == SetAt(UploadCharges(d), id, UploadChargeAt(dir))
    ensures FileCharges(PatchSession(d, id, dir)) == FileCharges(d)
    ensures TrashCharges(PatchSession(d, id, dir)) == TrashCharges(d)
  {
    SelectSet(d.uploads, UploadCharge, id, dir);
  }

  lemma ChargesAt(d: Disk, id: Id)
    ensures GetAt(FileCharges(d), id) == FileChargeAt(GetAt(d.manifests, id))
    ensures GetAt(TrashCharges(d), id) == TrashChargeAt(GetAt(d.trash, id))
    ensures GetAt(UploadCharges(d), id) == UploadChargeAt(GetAt(d.uploads, id))
  {
    SelectGet(d.manifests, FileCharge, id);
    SelectGet(d.trash, TrashCharge, id);
    SelectGet(d.uploads, UploadCharge, id);
  }

  // ---------------------------------------------------------------- one bucket at a time

  lemma BucketReleases(b: Bucket<Owner>, c: Charges<Id, Owner>, id: Id, x: Charge<Owner>)
    requires Agrees(b, c) && NonNegative(c) && Fits(c) && GetAt(c, id) == Some(x)
    ensures Agrees(Released(b, x.owner, x.size), SetAt(c, id, None))
  {
    ReleaseAgrees(b, c, id);
  }

  lemma BucketCharges(b: Bucket<Owner>, c: Charges<Id, Owner>, id: Id, x: Charge<Owner>)
    requires Agrees(b, c) && NonNegative(c) && GetAt(c, id) == None
    requires x.size >= 0 && Fits(SetAt(c, id, Some(x)))
    ensures Agrees(Charged(b, x.owner, x.size), SetAt(c, id, Some(x)))
  {
    FitsBeforeAdd(c, id, x);
    BytesNonNegative(c, x.owner);
    ChargeAgreesIff(b, c, id, x);
  }

  // ---------------------------------------------------------------- loading

  lemma LoadKeepsInv(cfg: Config, s: Store)
    requires Inv(cfg, s)
    ensures Inv(cfg, Load(s)) && Load(s).disk == s.disk && Load(s).loaded
    ensures s.loaded ==> Load(s) == s
    ensures AllFit(s.disk) && !s.loaded ==> !Load(s).loadFailed
  {
    RebuildAgrees(s);
    SoundIsReady(cfg.sha, s.disk);
    ReadyRescansIff(s.disk);
  }

  lemma RebuildAgrees(s: Store)
    ensures Rebuild(s).0.disk == s.disk
    ensures !Rebuild(s).1 ==> AgreesAll(Rebuild(s).0.usage, s.disk) && Rebuild(s).0.usageValid
    ensures Rebuild(s).1 ==> Rebuild(s).0 == s
  {
    RescanUsageAgrees(s.disk);
  }

  lemma GateKeepsInv(cfg: Config, s: Store, pause: Pause)
    requires Inv(cfg, s)
    ensures Inv(cfg, PauseGate(s, pause).0) && PauseGate(s, pause).0.disk == s.disk
  {
    LoadKeepsInv(cfg, s);
  }

  /** An operation keeps the invariant when its new directory is sound and its update of the
      index follows that directory. */
  lemma MovedKeepsInv(
    cfg: Config, s: Store, d: Disk, owner: Owner, from: Option<Kind>, to: Option<Kind>, size: int)
    requires Inv(cfg, s) && Sound(cfg.sha, d)
    requires s.usageValid ==> AgreesAll(MovedUsage(s.usage, owner, from, to, size), d)
    ensures Inv(cfg, Moved(s.(disk := d), owner, from, to, size))
  {}

  lemma OnlyUploadsChange(u: Usage, d: Disk, e: Disk, b: Bucket<Owner>)
    requires AgreesAll(u, d) && Agrees(b, UploadCharges(e))
    requires FileCharges(e) == FileCharges(d) && TrashCharges(e) == TrashCharges(d)
    ensures AgreesAll(u.(uploads := b), e)
  {}

  /** The session ends: dropped, or replaced by a completed one. */
  lemma UploadReleased(u: Usage, d: Disk, id: Id, dir: Option<SessionDir>, x: Charge<Owner>)
    requires AgreesAll(u, d) && NonNegative(UploadCharges(d)) && Fits(UploadCharges(d))
    requires id in d.uploads && UploadCharge(d.uploads[id]) == Some(x)
    requires dir.Some? ==> UploadCharge(dir.value).None?
    ensures AgreesAll(MovedUsage(u, x.owner, Some(Uploads), None, x.size), PatchSession(d, id, dir))
  {
    assert Agrees(Released(u.uploads, x.owner, x.size), UploadCharges(PatchSession(d, id, dir))) by {
      ChargesAt(d, id);
      ChargesOfSession(d, id, dir);
      BucketReleases(u.uploads, UploadCharges(d), id, x);
    }
    ChargesOfSession(d, id, dir);
    OnlyUploadsChange(u, d, PatchSession(d, id, dir), Released(u.uploads, x.owner, x.size));
  }

  lemma UploadCharged(u: Usage, d: Disk, id: Id, dir: SessionDir, x: Charge<Owner>)
    requires AgreesAll(u, d) && NonNegativeCharges(d) && AllFit(PatchSession(d, id, Some(dir)))
    requires id !in d.uploads && UploadCharge(dir) == Some(x) && x.size >= 0
    ensures AgreesAll(MovedUsage(u, x.owner, None, Some(Uploads), x.size), PatchSession(d, id, Some(dir)))
  {
    ChargesAt(d, id);
    ChargesOfSession(d, id, Some(dir));
    BucketCharges(u.uploads, UploadCharges(d), id, x);
    OnlyUploadsChange(u, d, PatchSession(d, id, Some(dir)), Charged(u.uploads, x.owner, x.size));
  }

  /** Replacing a session directory by one that costs the same changes no charge. */
  lemma UploadUnchanged(d: Disk, id: Id, dir: Option<SessionDir>)
    requires id in d.uploads && UploadCharge(d.uploads[id]) == UploadChargeAt(dir)
    ensures UploadCharges(PatchSession(d, id, dir)) == UploadCharges(d)
    ensures FileCharges(PatchSession(d, id, dir)) == FileCharges(d)
    ensures TrashCharges(PatchSession(d, id, dir)) == TrashCharges(d)
  {
    ChargesAt(d, id);
    ChargesOfSession(d, id, dir);
    SetSame(UploadCharges(d), id);
  }

  // ---------------------------------------------------------------- Put

  lemma FileCharged(u: Usage, d: Disk, id: Id, slot: Slot, x: Charge<Owner>)
    requires AgreesAll(u, d) && NonNegativeCharges(d) && AllFit(Patch(d, id, slot))
    requires id !in d.manifests && id !in d.trash && slot.trash.None?
    requires slot.manifest.Some? && FileCharge(slot.manifest.value) == Some(x) && x.size >= 0
    ensures AgreesAll(MovedUsage(u, x.owner, None, Some(Files), x.size), Patch(d, id, slot))
  {
    ChargesAt(d, id);
    ChargesOfPatch(d, id, slot);
    BucketCharges(u.files, FileCharges(d), id, x);
    RemoveAbsent(TrashCharges(d), id);
  }

  lemma PutCommitKeepsInv(cfg: Config, s: Store, id: Id, bytes: Bytes, info: Info, now: int)
    requires ValidConfig(cfg) && Inv(cfg, s) && View(s.disk, id) == VACANT
    requires AllFit(PutCommit(cfg, s, id, bytes, info, now).disk)
    ensures Inv(cfg, PutCommit(cfg, s, id, bytes, info, now))
  {
    var f := NewFile(cfg, id, bytes, info, now);
    var slot := StoredSlot(bytes, f);
    PatchSound(cfg.sha, s.disk, id, slot);
    if s.usageValid {
      SoundIsReady(cfg.sha, s.disk);
      ReadyIsNonNegative(s.disk);
      FileCharged(s.usage, s.disk, id, slot, Charge(info.owner, f.size));
    }
    MovedKeepsInv(cfg, s, Patch(s.disk, id, slot), info.owner, None, Some(Files), f.size);
  }

  /** A slot that Put finds free in a sound store is vacant. */
  lemma FreeIsVacant(sha: Bytes -> string, d: Disk, id: Id)
    requires Sound(sha, d) && id !in d.objects && id !in d.manifests && id !in d.trash
    ensures View(d, id) == VACANT
  {
    assert SlotSound(sha, View(d, id), id);
  }

  lemma PutKeepsInv(cfg: Config, s: Store, pause: Pause, id: Id, body: Body, info: Info, now: int)
    requires ValidConfig(cfg) && Inv(cfg, s)
    requires AllFit(Put(cfg, s, pause, id, body, info, now).0.disk)
    ensures Inv(cfg, Put(cfg, s, pause, id, body, info, now).0)
  {
    GateKeepsInv(cfg, s, pause);
    var gated := PauseGate(s, pause).0;
    LoadKeepsInv(cfg, gated);
    var t := Load(gated);
    if PauseGate(s, pause).1.None? && PutError(cfg, t, id, body, info).None? {
      FreeIsVacant(cfg.sha, t.disk, id);
      PutCommitKeepsInv(cfg, t, id, body.bytes, info, now);
    }
  }

  // ---------------------------------------------------------------- sessions

  lemma DropSessionKeepsInv(cfg: Config, s: Store, id: Id)
    requires Inv(cfg, s) && AllFit(s.disk) && ReadSession(s.disk, id).Ok?
    ensures
      var u := ReadSession(s.disk, id).value;
      var t := s.(disk := PatchSession(s.disk, id, None));
      && AllFit(t.disk)
      && Inv(cfg, if u.status.Completed? then t else Moved(t, u.info.owner, Some(Uploads), None, u.size))
  {
    var u := ReadSession(s.disk, id).value;
    SoundIsReady(cfg.sha, s.disk);
    ReadyIsNonNegative(s.disk);
    FitsWithoutSession(s.disk, id);
    PatchSessionSound(cfg.sha, s.disk, id, None);
    if u.status.Completed? {
      UploadUnchanged(s.disk, id, None);
    } else {
      if s.usageValid {
        UploadReleased(s.usage, s.disk, id, None, Charge(u.info.owner, u.size));
      }
      MovedKeepsInv(cfg, s, PatchSession(s.disk, id, None), u.info.owner, Some(Uploads), None, u.size);
    }
  }

  lemma FitsWithoutSession(d: Disk, id: Id)
    requires AllFit(d) && NonNegativeCharges(d)
    ensures AllFit(PatchSession(d, id, None))
  {
    var c := UploadCharges(d);
    ChargesOfSession(d, id, None);
    if id in c {
      FitsAfterRemove(c, id);
    } else {
      RemoveAbsent(c, id);
    }
  }

  lemma SweepOneKeepsInv(cfg: Config, s: Store, id: Id, now: int)
    requires Inv(cfg, s) && AllFit(s.disk)
    ensures Inv(cfg, SweepOne(cfg, s, id, now)) && AllFit(SweepOne(cfg, s, id, now).disk)
  {
    if id in s.disk.uploads && Expired(cfg, s.disk.uploads[id], id, now) {
      DropSessionKeepsInv(cfg, s, id);
    }
  }

  lemma {:induction false} SweepKeepsInv(cfg: Config, s: Store, listing: seq<Id>, now: int)
    requires Inv(cfg, s) && AllFit(s.disk)
    ensures Inv(cfg, SweepAll(cfg, s, listing, now)) && AllFit(SweepAll(cfg, s, listing, now).disk)
  {
    if listing != [] {
      var n := |listing| - 1;
      SweepKeepsInv(cfg, s, listing[..n], now);
      SweepOneKeepsInv(cfg, SweepAll(cfg, s, listing[..n], now), listing[n], now);
    }
  }

  lemma StartCommitKeepsInv(cfg: Config, s: Store, id: Id, size: int, checksum: string, info: Info, now: int)
    requires Inv(cfg, s) && id !in s.disk.uploads && size > 0
    requires AllFit(StartCommit(s, id, NewSession(id, size, checksum, info, now)).disk)
    ensures Inv(cfg, StartCommit(s, id, NewSession(id, size, checksum, info, now)))
  {
    var u := NewSession(id, size, checksum, info, now);
    var dir := StartedDir(u);
    SoundIsReady(cfg.sha, s.disk);
    ReadyIsNonNegative(s.disk);
    PatchSessionSound(cfg.sha, s.disk, id, Some(dir));
    if s.usageValid {
      UploadCharged(s.usage, s.disk, id, dir, Charge(info.owner, size));
    }
    MovedKeepsInv(cfg, s, PatchSession(s.disk, id, Some(dir)), info.owner, None, Some(Uploads), size);
  }

  lemma StartKeepsInv(
    cfg: Config, s: Store, pause: Pause, listing: seq<Id>, id: Id, size: int, checksum: string, info: Info, now: int)
    requires Inv(cfg, s) && AllFit(s.disk)
    requires AllFit(StartUpload(cfg, s, pause, listing, id, size, checksum, info, now).0.disk)
    ensures Inv(cfg, StartUpload(cfg, s, pause, listing, id, size, checksum, info, now).0)
  {
    GateKeepsInv(cfg, s, pause);
    var gated := PauseGate(s, pause).0;
    SweepKeepsInv(cfg, gated, listing, now);
    LoadKeepsInv(cfg, SweepAll(cfg, gated, listing, now));
    if StartUpload(cfg, s, pause, listing, id, size, checksum, info, now).1.Ok? {
      StartCommitKeepsInv(cfg, Load(SweepAll(cfg, gated, listing, now)), id, size, Lower(TrimSpace(checksum)), info,
                          now);
    }
  }

  /** What an accepted chunk says about the session and the bytes. */
  lemma AcceptedChunk(cfg: Config, u: Session, chunkSize: int, body: Body, checksum: string)
    requires chunkSize > 0 && ChunkError(cfg, u, chunkSize, body, checksum).None?
    ensures !body.fails || |body.bytes| > chunkSize
    ensures |body.bytes| == chunkSize <= u.size - u.received
    ensures checksum != "" ==> EqualFold(TrimSpace(checksum), cfg.sha(body.bytes))
  {}

  lemma AppendCommitKeepsInv(cfg: Config, s: Store, id: Id, chunk: Bytes, now: int)
    requires Inv(cfg, s) && ReadSession(s.disk, id).Ok? && ReadSession(s.disk, id).value.status.Uploading?
    requires |chunk| <= ReadSession(s.disk, id).value.size - ReadSession(s.disk, id).value.received
    ensures
      var u := ReadSession(s.disk, id).value;
      var d := PatchSession(s.disk, id, Some(AppendedDir(s.disk.uploads[id], chunk, Grown(u, chunk, now))));
      Inv(cfg, s.(disk := d)) && (AllFit(s.disk) ==> AllFit(d))
  {
    var u := ReadSession(s.disk, id).value;
    var dir := AppendedDir(s.disk.uploads[id], chunk, Grown(u, chunk, now));
    assert SessionReady(s.disk.uploads[id], id);
    PatchSessionSound(cfg.sha, s.disk, id, Some(dir));
    UploadUnchanged(s.disk, id, Some(dir));
  }

  lemma AppendKeepsInv(
    cfg: Config, s: Store, pause: Pause, id: Id, offset: int, chunkSize: int, body: Body, checksum: string, now: int)
    requires Inv(cfg, s) && AllFit(s.disk)
    ensures Inv(cfg, AppendUpload(cfg, s, pause, id, offset, chunkSize, body, checksum, now).0)
    ensures AllFit(AppendUpload(cfg, s, pause, id, offset, chunkSize, body, checksum, now).0.disk)
  {
    GateKeepsInv(cfg, s, pause);
    if AppendUpload(cfg, s, pause, id, offset, chunkSize, body, checksum, now).1.Ok? {
      AcceptedChunk(cfg, ReadSession(s.disk, id).value, chunkSize, body, checksum);
      AppendCommitKeepsInv(cfg, PauseGate(s, pause).0, id, body.bytes, now);
    }
  }

  lemma AbortKeepsInv(cfg: Config, s: Store, id: Id)
    requires Inv(cfg, s) && AllFit(s.disk)
    ensures Inv(cfg, AbortUpload(s, id).0) && AllFit(AbortUpload(s, id).0.disk)
  {
    if AbortUpload(s, id).1.Ok? && ReadSession(s.disk, id).Ok? {
      DropSessionKeepsInv(cfg, s, id);
    }
  }

  lemma ChargesOfCompletion(d: Disk, id: Id, fileId: Id, f: File, done: Session)
    requires View(d, fileId) == VACANT && id in d.uploads && d.uploads[id].data.Some? && done.status.Completed?
    ensures
      var stored := Patch(d, fileId, StoredSlot(d.uploads[id].data.value, f));
      var after := CompletedDisk(d, id, fileId, f, done);
      && FileCharges(after) == FileCharges(stored) && TrashCharges(after) == TrashCharges(stored) == TrashCharges(d)
      && UploadCharges(stored) == UploadCharges(d)
  {
    var slot := StoredSlot(d.uploads[id].data.value, f);
    ChargesOfPatch(d, fileId, slot);
    ChargesAt(d, fileId);
    RemoveAbsent(TrashCharges(d), fileId);
    ChargesOfSession(Patch(d, fileId, slot), id, Some(d.uploads[id].(data := None, manifest := Some(done))));
  }

  lemma MovedInTwoSteps(u: Usage, owner: Owner, size: int)
    ensures MovedUsage(u, owner, Some(Uploads), Some(Files), size)
            == MovedUsage(MovedUsage(u, owner, None, Some(Files), size), owner, Some(Uploads), None, size)
  {}

  lemma UploadCompleted(u: Usage, d: Disk, id: Id, fileId: Id, f: File, done: Session, x: Charge<Owner>)
    requires AgreesAll(u, d) && NonNegativeCharges(d) && AllFit(d)
    requires View(d, fileId) == VACANT && id in d.uploads && d.uploads[id].data.Some?
    requires UploadCharge(d.uploads[id]) == Some(x) && FileCharge(f) == Some(x) && x.size >= 0 && done.status.Completed?
    requires AllFit(CompletedDisk(d, id, fileId, f, done))
    ensures AgreesAll(MovedUsage(u, x.owner, Some(Uploads), Some(Files), x.size), CompletedDisk(d, id, fileId, f, done))
  {
    var slot := StoredSlot(d.uploads[id].data.value, f);
    ChargesOfCompletion(d, id, fileId, f, done);
    MovedInTwoSteps(u, x.owner, x.size);
    var v, stored := MovedUsage(u, x.owner, None, Some(Files), x.size), Patch(d, fileId, slot);
    assert AllFit(stored);
    assert AgreesAll(v, stored) by {
      FileCharged(u, d, fileId, slot, x);
    }
    UploadReleased(v, stored, id, Some(d.uploads[id].(data := None, manifest := Some(done))), x);
  }

  lemma CompletedIsSound(cfg: Config, d: Disk, id: Id, fileId: Id, now: int)
    requires ValidConfig(cfg) && Sound(cfg.sha, d) && View(d, fileId) == VACANT
    requires ReadSession(d, id).Ok? && ReadSession(d, id).value.status.Uploading?
    requires ReadSession(d, id).value.received == ReadSession(d, id).value.size
    ensures
      var u := ReadSession(d, id).value;
      var f := CompletedFile(cfg, u, fileId, d.uploads[id].data.value);
      Sound(cfg.sha, CompletedDisk(d, id, fileId, f, CompletedSession(u, fileId, now)))
  {
    var u := ReadSession(d, id).value;
    var f := CompletedFile(cfg, u, fileId, d.uploads[id].data.value);
    var done := CompletedSession(u, fileId, now);
    assert SessionReady(d.uploads[id], id);
    var slot := StoredSlot(d.uploads[id].data.value, f);
    PatchSound(cfg.sha, d, fileId, slot);
    PatchSessionSound(cfg.sha, Patch(d, fileId, slot), id, Some(d.uploads[id].(data := None, manifest := Some(done))));
  }

  lemma CompleteKeepsInv(cfg: Config, s: Store, id: Id, fileId: Id, now: int)
    requires ValidConfig(cfg) && Inv(cfg, s) && View(s.disk, fileId) == VACANT && AllFit(s.disk)
    requires AllFit(CompleteUpload(cfg, s, id, fileId, now).0.disk)
    ensures Inv(cfg, CompleteUpload(cfg, s, id, fileId, now).0)
  {
    if ReadSession(s.disk, id).Ok? {
      var u := ReadSession(s.disk, id).value;
      assert SessionReady(s.disk.uploads[id], id);
      if CompleteUpload(cfg, s, id, fileId, now).1.Ok? && u.status.Uploading? {
        var f := CompletedFile(cfg, u, fileId, s.disk.uploads[id].data.value);
        var done := CompletedSession(u, fileId, now);
        CompletedIsSound(cfg, s.disk, id, fileId, now);
        SoundIsReady(cfg.sha, s.disk);
        ReadyIsNonNegative(s.disk);
        if s.usageValid {
          UploadCompleted(s.usage, s.disk, id, fileId, f, done, Charge(u.info.owner, u.size));
        }
        MovedKeepsInv(cfg, s, CompletedDisk(s.disk, id, fileId, f, done), u.info.owner, Some(Uploads), Some(Files),
                      u.size);
      }
    }
  }

  // ---------------------------------------------------------------- Delete, Restore, purge

  lemma FileTrashed(u: Usage, d: Disk, id: Id, f: File, x: Charge<Owner>)
    requires AgreesAll(u, d) && NonNegativeCharges(d) && AllFit(d)
    requires id in d.manifests && id !in d.trash && FileCharge(d.manifests[id]) == Some(x) == FileCharge(f)
    requires AllFit(Patch(d, id, DeletedSlot(View(d, id), f)))
    ensures AgreesAll(MovedUsage(u, x.owner, Some(Files), Some(Trash), x.size),
                      Patch(d, id, DeletedSlot(View(d, id), f)))
  {
    ChargesAt(d, id);
    ChargesOfPatch(d, id, DeletedSlot(View(d, id), f));
    assert FileCharges(d)[id] == x;
    BucketReleases(u.files, FileCharges(d), id, x);
    BucketCharges(u.trash, TrashCharges(d), id, x);
  }

  lemma FileUntrashed(u: Usage, d: Disk, id: Id, f: File, x: Charge<Owner>)
    requires AgreesAll(u, d) && NonNegativeCharges(d) && AllFit(d)
    requires id !in d.manifests && id in d.trash && TrashCharge(d.trash[id]) == Some(x) == FileCharge(f)
    requires AllFit(Patch(d, id, RestoredSlot(View(d, id), f)))
    ensures AgreesAll(MovedUsage(u, x.owner, Some(Trash), Some(Files), x.size),
                      Patch(d, id, RestoredSlot(View(d, id), f)))
  {
    ChargesAt(d, id);
    ChargesOfPatch(d, id, RestoredSlot(View(d, id), f));
    assert TrashCharges(d)[id] == x;
    BucketReleases(u.trash, TrashCharges(d), id, x);
    BucketCharges(u.files, FileCharges(d), id, x);
  }

  lemma FilePurged(u: Usage, d: Disk, id: Id, x: Charge<Owner>)
    requires AgreesAll(u, d) && NonNegativeCharges(d) && AllFit(d)
    requires id in d.trash && TrashCharge(d.trash[id]) == Some(x)
    ensures AgreesAll(MovedUsage(u, x.owner, Some(Trash), None, x.size), Patch(d, id, View(d, id).(trash := None)))
    ensures AllFit(Patch(d, id, View(d, id).(trash := None)))
  {
    ChargesAt(d, id);
    ChargesOfPatch(d, id, View(d, id).(trash := None));
    SetSame(FileCharges(d), id);
    BucketReleases(u.trash, TrashCharges(d), id, x);
    FitsAfterRemove(TrashCharges(d), id);
  }

  lemma DeleteKeepsInv(cfg: Config, s: Store, id: Id, now: int)
    requires Inv(cfg, s) && AllFit(s.disk) && AllFit(Delete(s, id, now).0.disk)
    ensures Inv(cfg, Delete(s, id, now).0)
  {
    var slot := View(s.disk, id);
    assert SlotSound(cfg.sha, slot, id);
    if slot.manifest.Some? {
      var f := slot.manifest.value.(deletedAt := Some(now));
      PatchSound(cfg.sha, s.disk, id, DeletedSlot(slot, f));
      SoundIsReady(cfg.sha, s.disk);
      ReadyIsNonNegative(s.disk);
      if s.usageValid {
        FileTrashed(s.usage, s.disk, id, f, Charge(f.info.owner, f.size));
      }
      MovedKeepsInv(cfg, s, Patch(s.disk, id, DeletedSlot(slot, f)), f.info.owner, Some(Files), Some(Trash), f.size);
    }
  }

  lemma RestoreKeepsInv(cfg: Config, s: Store, id: Id)
    requires Inv(cfg, s) && AllFit(s.disk) && AllFit(Restore(s, id).0.disk)
    ensures Inv(cfg, Restore(s, id).0)
  {
    var slot := View(s.disk, id);
    assert SlotSound(cfg.sha, slot, id);
    if Restore(s, id).1.Ok? {
      var f := ReadTrash(s.disk, id).value.(deletedAt := None);
      PatchSound(cfg.sha, s.disk, id, RestoredSlot(slot, f));
      SoundIsReady(cfg.sha, s.disk);
      ReadyIsNonNegative(s.disk);
      if s.usageValid {
        FileUntrashed(s.usage, s.disk, id, f, Charge(f.info.owner, f.size));
      }
      MovedKeepsInv(cfg, s, Patch(s.disk, id, RestoredSlot(slot, f)), f.info.owner, Some(Trash), Some(Files), f.size);
    }
  }

  lemma PurgeOneKeepsInv(cfg: Config, s: Store, id: Id, olderThan: Option<int>)
    requires Inv(cfg, s) && AllFit(s.disk) && ReadTrash(s.disk, id).Ok?
    ensures Inv(cfg, PurgeOne(s, id, olderThan)) && AllFit(PurgeOne(s, id, olderThan).disk)
  {
    var slot, f := View(s.disk, id), ReadTrash(s.disk, id).value;
    assert SlotSound(cfg.sha, slot, id);
    if Purged(f, olderThan) {
      var bare := slot.(trash := None);
      PatchSound(cfg.sha, s.disk, id, bare);
      SoundIsReady(cfg.sha, s.disk);
      ReadyIsNonNegative(s.disk);
      RescanUsageAgrees(s.disk);
      FilePurged(RescanUsage(s.disk), s.disk, id, Charge(f.info.owner, f.size));
      if s.usageValid {
        FilePurged(s.usage, s.disk, id, Charge(f.info.owner, f.size));
      }
      MovedKeepsInv(cfg, s, Patch(s.disk, id, bare), f.info.owner, Some(Trash), None, f.size);
    }
  }

  lemma RescanUsageAgrees(d: Disk)
    ensures AgreesAll(RescanUsage(d), d)
  {
    RescanAgrees(FileCharges(d));
    RescanAgrees(TrashCharges(d));
    RescanAgrees(UploadCharges(d));
  }

  lemma {:induction false} PurgeKeepsInv(cfg: Config, s: Store, listing: seq<Id>, olderThan: Option<int>)
    requires Inv(cfg, s) && AllFit(s.disk)
    ensures Inv(cfg, PurgeAll(s, listing, olderThan).0) && AllFit(PurgeAll(s, listing, olderThan).0.disk)
  {
    if listing != [] {
      var n := |listing| - 1;
      PurgeKeepsInv(cfg, s, listing[..n], olderThan);
      var t := PurgeAll(s, listing[..n], olderThan);
      if t.1.None? && ReadTrash(t.0.disk, listing[n]).Ok? {
        PurgeOneKeepsInv(cfg, t.0, listing[n], olderThan);
      }
    }
  }
}
