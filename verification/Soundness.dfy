/** Every operation leaves files complete and in one place, whatever the usage index shows and
    however large the sums on disk are. What the operations do to the flags of a store, and to an
    index that is not there, is kept here as well, for the runs. */
module Soundness {
  import opened Basics
  import opened Text
  import opened DiskModel
  import opened Trails
  import opened StoreSpec
  import opened Invariants
  import opened Quota
  import R = Recovery

  lemma LoadKeepsDisk(s: Store)
    ensures Load(s).disk == s.disk && Rebuild(s).0.disk == s.disk
  {}

  lemma StoredIsSound(cfg: Config, d: Disk, id: Id, bytes: Bytes, info: Info, now: int)
    requires ValidConfig(cfg) && Sound(cfg.sha, d)
    ensures Sound(cfg.sha, Patch(d, id, StoredSlot(bytes, NewFile(cfg, id, bytes, info, now))))
  {
    PatchSound(cfg.sha, d, id, StoredSlot(bytes, NewFile(cfg, id, bytes, info, now)));
  }

  lemma PutKeepsSound(cfg: Config, s: Store, pause: Pause, id: Id, body: Body, info: Info, now: int)
    requires ValidConfig(cfg) && Sound(cfg.sha, s.disk)
    ensures Sound(cfg.sha, Put(cfg, s, pause, id, body, info, now).0.disk)
  {
    PutCases(cfg, s, pause, id, body, info, now);
    StoredIsSound(cfg, s.disk, id, body.bytes, info, now);
  }

  lemma DropSessionKeepsSound(sha: Bytes -> string, d: Disk, id: Id)
    requires Sound(sha, d)
    ensures Sound(sha, PatchSession(d, id, None))
  {
    PatchSessionSound(sha, d, id, None);
  }

  lemma {:induction false} SweepKeepsSound(cfg: Config, s: Store, listing: seq<Id>, now: int)
    requires Sound(cfg.sha, s.disk)
    ensures Sound(cfg.sha, SweepAll(cfg, s, listing, now).disk)
  {
    if listing != [] {
      var n := |listing| - 1;
      var t := SweepAll(cfg, s, listing[..n], now);
      SweepKeepsSound(cfg, s, listing[..n], now);
      SweepOneDrops(cfg, t, listing[n], now);
      DropSessionKeepsSound(cfg.sha, t.disk, listing[n]);
    }
  }

  lemma AdmitKeepsSound(cfg: Config, s: Store, id: Id, size: int, checksum: string, info: Info, now: int)
    requires Sound(cfg.sha, s.disk) && size > 0
    ensures Sound(cfg.sha, Admit(cfg, s, id, size, checksum, info, now).0.disk)
  {
    PatchSessionSound(cfg.sha, s.disk, id, Some(StartedDir(NewSession(id, size, checksum, info, now))));
  }

  lemma StartKeepsSound(
    cfg: Config, s: Store, pause: Pause, listing: seq<Id>, id: Id, size: int, checksum: string, info: Info, now: int)
    requires Sound(cfg.sha, s.disk)
    ensures Sound(cfg.sha, StartUpload(cfg, s, pause, listing, id, size, checksum, info, now).0.disk)
  {
    var gated := PauseGate(s, pause).0;
    GateKeepsDisk(s, pause);
    SweepKeepsSound(cfg, gated, listing, now);
    LoadKeepsDisk(SweepAll(cfg, gated, listing, now));
    if size > 0 {
      AdmitKeepsSound(
        cfg, Load(SweepAll(cfg, gated, listing, now)), id, size, Lower(TrimSpace(checksum)), info, now);
    }
  }

  lemma GrownKeepsSound(sha: Bytes -> string, d: Disk, id: Id, chunk: Bytes, now: int)
    requires Sound(sha, d) && ReadSession(d, id).Ok? && ReadSession(d, id).value.status.Uploading?
    requires |chunk| <= ReadSession(d, id).value.size - ReadSession(d, id).value.received
    ensures
      Sound(sha, PatchSession(d, id,
                              Some(AppendedDir(d.uploads[id], chunk, Grown(ReadSession(d, id).value, chunk, now)))))
  {
    assert SessionReady(d.uploads[id], id);
    PatchSessionSound(sha, d, id, Some(AppendedDir(d.uploads[id], chunk, Grown(ReadSession(d, id).value, chunk, now))));
  }

  lemma AppendKeepsSound(
    cfg: Config, s: Store, pause: Pause, id: Id, offset: int, chunkSize: int, body: Body, checksum: string, now: int)
    requires Sound(cfg.sha, s.disk)
    ensures Sound(cfg.sha, AppendUpload(cfg, s, pause, id, offset, chunkSize, body, checksum, now).0.disk)
  {
    AppendCases(cfg, s, pause, id, offset, chunkSize, body, checksum, now);
    if AppendUpload(cfg, s, pause, id, offset, chunkSize, body, checksum, now).1.Ok? {
      AcceptedChunk(cfg, ReadSession(s.disk, id).value, chunkSize, body, checksum);
      GrownKeepsSound(cfg.sha, s.disk, id, body.bytes, now);
    }
  }

  lemma CompleteKeepsSound(cfg: Config, s: Store, id: Id, fileId: Id, now: int)
    requires ValidConfig(cfg) && Sound(cfg.sha, s.disk) && View(s.disk, fileId) == VACANT
    ensures Sound(cfg.sha, CompleteUpload(cfg, s, id, fileId, now).0.disk)
  {
    if Completable(s.disk, id) {
      assert SessionReady(s.disk.uploads[id], id);
      CompletedIsSound(cfg, s.disk, id, fileId, now);
    }
  }

  lemma AbortKeepsSound(cfg: Config, s: Store, id: Id)
    requires Sound(cfg.sha, s.disk)
    ensures Sound(cfg.sha, AbortUpload(s, id).0.disk)
  {
    AbortCases(s, id);
    DropSessionKeepsSound(cfg.sha, s.disk, id);
  }

  lemma DeleteKeepsSound(cfg: Config, s: Store, id: Id, now: int)
    requires Sound(cfg.sha, s.disk)
    ensures Sound(cfg.sha, Delete(s, id, now).0.disk)
  {
    var slot := View(s.disk, id);
    assert SlotSound(cfg.sha, slot, id);
    if slot.manifest.Some? {
      PatchSound(cfg.sha, s.disk, id, DeletedSlot(slot, slot.manifest.value.(deletedAt := Some(now))));
    }
  }

  lemma RestoreKeepsSound(cfg: Config, s: Store, id: Id)
    requires Sound(cfg.sha, s.disk)
    ensures Sound(cfg.sha, Restore(s, id).0.disk)
  {
    var slot := View(s.disk, id);
    assert SlotSound(cfg.sha, slot, id);
    if Restore(s, id).1.Ok? {
      PatchSound(cfg.sha, s.disk, id, RestoredSlot(slot, ReadTrash(s.disk, id).value.(deletedAt := None)));
    }
  }

  lemma {:induction false} PurgeKeepsSound(cfg: Config, s: Store, listing: seq<Id>, olderThan: Option<int>)
    requires Sound(cfg.sha, s.disk)
    ensures Sound(cfg.sha, PurgeAll(s, listing, olderThan).0.disk)
  {
    if listing != [] {
      var n := |listing| - 1;
      var t, id := PurgeAll(s, listing[..n], olderThan).0, listing[n];
      PurgeKeepsSound(cfg, s, listing[..n], olderThan);
      assert SlotSound(cfg.sha, View(t.disk, id), id);
      PatchSound(cfg.sha, t.disk, id, View(t.disk, id).(trash := None));
      if ReadTrash(t.disk, id).Ok? {
        PurgeOneDrops(t, id, olderThan);
      }
    }
  }

  /** On a sound store Recover begins with the sweep. */
  lemma CleanedOfSound(cfg: Config, s: Store, now: int)
    requires Sound(cfg.sha, s.disk)
    ensures R.CanQuarantine(s.disk, now) && s.(disk := R.Cleaned(s.disk, now)) == s
  {
    SoundIsReady(cfg.sha, s.disk);
    R.ReadyIsTidy(s.disk);
    R.TidyHasNoLeftovers(s.disk, now);
  }

  lemma {:induction false} PurgeLeavesUploads(s: Store, listing: seq<Id>, olderThan: Option<int>)
    ensures PurgeAll(s, listing, olderThan).0.disk.uploads == s.disk.uploads
  {
    if listing != [] {
      PurgeLeavesUploads(s, listing[..|listing| - 1], olderThan);
    }
  }

  // ---------------------------------------------------------------- the flags of the index

  lemma {:induction false} SweepKeepsFlags(cfg: Config, s: Store, listing: seq<Id>, now: int)
    ensures SweepAll(cfg, s, listing, now).loaded == s.loaded
    ensures SweepAll(cfg, s, listing, now).loadFailed == s.loadFailed
  {
    if listing != [] {
      SweepKeepsFlags(cfg, s, listing[..|listing| - 1], now);
    }
  }

  lemma {:induction false} PurgeKeepsFlags(s: Store, listing: seq<Id>, olderThan: Option<int>)
    ensures PurgeAll(s, listing, olderThan).0.loaded == s.loaded
    ensures PurgeAll(s, listing, olderThan).0.loadFailed == s.loadFailed
  {
    if listing != [] {
      PurgeKeepsFlags(s, listing[..|listing| - 1], olderThan);
    }
  }

  lemma {:induction false} SweepKeepsNoIndex(cfg: Config, s: Store, listing: seq<Id>, now: int)
    requires !s.usageValid
    ensures !SweepAll(cfg, s, listing, now).usageValid
  {
    if listing != [] {
      SweepKeepsNoIndex(cfg, s, listing[..|listing| - 1], now);
    }
  }
}
