/** After which crashes a restart with Recover makes the store ready again. */
module Crash {
  import opened Basics
  import opened DiskModel
  import opened Trails
  import opened StoreSpec
  import opened Invariants
  import opened Recovery

  /** Whether a restart from this directory ends ready. */
  ghost predicate Heals(cfg: Config, d: Disk, now: int)
    requires CanQuarantine(d, now)
  {
    Ready(Recovered(cfg, d, now))
  }

  /** A crash that touched one file identifier of a sound store heals exactly when its slot
      is fine but for temporary files. */
  lemma SlotCrashHealsIff(cfg: Config, d: Disk, id: Id, s: Slot, now: int)
    requires Sound(cfg.sha, d) && CanQuarantine(Patch(d, id, s), now)
    ensures Heals(cfg, Patch(d, id, s), now) <==> SlotReady(WithoutTmp(s), id)
  {
    var c := Patch(d, id, s);
    RecoverReadyIff(cfg, c, now);
    ViewPatch(d, id, s, id);
    if SlotReady(WithoutTmp(s), id) {
      forall x ensures SlotReady(WithoutTmp(View(c, x)), x) {
        ViewPatch(d, id, s, x);
        assert SlotSound(cfg.sha, View(d, x), x);
      }
      forall x | x in c.uploads ensures DirHeals(cfg, c.uploads[x], x, now) {
        assert SessionReady(d.uploads[x], x);
        assert d.uploads[x].(manifestTmp := None) == d.uploads[x];
      }
    } else {
      assert !SlotReady(WithoutTmp(View(c, id)), id);
    }
  }

  /** The same for a crash that touched one session directory. */
  lemma SessionCrashHealsIff(cfg: Config, d: Disk, id: Id, dir: SessionDir, now: int)
    requires Sound(cfg.sha, d) && CanQuarantine(PatchSession(d, id, Some(dir)), now)
    ensures Heals(cfg, PatchSession(d, id, Some(dir)), now) <==> DirHeals(cfg, dir, id, now)
  {
    var c := PatchSession(d, id, Some(dir));
    RecoverReadyIff(cfg, c, now);
    assert id in c.uploads && c.uploads[id] == dir;
    if DirHeals(cfg, dir, id, now) {
      forall x ensures SlotReady(WithoutTmp(View(c, x)), x) {
        assert View(c, x) == View(d, x);
        assert SlotSound(cfg.sha, View(d, x), x);
      }
      forall x | x in c.uploads ensures DirHeals(cfg, c.uploads[x], x, now) {
        if x != id {
          assert SessionReady(d.uploads[x], x);
          assert d.uploads[x].(manifestTmp := None) == d.uploads[x];
        }
      }
    }
  }

  // ---------------------------------------------------------------- Put and StartUpload

  lemma PutSlotIsFineIff(bytes: Bytes, f: File, id: Id, i: nat)
    requires i < 6 && GoodFile(f, id)
    ensures SlotReady(WithoutTmp(PutSlots(bytes, f)[i]), id) <==> i < 2 || i == 5
  {}

  /** A crash during Put heals unless it falls between the rename of the object and the
      rename of the manifest, which leaves an object that nothing accounts for. */
  lemma PutCrashHealsIff(cfg: Config, d: Disk, id: Id, bytes: Bytes, info: Info, now: int, i: nat)
    requires ValidConfig(cfg) && Sound(cfg.sha, d) && View(d, id) == VACANT && i < 6
    requires CanQuarantine(Through(d, id, PutSlots(bytes, NewFile(cfg, id, bytes, info, now)))[i], now)
    ensures Heals(cfg, Through(d, id, PutSlots(bytes, NewFile(cfg, id, bytes, info, now)))[i], now) <==> i < 2 || i == 5
  {
    var f := NewFile(cfg, id, bytes, info, now);
    SlotCrashHealsIff(cfg, d, id, PutSlots(bytes, f)[i], now);
    PutSlotIsFineIff(bytes, f, id, i);
  }

  /** A crash with any part of the body written heals. */
  lemma TornBodyHeals(cfg: Config, d: Disk, id: Id, torn: Bytes, now: int)
    requires Sound(cfg.sha, d) && View(d, id) == VACANT && CanQuarantine(Patch(d, id, VACANT.(part := Some(torn))), now)
    ensures Heals(cfg, Patch(d, id, VACANT.(part := Some(torn))), now)
  {
    SlotCrashHealsIff(cfg, d, id, VACANT.(part := Some(torn)), now);
  }

  /** Every crash during StartUpload heals. */
  lemma StartCrashHeals(cfg: Config, d: Disk, id: Id, u: Session, now: int, i: nat)
    requires Sound(cfg.sha, d) && i < 5 && SessionReady(StartedDir(u), id)
    requires CanQuarantine(ThroughSession(d, id, StartDirs(u))[i], now)
    ensures Heals(cfg, ThroughSession(d, id, StartDirs(u))[i], now)
  {
    SessionCrashHealsIff(cfg, d, id, StartDirs(u)[i], now);
  }

  // ---------------------------------------------------------------- AppendUpload

  /** A crash during AppendUpload, after any byte was written and before the manifest that
      counts it is renamed, never heals: the part is longer than the manifest says. */
  lemma AppendCrashHealsIff(cfg: Config, d: Disk, id: Id, chunk: Bytes, stamp: int, now: int, i: nat)
    requires Sound(cfg.sha, d) && ReadSession(d, id).Ok? && ReadSession(d, id).value.status.Uploading?
    requires 0 < |chunk| <= ReadSession(d, id).value.size - ReadSession(d, id).value.received && i < 4
    requires CanQuarantine(
      ThroughSession(d, id, AppendDirs(d.uploads[id], chunk, Grown(ReadSession(d, id).value, chunk, stamp)))[i], now)
    ensures Heals(
      cfg, ThroughSession(d, id, AppendDirs(d.uploads[id], chunk, Grown(ReadSession(d, id).value, chunk, stamp)))[i],
      now)
      <==> i == 3
  {
    assert SessionReady(d.uploads[id], id);
    SessionCrashHealsIff(
      cfg, d, id, AppendDirs(d.uploads[id], chunk, Grown(ReadSession(d, id).value, chunk, stamp))[i], now);
  }

  /** Such an interrupted append blocks the whole store after a restart: no rescan succeeds,
      so every Put and StartUpload by anybody is refused, and Recover does not help. */
  lemma InterruptedAppendBlocksTheStore(
    cfg: Config, d: Disk, id: Id, extra: Bytes, now: int, pause: Pause, newId: Id, body: Body, info: Info)
    requires Sound(cfg.sha, d) && ReadSession(d, id).Ok? && ReadSession(d, id).value.status.Uploading? && extra != []
    ensures
      var c := PatchSession(d, id, Some(d.uploads[id].(data := Some(d.uploads[id].data.value + extra))));
      && !CanRescan(c)
      && Put(cfg, Opened(c), pause, newId, body, info, now).1 == Err(UsageUnavailable)
      && AbortUpload(Opened(c), id) == (Opened(c), Err(CorruptMetadata))
      && (CanQuarantine(c, now) ==> !CanRescan(Recovered(cfg, c, now)))
  {
    var dir := d.uploads[id].(data := Some(d.uploads[id].data.value + extra));
    var c := PatchSession(d, id, Some(dir));
    assert SessionReady(d.uploads[id], id);
    assert ReadSession(c, id) == Err(CorruptMetadata);
    if CanQuarantine(c, now) {
      RecoverIsConservative(cfg, c, now, id);
      assert ReadSession(Recovered(cfg, c, now), id).Err?;
    }
  }

  // ---------------------------------------------------------------- CompleteUpload

  /** No crash during CompleteUpload heals until its very last rename: from the first step
      on the session has lost its data. */
  lemma CompleteCrashHealsIff(cfg: Config, d: Disk, id: Id, fileId: Id, stamp: int, now: int, i: nat)
    requires ValidConfig(cfg) && Sound(cfg.sha, d) && View(d, fileId) == VACANT && i < 7
    requires ReadSession(d, id).Ok? && ReadSession(d, id).value.status.Uploading?
    requires ReadSession(d, id).value.received == ReadSession(d, id).value.size
    requires
      var u, bytes := ReadSession(d, id).value, d.uploads[id].data.value;
      CanQuarantine(
        CompleteTrail(d, id, fileId, CompletedFile(cfg, u, fileId, bytes), CompletedSession(u, fileId, stamp))[i], now)
    ensures
      var u, bytes := ReadSession(d, id).value, d.uploads[id].data.value;
      Heals(
        cfg, CompleteTrail(d, id, fileId, CompletedFile(cfg, u, fileId, bytes), CompletedSession(u, fileId, stamp))[i],
        now)
      <==> i == 6
  {
    var u, bytes := ReadSession(d, id).value, d.uploads[id].data.value;
    var f, done := CompletedFile(cfg, u, fileId, bytes), CompletedSession(u, fileId, stamp);
    var c := CompleteTrail(d, id, fileId, f, done)[i];
    assert SessionReady(d.uploads[id], id);
    if i == 6 {
      CompletedIsSound(cfg, d, id, fileId, stamp);
      SoundHeals(cfg, c, now);
    } else {
      CompleteTakesTheDataFirst(d, id, fileId, f, done, i);
      LostDataNeverHeals(cfg, c, id, now);
    }
  }

  lemma CompleteTakesTheDataFirst(d: Disk, id: Id, fileId: Id, f: File, done: Session, i: nat)
    requires id in d.uploads && d.uploads[id].data.Some? && i < 6
    ensures
      var c := CompleteTrail(d, id, fileId, f, done)[i];
      id in c.uploads && c.uploads[id].data.None? && c.uploads[id].manifest == d.uploads[id].manifest
  {
    var t, dir := CompleteTrail(d, id, fileId, f, done), d.uploads[id].(data := None);
    if i < 3 {
      assert t[i].uploads == PatchSession(d, id, Some(dir)).uploads;
    } else {
      assert t[i].uploads[id].(manifestTmp := dir.manifestTmp) == dir;
    }
  }

  /** An open session without its data is beyond repair: Recover leaves it, and the sweep
      skips what it cannot read. */
  lemma LostDataNeverHeals(cfg: Config, c: Disk, id: Id, now: int)
    requires CanQuarantine(c, now)
    requires id in c.uploads && c.uploads[id].data.None?
    requires c.uploads[id].manifest.Some? && c.uploads[id].manifest.value.status.Uploading?
    ensures !Heals(cfg, c, now)
  {
    RecoverReadyIff(cfg, c, now);
    assert !DirHeals(cfg, c.uploads[id], id, now);
  }

  lemma SoundHeals(cfg: Config, d: Disk, now: int)
    requires Sound(cfg.sha, d) && CanQuarantine(d, now)
    ensures Heals(cfg, d, now)
  {
    PatchSame(d, VACANT_ID);
    assert SlotSound(cfg.sha, View(d, VACANT_ID), VACANT_ID);
    SlotCrashHealsIff(cfg, d, VACANT_ID, View(d, VACANT_ID), now);
  }

  const VACANT_ID := Id("")

  // ---------------------------------------------------------------- Delete and Restore

  /** No crash during Delete heals until its last rename: Recover does not look into trash/. */
  lemma DeleteCrashHealsIff(cfg: Config, d: Disk, id: Id, stamp: int, now: int, i: nat)
    requires Sound(cfg.sha, d) && id in d.manifests && i < 6
    requires CanQuarantine(
      Through(d, id, DeleteSlots(View(d, id), d.manifests[id].(deletedAt := Some(stamp))))[i], now)
    ensures Heals(cfg, Through(d, id, DeleteSlots(View(d, id), d.manifests[id].(deletedAt := Some(stamp))))[i], now)
            <==> i == 5
  {
    assert SlotSound(cfg.sha, View(d, id), id);
    SlotCrashHealsIff(cfg, d, id, DeleteSlots(View(d, id), d.manifests[id].(deletedAt := Some(stamp)))[i], now);
  }

  lemma RestoreCrashHealsIff(cfg: Config, d: Disk, id: Id, now: int, i: nat)
    requires Sound(cfg.sha, d) && ReadTrash(d, id).Ok? && i < 6
    requires CanQuarantine(
      Through(d, id, RestoreSlots(View(d, id), ReadTrash(d, id).value.(deletedAt := None)))[i], now)
    ensures Heals(cfg, Through(d, id, RestoreSlots(View(d, id), ReadTrash(d, id).value.(deletedAt := None)))[i], now)
            <==> i == 5
  {
    assert SlotSound(cfg.sha, View(d, id), id);
    SlotCrashHealsIff(cfg, d, id, RestoreSlots(View(d, id), ReadTrash(d, id).value.(deletedAt := None))[i], now);
  }

  // ---------------------------------------------------------------- removals

  /** Removing an open session's directory is not atomic. A crash halfway heals exactly when
      the manifest went before the data. */
  lemma AbortCrashHealsIff(cfg: Config, d: Disk, id: Id, now: int, manifestFirst: bool)
    requires Sound(cfg.sha, d) && ReadSession(d, id).Ok? && ReadSession(d, id).value.status.Uploading?
    requires CanQuarantine(
      PatchSession(d, id,
                   Some(if manifestFirst then d.uploads[id].(manifest := None) else d.uploads[id].(data := None))), now)
    ensures Heals(
      cfg,
      PatchSession(d, id,
                   Some(if manifestFirst then d.uploads[id].(manifest := None) else d.uploads[id].(data := None))), now)
      <==> manifestFirst
  {
    assert SessionReady(d.uploads[id], id);
    SessionCrashHealsIff(
      cfg, d, id, if manifestFirst then d.uploads[id].(manifest := None) else d.uploads[id].(data := None), now);
  }

  /** A crash halfway through the removal of a trash entry does not heal. */
  lemma PurgeCrashNeverHeals(cfg: Config, d: Disk, id: Id, now: int, left: TrashDir)
    requires Sound(cfg.sha, d) && id in d.trash
    requires left.content.None? || left.manifest.None?
    requires CanQuarantine(Patch(d, id, View(d, id).(trash := Some(left))), now)
    ensures !Heals(cfg, Patch(d, id, View(d, id).(trash := Some(left))), now)
  {
    SlotCrashHealsIff(cfg, d, id, View(d, id).(trash := Some(left)), now);
  }

  /** Recover leaves the file of a readiness probe where it is: a crash during the probe, or a
      removal that fails, keeps the store from ever being ready again. */
  lemma ProbeCrashNeverHeals(cfg: Config, d: Disk, now: int)
    requires Sound(cfg.sha, d) && CanQuarantine(d.(probe := true), now)
    ensures !Heals(cfg, d.(probe := true), now)
    ensures Recovered(cfg, d.(probe := true), now).probe
  {
    RecoverReadyIff(cfg, d.(probe := true), now);
  }

  // ---------------------------------------------------------------- failures without a crash

  /** A Restore that fails after it has rewritten the manifest in trash cannot be repeated:
      the entry no longer says when it was deleted, so every later Restore refuses it, no
      rescan succeeds and no restart repairs it. */
  lemma FailedRestoreIsFinal(cfg: Config, s: Store, id: Id, now: int)
    requires Sound(cfg.sha, s.disk) && ReadTrash(s.disk, id).Ok?
    ensures
      var c := RestoreCleared(s.disk, id);
      && Restore(s.(disk := c), id) == (s.(disk := c), Err(CorruptMetadata))
      && !CanRescan(c)
      && (CanQuarantine(c, now) ==> !Heals(cfg, c, now))
  {
    var c, slot := RestoreCleared(s.disk, id), View(s.disk, id);
    var dir := s.disk.trash[id];
    var cleared := slot.(trash := Some(dir.(manifest := Some(dir.manifest.value.(deletedAt := None)))));
    ViewPatch(s.disk, id, cleared, id);
    assert ReadTrash(c, id) == Err(CorruptMetadata);
    if CanQuarantine(c, now) {
      SlotCrashHealsIff(cfg, s.disk, id, cleared, now);
    }
  }

  /** A Restore that fails at its very last step is worse: the identifier is visible as an
      active file whose object is still in trash, in both places at once. Its record reads well,
      but it can be neither restored nor deleted, no rescan succeeds and no restart repairs it. */
  lemma SplitRestoreIsFinal(cfg: Config, s: Store, id: Id, now: int)
    requires Sound(cfg.sha, s.disk) && ReadTrash(s.disk, id).Ok?
    ensures
      var d := RestoreSplit(s.disk, id);
      var c := s.(disk := d);
      && id in d.manifests && id !in d.objects && id in d.trash
      && ReadFile(d, id) == Ok(ReadTrash(s.disk, id).value.(deletedAt := None))
      && Restore(c, id) == (c, Err(NotFound))
      && Delete(c, id, now) == (c, Err(CorruptMetadata))
      && !CanRescan(d)
      && (CanQuarantine(d, now) ==> !Heals(cfg, d, now))
  {
    var d, slot := RestoreSplit(s.disk, id), View(s.disk, id);
    var dir := s.disk.trash[id];
    var split := slot.(manifest := Some(dir.manifest.value.(deletedAt := None)), content := None,
                       trash := Some(TrashDir(dir.content, None, None)));
    assert SlotSound(cfg.sha, slot, id);
    ViewPatch(s.disk, id, split, id);
    assert ReadTrash(d, id) == Err(NotFound);
    if CanQuarantine(d, now) {
      SlotCrashHealsIff(cfg, s.disk, id, split, now);
    }
  }

  /** A CompleteUpload that fails after it has renamed data.part has destroyed the upload: the
      session cannot be completed, continued or aborted, no rescan succeeds and no restart
      repairs it. */
  lemma FailedCompleteIsFinal(
    cfg: Config, s: Store, id: Id, fileId: Id, pause: Pause, offset: int, chunkSize: int, body: Body, now: int)
    requires Sound(cfg.sha, s.disk) && ReadSession(s.disk, id).Ok? && ReadSession(s.disk, id).value.status.Uploading?
    requires View(s.disk, fileId) == VACANT && offset >= 0 && chunkSize > 0
    ensures
      var c := s.(disk := PartLost(s.disk, id));
      && CompleteUpload(cfg, c, id, fileId, now) == (c, Err(CorruptMetadata))
      && AppendUpload(cfg, c, pause, id, offset, chunkSize, body, "", now) == (c, Err(CorruptMetadata))
      && AbortUpload(c, id) == (c, Err(CorruptMetadata))
      && !CanRescan(c.disk)
      && (CanQuarantine(c.disk, now) ==> !Heals(cfg, c.disk, now))
  {
    var c := PartLost(s.disk, id);
    assert ReadSession(c, id) == Err(CorruptMetadata);
    if CanQuarantine(c, now) {
      LostDataNeverHeals(cfg, c, id, now);
    }
  }
}
