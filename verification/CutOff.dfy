/** Where the end of the process can cut an operation off, and what that costs the owners. */
module CutOff {
  import opened Basics
  import opened Maps
  import opened Accounting
  import opened DiskModel
  import opened Trails
  import opened StoreSpec
  import opened Invariants
  import opened Quota
  import opened Billing
  import opened Soundness
  import R = Recovery
  import C = Crash

  // ---------------------------------------------------------------- the directories that can be left

  /** Put before the last rename: between two steps, or with a part of the body written. */
  ghost predicate PutCut(d: Disk, e: Disk, id: Id, bytes: Bytes, f: File) {
    IsStep(e, d, id, PutSteps(View(d, id), bytes, f))
      || exists torn :: e == Patch(d, id, View(d, id).(part := Some(torn)))
  }

  /** StartUpload before the last rename. */
  ghost predicate StartCut(d: Disk, e: Disk, id: Id, u: Session) {
    IsSessionStep(e, d, id, StartSteps(u))
  }

  ghost predicate AppendCut(d: Disk, e: Disk, id: Id, chunkSize: int, body: Body, now: int) {
    && ReadSession(d, id).Ok? && ReadSession(d, id).value.status.Uploading? && chunkSize > 0
    && var dir, u, written := d.uploads[id], ReadSession(d, id).value, Written(body, chunkSize);
       || IsSessionStep(e, d, id, AppendSteps(dir, written, Grown(u, written, now)))
       || exists n :: 0 <= n <= |written| && e == PatchSession(d, id, Some(Lengthened(dir, written[..n])))
  }

  /** A part that holds more bytes than its manifest counts. */
  function Lengthened(dir: SessionDir, more: Bytes): SessionDir
    requires dir.data.Some?
  {
    dir.(data := Some(dir.data.value + more))
  }

  ghost predicate CompleteCut(cfg: Config, d: Disk, e: Disk, id: Id, fileId: Id, now: int) {
    && Completable(d, id)
    && var u, bytes := ReadSession(d, id).value, d.uploads[id].data.value;
       IsCompleteStep(e, d, id, fileId, CompletedFile(cfg, u, fileId, bytes), CompletedSession(u, fileId, now))
  }

  ghost predicate DeleteCut(d: Disk, e: Disk, id: Id, now: int) {
    Deletable(d, id) && IsStep(e, d, id, DeleteSteps(View(d, id), d.manifests[id].(deletedAt := Some(now))))
  }

  ghost predicate RestoreCut(d: Disk, e: Disk, id: Id) {
    Restorable(d, id) && IsStep(e, d, id, RestoreSteps(View(d, id), ReadTrash(d, id).value.(deletedAt := None)))
  }

  predicate Remains<T(==)>(was: Option<T>, left: Option<T>) {
    left == was || left.None?
  }

  /** A session directory that was being removed. */
  ghost predicate DirCut(d: Disk, e: Disk, id: Id) {
    && id in d.uploads
    && exists left :: e == PatchSession(d, id, Some(left)) && HalfDir(d.uploads[id], left)
  }

  predicate HalfDir(dir: SessionDir, left: SessionDir) {
    Remains(dir.manifest, left.manifest) && Remains(dir.manifestTmp, left.manifestTmp) && Remains(dir.data, left.data)
  }

  /** A trash entry that was being removed. */
  ghost predicate TrashCut(d: Disk, e: Disk, id: Id) {
    && id in d.trash
    && exists left :: e == Patch(d, id, View(d, id).(trash := Some(left))) && HalfTrash(d.trash[id], left)
  }

  predicate HalfTrash(dir: TrashDir, left: TrashDir) {
    Remains(dir.manifest, left.manifest) && Remains(dir.manifestTmp, left.manifestTmp)
      && Remains(dir.content, left.content)
  }

  // ---------------------------------------------------------------- what they cost

  /** Nobody is charged more in e than in d. */
  ghost predicate NoDearer(d: Disk, e: Disk) {
    NonNegativeCharges(e) && forall o :: OwnerBytes(e, o) <= OwnerBytes(d, o)
  }

  /** A slot whose records are those of v, in either place, or without the one in trash. */
  predicate Cheap(v: Slot, s: Slot) {
    var file, trash := FileChargeAt(v.manifest), TrashChargeAt(v.trash);
    || (FileChargeAt(s.manifest) == file && Remains(trash, TrashChargeAt(s.trash)))
    || (FileChargeAt(s.manifest) == trash && TrashChargeAt(s.trash) == file)
  }

  lemma PartNotNegative(x: Option<Charge<Owner>>, o: Owner)
    requires NotNegative(x)
    ensures Part(x, o) >= 0
  {}

  lemma CheapIsNoDearer(d: Disk, id: Id, s: Slot)
    requires NonNegativeCharges(d) && Cheap(View(d, id), s)
    ensures NoDearer(d, Patch(d, id, s))
  {
    var v := View(d, id);
    ChargesAt(d, id);
    NotNegativeAt(FileCharges(d), id);
    NotNegativeAt(TrashCharges(d), id);
    PatchNotNegative(d, id, s);
    forall o ensures OwnerBytes(Patch(d, id, s), o) <= OwnerBytes(d, o) {
      OwnerBytesOfPatch(d, id, s, o);
      PartNotNegative(TrashChargeAt(v.trash), o);
    }
  }

  lemma CheapStep(d: Disk, e: Disk, id: Id, slots: set<Slot>)
    requires NonNegativeCharges(d) && IsStep(e, d, id, slots) && forall s | s in slots :: Cheap(View(d, id), s)
    ensures NoDearer(d, e)
  {
    var s :| s in slots && e == Patch(d, id, s);
    CheapIsNoDearer(d, id, s);
  }

  lemma CheapDir(d: Disk, id: Id, dir: Option<SessionDir>)
    requires NonNegativeCharges(d) && Remains(UploadChargeAt(GetAt(d.uploads, id)), UploadChargeAt(dir))
    ensures NoDearer(d, PatchSession(d, id, dir))
  {
    ChargesAt(d, id);
    NotNegativeAt(UploadCharges(d), id);
    SessionNotNegative(d, id, dir);
    forall o ensures OwnerBytes(PatchSession(d, id, dir), o) <= OwnerBytes(d, o) {
      OwnerBytesOfSession(d, id, dir, o);
      PartNotNegative(UploadChargeAt(GetAt(d.uploads, id)), o);
    }
  }

  lemma PutCutIsNoDearer(d: Disk, e: Disk, id: Id, bytes: Bytes, f: File)
    requires NonNegativeCharges(d) && PutCut(d, e, id, bytes, f)
    ensures NoDearer(d, e)
  {
    PutCutSlot(d, e, id, bytes, f);
    CheapIsNoDearer(d, id, View(e, id));
  }

  lemma PutSlotRecords(v: Slot, bytes: Bytes, f: File, s: Slot)
    requires s in PutSteps(v, bytes, f)
    ensures s.manifest == v.manifest && s.trash == v.trash
  {}

  /** Such a Put has changed nothing but the temporary files and the object of its identifier. */
  lemma PutCutSlot(d: Disk, e: Disk, id: Id, bytes: Bytes, f: File)
    requires PutCut(d, e, id, bytes, f)
    ensures e == Patch(d, id, View(e, id))
    ensures View(e, id).manifest == View(d, id).manifest && View(e, id).trash == View(d, id).trash
  {
    var v := View(d, id);
    if torn :| e == Patch(d, id, v.(part := Some(torn))) {
      ViewPatch(d, id, v.(part := Some(torn)), id);
    } else {
      var s :| s in PutSteps(v, bytes, f) && e == Patch(d, id, s);
      ViewPatch(d, id, s, id);
      PutSlotRecords(v, bytes, f, s);
    }
  }

  lemma DeleteSlotIsCheap(v: Slot, f: File, s: Slot)
    requires v.content.Some? && v.manifest.Some? && v.trash.None? && s in DeleteSteps(v, f)
    requires FileCharge(v.manifest.value) == FileCharge(f)
    ensures Cheap(v, s)
  {}

  lemma DeleteCutIsNoDearer(d: Disk, e: Disk, id: Id, now: int)
    requires NonNegativeCharges(d) && DeleteCut(d, e, id, now)
    ensures NoDearer(d, e)
  {
    var v, f := View(d, id), d.manifests[id].(deletedAt := Some(now));
    forall s | s in DeleteSteps(v, f) ensures Cheap(v, s) {
      DeleteSlotIsCheap(v, f, s);
    }
    CheapStep(d, e, id, DeleteSteps(v, f));
  }

  lemma RestoreSlotIsCheap(v: Slot, f: File, s: Slot)
    requires v.content.None? && v.manifest.None? && v.trash.Some? && v.trash.value.manifest.Some?
    requires s in RestoreSteps(v, f)
    requires FileCharge(v.trash.value.manifest.value) == FileCharge(f)
    ensures Cheap(v, s)
  {}

  lemma RestoreCutIsNoDearer(d: Disk, e: Disk, id: Id)
    requires NonNegativeCharges(d) && RestoreCut(d, e, id)
    ensures NoDearer(d, e)
  {
    var v, f := View(d, id), ReadTrash(d, id).value.(deletedAt := None);
    forall s | s in RestoreSteps(v, f) ensures Cheap(v, s) {
      RestoreSlotIsCheap(v, f, s);
    }
    CheapStep(d, e, id, RestoreSteps(v, f));
  }

  lemma StartCutIsNoDearer(d: Disk, e: Disk, id: Id, u: Session)
    requires NonNegativeCharges(d) && StartCut(d, e, id, u)
    ensures NoDearer(d, e)
  {
    var dir :| dir in StartSteps(u) && e == PatchSession(d, id, dir);
    GetSet(d.uploads, id, dir, id);
    CheapDir(d, id, dir);
  }

  lemma AppendDirCosts(dir: SessionDir, written: Bytes, u: Session, left: Option<SessionDir>)
    requires dir.manifest.Some? && dir.data.Some? && left in AppendSteps(dir, written, u)
    requires u.info == dir.manifest.value.info && u.size == dir.manifest.value.size
    requires u.status == dir.manifest.value.status
    ensures UploadChargeAt(left) == UploadCharge(dir)
  {}

  lemma AppendCutDir(d: Disk, e: Disk, id: Id, chunkSize: int, body: Body, now: int) returns (left: Option<SessionDir>)
    requires AppendCut(d, e, id, chunkSize, body, now)
    ensures e == PatchSession(d, id, left) && UploadChargeAt(left) == UploadCharge(d.uploads[id])
  {
    var dir, u, written := d.uploads[id], ReadSession(d, id).value, Written(body, chunkSize);
    if n :| 0 <= n <= |written| && e == PatchSession(d, id, Some(Lengthened(dir, written[..n]))) {
      left := Some(Lengthened(dir, written[..n]));
    } else {
      left :| left in AppendSteps(dir, written, Grown(u, written, now)) && e == PatchSession(d, id, left);
      AppendDirCosts(dir, written, Grown(u, written, now), left);
    }
  }

  lemma AppendCutIsNoDearer(d: Disk, e: Disk, id: Id, chunkSize: int, body: Body, now: int)
    requires NonNegativeCharges(d) && AppendCut(d, e, id, chunkSize, body, now)
    ensures NoDearer(d, e)
  {
    var left := AppendCutDir(d, e, id, chunkSize, body, now);
    CheapDir(d, id, left);
  }

  lemma DirCutIsNoDearer(d: Disk, e: Disk, id: Id)
    requires NonNegativeCharges(d) && DirCut(d, e, id)
    ensures NoDearer(d, e)
  {
    var left :| e == PatchSession(d, id, Some(left)) && HalfDir(d.uploads[id], left);
    CheapDir(d, id, Some(left));
  }

  lemma TrashCutIsNoDearer(d: Disk, e: Disk, id: Id)
    requires NonNegativeCharges(d) && TrashCut(d, e, id)
    ensures NoDearer(d, e)
  {
    var left :| e == Patch(d, id, View(d, id).(trash := Some(left))) && HalfTrash(d.trash[id], left);
    CheapIsNoDearer(d, id, View(d, id).(trash := Some(left)));
  }

  // ---------------------------------------------------------------- CompleteUpload

  /** The file is visible and the session still holds its reservation. */
  predicate Doubled(e: Disk, id: Id, fileId: Id) {
    fileId in e.manifests && UploadChargeAt(GetAt(e.uploads, id)).Some?
  }

  /** Where CompleteUpload can be cut off while its session is still open; s is what exists of
      the file. */
  ghost predicate StillOpen(d: Disk, e: Disk, id: Id, fileId: Id, left: SessionDir, s: Slot) {
    && e == PatchSession(Patch(d, fileId, s), id, Some(left)) && s.trash.None?
    && UploadChargeAt(Some(left)) == UploadChargeAt(GetAt(d.uploads, id))
  }

  /** The file is not yet visible. */
  ghost predicate Hidden(d: Disk, e: Disk, id: Id, fileId: Id) {
    !Doubled(e, id, fileId) && exists left, s :: StillOpen(d, e, id, fileId, left, s) && s.manifest.None?
  }

  /** It is. */
  ghost predicate Twice(d: Disk, e: Disk, id: Id, fileId: Id, f: File) {
    Doubled(e, id, fileId) && exists left, s :: StillOpen(d, e, id, fileId, left, s) && s.manifest == Some(f)
  }

  lemma DoubledIff(d: Disk, e: Disk, id: Id, fileId: Id, left: Option<SessionDir>, s: Slot)
    requires e == PatchSession(Patch(d, fileId, s), id, left)
    ensures Doubled(e, id, fileId) <==> s.manifest.Some? && UploadChargeAt(left).Some?
  {
    GetSet(d.uploads, id, left, id);
    GetSet(d.manifests, fileId, s.manifest, fileId);
  }

  lemma FilePartCases(d: Disk, e: Disk, id: Id, fileId: Id, left: SessionDir, stored: Slot, f: File)
    requires GetAt(d.uploads, id).Some? && UploadCharge(left) == UploadChargeAt(GetAt(d.uploads, id))
    requires UploadCharge(left).Some?
    requires stored.trash.None? && stored.manifest.None?
    requires IsStep(e, PatchSession(d, id, Some(left)), fileId, FilePartSteps(stored, f))
    ensures Hidden(d, e, id, fileId) || Twice(d, e, id, fileId, f)
  {
    var s :| s in FilePartSteps(stored, f) && e == Patch(PatchSession(d, id, Some(left)), fileId, s);
    FilePartSlot(stored, f, s);
    DoubledIff(d, e, id, fileId, Some(left), s);
    assert StillOpen(d, e, id, fileId, left, s);
  }

  lemma FilePartSlot(stored: Slot, f: File, s: Slot)
    requires stored.trash.None? && stored.manifest.None? && s in FilePartSteps(stored, f)
    ensures s.trash.None? && (s.manifest.None? || s.manifest == Some(f))
  {}

  lemma SessionPartCases(d: Disk, e: Disk, id: Id, fileId: Id, left: SessionDir, s: Slot, f: File, done: Session)
    requires GetAt(d.uploads, id).Some? && UploadCharge(left) == UploadChargeAt(GetAt(d.uploads, id))
    requires UploadCharge(left).Some?
    requires s.trash.None? && s.manifest == Some(f) && done.status.Completed?
    requires IsSessionStep(e, Patch(d, fileId, s), id, UploadManifestSteps(left, done))
    ensures Twice(d, e, id, fileId, f)
            || (!Doubled(e, id, fileId)
                && e == PatchSession(Patch(d, fileId, s), id, Some(left.(manifest := Some(done)))))
  {
    var dir :| dir in UploadManifestSteps(left, done) && e == PatchSession(Patch(d, fileId, s), id, dir);
    DoubledIff(d, e, id, fileId, dir, s);
    if UploadChargeAt(dir).Some? {
      assert StillOpen(d, e, id, fileId, dir.value, s);
    }
  }

  /** The directories in which CompleteUpload can be cut off: before the file is visible, while
      both the file and the reservation count, and after its last rename. */
  lemma CompleteCutCases(cfg: Config, d: Disk, e: Disk, id: Id, fileId: Id, now: int)
    requires CompleteCut(cfg, d, e, id, fileId, now)
    ensures
      var u, dir := ReadSession(d, id).value, d.uploads[id];
      var f, done := CompletedFile(cfg, u, fileId, dir.data.value), CompletedSession(u, fileId, now);
      || Hidden(d, e, id, fileId) || Twice(d, e, id, fileId, f)
      || (!Doubled(e, id, fileId) && e == CompletedDisk(d, id, fileId, f, done))
  {
    var u, dir := ReadSession(d, id).value, d.uploads[id];
    var f, done := CompletedFile(cfg, u, fileId, dir.data.value), CompletedSession(u, fileId, now);
    var emptied, stored := dir.(data := None), VACANT.(content := dir.data);
    if IsStep(e, PatchSession(d, id, Some(emptied)), fileId, FilePartSteps(stored, f)) {
      FilePartCases(d, e, id, fileId, emptied, stored, f);
    } else {
      SessionPartCases(d, e, id, fileId, emptied, stored.(manifest := Some(f)), f, done);
    }
  }

  lemma StillOpenCosts(d: Disk, e: Disk, id: Id, fileId: Id, left: SessionDir, s: Slot, o: Owner)
    requires StillOpen(d, e, id, fileId, left, s) && View(d, fileId) == VACANT
    ensures OwnerBytes(e, o) == OwnerBytes(d, o) + Part(FileChargeAt(s.manifest), o)
  {
    OwnerBytesOfPatch(d, fileId, s, o);
    OwnerBytesOfSession(Patch(d, fileId, s), id, Some(left), o);
  }

  lemma StillOpenNotNegative(d: Disk, e: Disk, id: Id, fileId: Id, left: SessionDir, s: Slot)
    requires StillOpen(d, e, id, fileId, left, s) && NonNegativeCharges(d) && NotNegative(FileChargeAt(s.manifest))
    ensures NonNegativeCharges(e)
  {
    PatchNotNegative(d, fileId, s);
    ChargesAt(d, id);
    NotNegativeAt(UploadCharges(d), id);
    SessionNotNegative(Patch(d, fileId, s), id, Some(left));
  }

  /** Unless the file and the reservation both count, a CompleteUpload that is cut off costs
      nobody anything. */
  lemma CompleteCutIsNoDearer(cfg: Config, d: Disk, e: Disk, id: Id, fileId: Id, now: int)
    requires NonNegativeCharges(d) && CompleteCut(cfg, d, e, id, fileId, now) && View(d, fileId) == VACANT
    requires !Doubled(e, id, fileId)
    ensures NoDearer(d, e)
  {
    var u, dir := ReadSession(d, id).value, d.uploads[id];
    var f, done := CompletedFile(cfg, u, fileId, dir.data.value), CompletedSession(u, fileId, now);
    CompleteCutCases(cfg, d, e, id, fileId, now);
    if e == CompletedDisk(d, id, fileId, f, done) {
      CompletedIsNoDearer(d, id, fileId, f, done, Charge(u.info.owner, u.size));
    } else {
      var left, s :| StillOpen(d, e, id, fileId, left, s) && s.manifest.None?;
      StillOpenNotNegative(d, e, id, fileId, left, s);
      forall o ensures OwnerBytes(e, o) <= OwnerBytes(d, o) {
        StillOpenCosts(d, e, id, fileId, left, s, o);
      }
    }
  }

  lemma CompletedIsNoDearer(d: Disk, id: Id, fileId: Id, f: File, done: Session, x: Charge<Owner>)
    requires NonNegativeCharges(d) && View(d, fileId) == VACANT && id in d.uploads && d.uploads[id].data.Some?
    requires UploadCharge(d.uploads[id]) == Some(x) == FileCharge(f) && x.size >= 0 && done.status.Completed?
    ensures NoDearer(d, CompletedDisk(d, id, fileId, f, done))
  {
    PatchNotNegative(d, fileId, StoredSlot(d.uploads[id].data.value, f));
    SessionNotNegative(Patch(d, fileId, StoredSlot(d.uploads[id].data.value, f)), id,
                       Some(d.uploads[id].(data := None, manifest := Some(done))));
    forall o ensures OwnerBytes(CompletedDisk(d, id, fileId, f, done), o) <= OwnerBytes(d, o) {
      CompletionConserves(d, id, fileId, f, done, o);
    }
  }

  /** In that window the owner is charged twice: for the file and for the reservation. So a
      crash there takes the owner above the limit exactly when the file does not fit next to
      what the owner has. */
  lemma DoubledCosts(cfg: Config, d: Disk, e: Disk, id: Id, fileId: Id, now: int, o: Owner)
    requires CompleteCut(cfg, d, e, id, fileId, now) && View(d, fileId) == VACANT && Doubled(e, id, fileId)
    ensures
      var u := ReadSession(d, id).value;
      OwnerBytes(e, o) == OwnerBytes(d, o) + if o == u.info.owner then u.size else 0
  {
    var u, dir := ReadSession(d, id).value, d.uploads[id];
    var f := CompletedFile(cfg, u, fileId, dir.data.value);
    CompleteCutCases(cfg, d, e, id, fileId, now);
    var left, s :| StillOpen(d, e, id, fileId, left, s) && s.manifest == Some(f);
    StillOpenCosts(d, e, id, fileId, left, s, o);
  }

  /** And such a store cannot be rescanned, before or after Recover, so nothing is admitted on
      the wrong sum. */
  lemma DoubledBlocksTheStore(cfg: Config, d: Disk, e: Disk, id: Id, fileId: Id, now: int, later: int)
    requires CompleteCut(cfg, d, e, id, fileId, now) && View(d, fileId) == VACANT && Doubled(e, id, fileId)
    ensures !CanRescan(e) && (R.CanQuarantine(e, later) ==> !CanRescan(R.Recovered(cfg, e, later)))
  {
    CompleteCutHasNoData(cfg, d, e, id, fileId, now);
    assert ReadSession(e, id).Err?;
    if R.CanQuarantine(e, later) {
      R.RecoverIsConservative(cfg, e, later, id);
      assert ReadSession(R.Recovered(cfg, e, later), id).Err?;
    }
  }

  lemma CompleteCutHasNoData(cfg: Config, d: Disk, e: Disk, id: Id, fileId: Id, now: int)
    requires CompleteCut(cfg, d, e, id, fileId, now)
    ensures id in e.uploads && e.uploads[id].data.None?
  {
    var u, dir := ReadSession(d, id).value, d.uploads[id];
    var f, done := CompletedFile(cfg, u, fileId, dir.data.value), CompletedSession(u, fileId, now);
    var emptied, stored := dir.(data := None), VACANT.(content := dir.data);
    if IsStep(e, PatchSession(d, id, Some(emptied)), fileId, FilePartSteps(stored, f)) {
      FileStepsLeaveSession(d, e, id, fileId, emptied, FilePartSteps(stored, f));
    } else {
      SessionStepsHaveNoData(e, Patch(d, fileId, stored.(manifest := Some(f))), id, emptied, done);
    }
  }

  lemma FileStepsLeaveSession(d: Disk, e: Disk, id: Id, fileId: Id, left: SessionDir, slots: set<Slot>)
    requires IsStep(e, PatchSession(d, id, Some(left)), fileId, slots)
    ensures GetAt(e.uploads, id) == Some(left)
  {
    var s :| s in slots && e == Patch(PatchSession(d, id, Some(left)), fileId, s);
  }

  lemma SessionStepsHaveNoData(e: Disk, d: Disk, id: Id, left: SessionDir, done: Session)
    requires left.data.None? && IsSessionStep(e, d, id, UploadManifestSteps(left, done))
    ensures id in e.uploads && e.uploads[id].data.None?
  {
    var dir :| dir in UploadManifestSteps(left, done) && e == PatchSession(d, id, dir);
    GetSet(d.uploads, id, dir, id);
  }

  // ---------------------------------------------------------------- litter

  /** A Put that is cut off before its last rename heals exactly when it has left nothing but
      temporary files, that is, when its object has not been renamed. */
  lemma PutCutHealsIff(cfg: Config, d: Disk, e: Disk, id: Id, bytes: Bytes, f: File, now: int)
    requires Sound(cfg.sha, d) && View(d, id) == VACANT && PutCut(d, e, id, bytes, f) && R.CanQuarantine(e, now)
    ensures R.Littered(d, e) <==> e.objects == d.objects
    ensures C.Heals(cfg, e, now) <==> R.Littered(d, e)
  {
    var s := View(e, id);
    PutCutSlot(d, e, id, bytes, f);
    C.SlotCrashHealsIff(cfg, d, id, s, now);
    OpenSessionsAreTidy(cfg.sha, d);
    if e.objects == d.objects {
      assert s.content.None?;
    }
    if s.content.None? {
      SetSame(d.objects, id);
      SetSame(d.trash, id);
    }
  }

  lemma OpenSessionsAreTidy(sha: Bytes -> string, d: Disk)
    requires Sound(sha, d)
    ensures forall id | id in d.uploads :: d.uploads[id].(manifestTmp := None) == d.uploads[id]
  {
    forall id | id in d.uploads ensures d.uploads[id].(manifestTmp := None) == d.uploads[id] {
      assert SessionReady(d.uploads[id], id);
    }
  }

  /** A StartUpload that is cut off leaves nothing else. */
  lemma StartCutIsLitter(cfg: Config, d: Disk, e: Disk, id: Id, u: Session)
    requires Sound(cfg.sha, d) && id !in d.uploads && StartCut(d, e, id, u)
    ensures R.Littered(d, e)
  {
    OpenSessionsAreTidy(cfg.sha, d);
    var dir :| dir in StartSteps(u) && e == PatchSession(d, id, dir);
    forall x ensures GetAt(e.uploads, x) == if x == id then dir else GetAt(d.uploads, x) {
      GetSet(d.uploads, id, dir, x);
    }
    LitterOfOne(d, e, id, dir);
  }

  lemma LitterOfOne(d: Disk, e: Disk, id: Id, dir: Option<SessionDir>)
    requires e == PatchSession(d, id, dir) && id !in d.uploads && !d.probe && (dir.Some? ==> dir.value.manifest.None?)
    requires forall x | x in d.uploads :: d.uploads[x].(manifestTmp := None) == d.uploads[x]
    ensures R.Littered(d, e)
  {}

  /** An open session whose removal is cut off after its manifest has gone is litter next to the
      directory without it. */
  lemma DirCutIsLitter(cfg: Config, d: Disk, id: Id, left: SessionDir)
    requires Sound(cfg.sha, d) && id in d.uploads && left.manifest.None?
    ensures R.Littered(PatchSession(d, id, None), PatchSession(d, id, Some(left)))
  {
    OpenSessionsAreTidy(cfg.sha, d);
    PatchSessionTwice(d, id, None, Some(left));
    var c := PatchSession(d, id, None);
    LitterOfOne(c, PatchSession(c, id, Some(left)), id, Some(left));
  }

  /** Of the sessions that still have a manifest and of the trash entries, e has only whole ones
      of d. */
  ghost predicate WholeEntries(d: Disk, e: Disk) {
    && (forall id | id in e.uploads && e.uploads[id].manifest.Some? ::
          id in d.uploads && e.uploads[id] == d.uploads[id])
    && (forall id | id in e.trash :: id in d.trash && e.trash[id] == d.trash[id])
  }

  lemma HalfSessionHealsIff(cfg: Config, dir: SessionDir, left: SessionDir, id: Id, now: int)
    requires SessionReady(dir, id) && HalfDir(dir, left)
    ensures R.DirHeals(cfg, left, id, now) <==> left.manifest.None? || left == dir
  {}

  /** The removal of a session directory that is cut off heals exactly when nothing or the manifest
      has gone; then there is nothing but litter next to the directory with or without the
      session. */
  lemma DirCutHealsIff(cfg: Config, d: Disk, e: Disk, id: Id, now: int)
    requires Sound(cfg.sha, d) && DirCut(d, e, id) && R.CanQuarantine(e, now)
    ensures C.Heals(cfg, e, now) <==> WholeEntries(d, e)
    ensures WholeEntries(d, e) ==> R.Littered(d, e) || R.Littered(PatchSession(d, id, None), e)
  {
    var dir := d.uploads[id];
    var left :| e == PatchSession(d, id, Some(left)) && HalfDir(dir, left);
    assert SessionReady(dir, id);
    HalfSessionHealsIff(cfg, dir, left, id, now);
    C.SessionCrashHealsIff(cfg, d, id, left, now);
    assert WholeEntries(d, e) <==> left.manifest.None? || left == dir by {
      assert id in e.uploads && e.uploads[id] == left;
    }
    if left.manifest.None? {
      DirCutIsLitter(cfg, d, id, left);
    } else if left == dir {
      OpenSessionsAreTidy(cfg.sha, d);
      PatchSessionSame(d, id);
    }
  }

  /** The removal of a trash entry that is cut off heals only when nothing has gone. */
  lemma TrashCutHealsIff(cfg: Config, d: Disk, e: Disk, id: Id, now: int)
    requires Sound(cfg.sha, d) && TrashCut(d, e, id) && R.CanQuarantine(e, now)
    ensures C.Heals(cfg, e, now) <==> WholeEntries(d, e)
    ensures WholeEntries(d, e) ==> e == d
  {
    var v, dir := View(d, id), d.trash[id];
    var left :| e == Patch(d, id, v.(trash := Some(left))) && HalfTrash(dir, left);
    assert SlotSound(cfg.sha, v, id);
    assert id in e.trash && e.trash[id] == left;
    if left == dir {
      PatchSame(d, id);
      C.SlotCrashHealsIff(cfg, d, id, v, now);
    } else {
      C.PurgeCrashNeverHeals(cfg, d, id, now, left);
    }
  }

  // ---------------------------------------------------------------- a new process on the litter

  lemma CleanedOfLitter(d: Disk, e: Disk, now: int)
    requires Ready(d) && R.Littered(d, e) && R.CanQuarantine(e, now)
    ensures R.Cleaned(e, now) == d.(quarantine := R.Quarantined(e, now))
  {
    R.ReadyIsTidy(d);
    R.KeptIsClean(d.uploads, e.uploads);
  }

  lemma SoundQuarantine(sha: Bytes -> string, d: Disk, q: R.Quarantine)
    requires Sound(sha, d)
    ensures Sound(sha, d.(quarantine := q))
  {
    forall id ensures SlotSound(sha, View(d.(quarantine := q), id), id) {
      assert SlotSound(sha, View(d, id), id);
    }
  }

  /** A process that ends with nothing but litter next to a sound directory is replaced by one
      that Recover brings into a good state, with an index that agrees with a rescan. */
  lemma RebootKeepsInv(cfg: Config, d: Disk, e: Disk, listing: seq<Id>, now: int)
    requires Sound(cfg.sha, d) && R.Littered(d, e) && R.CanQuarantine(e, now)
    ensures Inv(cfg, R.Recover(cfg, Opened(e), listing, now).0)
  {
    var q := R.Quarantined(e, now);
    SoundIsReady(cfg.sha, d);
    CleanedOfLitter(d, e, now);
    SoundQuarantine(cfg.sha, d, q);
    var cleaned := Opened(d.(quarantine := q));
    SweepKeepsSound(cfg, cleaned, listing, now);
    SweepKeepsFlags(cfg, cleaned, listing, now);
    SweepKeepsNoIndex(cfg, cleaned, listing, now);
    RebuildAgrees(SweepAll(cfg, cleaned, listing, now));
  }

  /** A crash in that window takes its owner above the limit exactly when the file does not fit
      next to everything that the owner has. */
  lemma DoubledIsWithinIff(cfg: Config, d: Disk, e: Disk, id: Id, fileId: Id, now: int)
    requires WithinQuota(cfg, d) && CompleteCut(cfg, d, e, id, fileId, now) && View(d, fileId) == VACANT
    requires Doubled(e, id, fileId)
    ensures
      var u := ReadSession(d, id).value;
      WithinQuota(cfg, e) <==> OwnerBytes(d, u.info.owner) + u.size <= cfg.quota
  {
    var u := ReadSession(d, id).value;
    DoubledCosts(cfg, d, e, id, fileId, now, u.info.owner);
    if OwnerBytes(d, u.info.owner) + u.size <= cfg.quota {
      forall o ensures OwnerBytes(e, o) <= cfg.quota {
        DoubledCosts(cfg, d, e, id, fileId, now, o);
        assert OwnerBytes(d, o) <= cfg.quota;
      }
    } else {
      assert OwnerBytes(e, u.info.owner) > cfg.quota;
    }
  }
}
