/** When each operation of the store succeeds, and what can be seen in the store afterwards. */
module Outcomes {
  import opened Basics
  import opened Text
  import opened Maps
  import opened Accounting
  import opened DiskModel
  import opened Trails
  import opened StoreSpec
  import opened Invariants
  import opened Quota
  import opened Soundness
  import R = Recovery

  /** A good state of a process that has not failed to load its index. */
  ghost predicate Serving(cfg: Config, s: Store) {
    ValidConfig(cfg) && Inv(cfg, s) && AllFit(s.disk) && (s.loaded ==> !s.loadFailed)
  }

  /** No more than the limit when the bytes come to what the owner has, if there is a limit. */
  ghost predicate HasRoom(cfg: Config, d: Disk, owner: Owner, bytes: int) {
    cfg.quota == 0 || OwnerBytes(d, owner) + bytes <= cfg.quota
  }

  /** The sums of the owner do not confuse the 64-bit arithmetic. */
  ghost predicate Countable(cfg: Config, d: Disk, owner: Owner) {
    cfg.quota == 0 || Unconfused(cfg.quota, OwnerBytes(d, owner))
  }

  /** A new directory is served, and nobody has anything in it. */
  lemma EmptyStoreServes(cfg: Config, now: int)
    requires ValidConfig(cfg)
    ensures Serving(cfg, Opened(EMPTY)) && R.Swept(cfg, EMPTY, now) == EMPTY
    ensures forall o :: OwnerBytes(EMPTY, o) == 0
  {
    assert FileCharges(EMPTY) == map[] && TrashCharges(EMPTY) == map[] && UploadCharges(EMPTY) == map[];
    forall id ensures SlotSound(cfg.sha, View(EMPTY, id), id) {
      assert View(EMPTY, id) == VACANT;
    }
  }

  /** Nobody confuses it within the limit. */
  lemma WithinLimitIsCountable(cfg: Config, d: Disk, owner: Owner)
    requires ValidConfig(cfg) && (cfg.quota == 0 || OwnerBytes(d, owner) <= cfg.quota)
    ensures Countable(cfg, d, owner)
  {}

  /** A serving store has its index when it needs it. */
  lemma ServingLoads(cfg: Config, s: Store, pause: Pause)
    requires Serving(cfg, s)
    ensures
      var (gated, stop) := PauseGate(s, pause);
      && gated.disk == s.disk && Load(gated).disk == s.disk
      && Inv(cfg, Load(gated)) && Load(gated).usageValid && !Load(gated).loadFailed
      && stop == if pause == On(true) then Some(StoragePaused) else None
  {
    LoadKeepsInv(cfg, s);
    GateKeepsInv(cfg, s, pause);
    LoadKeepsInv(cfg, PauseGate(s, pause).0);
  }

  lemma RoomIsGranted(cfg: Config, s: Store, owner: Owner, bytes: nat)
    requires ValidConfig(cfg) && Inv(cfg, s) && s.usageValid && AllFit(s.disk) && Countable(cfg, s.disk, owner)
    ensures QuotaGate(cfg, s, owner, bytes) == if HasRoom(cfg, s.disk, owner, bytes) then None else Some(QuotaExceeded)
  {
    if cfg.quota > 0 {
      QuotaGateIff(cfg, s, owner, bytes);
    }
  }

  // ---------------------------------------------------------------- Put

  /** Put stores what it can read to its end, under an identifier that nothing carries yet, while
      writes are not paused and the owner has room; and it says which of these is missing. */
  lemma PutSucceedsIff(cfg: Config, s: Store, pause: Pause, id: Id, body: Body, info: Info, now: int)
    requires Serving(cfg, s) && Countable(cfg, s.disk, info.owner)
    ensures
      var r := Put(cfg, s, pause, id, body, info, now).1;
      var unused := id !in s.disk.manifests && id !in s.disk.trash;
      var room := HasRoom(cfg, s.disk, info.owner, |body.bytes|);
      && (r.Ok? <==> pause != On(true) && unused && !body.fails && room)
      && (r == Err(StoragePaused) <==> pause == On(true))
      && (r == Err(FileExists) <==> pause != On(true) && !unused)
      && (r == Err(QuotaExceeded) <==> pause != On(true) && unused && !body.fails && !room)
  {
    ServingLoads(cfg, s, pause);
    assert SlotSound(cfg.sha, View(s.disk, id), id);
    RoomIsGranted(cfg, Load(PauseGate(s, pause).0), info.owner, |body.bytes|);
  }

  /** What was stored is there: the bytes as they came, under a record that describes them. */
  lemma PutThenRead(cfg: Config, s: Store, pause: Pause, id: Id, body: Body, info: Info, now: int)
    requires ValidConfig(cfg) && Put(cfg, s, pause, id, body, info, now).1.Ok?
    ensures
      var (t, r) := Put(cfg, s, pause, id, body, info, now);
      var f := r.value;
      && ReadFile(t.disk, id) == Ok(f) && GetAt(t.disk.objects, id) == Some(body.bytes)
      && f.id == id && f.info == info && f.createdAt == now && f.deletedAt.None?
      && f.size == |body.bytes| && f.checksum == cfg.sha(body.bytes)
      && forall x | x != id :: View(t.disk, x) == View(s.disk, x)
  {
    PutCases(cfg, s, pause, id, body, info, now);
    var f := NewFile(cfg, id, body.bytes, info, now);
    forall x ensures View(Put(cfg, s, pause, id, body, info, now).0.disk, x)
                     == if x == id then StoredSlot(body.bytes, f) else View(s.disk, x)
    {
      ViewPatch(s.disk, id, StoredSlot(body.bytes, f), x);
    }
    assert View(Put(cfg, s, pause, id, body, info, now).0.disk, id).content == Some(body.bytes);
  }

  // ---------------------------------------------------------------- starting an upload

  /** What StartUpload asks of a request before it looks at the store. */
  predicate WellFormed(size: int, checksum: string) {
    size > 0 && (checksum == "" || IsSha256(checksum))
  }

  /** StartUpload on a swept store: its verdict is that of the quota on what is on disk. */
  lemma AdmitsIff(cfg: Config, s: Store, id: Id, size: int, checksum: string, info: Info, now: int)
    requires ValidConfig(cfg) && Inv(cfg, s) && s.usageValid && AllFit(s.disk) && id !in s.disk.uploads && size > 0
    requires Countable(cfg, s.disk, info.owner)
    ensures
      var r := Admit(cfg, s, id, size, checksum, info, now).1;
      if HasRoom(cfg, s.disk, info.owner, size) then r.Ok? else r == Err(QuotaExceeded)
  {
    RoomIsGranted(cfg, s, info.owner, size);
  }

  /** StartUpload is never refused because of abandoned sessions: in a good state it accepts
      exactly what fits next to the owner's live usage, also for an owner who is above the limit
      before the sweep, and says that the quota is exceeded exactly when it does not fit. */
  lemma StartUploadFitsIff(
    cfg: Config, s: Store, pause: Pause, listing: seq<Id>, id: Id, size: int, checksum: string, info: Info, now: int)
    requires Serving(cfg, s) && Countable(cfg, R.Swept(cfg, s.disk, now), info.owner)
    requires Lists(listing, s.disk.uploads.Keys) && id !in s.disk.uploads
    ensures
      var r := StartUpload(cfg, s, pause, listing, id, size, checksum, info, now).1;
      var asked := WellFormed(size, checksum) && pause != On(true);
      var room := HasRoom(cfg, R.Swept(cfg, s.disk, now), info.owner, size);
      && (r.Ok? <==> asked && room)
      && (r == Err(QuotaExceeded) <==> asked && !room)
  {
    ServingLoads(cfg, s, pause);
    var gated := PauseGate(s, pause).0;
    GateKeepsInv(cfg, s, pause);
    var swept := SweepAll(cfg, gated, listing, now);
    SweepKeepsInv(cfg, gated, listing, now);
    R.FullSweep(cfg, gated, listing, now);
    SweepKeepsFlags(cfg, gated, listing, now);
    LoadKeepsInv(cfg, swept);
    if WellFormed(size, checksum) && pause != On(true) {
      AdmitsIff(cfg, Load(swept), id, size, Lower(TrimSpace(checksum)), info, now);
    }
  }

  /** A session that was started is there, open and empty, as it was asked for. */
  lemma StartThenRead(
    cfg: Config, s: Store, pause: Pause, listing: seq<Id>, id: Id, size: int, checksum: string, info: Info, now: int)
    requires StartUpload(cfg, s, pause, listing, id, size, checksum, info, now).1.Ok?
    ensures
      var (t, r) := StartUpload(cfg, s, pause, listing, id, size, checksum, info, now);
      var u := r.value;
      && ReadSession(t.disk, id) == Ok(u) && t.disk.uploads[id].data == Some([])
      && u.id == id && u.info == info && u.size == size && u.received == 0 && u.status == Uploading && u.fileId.None?
      && u.checksum == Lower(TrimSpace(checksum)) && u.createdAt == u.updatedAt == now
  {}

  // ---------------------------------------------------------------- appending

  /** AppendUpload takes a chunk exactly when it begins where the open session stands, does not
      pass its end, arrives whole with the announced length and, if one was announced, checksum,
      while writes are not paused. */
  lemma AppendSucceedsIff(
    cfg: Config, s: Store, pause: Pause, id: Id, offset: int, chunkSize: int, body: Body, checksum: string, now: int)
    requires Serving(cfg, s)
    ensures
      var r := AppendUpload(cfg, s, pause, id, offset, chunkSize, body, checksum, now).1;
      r.Ok? <==>
        && 0 < chunkSize == |body.bytes| && !body.fails && pause != On(true)
        && (checksum == "" || (IsSha256(checksum) && EqualFold(TrimSpace(checksum), cfg.sha(body.bytes))))
        && id in s.disk.uploads && s.disk.uploads[id].manifest.value.status == Uploading
        && s.disk.uploads[id].manifest.value.received == offset
        && offset + chunkSize <= s.disk.uploads[id].manifest.value.size
  {
    ServingLoads(cfg, s, pause);
    if id in s.disk.uploads {
      assert SessionReady(s.disk.uploads[id], id);
    }
  }

  // ---------------------------------------------------------------- completing

  /** CompleteUpload publishes an open session exactly when all of it has arrived and the declared
      checksum, if there is one, is that of the bytes. */
  lemma CompleteSucceedsIff(cfg: Config, s: Store, id: Id, fileId: Id, now: int)
    requires Sound(cfg.sha, s.disk) && id in s.disk.uploads && View(s.disk, fileId) == VACANT
    requires s.disk.uploads[id].manifest.value.status == Uploading
    ensures s.disk.uploads[id].data.Some?
    ensures
      var r, u := CompleteUpload(cfg, s, id, fileId, now).1, s.disk.uploads[id].manifest.value;
      var good := u.checksum == "" || EqualFold(u.checksum, cfg.sha(s.disk.uploads[id].data.value));
      && (r.Ok? <==> u.received == u.size && good)
      && (r == Err(UploadIncomplete) <==> u.received != u.size)
      && (r == Err(ChecksumMismatch) <==> u.received == u.size && !good)
  {
    assert SessionReady(s.disk.uploads[id], id);
  }

  /** Completing a session again gives the same file again, for as long as it is there, and
      changes nothing. */
  lemma CompleteTwice(cfg: Config, s: Store, id: Id, fileId: Id, now: int, other: Id, later: int)
    requires ValidConfig(cfg) && Sound(cfg.sha, s.disk) && id in s.disk.uploads && View(s.disk, fileId) == VACANT
    requires s.disk.uploads[id].manifest.value.status == Uploading && CompleteUpload(cfg, s, id, fileId, now).1.Ok?
    requires View(CompleteUpload(cfg, s, id, fileId, now).0.disk, other) == VACANT
    ensures CompleteUpload(cfg, CompleteUpload(cfg, s, id, fileId, now).0, id, other, later)
            == CompleteUpload(cfg, s, id, fileId, now)
  {
    assert SessionReady(s.disk.uploads[id], id);
  }

  // ---------------------------------------------------------------- aborting

  /** AbortUpload forgets an open session; a completed one is kept, and one that is not there is
      as good as forgotten. */
  lemma AbortForgetsIff(cfg: Config, s: Store, id: Id)
    requires Sound(cfg.sha, s.disk)
    ensures
      var (t, r) := AbortUpload(s, id);
      && (r.Ok? <==> id in s.disk.uploads ==> s.disk.uploads[id].manifest.value.status == Uploading)
      && (r.Ok? ==> t.disk.uploads == s.disk.uploads - {id})
      && (r.Err? ==> t == s && r == Err(InvalidUpload))
      && t.disk == s.disk.(uploads := t.disk.uploads)
  {
    if id in s.disk.uploads {
      assert SessionReady(s.disk.uploads[id], id);
    }
  }

  // ---------------------------------------------------------------- Delete and Restore

  /** Delete always succeeds on a sound store, and then the identifier is not active; a file that
      was is in trash with its bytes, its record and the time of the deletion. */
  lemma DeleteTrashes(cfg: Config, s: Store, id: Id, now: int)
    requires Sound(cfg.sha, s.disk)
    ensures
      var (t, r) := Delete(s, id, now);
      && r == Ok(()) && id !in t.disk.manifests && id !in t.disk.objects
      && (id !in s.disk.manifests ==> t == s)
      && (id in s.disk.manifests ==>
            && ReadTrash(t.disk, id) == Ok(s.disk.manifests[id].(deletedAt := Some(now)))
            && t.disk.trash[id].content == GetAt(s.disk.objects, id))
      && forall x | x != id :: View(t.disk, x) == View(s.disk, x)
  {
    var slot := View(s.disk, id);
    assert SlotSound(cfg.sha, slot, id);
    if slot.manifest.Some? {
      var f := slot.manifest.value.(deletedAt := Some(now));
      forall x ensures View(Delete(s, id, now).0.disk, x) == if x == id then DeletedSlot(slot, f) else View(s.disk, x) {
        ViewPatch(s.disk, id, DeletedSlot(slot, f), x);
      }
      assert View(Delete(s, id, now).0.disk, id).trash.Some?;
    }
  }

  /** Restore brings back exactly what is in trash. */
  lemma RestoreSucceedsIff(cfg: Config, s: Store, id: Id)
    requires Sound(cfg.sha, s.disk)
    ensures
      var (t, r) := Restore(s, id);
      && (r.Ok? <==> id in s.disk.trash)
      && (r.Err? ==> t == s && r == Err(NotFound))
      && (r.Ok? ==>
            && s.disk.trash[id].manifest.Some? && r.value == s.disk.trash[id].manifest.value.(deletedAt := None)
            && ReadFile(t.disk, id) == r && GetAt(t.disk.objects, id) == s.disk.trash[id].content
            && id !in t.disk.trash)
      && forall x | x != id :: View(t.disk, x) == View(s.disk, x)
  {
    var slot := View(s.disk, id);
    assert SlotSound(cfg.sha, slot, id);
    if id in s.disk.trash {
      var f := slot.trash.value.manifest.value.(deletedAt := None);
      forall x ensures View(Restore(s, id).0.disk, x) == if x == id then RestoredSlot(slot, f) else View(s.disk, x) {
        ViewPatch(s.disk, id, RestoredSlot(slot, f), x);
      }
      assert View(Restore(s, id).0.disk, id).manifest == Some(f);
    }
  }
}
