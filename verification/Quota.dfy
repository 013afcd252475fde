/** How each operation changes what an owner is charged, and why no owner ever exceeds the
    quota. */
module Quota {
  import opened Basics
  import opened Text
  import opened Maps
  import opened Accounting
  import opened DiskModel
  import opened Trails
  import opened StoreSpec
  import opened Invariants

  // ---------------------------------------------------------------- the arithmetic

  /** What a charge costs one owner. */
  ghost function Part(x: Option<Charge<Owner>>, o: Owner): (n: int)
    ensures n == if x.Some? && x.value.owner == o then x.value.size else 0
  {
    Weight(x, BytesFor(o))
  }

  ghost function SlotPart(s: Slot, o: Owner): int {
    Part(FileChargeAt(s.manifest), o) + Part(TrashChargeAt(s.trash), o)
  }

  ghost function DirPart(dir: Option<SessionDir>, o: Owner): int {
    Part(UploadChargeAt(dir), o)
  }

  lemma OwnerBytesOfPatch(d: Disk, id: Id, s: Slot, o: Owner)
    ensures OwnerBytes(Patch(d, id, s), o) == OwnerBytes(d, o) - SlotPart(View(d, id), o) + SlotPart(s, o)
  {
    ChargesAt(d, id);
    ChargesOfPatch(d, id, s);
    SumSet(FileCharges(d), id, FileChargeAt(s.manifest), BytesFor(o));
    SumSet(TrashCharges(d), id, TrashChargeAt(s.trash), BytesFor(o));
  }

  lemma OwnerBytesOfSession(d: Disk, id: Id, dir: Option<SessionDir>, o: Owner)
    ensures OwnerBytes(PatchSession(d, id, dir), o)
            == OwnerBytes(d, o) - DirPart(GetAt(d.uploads, id), o) + DirPart(dir, o)
  {
    ChargesAt(d, id);
    ChargesOfSession(d, id, dir);
    SumSet(UploadCharges(d), id, UploadChargeAt(dir), BytesFor(o));
  }

  // ---------------------------------------------------------------- what each operation costs

  lemma PutCommitCosts(cfg: Config, s: Store, id: Id, bytes: Bytes, info: Info, now: int, o: Owner)
    requires View(s.disk, id) == VACANT
    ensures OwnerBytes(PutCommit(cfg, s, id, bytes, info, now).disk, o)
            == OwnerBytes(s.disk, o) + if o == info.owner then |bytes| else 0
  {
    OwnerBytesOfPatch(s.disk, id, StoredSlot(bytes, NewFile(cfg, id, bytes, info, now)), o);
  }

  /** Put leaves the directory as it was, or commits to a free identifier. */
  lemma PutCases(cfg: Config, s: Store, pause: Pause, id: Id, body: Body, info: Info, now: int)
    ensures
      var (t, r) := Put(cfg, s, pause, id, body, info, now);
      var loaded := Load(PauseGate(s, pause).0);
      if r.Err? then t.disk == s.disk
      else View(s.disk, id) == VACANT && loaded.disk == s.disk && t == PutCommit(cfg, loaded, id, body.bytes, info, now)
  {
    GateKeepsDisk(s, pause);
    var loaded := Load(PauseGate(s, pause).0);
    if PutError(cfg, loaded, id, body, info).None? {
      assert View(loaded.disk, id) == VACANT;
    }
  }

  /** Put charges its owner the size of the body when it succeeds, and nobody anything when it
      does not. */
  lemma PutCosts(cfg: Config, s: Store, pause: Pause, id: Id, body: Body, info: Info, now: int, o: Owner)
    ensures
      var (t, r) := Put(cfg, s, pause, id, body, info, now);
      OwnerBytes(t.disk, o) == OwnerBytes(s.disk, o) + if r.Ok? && o == info.owner then |body.bytes| else 0
  {
    var (t, r) := Put(cfg, s, pause, id, body, info, now);
    PutCases(cfg, s, pause, id, body, info, now);
    if r.Ok? {
      PutCommitCosts(cfg, Load(PauseGate(s, pause).0), id, body.bytes, info, now, o);
    }
  }

  lemma StartCommitCosts(s: Store, id: Id, u: Session, o: Owner)
    requires id !in s.disk.uploads && u.status.Uploading?
    ensures OwnerBytes(StartCommit(s, id, u).disk, o) == OwnerBytes(s.disk, o) + if o == u.info.owner then u.size else 0
  {
    OwnerBytesOfSession(s.disk, id, Some(StartedDir(u)), o);
  }

  lemma GateKeepsDisk(s: Store, pause: Pause)
    ensures PauseGate(s, pause).0.disk == s.disk
  {}

  /** Replacing a session directory by one that costs the same changes nothing. */
  lemma SameChargeSameBytes(d: Disk, id: Id, dir: SessionDir, o: Owner)
    requires id in d.uploads && UploadCharge(d.uploads[id]) == UploadCharge(dir)
    ensures OwnerBytes(PatchSession(d, id, Some(dir)), o) == OwnerBytes(d, o)
  {
    UploadUnchanged(d, id, Some(dir));
  }

  /** AppendUpload leaves the directory as it was, or replaces the session by one that has grown by
      an accepted chunk. */
  lemma AppendCases(
    cfg: Config, s: Store, pause: Pause, id: Id, offset: int, chunkSize: int, body: Body, checksum: string, now: int)
    ensures
      var (t, r) := AppendUpload(cfg, s, pause, id, offset, chunkSize, body, checksum, now);
      if r.Err? then t.disk == s.disk
      else
        && ReadSession(s.disk, id).Ok? && chunkSize > 0
        && var u := ReadSession(s.disk, id).value;
           && u.status.Uploading? && offset == u.received
           && ChunkError(cfg, u, chunkSize, body, checksum).None?
           && r.value == Grown(u, body.bytes, now)
           && t.disk == PatchSession(s.disk, id,
                                     Some(AppendedDir(s.disk.uploads[id], body.bytes, Grown(u, body.bytes, now))))
  {
    GateKeepsDisk(s, pause);
  }

  lemma AppendCostsNothing(
    cfg: Config, s: Store, pause: Pause, id: Id, offset: int, chunkSize: int, body: Body, checksum: string, now: int,
    o: Owner)
    ensures OwnerBytes(AppendUpload(cfg, s, pause, id, offset, chunkSize, body, checksum, now).0.disk, o)
            == OwnerBytes(s.disk, o)
  {
    AppendCases(cfg, s, pause, id, offset, chunkSize, body, checksum, now);
    if AppendUpload(cfg, s, pause, id, offset, chunkSize, body, checksum, now).1.Ok? {
      var u, dir := ReadSession(s.disk, id).value, s.disk.uploads[id];
      SameChargeSameBytes(s.disk, id, AppendedDir(dir, body.bytes, Grown(u, body.bytes, now)), o);
    }
  }

  lemma CompletionConserves(d: Disk, id: Id, fileId: Id, f: File, done: Session, o: Owner)
    requires View(d, fileId) == VACANT && id in d.uploads && d.uploads[id].data.Some? && done.status.Completed?
    requires UploadCharge(d.uploads[id]) == FileCharge(f)
    ensures OwnerBytes(CompletedDisk(d, id, fileId, f, done), o) == OwnerBytes(d, o)
  {
    var slot := StoredSlot(d.uploads[id].data.value, f);
    OwnerBytesOfPatch(d, fileId, slot, o);
    OwnerBytesOfSession(Patch(d, fileId, slot), id, Some(d.uploads[id].(data := None, manifest := Some(done))), o);
  }

  /** The three directories CompleteUpload can leave behind. */
  lemma CompleteOutcomes(cfg: Config, s: Store, id: Id, fileId: Id, now: int)
    requires View(s.disk, fileId) == VACANT
    ensures
      var d := CompleteUpload(cfg, s, id, fileId, now).0.disk;
      || d == s.disk
      || (&& ReadSession(s.disk, id).Ok? && ReadSession(s.disk, id).value.status.Uploading?
          && var u, bytes := ReadSession(s.disk, id).value, s.disk.uploads[id].data.value;
             || d == PartLost(s.disk, id)
             || d == CompletedDisk(s.disk, id, fileId, CompletedFile(cfg, u, fileId, bytes),
                                   CompletedSession(u, fileId, now)))
  {}

  /** CompleteUpload turns the reservation into a file of the same size: no owner's total
      changes. */
  lemma CompleteConserves(cfg: Config, s: Store, id: Id, fileId: Id, now: int, o: Owner)
    requires View(s.disk, fileId) == VACANT
    ensures OwnerBytes(CompleteUpload(cfg, s, id, fileId, now).0.disk, o) == OwnerBytes(s.disk, o)
  {
    var d := CompleteUpload(cfg, s, id, fileId, now).0.disk;
    CompleteOutcomes(cfg, s, id, fileId, now);
    if d != s.disk {
      var u, dir := ReadSession(s.disk, id).value, s.disk.uploads[id];
      var f, done := CompletedFile(cfg, u, fileId, dir.data.value), CompletedSession(u, fileId, now);
      if d == PartLost(s.disk, id) {
        SameChargeSameBytes(s.disk, id, dir.(data := None), o);
      } else {
        CompletionConserves(s.disk, id, fileId, f, done, o);
      }
    }
  }

  lemma DeleteConserves(s: Store, id: Id, now: int, o: Owner)
    ensures OwnerBytes(Delete(s, id, now).0.disk, o) == OwnerBytes(s.disk, o)
  {
    var slot := View(s.disk, id);
    if slot.manifest.Some? {
      OwnerBytesOfPatch(s.disk, id, DeletedSlot(slot, slot.manifest.value.(deletedAt := Some(now))), o);
    }
  }

  lemma RestoreConserves(s: Store, id: Id, o: Owner)
    ensures OwnerBytes(Restore(s, id).0.disk, o) == OwnerBytes(s.disk, o)
  {
    if ReadTrash(s.disk, id).Ok? {
      var slot, f := View(s.disk, id), ReadTrash(s.disk, id).value;
      OwnerBytesOfPatch(s.disk, id, RestoredSlot(slot, f.(deletedAt := None)), o);
    }
  }

  lemma AbortCases(s: Store, id: Id)
    ensures
      var d := AbortUpload(s, id).0.disk;
      if ReadSession(s.disk, id).Ok? && ReadSession(s.disk, id).value.status.Uploading?
      then d == PatchSession(s.disk, id, None) else d == s.disk
  {}

  /** AbortUpload gives back exactly the declared size of the open session it removes. */
  lemma AbortReleases(s: Store, id: Id, o: Owner)
    ensures OwnerBytes(AbortUpload(s, id).0.disk, o)
            == OwnerBytes(s.disk, o)
               - if ReadSession(s.disk, id).Ok? then DirPart(GetAt(s.disk.uploads, id), o) else 0
  {
    AbortCases(s, id);
    if ReadSession(s.disk, id).Ok? && ReadSession(s.disk, id).value.status.Uploading? {
      OwnerBytesOfSession(s.disk, id, None, o);
    }
  }

  // ---------------------------------------------------------------- whole listings

  /** The charges of the sessions that d has and e has not. */
  ghost function EndedCharges(d: Disk, e: Disk): Charges<Id, Owner> {
    UploadCharges(d) - e.uploads.Keys
  }

  ghost function DestroyedCharges(d: Disk, e: Disk): Charges<Id, Owner> {
    TrashCharges(d) - e.trash.Keys
  }

  /** One entry less among those kept is its charge more among those gone. */
  lemma OneMoreGone<K>(c: Charges<K, Owner>, kept: set<K>, less: set<K>, id: K, o: Owner)
    requires id in kept && less == kept - {id}
    ensures BytesOf(c - less, o) == BytesOf(c - kept, o) + Weight(GetAt(c, id), BytesFor(o))
  {
    var gone, more := c - kept, c - less;
    GoneGrows(c, kept, less, id);
    SumSet(gone, id, GetAt(c, id), BytesFor(o));
    assert more == SetAt(gone, id, GetAt(c, id)) && GetAt(gone, id) == None;
  }

  lemma GoneGrows<K, V>(c: map<K, V>, kept: set<K>, less: set<K>, id: K)
    requires id in kept && less == kept - {id}
    ensures c - less == SetAt(c - kept, id, GetAt(c, id)) && GetAt(c - kept, id) == None
  {}

  lemma NoneGone<K>(c: Charges<K, Owner>, kept: set<K>, o: Owner)
    requires c.Keys <= kept
    ensures BytesOf(c - kept, o) == 0
  {
    assert c - kept == map[];
  }

  lemma KeysWithout<K, V>(m: map<K, V>, k: K)
    requires k in m
    ensures SetAt(m, k, None).Keys == m.Keys - {k}
  {}

  /** What SweepOne leaves is what was there, without the entry or with it. */
  lemma SweepOneDrops(cfg: Config, s: Store, id: Id, now: int)
    ensures
      var t := SweepOne(cfg, s, id, now);
      t.disk == s.disk || (id in s.disk.uploads && t.disk == PatchSession(s.disk, id, None))
  {}

  /** A sweep over any listing gives back exactly the declared sizes of the open sessions that
      it has removed. */
  lemma {:induction false} SweepReleases(cfg: Config, s: Store, listing: seq<Id>, now: int, o: Owner)
    ensures
      var e := SweepAll(cfg, s, listing, now).disk;
      && OwnerBytes(e, o) == OwnerBytes(s.disk, o) - BytesOf(EndedCharges(s.disk, e), o)
      && e == s.disk.(uploads := e.uploads) && e.uploads.Keys <= s.disk.uploads.Keys
      && forall x | x in e.uploads :: e.uploads[x] == s.disk.uploads[x]
  {
    if listing == [] {
      NoneGone(UploadCharges(s.disk), s.disk.uploads.Keys, o);
    } else {
      var n := |listing| - 1;
      var t, id := SweepAll(cfg, s, listing[..n], now), listing[n];
      SweepReleases(cfg, s, listing[..n], now, o);
      SweepOneDrops(cfg, t, id, now);
      if SweepOne(cfg, t, id, now).disk != t.disk {
        DroppedSession(s.disk, t.disk, id, o);
      }
    }
  }

  lemma DroppedSession(d: Disk, e: Disk, id: Id, o: Owner)
    requires id in e.uploads && id in d.uploads && e.uploads[id] == d.uploads[id]
    requires OwnerBytes(e, o) == OwnerBytes(d, o) - BytesOf(EndedCharges(d, e), o)
    ensures
      var f := PatchSession(e, id, None);
      OwnerBytes(f, o) == OwnerBytes(d, o) - BytesOf(EndedCharges(d, f), o)
  {
    OwnerBytesOfSession(e, id, None, o);
    ChargesAt(d, id);
    KeysWithout(e.uploads, id);
    OneMoreGone(UploadCharges(d), e.uploads.Keys, PatchSession(e, id, None).uploads.Keys, id, o);
  }

  lemma StartCases(
    cfg: Config, s: Store, pause: Pause, listing: seq<Id>, id: Id, size: int, checksum: string, info: Info, now: int)
    ensures
      var x := StartUpload(cfg, s, pause, listing, id, size, checksum, info, now);
      var t := Load(SweepAll(cfg, PauseGate(s, pause).0, listing, now));
      || (x.0.disk == s.disk && x.1.Err?)
      || (x.0 == t && x.1.Err?)
      || x == Admit(cfg, t, id, size, Lower(TrimSpace(checksum)), info, now)
  {
    GateKeepsDisk(s, pause);
  }

  /** StartUpload gives back what its sweep ends, whatever becomes of the upload itself, and
      charges its owner the declared size when it succeeds. */
  lemma StartCosts(
    cfg: Config, s: Store, pause: Pause, listing: seq<Id>, id: Id, size: int, checksum: string, info: Info, now: int,
    o: Owner)
    requires id !in s.disk.uploads
    ensures
      var (t, r) := StartUpload(cfg, s, pause, listing, id, size, checksum, info, now);
      OwnerBytes(t.disk, o)
      == OwnerBytes(s.disk, o) - BytesOf(EndedCharges(s.disk, t.disk), o) + if r.Ok? && o == info.owner then size else 0
  {
    var gated := PauseGate(s, pause).0;
    GateKeepsDisk(s, pause);
    StartCases(cfg, s, pause, listing, id, size, checksum, info, now);
    NothingEnded(s.disk, o);
    SweepReleases(cfg, gated, listing, now, o);
    AdmissionCosts(
      cfg, s.disk, Load(SweepAll(cfg, gated, listing, now)), id, size, Lower(TrimSpace(checksum)), info, now, o);
  }

  lemma NothingEnded(d: Disk, o: Owner)
    ensures BytesOf(EndedCharges(d, d), o) == 0
  {
    NoneGone(UploadCharges(d), d.uploads.Keys, o);
  }

  lemma AdmissionCosts(
    cfg: Config, d: Disk, s: Store, id: Id, size: int, checksum: string, info: Info, now: int, o: Owner)
    requires id !in d.uploads && id !in s.disk.uploads
    requires OwnerBytes(s.disk, o) == OwnerBytes(d, o) - BytesOf(EndedCharges(d, s.disk), o)
    ensures
      var (t, r) := Admit(cfg, s, id, size, checksum, info, now);
      OwnerBytes(t.disk, o)
      == OwnerBytes(d, o) - BytesOf(EndedCharges(d, t.disk), o) + if r.Ok? && o == info.owner then size else 0
  {
    if Admit(cfg, s, id, size, checksum, info, now).1.Ok? {
      StartedSession(d, s.disk, id, NewSession(id, size, checksum, info, now), o);
    }
  }

  lemma NewIsNotGone<K>(c: Charges<K, Owner>, kept: set<K>, more: set<K>, id: K)
    requires id !in c && more == kept + {id}
    ensures c - more == c - kept
  {}

  lemma KeysWith<K, V>(m: map<K, V>, k: K, v: V)
    ensures SetAt(m, k, Some(v)).Keys == m.Keys + {k}
  {}

  lemma StartedSession(d: Disk, e: Disk, id: Id, u: Session, o: Owner)
    requires id !in d.uploads && id !in e.uploads && u.status.Uploading?
    requires OwnerBytes(e, o) == OwnerBytes(d, o) - BytesOf(EndedCharges(d, e), o)
    ensures
      var f := PatchSession(e, id, Some(StartedDir(u)));
      OwnerBytes(f, o) == OwnerBytes(d, o) - BytesOf(EndedCharges(d, f), o) + if o == u.info.owner then u.size else 0
  {
    OwnerBytesOfSession(e, id, Some(StartedDir(u)), o);
    KeysWith(e.uploads, id, StartedDir(u));
    NewIsNotGone(UploadCharges(d), e.uploads.Keys, PatchSession(e, id, Some(StartedDir(u))).uploads.Keys, id);
  }

  /** What PurgeOne leaves is what was there, without the entry or with it. */
  lemma PurgeOneDrops(s: Store, id: Id, olderThan: Option<int>)
    requires ReadTrash(s.disk, id).Ok?
    ensures
      var t := PurgeOne(s, id, olderThan);
      t.disk == s.disk || (id in s.disk.trash && t.disk == Patch(s.disk, id, View(s.disk, id).(trash := None)))
  {}

  /** A purge over any listing, up to the entry it stops at, gives back exactly the sizes of
      the entries that it has destroyed. */
  lemma {:induction false} PurgeReleases(s: Store, listing: seq<Id>, olderThan: Option<int>, o: Owner)
    ensures
      var e := PurgeAll(s, listing, olderThan).0.disk;
      && OwnerBytes(e, o) == OwnerBytes(s.disk, o) - BytesOf(DestroyedCharges(s.disk, e), o)
      && e.trash.Keys <= s.disk.trash.Keys && forall x | x in e.trash :: e.trash[x] == s.disk.trash[x]
  {
    if listing == [] {
      NoneGone(TrashCharges(s.disk), s.disk.trash.Keys, o);
    } else {
      var n := |listing| - 1;
      var (t, stop) := PurgeAll(s, listing[..n], olderThan);
      PurgeReleases(s, listing[..n], olderThan, o);
      if stop.None? && ReadTrash(t.disk, listing[n]).Ok? {
        PurgeOneDrops(t, listing[n], olderThan);
        if PurgeOne(t, listing[n], olderThan).disk != t.disk {
          DestroyedEntry(s.disk, t.disk, listing[n], o);
        }
      }
    }
  }

  lemma DestroyedEntry(d: Disk, e: Disk, id: Id, o: Owner)
    requires id in e.trash && id in d.trash && e.trash[id] == d.trash[id]
    requires OwnerBytes(e, o) == OwnerBytes(d, o) - BytesOf(DestroyedCharges(d, e), o)
    ensures
      var f := Patch(e, id, View(e, id).(trash := None));
      OwnerBytes(f, o) == OwnerBytes(d, o) - BytesOf(DestroyedCharges(d, f), o)
  {
    OwnerBytesOfPatch(e, id, View(e, id).(trash := None), o);
    ChargesAt(d, id);
    KeysWithout(e.trash, id);
    OneMoreGone(TrashCharges(d), e.trash.Keys, Patch(e, id, View(e, id).(trash := None)).trash.Keys, id, o);
  }

  /** A purge that meets no unreadable entry destroys exactly the entries of its listing that
      are old enough, and leaves every other one as it was. */
  lemma {:induction false} PurgeRemovesExactly(s: Store, listing: seq<Id>, olderThan: Option<int>, id: Id)
    requires PurgeAll(s, listing, olderThan).1.None? && id in s.disk.trash
    ensures
      var e := PurgeAll(s, listing, olderThan).0.disk;
      && (id in listing ==> ReadTrash(s.disk, id).Ok?)
      && (id !in e.trash <==>
            && id in listing
            && (olderThan.None? || ReadTrash(s.disk, id).value.deletedAt.value <= olderThan.value))
      && (id in e.trash ==> e.trash[id] == s.disk.trash[id])
  {
    if listing != [] {
      var n := |listing| - 1;
      PurgeRemovesExactly(s, listing[..n], olderThan, id);
      assert id in listing <==> id in listing[..n] || id == listing[n];
      PurgeOneDrops(PurgeAll(s, listing[..n], olderThan).0, listing[n], olderThan);
    }
  }

  /** A purge comes to its end exactly when it can read every entry that it meets. */
  lemma {:induction false} PurgeEndsIff(s: Store, listing: seq<Id>, olderThan: Option<int>)
    requires forall i, j | 0 <= i < j < |listing| :: listing[i] != listing[j]
    ensures
      PurgeAll(s, listing, olderThan).1.None?
      <==> forall i | 0 <= i < |listing| :: ReadTrash(s.disk, listing[i]).Ok?
    ensures forall id | id !in listing ::
      GetAt(PurgeAll(s, listing, olderThan).0.disk.trash, id) == GetAt(s.disk.trash, id)
  {
    if listing != [] {
      var n := |listing| - 1;
      var t := PurgeAll(s, listing[..n], olderThan).0;
      PurgeEndsIff(s, listing[..n], olderThan);
      assert listing[n] !in listing[..n];
      assert GetAt(t.disk.trash, listing[n]) == GetAt(s.disk.trash, listing[n]);
      assert forall i | 0 <= i < n :: listing[..n][i] == listing[i];
      if ReadTrash(t.disk, listing[n]).Ok? {
        PurgeOneDrops(t, listing[n], olderThan);
      }
    }
  }

  // ---------------------------------------------------------------- within quota

  ghost predicate WithinQuota(cfg: Config, d: Disk) {
    forall o :: OwnerBytes(d, o) <= cfg.quota
  }

  /** Within a quota that is a 64-bit number no sum of the index can overflow. */
  lemma WithinQuotaFits(cfg: Config, d: Disk)
    requires ValidConfig(cfg) && NonNegativeCharges(d) && WithinQuota(cfg, d)
    ensures AllFit(d)
    ensures forall o :: 0 <= OwnerBytes(d, o) <= MAX_INT64
  {
    forall o
      ensures BytesOf(FileCharges(d), o) <= MAX_INT64
      ensures BytesOf(TrashCharges(d), o) <= MAX_INT64
      ensures BytesOf(UploadCharges(d), o) <= MAX_INT64
      ensures 0 <= OwnerBytes(d, o) <= MAX_INT64
    {
      BytesNonNegative(FileCharges(d), o);
      BytesNonNegative(TrashCharges(d), o);
      BytesNonNegative(UploadCharges(d), o);
      assert OwnerBytes(d, o) <= cfg.quota;
    }
  }

  lemma SameTotal(u: Usage, v: Usage, o: Owner)
    requires At(u.files, o).bytes == At(v.files, o).bytes
    requires At(u.trash, o).bytes == At(v.trash, o).bytes
    requires At(u.uploads, o).bytes == At(v.uploads, o).bytes
    ensures Total(u, o) == Total(v, o)
  {}

  lemma IndexShows(u: Usage, d: Disk, o: Owner)
    requires AgreesAll(u, d)
    ensures At(u.files, o).bytes == BytesOf(FileCharges(d), o)
    ensures At(u.trash, o).bytes == BytesOf(TrashCharges(d), o)
    ensures At(u.uploads, o).bytes == BytesOf(UploadCharges(d), o)
  {}

  /** The quota decision reads nothing of the state but the total. */
  lemma SameGate(cfg: Config, s: Store, t: Store, o: Owner, incoming: int)
    requires Total(s.usage, o) == Total(t.usage, o)
    ensures QuotaGate(cfg, s, o, incoming) == QuotaGate(cfg, t, o, incoming)
  {}

  lemma RescanTotal(u: Usage, d: Disk, o: Owner)
    requires AgreesAll(u, d)
    ensures Total(u, o) == Total(RescanUsage(d), o)
  {
    RescanUsageAgrees(d);
    IndexShows(u, d, o);
    IndexShows(RescanUsage(d), d, o);
    SameTotal(u, RescanUsage(d), o);
  }

  /** The index shows every owner the total a rescan would, and the quota gate gives the
      verdict it would give on the rescanned index: for every owner, over the limit or not. */
  lemma IndexTotalIsRescan(cfg: Config, s: Store, o: Owner, incoming: int)
    requires Inv(cfg, s) && s.usageValid
    ensures Total(s.usage, o) == Total(RescanUsage(s.disk), o)
    ensures QuotaGate(cfg, s, o, incoming) == QuotaGate(cfg, s.(usage := RescanUsage(s.disk)), o, incoming)
  {
    RescanTotal(s.usage, s.disk, o);
    SameGate(cfg, s, s.(usage := RescanUsage(s.disk)), o, incoming);
  }

  const TWO_63 := 0x8000_0000_0000_0000
  const TWO_64 := 0x1_0000_0000_0000_0000

  /** The total is the owner's bytes on disk, wrapped to 64 bits. */
  lemma TotalIsWrapped(u: Usage, d: Disk, o: Owner)
    requires AgreesAll(u, d) && NonNegativeCharges(d) && AllFit(d)
    ensures 0 <= OwnerBytes(d, o) < TWO_64 + TWO_63
    ensures Total(u, o)
            == OwnerBytes(d, o) - if OwnerBytes(d, o) < TWO_63 then 0 else TWO_64
  {
    BytesNonNegative(FileCharges(d), o);
    BytesNonNegative(TrashCharges(d), o);
    BytesNonNegative(UploadCharges(d), o);
    IndexShows(u, d, o);
    assert BytesOf(FileCharges(d), o) <= MAX_INT64;
    assert BytesOf(TrashCharges(d), o) <= MAX_INT64;
    assert BytesOf(UploadCharges(d), o) <= MAX_INT64;
  }

  /** Where the three sums of an owner together do not confuse the 64-bit arithmetic. */
  predicate Unconfused(quota: int, bytes: int) {
    bytes <= quota + TWO_63 || bytes > quota + TWO_64
  }

  /** With a quota, the gate admits a charge exactly when it leaves the owner within the
      limit, also for an owner already above it, as long as the owner's bytes are not so many
      that the 64-bit sums come round again. */
  lemma QuotaGateIff(cfg: Config, s: Store, o: Owner, incoming: int)
    requires ValidConfig(cfg) && cfg.quota > 0 && 0 <= incoming
    requires Inv(cfg, s) && s.usageValid && AllFit(s.disk) && Unconfused(cfg.quota, OwnerBytes(s.disk, o))
    ensures QuotaGate(cfg, s, o, incoming).None? <==> OwnerBytes(s.disk, o) + incoming <= cfg.quota
  {
    SoundIsReady(cfg.sha, s.disk);
    ReadyIsNonNegative(s.disk);
    TotalIsWrapped(s.usage, s.disk, o);
  }

  /** That condition is exact: beyond it the gate lets an owner far above the limit in. */
  lemma QuotaGateIsRightIff(cfg: Config, s: Store, o: Owner)
    requires ValidConfig(cfg) && cfg.quota > 0 && Inv(cfg, s) && s.usageValid && AllFit(s.disk)
    ensures (forall incoming: nat ::
               QuotaGate(cfg, s, o, incoming).None? <==> OwnerBytes(s.disk, o) + incoming <= cfg.quota)
            <==> Unconfused(cfg.quota, OwnerBytes(s.disk, o))
  {
    if Unconfused(cfg.quota, OwnerBytes(s.disk, o)) {
      forall incoming: nat
        ensures QuotaGate(cfg, s, o, incoming).None? <==> OwnerBytes(s.disk, o) + incoming <= cfg.quota
      {
        QuotaGateIff(cfg, s, o, incoming);
      }
    } else {
      GateLetsIn(cfg, s, o);
      assert !(QuotaGate(cfg, s, o, 0).None? <==> OwnerBytes(s.disk, o) + 0 <= cfg.quota);
    }
  }

  lemma GateLetsIn(cfg: Config, s: Store, o: Owner)
    requires ValidConfig(cfg) && cfg.quota > 0 && Inv(cfg, s) && s.usageValid && AllFit(s.disk)
    requires !Unconfused(cfg.quota, OwnerBytes(s.disk, o))
    ensures QuotaGate(cfg, s, o, 0).None? && OwnerBytes(s.disk, o) > cfg.quota
  {
    SoundIsReady(cfg.sha, s.disk);
    ReadyIsNonNegative(s.disk);
    TotalIsWrapped(s.usage, s.disk, o);
  }

  /** A good state in which the owner's bytes fit 64 bits. */
  ghost predicate CanReport(cfg: Config, s: Store, o: Owner) {
    ValidConfig(cfg) && Inv(cfg, s) && AllFit(s.disk) && OwnerBytes(s.disk, o) <= MAX_INT64
  }

  /** Used is what the owner is charged for on disk, and available is how much more a charge of at
      least one byte may be. */
  ghost predicate Reports(cfg: Config, s: Store, o: Owner, used: int, available: int) {
    && used == OwnerBytes(s.disk, o)
    && available == (if cfg.quota > used then cfg.quota - used else 0)
    && (cfg.quota > 0 ==> forall n: nat | n > 0 :: QuotaGate(cfg, s, o, n).None? <==> n <= available)
  }

  /** The figures of the quota report mean that. */
  lemma QuotaFigures(cfg: Config, s: Store, o: Owner)
    requires CanReport(cfg, s, o) && !Load(s).loadFailed
    ensures
      var used := Total(Load(s).usage, o);
      Reports(cfg, Load(s), o, used, Available(cfg, used))
  {
    LoadKeepsInv(cfg, s);
    SoundIsReady(cfg.sha, s.disk);
    ReadyIsNonNegative(s.disk);
    TotalIsWrapped(Load(s).usage, s.disk, o);
  }
}
