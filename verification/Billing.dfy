/** What keeps every owner within the quota: for the bytes to be right the directory need not be
    sound, so the argument also covers stores that a crash or a late failure has left broken. */
module Billing {
  import opened Basics
  import Text
  import opened Maps
  import opened Accounting
  import opened DiskModel
  import opened Trails
  import opened StoreSpec
  import opened Invariants
  import opened Quota
  import R = Recovery

  type Bills = Charges<Id, Owner>

  /** An active manifest whose object is in a trash entry without manifest: what a Restore that
      fails at its last step leaves behind. No operation touches such an identifier. */
  predicate Split(s: Slot) {
    s.manifest.Some? && s.content.None? && s.trash.Some? && s.trash.value.manifest.None?
  }

  /** The bills of one identifier: what its records cost, but a split file may still be billed as
      trash. */
  predicate BilledAs(s: Slot, file: Option<Charge<Owner>>, trash: Option<Charge<Owner>>) {
    || (file == FileChargeAt(s.manifest) && trash == TrashChargeAt(s.trash))
    || (Split(s) && file.None? && trash == FileChargeAt(s.manifest))
  }

  ghost predicate Recorded(d: Disk, files: Bills, trash: Bills) {
    forall id :: BilledAs(View(d, id), GetAt(files, id), GetAt(trash, id))
  }

  ghost predicate Shown(u: Usage, files: Bills, trash: Bills, uploads: Bills) {
    Agrees(u.files, files) && Agrees(u.trash, trash) && Agrees(u.uploads, uploads)
  }

  /** The index shows every owner what the directory costs, over files and trash together. */
  ghost predicate Booked(u: Usage, d: Disk) {
    exists files, trash :: Recorded(d, files, trash) && Shown(u, files, trash, UploadCharges(d))
  }

  /** What the runs below keep: nobody is above the limit, and a valid index shows it. */
  ghost predicate Billed(cfg: Config, s: Store) {
    && NonNegativeCharges(s.disk) && WithinQuota(cfg, s.disk)
    && (s.usageValid ==> Booked(s.usage, s.disk))
    && (s.loaded && !s.loadFailed ==> s.usageValid)
  }

  // ---------------------------------------------------------------- bills and bytes

  lemma RecordedBytes(d: Disk, files: Bills, trash: Bills, o: Owner)
    requires Recorded(d, files, trash)
    ensures BytesOf(files, o) + BytesOf(trash, o) == BytesOf(FileCharges(d), o) + BytesOf(TrashCharges(d), o)
  {
    forall id ensures PairWeight(files, trash, id, BytesFor(o))
                      == PairWeight(FileCharges(d), TrashCharges(d), id, BytesFor(o))
    {
      assert BilledAs(View(d, id), GetAt(files, id), GetAt(trash, id));
      ChargesAt(d, id);
    }
    SamePairsSameSum(files, trash, FileCharges(d), TrashCharges(d), BytesFor(o));
  }

  predicate NotNegative(x: Option<Charge<Owner>>) {
    x.Some? ==> x.value.size >= 0
  }

  lemma NotNegativeAt(c: Bills, id: Id)
    requires NonNegative(c)
    ensures NotNegative(GetAt(c, id))
  {}

  lemma RecordedNotNegative(d: Disk, files: Bills, trash: Bills)
    requires Recorded(d, files, trash) && NonNegativeCharges(d)
    ensures NonNegative(files) && NonNegative(trash)
  {
    forall id ensures NotNegative(GetAt(files, id)) && NotNegative(GetAt(trash, id)) {
      assert BilledAs(View(d, id), GetAt(files, id), GetAt(trash, id));
      ChargesAt(d, id);
      NotNegativeAt(FileCharges(d), id);
      NotNegativeAt(TrashCharges(d), id);
    }
    forall id | id in files ensures files[id].size >= 0 {
      assert NotNegative(GetAt(files, id));
    }
    forall id | id in trash ensures trash[id].size >= 0 {
      assert NotNegative(GetAt(trash, id));
    }
  }

  /** Within a quota nothing that is recorded overflows. */
  lemma RecordedFits(cfg: Config, d: Disk, files: Bills, trash: Bills)
    requires ValidConfig(cfg) && NonNegativeCharges(d) && WithinQuota(cfg, d) && Recorded(d, files, trash)
    ensures NonNegative(files) && NonNegative(trash) && Fits(files) && Fits(trash) && Fits(UploadCharges(d))
  {
    RecordedNotNegative(d, files, trash);
    forall o
      ensures BytesOf(files, o) <= MAX_INT64 && BytesOf(trash, o) <= MAX_INT64
      ensures BytesOf(UploadCharges(d), o) <= MAX_INT64
    {
      RecordedBytes(d, files, trash, o);
      BytesNonNegative(files, o);
      BytesNonNegative(trash, o);
      BytesNonNegative(UploadCharges(d), o);
      assert OwnerBytes(d, o) <= cfg.quota;
    }
  }

  /** The total that the quota decision reads is the sum itself. */
  lemma TotalIsBilled(cfg: Config, u: Usage, d: Disk, o: Owner)
    requires ValidConfig(cfg) && NonNegativeCharges(d) && WithinQuota(cfg, d) && Booked(u, d)
    ensures Total(u, o) == OwnerBytes(d, o) && 0 <= OwnerBytes(d, o) <= cfg.quota
  {
    var files, trash :| Recorded(d, files, trash) && Shown(u, files, trash, UploadCharges(d));
    RecordedNotNegative(d, files, trash);
    RecordedBytes(d, files, trash, o);
    BytesNonNegative(files, o);
    BytesNonNegative(trash, o);
    BytesNonNegative(UploadCharges(d), o);
    assert At(u.files, o).bytes == BytesOf(files, o) && At(u.trash, o).bytes == BytesOf(trash, o);
    assert At(u.uploads, o).bytes == BytesOf(UploadCharges(d), o);
    assert OwnerBytes(d, o) <= cfg.quota;
  }

  lemma BilledGateIff(cfg: Config, s: Store, o: Owner, incoming: int)
    requires ValidConfig(cfg) && cfg.quota > 0 && Billed(cfg, s) && s.usageValid && incoming >= 0
    ensures QuotaGate(cfg, s, o, incoming).None? <==> OwnerBytes(s.disk, o) + incoming <= cfg.quota
  {
    TotalIsBilled(cfg, s.usage, s.disk, o);
  }

  lemma RescanIsBooked(d: Disk)
    ensures Recorded(d, FileCharges(d), TrashCharges(d)) && Booked(RescanUsage(d), d)
  {
    forall id ensures BilledAs(View(d, id), GetAt(FileCharges(d), id), GetAt(TrashCharges(d), id)) {
      ChargesAt(d, id);
    }
    RescanUsageAgrees(d);
    assert Shown(RescanUsage(d), FileCharges(d), TrashCharges(d), UploadCharges(d));
  }

  /** A good state within the limit is one of them. */
  lemma GoodIsBilled(cfg: Config, s: Store)
    requires Inv(cfg, s) && WithinQuota(cfg, s.disk)
    ensures Billed(cfg, s)
  {
    SoundIsReady(cfg.sha, s.disk);
    ReadyIsNonNegative(s.disk);
    RescanIsBooked(s.disk);
    if s.usageValid {
      assert Shown(s.usage, FileCharges(s.disk), TrashCharges(s.disk), UploadCharges(s.disk));
    }
  }

  // ---------------------------------------------------------------- one change at a time

  lemma RecordedPatch(d: Disk, files: Bills, trash: Bills, id: Id, s: Slot)
    requires Recorded(d, files, trash)
    ensures Recorded(Patch(d, id, s), SetAt(files, id, FileChargeAt(s.manifest)),
                     SetAt(trash, id, TrashChargeAt(s.trash)))
  {
    var f, t := SetAt(files, id, FileChargeAt(s.manifest)), SetAt(trash, id, TrashChargeAt(s.trash));
    forall x ensures BilledAs(View(Patch(d, id, s), x), GetAt(f, x), GetAt(t, x)) {
      ViewPatch(d, id, s, x);
      GetSet(files, id, FileChargeAt(s.manifest), x);
      GetSet(trash, id, TrashChargeAt(s.trash), x);
      assert BilledAs(View(d, x), GetAt(files, x), GetAt(trash, x));
    }
  }

  lemma RecordedAt(d: Disk, files: Bills, trash: Bills, id: Id)
    requires Recorded(d, files, trash) && !Split(View(d, id))
    ensures GetAt(files, id) == FileChargeAt(GetAt(d.manifests, id))
    ensures GetAt(trash, id) == TrashChargeAt(GetAt(d.trash, id))
  {
    assert BilledAs(View(d, id), GetAt(files, id), GetAt(trash, id));
  }

  lemma PatchNotNegative(d: Disk, id: Id, s: Slot)
    requires NonNegativeCharges(d) && NotNegative(FileChargeAt(s.manifest)) && NotNegative(TrashChargeAt(s.trash))
    ensures NonNegativeCharges(Patch(d, id, s))
  {
    ChargesOfPatch(d, id, s);
    NonNegativeSet(FileCharges(d), id, FileChargeAt(s.manifest));
    NonNegativeSet(TrashCharges(d), id, TrashChargeAt(s.trash));
  }

  lemma NonNegativeSet(c: Bills, id: Id, x: Option<Charge<Owner>>)
    requires NonNegative(c) && NotNegative(x)
    ensures NonNegative(SetAt(c, id, x))
  {}

  lemma SessionNotNegative(d: Disk, id: Id, dir: Option<SessionDir>)
    requires NonNegativeCharges(d) && NotNegative(UploadChargeAt(dir))
    ensures NonNegativeCharges(PatchSession(d, id, dir))
  {
    ChargesOfSession(d, id, dir);
    NonNegativeSet(UploadCharges(d), id, UploadChargeAt(dir));
  }

  /** The state after a step whose directory is within the limit and whose index follows it. */
  lemma CommitIsBilled(cfg: Config, s: Store, e: Disk, owner: Owner, from: Option<Kind>, to: Option<Kind>, size: int)
    requires Billed(cfg, s) && NonNegativeCharges(e) && WithinQuota(cfg, e)
    requires s.usageValid ==> Booked(MovedUsage(s.usage, owner, from, to, size), e)
    ensures Billed(cfg, Moved(s.(disk := e), owner, from, to, size))
  {}

  /** Records that cost the same wherever they are read cost the same. */
  lemma SameRecordsAreBilled(cfg: Config, s: Store, e: Disk)
    requires Billed(cfg, s) && UploadCharges(e) == UploadCharges(s.disk)
    requires e.objects == s.disk.objects && e.manifests == s.disk.manifests && e.trash == s.disk.trash
    ensures Billed(cfg, s.(disk := e))
  {
    forall o ensures OwnerBytes(e, o) <= cfg.quota {
      assert OwnerBytes(s.disk, o) <= cfg.quota;
    }
    if s.usageValid {
      var files, trash :| Recorded(s.disk, files, trash) && Shown(s.usage, files, trash, UploadCharges(s.disk));
      forall id ensures BilledAs(View(e, id), GetAt(files, id), GetAt(trash, id)) {
        assert BilledAs(View(s.disk, id), GetAt(files, id), GetAt(trash, id));
      }
      assert Recorded(e, files, trash);
    }
  }

  /** An operation that raises nobody's total keeps everybody within quota. */
  lemma ConservingIsWithin(cfg: Config, d: Disk, e: Disk)
    requires WithinQuota(cfg, d) && forall o :: OwnerBytes(e, o) <= OwnerBytes(d, o)
    ensures WithinQuota(cfg, e)
  {
    forall o ensures OwnerBytes(e, o) <= cfg.quota {
      assert OwnerBytes(e, o) <= OwnerBytes(d, o) && OwnerBytes(d, o) <= cfg.quota;
    }
  }

  /** A change to one identifier that makes nobody's records dearer. */
  lemma CheaperIsWithin(cfg: Config, d: Disk, id: Id, s: Slot)
    requires NonNegativeCharges(d) && WithinQuota(cfg, d)
    requires NotNegative(FileChargeAt(s.manifest)) && NotNegative(TrashChargeAt(s.trash))
    requires forall o :: SlotPart(s, o) <= SlotPart(View(d, id), o)
    ensures NonNegativeCharges(Patch(d, id, s)) && WithinQuota(cfg, Patch(d, id, s))
  {
    PatchNotNegative(d, id, s);
    forall o ensures OwnerBytes(Patch(d, id, s), o) <= OwnerBytes(d, o) {
      OwnerBytesOfPatch(d, id, s, o);
      assert SlotPart(s, o) <= SlotPart(View(d, id), o);
    }
    ConservingIsWithin(cfg, d, Patch(d, id, s));
  }

  // ---------------------------------------------------------------- the books, bucket by bucket

  lemma ShownCharged(u: Usage, files: Bills, trash: Bills, uploads: Bills, id: Id, x: Charge<Owner>)
    requires Shown(u, files, trash, uploads) && x.size >= 0
    ensures NonNegative(files) && GetAt(files, id) == None && Fits(SetAt(files, id, Some(x))) ==>
              Shown(MovedUsage(u, x.owner, None, Some(Files), x.size), SetAt(files, id, Some(x)), trash, uploads)
    ensures NonNegative(uploads) && GetAt(uploads, id) == None && Fits(SetAt(uploads, id, Some(x))) ==>
              Shown(MovedUsage(u, x.owner, None, Some(Uploads), x.size), files, trash, SetAt(uploads, id, Some(x)))
  {
    if NonNegative(files) && GetAt(files, id) == None && Fits(SetAt(files, id, Some(x))) {
      BucketCharges(u.files, files, id, x);
    }
    if NonNegative(uploads) && GetAt(uploads, id) == None && Fits(SetAt(uploads, id, Some(x))) {
      BucketCharges(u.uploads, uploads, id, x);
    }
  }

  lemma ShownReleased(u: Usage, files: Bills, trash: Bills, uploads: Bills, id: Id, x: Charge<Owner>)
    requires Shown(u, files, trash, uploads)
    ensures NonNegative(trash) && Fits(trash) && GetAt(trash, id) == Some(x) ==>
              Shown(MovedUsage(u, x.owner, Some(Trash), None, x.size), files, SetAt(trash, id, None), uploads)
    ensures NonNegative(uploads) && Fits(uploads) && GetAt(uploads, id) == Some(x) ==>
              Shown(MovedUsage(u, x.owner, Some(Uploads), None, x.size), files, trash, SetAt(uploads, id, None))
  {
    if NonNegative(trash) && Fits(trash) && GetAt(trash, id) == Some(x) {
      BucketReleases(u.trash, trash, id, x);
    }
    if NonNegative(uploads) && Fits(uploads) && GetAt(uploads, id) == Some(x) {
      BucketReleases(u.uploads, uploads, id, x);
    }
  }

  lemma ShownTrashed(u: Usage, files: Bills, trash: Bills, uploads: Bills, id: Id, x: Charge<Owner>)
    requires Shown(u, files, trash, uploads) && NonNegative(files) && NonNegative(trash) && Fits(files) && x.size >= 0
    requires GetAt(files, id) == Some(x) && GetAt(trash, id) == None && Fits(SetAt(trash, id, Some(x)))
    ensures Shown(
      MovedUsage(u, x.owner, Some(Files), Some(Trash), x.size), SetAt(files, id, None), SetAt(trash, id, Some(x)),
      uploads)
  {
    BucketReleases(u.files, files, id, x);
    BucketCharges(u.trash, trash, id, x);
  }

  lemma ShownRestored(u: Usage, files: Bills, trash: Bills, uploads: Bills, id: Id, x: Charge<Owner>)
    requires Shown(u, files, trash, uploads) && NonNegative(files) && NonNegative(trash) && Fits(trash) && x.size >= 0
    requires GetAt(trash, id) == Some(x) && GetAt(files, id) == None && Fits(SetAt(files, id, Some(x)))
    ensures Shown(
      MovedUsage(u, x.owner, Some(Trash), Some(Files), x.size), SetAt(files, id, Some(x)), SetAt(trash, id, None),
      uploads)
  {
    BucketReleases(u.trash, trash, id, x);
    BucketCharges(u.files, files, id, x);
  }

  lemma BookFile(cfg: Config, u: Usage, d: Disk, id: Id, s: Slot, x: Charge<Owner>)
    requires ValidConfig(cfg) && Booked(u, d) && NonNegativeCharges(d)
    requires NonNegativeCharges(Patch(d, id, s)) && WithinQuota(cfg, Patch(d, id, s))
    requires View(d, id) == VACANT && FileChargeAt(s.manifest) == Some(x) && s.trash.None? && x.size >= 0
    ensures Booked(MovedUsage(u, x.owner, None, Some(Files), x.size), Patch(d, id, s))
  {
    var files, trash :| Recorded(d, files, trash) && Shown(u, files, trash, UploadCharges(d));
    RecordedAt(d, files, trash, id);
    RecordedPatch(d, files, trash, id, s);
    RecordedNotNegative(d, files, trash);
    RecordedFits(cfg, Patch(d, id, s), SetAt(files, id, Some(x)), SetAt(trash, id, None));
    RemoveAbsent(trash, id);
    ShownCharged(u, files, trash, UploadCharges(d), id, x);
    SameUploads(d, id, s);
  }

  lemma SameUploads(d: Disk, id: Id, s: Slot)
    ensures UploadCharges(Patch(d, id, s)) == UploadCharges(d)
  {}

  /** What a patch must find and leave so that the books can follow it. */
  ghost predicate CanBook(cfg: Config, u: Usage, d: Disk, id: Id, s: Slot) {
    && ValidConfig(cfg) && Booked(u, d) && NonNegativeCharges(d) && WithinQuota(cfg, d) && !Split(View(d, id))
    && NonNegativeCharges(Patch(d, id, s)) && WithinQuota(cfg, Patch(d, id, s))
  }

  lemma Reopened(cfg: Config, u: Usage, d: Disk, id: Id, s: Slot) returns (files: Bills, trash: Bills)
    requires CanBook(cfg, u, d, id, s)
    ensures Shown(u, files, trash, UploadCharges(d)) && UploadCharges(Patch(d, id, s)) == UploadCharges(d)
    ensures NonNegative(files) && NonNegative(trash) && Fits(files) && Fits(trash)
    ensures GetAt(files, id) == FileChargeAt(GetAt(d.manifests, id))
    ensures GetAt(trash, id) == TrashChargeAt(GetAt(d.trash, id))
    ensures
      var f, t := SetAt(files, id, FileChargeAt(s.manifest)), SetAt(trash, id, TrashChargeAt(s.trash));
      Recorded(Patch(d, id, s), f, t) && Fits(f) && Fits(t)
  {
    files, trash :| Recorded(d, files, trash) && Shown(u, files, trash, UploadCharges(d));
    RecordedAt(d, files, trash, id);
    RecordedPatch(d, files, trash, id, s);
    RecordedFits(cfg, d, files, trash);
    RecordedFits(cfg, Patch(d, id, s), SetAt(files, id, FileChargeAt(s.manifest)),
                 SetAt(trash, id, TrashChargeAt(s.trash)));
    SameUploads(d, id, s);
  }

  lemma BookTrashed(cfg: Config, u: Usage, d: Disk, id: Id, s: Slot, x: Charge<Owner>)
    requires CanBook(cfg, u, d, id, s) && x.size >= 0
    requires FileChargeAt(GetAt(d.manifests, id)) == Some(x) && TrashChargeAt(GetAt(d.trash, id)) == None
    requires FileChargeAt(s.manifest) == None && TrashChargeAt(s.trash) == Some(x)
    ensures Booked(MovedUsage(u, x.owner, Some(Files), Some(Trash), x.size), Patch(d, id, s))
  {
    var files, trash := Reopened(cfg, u, d, id, s);
    ShownTrashed(u, files, trash, UploadCharges(d), id, x);
  }

  lemma BookRestored(cfg: Config, u: Usage, d: Disk, id: Id, s: Slot, x: Charge<Owner>)
    requires CanBook(cfg, u, d, id, s) && x.size >= 0
    requires TrashChargeAt(GetAt(d.trash, id)) == Some(x) && FileChargeAt(GetAt(d.manifests, id)) == None
    requires TrashChargeAt(s.trash) == None && FileChargeAt(s.manifest) == Some(x)
    ensures Booked(MovedUsage(u, x.owner, Some(Trash), Some(Files), x.size), Patch(d, id, s))
  {
    var files, trash := Reopened(cfg, u, d, id, s);
    ShownRestored(u, files, trash, UploadCharges(d), id, x);
  }

  lemma BookPurged(cfg: Config, u: Usage, d: Disk, id: Id, s: Slot, x: Charge<Owner>)
    requires CanBook(cfg, u, d, id, s) && TrashChargeAt(GetAt(d.trash, id)) == Some(x)
    requires TrashChargeAt(s.trash) == None && FileChargeAt(s.manifest) == FileChargeAt(GetAt(d.manifests, id))
    ensures Booked(MovedUsage(u, x.owner, Some(Trash), None, x.size), Patch(d, id, s))
  {
    var files, trash := Reopened(cfg, u, d, id, s);
    SetSame(files, id);
    ShownReleased(u, files, trash, UploadCharges(d), id, x);
  }

  lemma RecordedUnderSession(d: Disk, files: Bills, trash: Bills, id: Id, dir: Option<SessionDir>)
    requires Recorded(d, files, trash)
    ensures Recorded(PatchSession(d, id, dir), files, trash)
    ensures UploadCharges(PatchSession(d, id, dir)) == SetAt(UploadCharges(d), id, UploadChargeAt(dir))
    ensures GetAt(UploadCharges(d), id) == UploadChargeAt(GetAt(d.uploads, id))
  {
    forall x ensures BilledAs(View(PatchSession(d, id, dir), x), GetAt(files, x), GetAt(trash, x)) {
      assert BilledAs(View(d, x), GetAt(files, x), GetAt(trash, x));
    }
    ChargesAt(d, id);
    ChargesOfSession(d, id, dir);
  }

  lemma BookSession(cfg: Config, u: Usage, d: Disk, id: Id, dir: SessionDir, x: Charge<Owner>)
    requires ValidConfig(cfg) && Booked(u, d) && NonNegativeCharges(d)
    requires WithinQuota(cfg, PatchSession(d, id, Some(dir)))
    requires id !in d.uploads && UploadCharge(dir) == Some(x) && x.size >= 0
    ensures Booked(MovedUsage(u, x.owner, None, Some(Uploads), x.size), PatchSession(d, id, Some(dir)))
  {
    var e := PatchSession(d, id, Some(dir));
    var files, trash :| Recorded(d, files, trash) && Shown(u, files, trash, UploadCharges(d));
    RecordedUnderSession(d, files, trash, id, Some(dir));
    SessionNotNegative(d, id, Some(dir));
    RecordedFits(cfg, e, files, trash);
    ShownCharged(u, files, trash, UploadCharges(d), id, x);
  }

  /** The session ends: dropped, or replaced by a completed one. */
  lemma BookSessionEnd(cfg: Config, u: Usage, d: Disk, id: Id, dir: Option<SessionDir>, x: Charge<Owner>)
    requires ValidConfig(cfg) && Booked(u, d) && NonNegative(UploadCharges(d)) && Fits(UploadCharges(d))
    requires UploadChargeAt(GetAt(d.uploads, id)) == Some(x) && UploadChargeAt(dir).None?
    ensures Booked(MovedUsage(u, x.owner, Some(Uploads), None, x.size), PatchSession(d, id, dir))
  {
    var files, trash :| Recorded(d, files, trash) && Shown(u, files, trash, UploadCharges(d));
    RecordedUnderSession(d, files, trash, id, dir);
    ShownReleased(u, files, trash, UploadCharges(d), id, x);
  }

  // ---------------------------------------------------------------- every operation

  lemma RebuildIsBilled(cfg: Config, s: Store)
    requires Billed(cfg, s)
    ensures Billed(cfg, Rebuild(s).0) && (!Rebuild(s).1 ==> Rebuild(s).0.usageValid)
  {
    RescanIsBooked(s.disk);
  }

  lemma LoadIsBilled(cfg: Config, s: Store)
    requires Billed(cfg, s)
    ensures Billed(cfg, Load(s)) && (!Load(s).loadFailed ==> Load(s).usageValid)
  {
    RebuildIsBilled(cfg, s);
  }

  lemma GateIsBilled(cfg: Config, s: Store, pause: Pause)
    requires Billed(cfg, s)
    ensures Billed(cfg, PauseGate(s, pause).0)
  {
    LoadIsBilled(cfg, s);
  }

  lemma PutCommitIsBilled(cfg: Config, s: Store, id: Id, bytes: Bytes, info: Info, now: int)
    requires ValidConfig(cfg) && cfg.quota > 0 && Billed(cfg, s) && s.usageValid && View(s.disk, id) == VACANT
    requires QuotaGate(cfg, s, info.owner, |bytes|).None?
    ensures Billed(cfg, PutCommit(cfg, s, id, bytes, info, now))
  {
    var f := NewFile(cfg, id, bytes, info, now);
    var e := Patch(s.disk, id, StoredSlot(bytes, f));
    BilledGateIff(cfg, s, info.owner, |bytes|);
    forall o ensures OwnerBytes(e, o) <= cfg.quota {
      PutCommitCosts(cfg, s, id, bytes, info, now, o);
      assert OwnerBytes(s.disk, o) <= cfg.quota;
    }
    PatchNotNegative(s.disk, id, StoredSlot(bytes, f));
    BookFile(cfg, s.usage, s.disk, id, StoredSlot(bytes, f), Charge(info.owner, f.size));
    CommitIsBilled(cfg, s, e, info.owner, None, Some(Files), f.size);
  }

  lemma PutIsBilled(cfg: Config, s: Store, pause: Pause, id: Id, body: Body, info: Info, now: int)
    requires ValidConfig(cfg) && cfg.quota > 0 && Billed(cfg, s)
    ensures Billed(cfg, Put(cfg, s, pause, id, body, info, now).0)
  {
    GateIsBilled(cfg, s, pause);
    LoadIsBilled(cfg, PauseGate(s, pause).0);
    var t := Load(PauseGate(s, pause).0);
    if PauseGate(s, pause).1.None? && PutError(cfg, t, id, body, info).None? {
      assert View(t.disk, id) == VACANT;
      PutCommitIsBilled(cfg, t, id, body.bytes, info, now);
    }
  }

  lemma DropSessionIsBilled(cfg: Config, s: Store, id: Id)
    requires ValidConfig(cfg) && Billed(cfg, s) && ReadSession(s.disk, id).Ok?
    ensures
      var u, t := ReadSession(s.disk, id).value, s.(disk := PatchSession(s.disk, id, None));
      Billed(cfg, if u.status.Completed? then t else Moved(t, u.info.owner, Some(Uploads), None, u.size))
  {
    var u, e := ReadSession(s.disk, id).value, PatchSession(s.disk, id, None);
    SessionNotNegative(s.disk, id, None);
    forall o ensures OwnerBytes(e, o) <= OwnerBytes(s.disk, o) {
      OwnerBytesOfSession(s.disk, id, None, o);
    }
    ConservingIsWithin(cfg, s.disk, e);
    if u.status.Completed? {
      UploadUnchanged(s.disk, id, None);
      SameRecordsAreBilled(cfg, s, e);
    } else {
      if s.usageValid {
        UploadsFit(cfg, s.disk);
        BookSessionEnd(cfg, s.usage, s.disk, id, None, Charge(u.info.owner, u.size));
      }
      CommitIsBilled(cfg, s, e, u.info.owner, Some(Uploads), None, u.size);
    }
  }

  lemma UploadsFit(cfg: Config, d: Disk)
    requires ValidConfig(cfg) && NonNegativeCharges(d) && WithinQuota(cfg, d)
    ensures Fits(UploadCharges(d))
  {
    WithinQuotaFits(cfg, d);
  }

  lemma SweepOneIsBilled(cfg: Config, s: Store, id: Id, now: int)
    requires ValidConfig(cfg) && Billed(cfg, s)
    ensures Billed(cfg, SweepOne(cfg, s, id, now))
  {
    if id in s.disk.uploads && Expired(cfg, s.disk.uploads[id], id, now) {
      DropSessionIsBilled(cfg, s, id);
    }
  }

  lemma {:induction false} SweepIsBilled(cfg: Config, s: Store, listing: seq<Id>, now: int)
    requires ValidConfig(cfg) && Billed(cfg, s)
    ensures Billed(cfg, SweepAll(cfg, s, listing, now))
  {
    if listing != [] {
      var n := |listing| - 1;
      SweepIsBilled(cfg, s, listing[..n], now);
      SweepOneIsBilled(cfg, SweepAll(cfg, s, listing[..n], now), listing[n], now);
    }
  }

  lemma AdmitIsBilled(cfg: Config, s: Store, id: Id, size: int, checksum: string, info: Info, now: int)
    requires ValidConfig(cfg) && cfg.quota > 0 && Billed(cfg, s) && s.usageValid && size > 0
    ensures Billed(cfg, Admit(cfg, s, id, size, checksum, info, now).0)
  {
    if Admit(cfg, s, id, size, checksum, info, now).1.Ok? {
      var u := NewSession(id, size, checksum, info, now);
      var e := PatchSession(s.disk, id, Some(StartedDir(u)));
      BilledGateIff(cfg, s, info.owner, size);
      forall o ensures OwnerBytes(e, o) <= cfg.quota {
        StartCommitCosts(s, id, u, o);
        assert OwnerBytes(s.disk, o) <= cfg.quota;
      }
      SessionNotNegative(s.disk, id, Some(StartedDir(u)));
      BookSession(cfg, s.usage, s.disk, id, StartedDir(u), Charge(info.owner, size));
      CommitIsBilled(cfg, s, e, info.owner, None, Some(Uploads), size);
    }
  }

  lemma StartIsBilled(
    cfg: Config, s: Store, pause: Pause, listing: seq<Id>, id: Id, size: int, checksum: string, info: Info, now: int)
    requires ValidConfig(cfg) && cfg.quota > 0 && Billed(cfg, s)
    ensures Billed(cfg, StartUpload(cfg, s, pause, listing, id, size, checksum, info, now).0)
  {
    var gated := PauseGate(s, pause).0;
    GateIsBilled(cfg, s, pause);
    SweepIsBilled(cfg, gated, listing, now);
    LoadIsBilled(cfg, SweepAll(cfg, gated, listing, now));
    StartCases(cfg, s, pause, listing, id, size, checksum, info, now);
    var t := Load(SweepAll(cfg, gated, listing, now));
    var r := StartUpload(cfg, s, pause, listing, id, size, checksum, info, now);
    if r.1.Ok? {
      AdmitIsBilled(cfg, t, id, size, Text.Lower(Text.TrimSpace(checksum)), info, now);
    }
  }

  /** A session directory replaced by one that costs the same. */
  lemma SameSessionIsBilled(cfg: Config, s: Store, id: Id, dir: SessionDir)
    requires Billed(cfg, s) && id in s.disk.uploads && UploadCharge(dir) == UploadCharge(s.disk.uploads[id])
    ensures Billed(cfg, s.(disk := PatchSession(s.disk, id, Some(dir))))
  {
    UploadUnchanged(s.disk, id, Some(dir));
    SameRecordsAreBilled(cfg, s, PatchSession(s.disk, id, Some(dir)));
  }

  lemma AppendIsBilled(
    cfg: Config, s: Store, pause: Pause, id: Id, offset: int, chunkSize: int, body: Body, checksum: string, now: int)
    requires Billed(cfg, s)
    ensures Billed(cfg, AppendUpload(cfg, s, pause, id, offset, chunkSize, body, checksum, now).0)
  {
    var gated := PauseGate(s, pause).0;
    GateIsBilled(cfg, s, pause);
    GateKeepsDisk(s, pause);
    if AppendUpload(cfg, s, pause, id, offset, chunkSize, body, checksum, now).1.Ok? {
      var u, dir := ReadSession(s.disk, id).value, s.disk.uploads[id];
      SameSessionIsBilled(cfg, gated, id, AppendedDir(dir, body.bytes, Grown(u, body.bytes, now)));
    }
  }

  lemma BookCompleted(cfg: Config, u: Usage, d: Disk, id: Id, fileId: Id, f: File, done: Session, x: Charge<Owner>)
    requires ValidConfig(cfg) && Booked(u, d) && NonNegativeCharges(d) && WithinQuota(cfg, d)
    requires View(d, fileId) == VACANT && id in d.uploads && d.uploads[id].data.Some? && done.status.Completed?
    requires UploadCharge(d.uploads[id]) == Some(x) == FileCharge(f) && x.size >= 0
    ensures Booked(MovedUsage(u, x.owner, Some(Uploads), Some(Files), x.size), CompletedDisk(d, id, fileId, f, done))
  {
    var dir := d.uploads[id].(data := None, manifest := Some(done));
    var ended, v := PatchSession(d, id, Some(dir)), MovedUsage(u, x.owner, Some(Uploads), None, x.size);
    UploadsFit(cfg, d);
    BookSessionEnd(cfg, u, d, id, Some(dir), x);
    SessionNotNegative(d, id, Some(dir));
    CompletionIsWithin(cfg, d, id, fileId, f, done, x);
    BookFile(cfg, v, ended, fileId, StoredSlot(d.uploads[id].data.value, f), x);
    OtherOrder(u, x.owner, x.size);
  }

  lemma OtherOrder(u: Usage, owner: Owner, size: int)
    ensures MovedUsage(u, owner, Some(Uploads), Some(Files), size)
            == MovedUsage(MovedUsage(u, owner, Some(Uploads), None, size), owner, None, Some(Files), size)
  {}

  lemma CompletionIsWithin(cfg: Config, d: Disk, id: Id, fileId: Id, f: File, done: Session, x: Charge<Owner>)
    requires NonNegativeCharges(d) && WithinQuota(cfg, d)
    requires View(d, fileId) == VACANT && id in d.uploads && d.uploads[id].data.Some? && done.status.Completed?
    requires UploadCharge(d.uploads[id]) == Some(x) == FileCharge(f) && x.size >= 0
    ensures
      var slot, dir := StoredSlot(d.uploads[id].data.value, f), d.uploads[id].(data := None, manifest := Some(done));
      var e := Patch(PatchSession(d, id, Some(dir)), fileId, slot);
      e == CompletedDisk(d, id, fileId, f, done) && NonNegativeCharges(e) && WithinQuota(cfg, e)
  {
    var slot, dir := StoredSlot(d.uploads[id].data.value, f), d.uploads[id].(data := None, manifest := Some(done));
    SessionNotNegative(d, id, Some(dir));
    PatchNotNegative(PatchSession(d, id, Some(dir)), fileId, slot);
    forall o ensures OwnerBytes(CompletedDisk(d, id, fileId, f, done), o) <= OwnerBytes(d, o) {
      CompletionConserves(d, id, fileId, f, done, o);
    }
    ConservingIsWithin(cfg, d, CompletedDisk(d, id, fileId, f, done));
  }

  lemma CompleteIsBilled(cfg: Config, s: Store, id: Id, fileId: Id, now: int)
    requires ValidConfig(cfg) && Billed(cfg, s) && View(s.disk, fileId) == VACANT
    ensures Billed(cfg, CompleteUpload(cfg, s, id, fileId, now).0)
  {
    CompleteOutcomes(cfg, s, id, fileId, now);
    var t := CompleteUpload(cfg, s, id, fileId, now).0;
    if ReadSession(s.disk, id).Ok? && ReadSession(s.disk, id).value.status.Uploading? {
      if CompleteUpload(cfg, s, id, fileId, now).1.Ok? {
        CompleteCommitIsBilled(cfg, s, id, fileId, now);
      } else {
        PartLostIsBilled(cfg, s, id);
      }
    }
  }

  lemma CompleteCommitIsBilled(cfg: Config, s: Store, id: Id, fileId: Id, now: int)
    requires ValidConfig(cfg) && Billed(cfg, s) && View(s.disk, fileId) == VACANT
    requires ReadSession(s.disk, id).Ok? && ReadSession(s.disk, id).value.status.Uploading?
    ensures Billed(cfg, CompleteCommit(cfg, s, id, fileId, ReadSession(s.disk, id).value, now))
  {
    var u, bytes := ReadSession(s.disk, id).value, s.disk.uploads[id].data.value;
    var f, done := CompletedFile(cfg, u, fileId, bytes), CompletedSession(u, fileId, now);
    var x := Charge(u.info.owner, u.size);
    if s.usageValid {
      BookCompleted(cfg, s.usage, s.disk, id, fileId, f, done, x);
    }
    CompletionIsWithin(cfg, s.disk, id, fileId, f, done, x);
    CommitIsBilled(cfg, s, CompletedDisk(s.disk, id, fileId, f, done), u.info.owner, Some(Uploads), Some(Files),
                   u.size);
  }

  lemma AbortIsBilled(cfg: Config, s: Store, id: Id)
    requires ValidConfig(cfg) && Billed(cfg, s)
    ensures Billed(cfg, AbortUpload(s, id).0)
  {
    if AbortUpload(s, id).1.Ok? && ReadSession(s.disk, id).Ok? {
      DropSessionIsBilled(cfg, s, id);
    }
  }

  lemma DeleteIsBilled(cfg: Config, s: Store, id: Id, now: int)
    requires ValidConfig(cfg) && Billed(cfg, s)
    ensures Billed(cfg, Delete(s, id, now).0)
  {
    if Delete(s, id, now).0 != s {
      TrashedIsBilled(cfg, s, id, now);
    }
  }

  lemma TrashedIsBilled(cfg: Config, s: Store, id: Id, now: int)
    requires ValidConfig(cfg) && Billed(cfg, s) && Delete(s, id, now).0 != s
    ensures Billed(cfg, Delete(s, id, now).0)
  {
    var v := View(s.disk, id);
    var f := v.manifest.value.(deletedAt := Some(now));
    var w := DeletedSlot(v, f);
    ChargesAt(s.disk, id);
    NotNegativeAt(FileCharges(s.disk), id);
    CheaperIsWithin(cfg, s.disk, id, w);
    if s.usageValid {
      BookTrashed(cfg, s.usage, s.disk, id, w, Charge(f.info.owner, f.size));
    }
    CommitIsBilled(cfg, s, Patch(s.disk, id, w), f.info.owner, Some(Files), Some(Trash), f.size);
  }

  lemma RestoreIsBilled(cfg: Config, s: Store, id: Id)
    requires ValidConfig(cfg) && Billed(cfg, s)
    ensures Billed(cfg, Restore(s, id).0)
  {
    if Restore(s, id).1.Ok? {
      var f := ReadTrash(s.disk, id).value.(deletedAt := None);
      RestoredIsBilled(cfg, s, id, RestoredSlot(View(s.disk, id), f), f);
    }
  }

  lemma RestoredIsBilled(cfg: Config, s: Store, id: Id, w: Slot, f: File)
    requires ValidConfig(cfg) && Billed(cfg, s) && Restorable(s.disk, id)
    requires f == ReadTrash(s.disk, id).value.(deletedAt := None)
    requires w == RestoredSlot(View(s.disk, id), f)
    ensures Billed(cfg, Moved(s.(disk := Patch(s.disk, id, w)), f.info.owner, Some(Trash), Some(Files), f.size))
  {
    CheaperIsWithin(cfg, s.disk, id, w);
    if s.usageValid {
      BookRestored(cfg, s.usage, s.disk, id, w, Charge(f.info.owner, f.size));
    }
    CommitIsBilled(cfg, s, Patch(s.disk, id, w), f.info.owner, Some(Trash), Some(Files), f.size);
  }

  lemma PurgeOneIsBilled(cfg: Config, s: Store, id: Id, olderThan: Option<int>)
    requires ValidConfig(cfg) && Billed(cfg, s) && ReadTrash(s.disk, id).Ok?
    ensures Billed(cfg, PurgeOne(s, id, olderThan))
  {
    if Purged(ReadTrash(s.disk, id).value, olderThan) {
      DestroyedIsBilled(cfg, s, id, View(s.disk, id).(trash := None), ReadTrash(s.disk, id).value);
    }
  }

  lemma DestroyedIsBilled(cfg: Config, s: Store, id: Id, w: Slot, f: File)
    requires ValidConfig(cfg) && Billed(cfg, s) && ReadTrash(s.disk, id) == Ok(f)
    requires w == View(s.disk, id).(trash := None)
    ensures Billed(cfg, Moved(s.(disk := Patch(s.disk, id, w)), f.info.owner, Some(Trash), None, f.size))
  {
    ChargesAt(s.disk, id);
    NotNegativeAt(FileCharges(s.disk), id);
    CheaperIsWithin(cfg, s.disk, id, w);
    if s.usageValid {
      BookPurged(cfg, s.usage, s.disk, id, w, Charge(f.info.owner, f.size));
    }
    CommitIsBilled(cfg, s, Patch(s.disk, id, w), f.info.owner, Some(Trash), None, f.size);
  }

  lemma {:induction false} PurgeIsBilled(cfg: Config, s: Store, listing: seq<Id>, olderThan: Option<int>)
    requires ValidConfig(cfg) && Billed(cfg, s)
    ensures Billed(cfg, PurgeAll(s, listing, olderThan).0)
  {
    if listing != [] {
      var n := |listing| - 1;
      PurgeIsBilled(cfg, s, listing[..n], olderThan);
      var (t, e) := PurgeAll(s, listing[..n], olderThan);
      if e.None? && ReadTrash(t.disk, listing[n]).Ok? {
        PurgeOneIsBilled(cfg, t, listing[n], olderThan);
      }
    }
  }

  // ---------------------------------------------------------------- Recover, and failures that leave a mark

  /** What Recover takes away costs nothing. */
  lemma PartlyKeptCostsTheSame(before: map<Id, SessionDir>, after: map<Id, SessionDir>)
    requires R.UploadsPartlyKept(before, after)
    ensures Select(after, UploadCharge) == Select(before, UploadCharge)
  {
    forall id ensures GetAt(Select(after, UploadCharge), id) == GetAt(Select(before, UploadCharge), id) {
      assert R.PartlyKept(GetAt(before, id), GetAt(after, id));
      SelectGet(before, UploadCharge, id);
      SelectGet(after, UploadCharge, id);
    }
    SameGets(Select(after, UploadCharge), Select(before, UploadCharge));
  }

  lemma PartlyCleanedIsBilled(cfg: Config, s: Store, e: Disk)
    requires Billed(cfg, s) && R.PartlyCleaned(s.disk, e)
    ensures Billed(cfg, s.(disk := e))
  {
    PartlyKeptCostsTheSame(s.disk.uploads, e.uploads);
    SameRecordsAreBilled(cfg, s, e);
  }

  lemma CleanedIsBilled(cfg: Config, s: Store, now: int)
    requires Billed(cfg, s) && R.CanQuarantine(s.disk, now)
    ensures Billed(cfg, s.(disk := R.Cleaned(s.disk, now)))
  {
    R.AllDirsRemain(s.disk.uploads);
    PartlyKeptCostsTheSame(s.disk.uploads, R.KeptSessions(s.disk.uploads));
    SameRecordsAreBilled(cfg, s, R.Cleaned(s.disk, now));
  }

  lemma RecoverIsBilled(cfg: Config, s: Store, listing: seq<Id>, now: int)
    requires ValidConfig(cfg) && Billed(cfg, s) && R.CanQuarantine(s.disk, now)
    ensures Billed(cfg, R.Recover(cfg, s, listing, now).0)
  {
    var cleaned := s.(disk := R.Cleaned(s.disk, now));
    CleanedIsBilled(cfg, s, now);
    SweepIsBilled(cfg, cleaned, listing, now);
    RebuildIsBilled(cfg, SweepAll(cfg, cleaned, listing, now));
  }

  lemma PartLostIsBilled(cfg: Config, s: Store, id: Id)
    requires Billed(cfg, s) && id in s.disk.uploads
    ensures Billed(cfg, s.(disk := PartLost(s.disk, id)))
  {
    SameSessionIsBilled(cfg, s, id, s.disk.uploads[id].(data := None));
  }

  /** The entry that has lost its deletion time costs what it did, and so does the split file. */
  lemma LateRestoreIsBilled(cfg: Config, s: Store, id: Id, w: Slot)
    requires Billed(cfg, s) && Restorable(s.disk, id)
    requires
      var v, f := View(s.disk, id), ReadTrash(s.disk, id).value.(deletedAt := None);
      || w == v.(trash := Some(v.trash.value.(manifest := Some(f))))
      || w == v.(manifest := Some(f), content := None, trash := Some(TrashDir(v.trash.value.content, None, None)))
    ensures Billed(cfg, s.(disk := Patch(s.disk, id, w)))
  {
    var e := Patch(s.disk, id, w);
    CheaperIsWithin(cfg, s.disk, id, w);
    if s.usageValid {
      var files, trash :| Recorded(s.disk, files, trash) && Shown(s.usage, files, trash, UploadCharges(s.disk));
      RecordedAt(s.disk, files, trash, id);
      forall x ensures BilledAs(View(e, x), GetAt(files, x), GetAt(trash, x)) {
        ViewPatch(s.disk, id, w, x);
        assert BilledAs(View(s.disk, x), GetAt(files, x), GetAt(trash, x));
      }
      assert Recorded(e, files, trash) && UploadCharges(e) == UploadCharges(s.disk);
    }
  }

  lemma RestoreClearedIsBilled(cfg: Config, s: Store, id: Id)
    requires Billed(cfg, s) && Restorable(s.disk, id)
    ensures Billed(cfg, s.(disk := RestoreCleared(s.disk, id)))
  {
    var v, f := View(s.disk, id), ReadTrash(s.disk, id).value.(deletedAt := None);
    LateRestoreIsBilled(cfg, s, id, v.(trash := Some(v.trash.value.(manifest := Some(f)))));
  }

  lemma RestoreSplitIsBilled(cfg: Config, s: Store, id: Id)
    requires Billed(cfg, s) && Restorable(s.disk, id)
    ensures Billed(cfg, s.(disk := RestoreSplit(s.disk, id)))
  {
    var v, f := View(s.disk, id), ReadTrash(s.disk, id).value.(deletedAt := None);
    LateRestoreIsBilled(
      cfg, s, id, v.(manifest := Some(f), content := None, trash := Some(TrashDir(v.trash.value.content, None, None))));
  }

  /** A new process starts without an index. */
  lemma OpenedIsBilled(cfg: Config, d: Disk, e: Disk)
    requires WithinQuota(cfg, d) && NonNegativeCharges(e) && forall o :: OwnerBytes(e, o) <= OwnerBytes(d, o)
    ensures Billed(cfg, Opened(e))
  {
    ConservingIsWithin(cfg, d, e);
  }
}
