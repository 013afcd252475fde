/** The data directory: its entries, how the store reads them, and when it is sound. */
module DiskModel {
  import opened Basics
  import opened Maps
  import opened Accounting

  /** The descriptive part of a record, carried along unchanged, with the owner that its
      metadata names. */
  datatype Info = Info(name: string, contentType: string, metadata: map<string, string>, owner: Owner)

  function Describe(name: string, contentType: string, metadata: map<string, string>): Info {
    Info(name, contentType, metadata, OwnerFromMetadata(metadata))
  }

  datatype File = File(
    id: Id, info: Info, size: int, checksum: string, available: bool, createdAt: int,
    deletedAt: Option<int>)

  datatype SessionStatus = Uploading | Completed | OtherStatus

  datatype Session = Session(
    id: Id, fileId: Option<Id>, info: Info, size: int, checksum: string, received: int,
    status: SessionStatus, createdAt: int, updatedAt: int)

  /** A temporary file: written in part, or in full and synced. */
  datatype Tmp<+T> = Torn | Whole(value: T)

  datatype SessionDir = SessionDir(
    manifest: Option<Session>, manifestTmp: Option<Tmp<Session>>, data: Option<Bytes>)

  datatype TrashDir = TrashDir(
    content: Option<Bytes>, manifest: Option<File>, manifestTmp: Option<Tmp<File>>)

  /** The names Recover gives what it moves: the group and base name of the artifact, with
      the clock reading in front when the base name is taken. */
  datatype Leftover = PartialObject(id: Id) | MetadataTmp(id: Id) | UploadTmp(id: Id) | UploadDir(id: Id)
  datatype QuarantineName = Plain(leftover: Leftover) | Stamped(nanos: int, leftover: Leftover)
  datatype Artifact =
    | PartFile(bytes: Bytes)
    | FileTmp(file: Tmp<File>)
    | SessionTmp(session: Tmp<Session>)
    | SessionTree(data: Option<Bytes>)

  datatype Disk = Disk(
    objects: map<Id, Bytes>,              // objects/<id>
    manifests: map<Id, File>,             // metadata/<id>.json
    manifestTmps: map<Id, Tmp<File>>,     // metadata/<id>.json.tmp
    parts: map<Id, Bytes>,                // tmp/<id>.part
    probe: bool,                          // tmp/.ready-*, the file of a readiness probe
    uploads: map<Id, SessionDir>,         // uploads/<id>/
    trash: map<Id, TrashDir>,             // trash/<id>/
    quarantine: map<QuarantineName, Artifact>)

  const EMPTY := Disk(map[], map[], map[], map[], false, map[], map[], map[])

  // ---------------------------------------------------------------- one identifier at a time

  /** Everything on disk that carries one file identifier. */
  datatype Slot = Slot(
    part: Option<Bytes>, content: Option<Bytes>, manifestTmp: Option<Tmp<File>>, manifest: Option<File>,
    trash: Option<TrashDir>)

  const VACANT := Slot(None, None, None, None, None)

  function View(d: Disk, id: Id): Slot {
    Slot(GetAt(d.parts, id), GetAt(d.objects, id), GetAt(d.manifestTmps, id), GetAt(d.manifests, id),
         GetAt(d.trash, id))
  }

  function Patch(d: Disk, id: Id, s: Slot): Disk {
    d.(parts := SetAt(d.parts, id, s.part),
       objects := SetAt(d.objects, id, s.content),
       manifestTmps := SetAt(d.manifestTmps, id, s.manifestTmp),
       manifests := SetAt(d.manifests, id, s.manifest),
       trash := SetAt(d.trash, id, s.trash))
  }

  function PatchSession(d: Disk, id: Id, dir: Option<SessionDir>): Disk {
    d.(uploads := SetAt(d.uploads, id, dir))
  }

  /** A patch changes its own identifier and no other. */
  lemma ViewPatch(d: Disk, id: Id, s: Slot, x: Id)
    ensures View(Patch(d, id, s), x) == if x == id then s else View(d, x)
  {
    GetSet(d.parts, id, s.part, x);
    GetSet(d.objects, id, s.content, x);
    GetSet(d.manifestTmps, id, s.manifestTmp, x);
    GetSet(d.manifests, id, s.manifest, x);
    GetSet(d.trash, id, s.trash, x);
  }

  lemma PatchPatch(d: Disk, id: Id, s: Slot, t: Slot)
    ensures Patch(Patch(d, id, s), id, t) == Patch(d, id, t)
  {
    SetSet(d.parts, id, s.part, t.part);
    SetSet(d.objects, id, s.content, t.content);
    SetSet(d.manifestTmps, id, s.manifestTmp, t.manifestTmp);
    SetSet(d.manifests, id, s.manifest, t.manifest);
    SetSet(d.trash, id, s.trash, t.trash);
  }

  lemma PatchSame(d: Disk, id: Id)
    ensures Patch(d, id, View(d, id)) == d
  {
    SetSame(d.parts, id);
    SetSame(d.objects, id);
    SetSame(d.manifestTmps, id);
    SetSame(d.manifests, id);
    SetSame(d.trash, id);
  }

  lemma PatchSessionTwice(d: Disk, id: Id, a: Option<SessionDir>, b: Option<SessionDir>)
    ensures PatchSession(PatchSession(d, id, a), id, b) == PatchSession(d, id, b)
  {
    SetSet(d.uploads, id, a, b);
  }

  lemma PatchSessionSame(d: Disk, id: Id)
    ensures PatchSession(d, id, GetAt(d.uploads, id)) == d
  {
    SetSame(d.uploads, id);
  }

  // ---------------------------------------------------------------- reading records

  predicate GoodFile(f: File, id: Id) {
    f.id == id && f.available && f.size >= 0 && f.checksum != ""
  }

  /** getUnlocked */
  function ReadFile(d: Disk, id: Id): (r: Outcome<File>)
    ensures r.Ok? ==> r.value.id == id && r.value.available && 0 <= r.value.size && |r.value.checksum| > 0
    ensures r == Err(NotFound) <==> GetAt(d.manifests, id) == None
  {
    if id !in d.manifests then Err(NotFound)
    else if !GoodFile(d.manifests[id], id) then Err(CorruptMetadata)
    else Ok(d.manifests[id])
  }

  /** getTrashUnlocked */
  function ReadTrash(d: Disk, id: Id): Outcome<File> {
    if id !in d.trash then Err(NotFound) else ReadTrashDir(d.trash[id], id)
  }

  function ReadTrashDir(dir: TrashDir, id: Id): (r: Outcome<File>)
    ensures r.Ok? ==>
      && dir.manifest == Some(r.value) && dir.content.Some? && |dir.content.value| == r.value.size
      && r.value.id == id && r.value.available && |r.value.checksum| > 0 && r.value.deletedAt != None
    ensures r == Err(NotFound) <==> dir.manifest == None
  {
    if dir.manifest.None? then Err(NotFound)
    else
      var f := dir.manifest.value;
      if !GoodFile(f, id) || f.deletedAt.None? then Err(CorruptMetadata)
      else if dir.content.None? || |dir.content.value| != f.size then Err(CorruptMetadata)
      else Ok(f)
  }

  /** getUploadUnlocked */
  function ReadSession(d: Disk, id: Id): Outcome<Session> {
    if id !in d.uploads then Err(UploadNotFound) else ReadSessionDir(d.uploads[id], id)
  }

  function ReadSessionDir(dir: SessionDir, id: Id): (r: Outcome<Session>)
    ensures r.Ok? ==>
      && dir.manifest == Some(r.value) && r.value.id == id && 0 <= r.value.received <= r.value.size && 0 < r.value.size
      && (r.value.status == Completed ==> r.value.fileId != None)
      && (r.value.status == Uploading ==> dir.data.Some? && |dir.data.value| == r.value.received)
      && (r.value.status == Completed || r.value.status == Uploading)
    ensures r == Err(UploadNotFound) <==> dir.manifest == None
  {
    if dir.manifest.None? then Err(UploadNotFound)
    else
      var u := dir.manifest.value;
      if u.id != id || u.status.OtherStatus? || u.size <= 0 || u.received < 0 || u.received > u.size then
        Err(CorruptMetadata)
      else if u.status.Uploading? && (dir.data.None? || |dir.data.value| != u.received) then Err(CorruptMetadata)
      else if u.status.Completed? && u.fileId.None? then Err(CorruptMetadata)
      else Ok(u)
  }

  // ---------------------------------------------------------------- readiness and soundness

  /** What the readiness probe accepts under one file identifier: no temporary file, an
      object with a readable manifest or neither, a complete trash entry or none. */
  predicate SlotReady(s: Slot, id: Id) {
    && s.part.None? && s.manifestTmp.None?
    && (s.content.Some? <==> s.manifest.Some?)
    && (s.manifest.Some? ==> GoodFile(s.manifest.value, id))
    && (s.trash.Some? ==> s.trash.value.manifestTmp.None? && ReadTrashDir(s.trash.value, id).Ok?)
  }

  predicate SessionReady(dir: SessionDir, id: Id) {
    && dir.manifestTmp.None?
    && ReadSessionDir(dir, id).Ok?
    && (ReadSessionDir(dir, id).value.status.Completed? ==> dir.data.None?)
  }

  /** What the readiness probe accepts. */
  ghost predicate Ready(d: Disk) {
    && !d.probe
    && (forall id :: SlotReady(View(d, id), id))
    && (forall id | id in d.uploads :: SessionReady(d.uploads[id], id))
  }

  predicate Complete(sha: Bytes -> string, f: File, bytes: Bytes) {
    |bytes| == f.size && f.checksum == sha(bytes)
  }

  /** A file visible through its manifest, active or trashed, has all its bytes, and the
      identifier is active or in trash, never both. */
  predicate SlotIntact(sha: Bytes -> string, s: Slot) {
    && (s.manifest.Some? && s.content.Some? ==>
          Complete(sha, s.manifest.value, s.content.value) && s.manifest.value.deletedAt.None?)
    && (s.trash.Some? && s.trash.value.manifest.Some? && s.trash.value.content.Some? ==>
          Complete(sha, s.trash.value.manifest.value, s.trash.value.content.value))
    && !(s.manifest.Some? && s.trash.Some?)
  }

  predicate SlotSound(sha: Bytes -> string, s: Slot, id: Id) {
    SlotReady(s, id) && SlotIntact(sha, s)
  }

  /** Ready, and every file complete and in one place only. */
  ghost predicate Sound(sha: Bytes -> string, d: Disk) {
    && !d.probe
    && (forall id :: SlotSound(sha, View(d, id), id))
    && (forall id | id in d.uploads :: SessionReady(d.uploads[id], id))
  }

  lemma SoundIsReady(sha: Bytes -> string, d: Disk)
    requires Sound(sha, d)
    ensures Ready(d)
  {
    forall id ensures SlotReady(View(d, id), id) {
      assert SlotSound(sha, View(d, id), id);
    }
  }

  lemma PatchSound(sha: Bytes -> string, d: Disk, id: Id, s: Slot)
    requires Sound(sha, d) && SlotSound(sha, s, id)
    ensures Sound(sha, Patch(d, id, s))
  {
    forall x ensures SlotSound(sha, View(Patch(d, id, s), x), x) {
      ViewPatch(d, id, s, x);
      assert SlotSound(sha, View(d, x), x);
    }
  }

  /** From a ready store, a patch leaves it ready exactly when the new slot is. */
  lemma PatchReadyIff(d: Disk, id: Id, s: Slot)
    requires Ready(d)
    ensures Ready(Patch(d, id, s)) <==> SlotReady(s, id)
  {
    ViewPatch(d, id, s, id);
    if SlotReady(s, id) {
      forall x ensures SlotReady(View(Patch(d, id, s), x), x) {
        ViewPatch(d, id, s, x);
        assert SlotReady(View(d, x), x);
      }
    } else {
      assert !SlotReady(View(Patch(d, id, s), id), id);
    }
  }

  lemma PatchSessionSound(sha: Bytes -> string, d: Disk, id: Id, dir: Option<SessionDir>)
    requires Sound(sha, d) && (dir.Some? ==> SessionReady(dir.value, id))
    ensures Sound(sha, PatchSession(d, id, dir))
  {
    var d' := PatchSession(d, id, dir);
    forall x ensures SlotSound(sha, View(d', x), x) {
      assert View(d', x) == View(d, x);
      assert SlotSound(sha, View(d, x), x);
    }
  }

  // ---------------------------------------------------------------- what a rescan charges

  function FileCharge(f: File): Option<Charge<Owner>> {
    Some(Charge(f.info.owner, f.size))
  }

  function TrashCharge(dir: TrashDir): Option<Charge<Owner>> {
    if dir.manifest.Some? then FileCharge(dir.manifest.value) else None
  }

  /** An open session costs its declared size, a completed one nothing. */
  function UploadCharge(dir: SessionDir): Option<Charge<Owner>> {
    if dir.manifest.Some? && dir.manifest.value.status.Uploading?
    then Some(Charge(dir.manifest.value.info.owner, dir.manifest.value.size))
    else None
  }

  /** The same for an entry that may be absent. */
  function FileChargeAt(f: Option<File>): Option<Charge<Owner>> {
    if f.Some? then FileCharge(f.value) else None
  }

  function TrashChargeAt(dir: Option<TrashDir>): Option<Charge<Owner>> {
    if dir.Some? then TrashCharge(dir.value) else None
  }

  function UploadChargeAt(dir: Option<SessionDir>): Option<Charge<Owner>> {
    if dir.Some? then UploadCharge(dir.value) else None
  }

  ghost function FileCharges(d: Disk): Charges<Id, Owner> {
    Select(d.manifests, FileCharge)
  }

  ghost function TrashCharges(d: Disk): Charges<Id, Owner> {
    Select(d.trash, TrashCharge)
  }

  ghost function UploadCharges(d: Disk): Charges<Id, Owner> {
    Select(d.uploads, UploadCharge)
  }

  ghost predicate AllFit(d: Disk) {
    Fits(FileCharges(d)) && Fits(TrashCharges(d)) && Fits(UploadCharges(d))
  }

  /** When rebuildUsageLocked succeeds. */
  ghost predicate CanRescan(d: Disk) {
    && (forall id | id in d.manifests :: ReadFile(d, id).Ok?)
    && (forall id | id in d.trash :: ReadTrash(d, id).Ok?)
    && (forall id | id in d.uploads :: ReadSession(d, id).Ok?)
    && AllFit(d)
  }

  /** The bytes an owner is charged for on disk, over files, trash and reservations. */
  ghost function OwnerBytes(d: Disk, owner: Owner): int {
    BytesOf(FileCharges(d), owner) + BytesOf(TrashCharges(d), owner) + BytesOf(UploadCharges(d), owner)
  }

  ghost predicate NonNegativeCharges(d: Disk) {
    NonNegative(FileCharges(d)) && NonNegative(TrashCharges(d)) && NonNegative(UploadCharges(d))
  }

  lemma ReadyIsNonNegative(d: Disk)
    requires Ready(d)
    ensures NonNegativeCharges(d)
  {
    forall id | id in FileCharges(d) ensures FileCharges(d)[id].size >= 0 {
      assert SlotReady(View(d, id), id);
    }
    forall id | id in TrashCharges(d) ensures TrashCharges(d)[id].size >= 0 {
      assert SlotReady(View(d, id), id);
    }
    forall id | id in UploadCharges(d) ensures UploadCharges(d)[id].size >= 0 {
      assert SessionReady(d.uploads[id], id);
    }
  }

  /** A ready store can be rescanned unless some owner's bytes overflow. */
  lemma ReadyRescansIff(d: Disk)
    requires Ready(d)
    ensures CanRescan(d) <==> AllFit(d)
  {
    forall id | id in d.manifests ensures ReadFile(d, id).Ok? {
      assert SlotReady(View(d, id), id);
    }
    forall id | id in d.trash ensures ReadTrash(d, id).Ok? {
      assert SlotReady(View(d, id), id);
    }
    forall id | id in d.uploads ensures ReadSession(d, id).Ok? {
      assert SessionReady(d.uploads[id], id);
    }
  }
}
