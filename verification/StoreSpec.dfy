/** What each operation of the disk store does, as functions on its whole state: the
    directory, the usage index and the flags that guard it. */
module StoreSpec {
  import opened Basics
  import opened Text
  import opened Accounting
  import opened DiskModel
  import opened Trails

  datatype Kind = Files | Trash | Uploads

  datatype Usage = Usage(files: Bucket<Owner>, trash: Bucket<Owner>, uploads: Bucket<Owner>)

  const NO_USAGE := Usage(map[], map[], map[])

  /** quota and ttl are zero when disabled; sha is SHA-256 in hexadecimal. */
  datatype Config = Config(sha: Bytes -> string, quota: int, ttl: int)

  ghost predicate ValidConfig(cfg: Config) {
    0 <= cfg.quota <= MAX_INT64 && forall b :: cfg.sha(b) != ""
  }

  datatype Store = Store(disk: Disk, usage: Usage, usageValid: bool, loaded: bool, loadFailed: bool)

  /** A process that has just opened the directory. */
  function Opened(d: Disk): Store {
    Store(d, NO_USAGE, false, false, false)
  }

  // The pause threshold: off, or on with the file system above it or not.
  datatype Pause = Off | On(exceeded: bool)

  // ---------------------------------------------------------------- the usage index

  function Get(u: Usage, k: Kind): Bucket<Owner> {
    match k case Files => u.files case Trash => u.trash case Uploads => u.uploads
  }

  function Set(u: Usage, k: Kind, b: Bucket<Owner>): Usage {
    match k
    case Files => u.(files := b)
    case Trash => u.(trash := b)
    case Uploads => u.(uploads := b)
  }

  /** moveUsage with one record. */
  function Moved(s: Store, owner: Owner, from: Option<Kind>, to: Option<Kind>, size: int): Store {
    if s.usageValid then s.(usage := MovedUsage(s.usage, owner, from, to, size)) else s
  }

  function MovedUsage(u: Usage, owner: Owner, from: Option<Kind>, to: Option<Kind>, size: int): Usage {
    var v := if from.Some? then Set(u, from.value, Released(Get(u, from.value), owner, size)) else u;
    if to.Some? then Set(v, to.value, Charged(Get(v, to.value), owner, size)) else v
  }

  /** usageIndex.total */
  function Total(u: Usage, owner: Owner): int {
    Wrap(Wrap(At(u.files, owner).bytes + At(u.trash, owner).bytes) + At(u.uploads, owner).bytes)
  }

  ghost function RescanUsage(d: Disk): Usage {
    Usage(Rescan(FileCharges(d)), Rescan(TrashCharges(d)), Rescan(UploadCharges(d)))
  }

  /** rebuildUsageLocked, and whether it failed. */
  ghost function Rebuild(s: Store): (Store, bool) {
    if CanRescan(s.disk) then (s.(usage := RescanUsage(s.disk), usageValid := true), false) else (s, true)
  }

  /** ensureUsageLocked runs the rescan once and remembers its error for ever. */
  ghost function Load(s: Store): Store {
    if s.loaded then s
    else
      var (r, failed) := Rebuild(s);
      r.(loaded := true, loadFailed := failed)
  }

  /** writesPausedUnlocked: with a threshold the capacity figures load the index first. */
  ghost function PauseGate(s: Store, pause: Pause): (Store, Option<Error>) {
    if pause.Off? then (s, None)
    else if Load(s).loadFailed then (Load(s), Some(UsageUnavailable))
    else (Load(s), if pause.exceeded then Some(StoragePaused) else None)
  }

  /** enforceQuotaUnlocked on a loaded index. */
  function QuotaGate(cfg: Config, s: Store, owner: Owner, incoming: int): Option<Error> {
    if cfg.quota == 0 then None
    else if incoming < 0 then Some(InvalidUpload)
    else
      var used := Total(s.usage, owner);
      if used > cfg.quota || incoming > Wrap(cfg.quota - used) then Some(QuotaExceeded) else None
  }

  /** What the quota report calls available. */
  function Available(cfg: Config, used: int): int {
    if cfg.quota > used then Wrap(cfg.quota - used) else 0
  }

  // ---------------------------------------------------------------- Put

  function NewFile(cfg: Config, id: Id, bytes: Bytes, info: Info, now: int): File {
    File(id, info, |bytes|, cfg.sha(bytes), true, now, None)
  }

  /** What Put decides once the index is loaded. */
  function PutError(cfg: Config, s: Store, id: Id, body: Body, info: Info): Option<Error> {
    if s.loadFailed then Some(UsageUnavailable)
    else if id in s.disk.objects || id in s.disk.manifests || id in s.disk.trash then Some(FileExists)
    else if id in s.disk.parts then Some(Io)
    else if body.fails then Some(ReadFailed)
    else if QuotaGate(cfg, s, info.owner, |body.bytes|).Some? then QuotaGate(cfg, s, info.owner, |body.bytes|)
    else if id in s.disk.manifestTmps then Some(Io)
    else None
  }

  function PutCommit(cfg: Config, s: Store, id: Id, bytes: Bytes, info: Info, now: int): Store {
    var f := NewFile(cfg, id, bytes, info, now);
    Moved(s.(disk := Patch(s.disk, id, StoredSlot(bytes, f))), info.owner, None, Some(Files), f.size)
  }

  /** Put on a loaded index. */
  function PutLoaded(cfg: Config, s: Store, id: Id, body: Body, info: Info, now: int): (Store, Outcome<File>) {
    var e := PutError(cfg, s, id, body, info);
    if e.Some? then (s, Err(e.value))
    else (PutCommit(cfg, s, id, body.bytes, info, now), Ok(NewFile(cfg, id, body.bytes, info, now)))
  }

  ghost function Put(cfg: Config, s: Store, pause: Pause, id: Id, body: Body, info: Info, now: int)
    : (Store, Outcome<File>)
  {
    var (gated, stop) := PauseGate(s, pause);
    if stop.Some? then (gated, Err(stop.value)) else PutLoaded(cfg, Load(gated), id, body, info, now)
  }

  // ---------------------------------------------------------------- uploads

  /** What the sweep removes: completed sessions, and those idle for the TTL. */
  predicate Expired(cfg: Config, dir: SessionDir, id: Id, now: int) {
    && cfg.ttl > 0
    && ReadSessionDir(dir, id).Ok?
    && var u := ReadSessionDir(dir, id).value;
       u.status.Completed? || now - u.updatedAt >= cfg.ttl
  }

  /** One entry of the sweep. */
  function SweepOne(cfg: Config, s: Store, id: Id, now: int): Store {
    if id in s.disk.uploads && Expired(cfg, s.disk.uploads[id], id, now) then
      var u := ReadSession(s.disk, id).value;
      var t := s.(disk := PatchSession(s.disk, id, None));
      if u.status.Completed? then t else Moved(t, u.info.owner, Some(Uploads), None, u.size)
    else s
  }

  /** The sweep over a directory listing. */
  function SweepAll(cfg: Config, s: Store, listing: seq<Id>, now: int): Store {
    if listing == [] then s
    else SweepOne(cfg, SweepAll(cfg, s, listing[..|listing| - 1], now), listing[|listing| - 1], now)
  }

  /** A listing names every entry once, in whatever order. */
  ghost predicate Lists(listing: seq<Id>, names: set<Id>) {
    && (forall i, j | 0 <= i < j < |listing| :: listing[i] != listing[j])
    && (forall id :: id in listing <==> id in names)
  }

  function NewSession(id: Id, size: int, checksum: string, info: Info, now: int): Session {
    Session(id, None, info, size, checksum, 0, Uploading, now, now)
  }

  function StartCommit(s: Store, id: Id, u: Session): Store {
    Moved(s.(disk := PatchSession(s.disk, id, Some(StartedDir(u)))), u.info.owner, None, Some(Uploads), u.size)
  }

  /** StartUpload; listing is the order in which its sweep meets the sessions. */
  ghost function StartUpload(
    cfg: Config, s: Store, pause: Pause, listing: seq<Id>, id: Id, size: int, checksum: string, info: Info, now: int)
    : (Store, Outcome<Session>)
  {
    if size <= 0 || (checksum != "" && !IsSha256(checksum)) then (s, Err(InvalidUpload)) else
    var (gated, stop) := PauseGate(s, pause);
    if stop.Some? then (gated, Err(stop.value)) else
    var t := Load(SweepAll(cfg, gated, listing, now));
    if t.loadFailed then (t, Err(UsageUnavailable))
    else Admit(cfg, t, id, size, Lower(TrimSpace(checksum)), info, now)
  }

  function Admit(
    cfg: Config, s: Store, id: Id, size: int, checksum: string, info: Info, now: int)
    : (Store, Outcome<Session>)
  {
    if QuotaGate(cfg, s, info.owner, size).Some? then (s, Err(QuotaGate(cfg, s, info.owner, size).value))
    else if id in s.disk.uploads then (s, Err(Io))
    else
      var u := NewSession(id, size, checksum, info, now);
      (StartCommit(s, id, u), Ok(u))
  }

  /** What AppendUpload writes: LimitReader stops one byte past the announced chunk. */
  function Written(body: Body, chunkSize: int): Bytes
    requires chunkSize >= 0
  {
    if |body.bytes| <= chunkSize then body.bytes else body.bytes[..chunkSize + 1]
  }

  /** The verdict on a chunk for a session that can take it. */
  function ChunkError(cfg: Config, u: Session, chunkSize: int, body: Body, checksum: string): Option<Error>
    requires chunkSize > 0
  {
    var remaining, w := u.size - u.received, Written(body, chunkSize);
    if chunkSize > remaining then Some(UploadTooLarge)
    else if body.fails && |body.bytes| <= chunkSize then Some(ReadFailed)
    else if |w| > remaining then Some(UploadTooLarge)
    else if |w| != chunkSize then Some(ChunkSize)
    else if checksum != "" && !EqualFold(TrimSpace(checksum), cfg.sha(w)) then Some(ChecksumMismatch)
    else None
  }

  function Grown(u: Session, chunk: Bytes, now: int): Session {
    u.(received := u.received + |chunk|, updatedAt := now)
  }

  ghost function AppendUpload(
    cfg: Config, s: Store, pause: Pause, id: Id, offset: int, chunkSize: int, body: Body, checksum: string, now: int)
    : (Store, Outcome<Session>)
  {
    if offset < 0 || chunkSize <= 0 || (checksum != "" && !IsSha256(checksum)) then (s, Err(InvalidUpload))
    else if ReadSession(s.disk, id).Err? then (s, Err(ReadSession(s.disk, id).error))
    else
      var u := ReadSession(s.disk, id).value;
      if !u.status.Uploading? || offset != u.received then (s, Err(OffsetConflict)) else
      var (gated, stop) := PauseGate(s, pause);
      if stop.Some? then (gated, Err(stop.value)) else
      var e := ChunkError(cfg, u, chunkSize, body, checksum);
      if e.Some? then (gated, Err(e.value))
      else if s.disk.uploads[id].manifestTmp.Some? then (gated, Err(Io))
      else
        var grown := Grown(u, body.bytes, now);
        (gated.(disk := PatchSession(gated.disk, id, Some(AppendedDir(s.disk.uploads[id], body.bytes, grown)))),
         Ok(grown))
  }

  function CompletedFile(cfg: Config, u: Session, fileId: Id, bytes: Bytes): File {
    File(fileId, u.info, u.size, cfg.sha(bytes), true, u.createdAt, None)
  }

  function CompletedSession(u: Session, fileId: Id, now: int): Session {
    u.(fileId := Some(fileId), status := Completed, updatedAt := now)
  }

  function CompleteCommit(cfg: Config, s: Store, id: Id, fileId: Id, u: Session, now: int): Store
    requires id in s.disk.uploads && s.disk.uploads[id].data.Some?
  {
    var f := CompletedFile(cfg, u, fileId, s.disk.uploads[id].data.value);
    var d := CompletedDisk(s.disk, id, fileId, f, CompletedSession(u, fileId, now));
    Moved(s.(disk := d), u.info.owner, Some(Uploads), Some(Files), u.size)
  }

  /** Whether CompleteUpload can begin to move anything. */
  predicate Completable(d: Disk, id: Id) {
    && ReadSession(d, id).Ok? && ReadSession(d, id).value.status.Uploading?
    && ReadSession(d, id).value.received == ReadSession(d, id).value.size
  }

  /** CompleteUpload; fileId is the identifier it generates, fresh on disk. */
  function CompleteUpload(cfg: Config, s: Store, id: Id, fileId: Id, now: int): (Store, Outcome<File>)
    requires View(s.disk, fileId) == VACANT
  {
    if ReadSession(s.disk, id).Err? then (s, Err(ReadSession(s.disk, id).error))
    else
      var u := ReadSession(s.disk, id).value;
      if u.status.Completed? then (s, ReadFile(s.disk, u.fileId.value))
      else if u.received != u.size then (s, Err(UploadIncomplete))
      else
        var bytes := s.disk.uploads[id].data.value;
        if u.checksum != "" && !EqualFold(u.checksum, cfg.sha(bytes)) then (s, Err(ChecksumMismatch))
        else if s.disk.uploads[id].manifestTmp.Some? then (s.(disk := PartLost(s.disk, id)), Err(Io))
        else (CompleteCommit(cfg, s, id, fileId, u, now), Ok(CompletedFile(cfg, u, fileId, bytes)))
  }

  /** What is left when CompleteUpload fails after it has renamed data.part: the deferred
      cleanup removes the object, and the session's bytes with it. */
  function PartLost(d: Disk, id: Id): Disk
    requires id in d.uploads
  {
    PatchSession(d, id, Some(d.uploads[id].(data := None)))
  }

  function AbortUpload(s: Store, id: Id): (Store, Outcome<()>) {
    if ReadSession(s.disk, id) == Err(UploadNotFound) then (s, Ok(()))
    else if ReadSession(s.disk, id).Err? then (s, Err(ReadSession(s.disk, id).error))
    else
      var u := ReadSession(s.disk, id).value;
      if u.status.Completed? then (s, Err(InvalidUpload))
      else (Moved(s.(disk := PatchSession(s.disk, id, None)), u.info.owner, Some(Uploads), None, u.size), Ok(()))
  }

  // ---------------------------------------------------------------- Delete, Restore, purge

  /** Whether Delete begins to move anything. */
  predicate Deletable(d: Disk, id: Id) {
    id in d.objects && id in d.manifests && id !in d.trash
  }

  /** Whether Restore begins to change anything. */
  predicate Restorable(d: Disk, id: Id) {
    ReadTrash(d, id).Ok? && id !in d.objects && id !in d.manifests && d.trash[id].manifestTmp.None?
  }

  function Delete(s: Store, id: Id, now: int): (Store, Outcome<()>) {
    var slot := View(s.disk, id);
    if slot.content.None? && slot.manifest.None? then (s, Ok(()))
    else if slot.content.None? || slot.manifest.None? || slot.trash.Some? then (s, Err(CorruptMetadata))
    else if slot.manifest.value.id != id then (s, Err(CorruptMetadata))
    else
      var f := slot.manifest.value.(deletedAt := Some(now));
      (Moved(s.(disk := Patch(s.disk, id, DeletedSlot(slot, f))), f.info.owner, Some(Files), Some(Trash), f.size),
       Ok(()))
  }

  function Restore(s: Store, id: Id): (Store, Outcome<File>) {
    var slot := View(s.disk, id);
    if ReadTrash(s.disk, id).Err? then (s, Err(ReadTrash(s.disk, id).error))
    else if slot.content.Some? || slot.manifest.Some? then (s, Err(RestoreConflict))
    else if slot.trash.value.manifestTmp.Some? then (s, Err(Io))
    else
      var f := ReadTrash(s.disk, id).value.(deletedAt := None);
      (Moved(s.(disk := Patch(s.disk, id, RestoredSlot(slot, f))), f.info.owner, Some(Trash), Some(Files), f.size),
       Ok(f))
  }

  /** Whether PurgeTrash destroys an entry; no bound destroys everything. */
  predicate Purged(f: File, olderThan: Option<int>)
    requires f.deletedAt.Some?
  {
    olderThan.None? || f.deletedAt.value <= olderThan.value
  }

  function PurgeOne(s: Store, id: Id, olderThan: Option<int>): Store
    requires ReadTrash(s.disk, id).Ok?
  {
    var f := ReadTrash(s.disk, id).value;
    if Purged(f, olderThan)
    then Moved(s.(disk := Patch(s.disk, id, View(s.disk, id).(trash := None))), f.info.owner, Some(Trash), None, f.size)
    else s
  }

  /** PurgeTrash over a directory listing, up to the first entry it cannot read. */
  function PurgeAll(s: Store, listing: seq<Id>, olderThan: Option<int>): (Store, Option<Error>) {
    if listing == [] then (s, None)
    else
      var (t, e) := PurgeAll(s, listing[..|listing| - 1], olderThan);
      var id := listing[|listing| - 1];
      if e.Some? then (t, e)
      else if ReadTrash(t.disk, id).Err? then (t, Some(ReadTrash(t.disk, id).error))
      else (PurgeOne(t, id, olderThan), None)
  }
}
