/** The gateway's half of the resumable upload protocol: its checks in front of the store. */
module Gateway {
  import opened Basics
  import opened Text
  import opened Maps
  import opened Accounting
  import opened DiskModel
  import opened Trails
  import opened ContentRange
  import S = StoreSpec
  import O = Outcomes
  import Q = Quota
  import R = Recovery
  import Soundness
  import D = DiskStore

  /** The status of an error reply; none is a gateway failure that a client would retry. */
  function Status(e: Error): (code: nat)
    ensures code !in {200, 201, 502, 503, 504}
  {
    match e
    case UploadTooLarge => 413
    case InvalidUpload => 400
    case ChunkSize => 400
    case UploadNotFound => 404
    case OffsetConflict => 409
    case UploadIncomplete => 409
    case ChecksumMismatch => 422
    case StoragePaused => 507
    case QuotaExceeded => 507
    case _ => 500
  }

  /** http.MaxBytesReader: at most n bytes, then an error. */
  function MaxBytes(body: Body, n: nat): Body {
    if |body.bytes| <= n then body else Body(body.bytes[..n], true)
  }

  /** Between two requests, and between two calls of one request, everything may change but
      this: the session is left alone or removed. */
  predicate LeftAlone(before: Disk, after: Disk, id: Id) {
    id in after.uploads ==> id in before.uploads && after.uploads[id] == before.uploads[id]
  }

  /** The session directory has taken the body as one chunk. */
  ghost predicate Took(
    cfg: S.Config, dir: SessionDir, id: Id, range: Range, body: Body, checksum: string, after: SessionDir, u: Session)
  {
    && ReadSessionDir(dir, id).Ok?
    && var was := ReadSessionDir(dir, id).value;
       && was.status.Uploading? && was.received == range.start && was.size == range.total
       && |body.bytes| == range.end - range.start + 1 && !body.fails
       && (checksum != "" ==> EqualFold(TrimSpace(checksum), cfg.sha(body.bytes)))
       && u == was.(received := range.end + 1, updatedAt := u.updatedAt)
       && after == AppendedDir(dir, body.bytes, u)
  }

  /** When nothing stands in the way of a chunk. */
  ghost predicate Welcome(cfg: S.Config, dir: SessionDir, id: Id, range: Range, body: Body, checksum: string) {
    && ReadSessionDir(dir, id).Ok? && dir.manifestTmp.None?
    && var was := ReadSessionDir(dir, id).value;
       && was.status.Uploading? && was.received == range.start && was.size == range.total
       && 0 <= range.start <= range.end < range.total
       && |body.bytes| == range.end - range.start + 1 && !body.fails
       && (checksum != "" ==> IsSha256(checksum) && EqualFold(TrimSpace(checksum), cfg.sha(body.bytes)))
  }

  lemma AppendOutcomes(
    cfg: S.Config, s: S.Store, pause: S.Pause, id: Id, range: Range, chunkSize: int, body: Body, checksum: string,
    now: int)
    requires chunkSize == range.end - range.start + 1 > 0
    ensures
      var (t, r) := S.AppendUpload(cfg, s, pause, id, range.start, chunkSize, MaxBytes(body, chunkSize), checksum, now);
      && (r.Err? ==> t.disk == s.disk)
      && (r.Ok? && ReadSession(s.disk, id).value.size == range.total ==>
            id in t.disk.uploads
              && Took(cfg, s.disk.uploads[id], id, range, body, checksum, t.disk.uploads[id], r.value))
      && (pause.Off? && id in s.disk.uploads && Welcome(cfg, s.disk.uploads[id], id, range, body, checksum) ==> r.Ok?)
  {
    var r := S.AppendUpload(cfg, s, pause, id, range.start, chunkSize, MaxBytes(body, chunkSize), checksum, now).1;
    if r.Ok? {
      assert S.ChunkError(cfg, ReadSession(s.disk, id).value, chunkSize, MaxBytes(body, chunkSize), checksum).None?;
    }
  }

  /** The store shows the file f, whose object is the given bytes, as the session declared. */
  ghost predicate Published(cfg: S.Config, d: Disk, u: Session, bytes: Bytes, f: File) {
    && GetAt(d.objects, f.id) == Some(bytes) && GetAt(d.manifests, f.id) == Some(f)
    && f.available && f.deletedAt.None? && f.info == u.info
    && f.size == |bytes| == u.size && f.checksum == cfg.sha(bytes)
    && (u.checksum != "" ==> EqualFold(u.checksum, f.checksum))
  }

  /** A session that only waits for its completion. */
  ghost predicate Finished(cfg: S.Config, dir: SessionDir, id: Id) {
    && ReadSessionDir(dir, id).Ok? && dir.manifestTmp.None?
    && var u := ReadSessionDir(dir, id).value;
       u.status.Uploading? && u.received == u.size
         && (u.checksum != "" ==> EqualFold(u.checksum, cfg.sha(dir.data.value)))
  }

  lemma CompletionOutcomes(cfg: S.Config, s: S.Store, id: Id, fileId: Id, now: int)
    requires View(s.disk, fileId) == VACANT
    requires id in s.disk.uploads && ReadSession(s.disk, id).Ok? && ReadSession(s.disk, id).value.status.Uploading?
    ensures
      var (t, r) := S.CompleteUpload(cfg, s, id, fileId, now);
      && (r.Ok? ==> Published(cfg, t.disk, ReadSession(s.disk, id).value, s.disk.uploads[id].data.value, r.value))
      && (r.Ok? ==> r.value.id == fileId && ReadSessionDir(t.disk.uploads[id], id).Ok?)
      && (Finished(cfg, s.disk.uploads[id], id) ==> r.Ok?)
  {}

  /** Completing touches one session and one file. */
  lemma CompletionFrame(cfg: S.Config, s: S.Store, id: Id, fileId: Id, now: int, x: Id)
    requires View(s.disk, fileId) == VACANT
    ensures
      var t := S.CompleteUpload(cfg, s, id, fileId, now).0.disk;
      && (x != fileId ==> View(t, x) == View(s.disk, x))
      && (x != id ==> GetAt(t.uploads, x) == GetAt(s.disk.uploads, x))
  {
    Q.CompleteOutcomes(cfg, s, id, fileId, now);
    if S.Completable(s.disk, id) {
      var u, bytes := ReadSession(s.disk, id).value, s.disk.uploads[id].data.value;
      ViewPatch(s.disk, fileId, StoredSlot(bytes, S.CompletedFile(cfg, u, fileId, bytes)), x);
    }
  }

  lemma {:induction false} LongerThanAll(used: set<Id>) returns (n: nat)
    ensures forall id | id in used :: |id.text| < n
    decreases |used|
  {
    n := 0;
    if used != {} {
      var id :| id in used;
      var m := LongerThanAll(used - {id});
      n := if |id.text| < m then m else |id.text| + 1;
    }
  }

  /** There is always an unused identifier; the store draws a random one. */
  lemma FreshId(d: Disk) returns (id: Id)
    ensures View(d, id) == VACANT
  {
    var n := LongerThanAll(d.parts.Keys + d.objects.Keys + d.manifestTmps.Keys + d.manifests.Keys + d.trash.Keys);
    id := Id(seq(n, _ => '0'));
  }

  lemma UnusedSession(d: Disk) returns (id: Id)
    ensures id !in d.uploads
  {
    var n := LongerThanAll(d.uploads.Keys);
    id := Id(seq(n, _ => '0'));
  }

  /** Sessions may have changed, and nothing else. */
  predicate FilesKept(before: Disk, after: Disk) {
    after == before.(uploads := after.uploads)
  }

  /** The store is in a good state, and the sums of the owner do not confuse its arithmetic. */
  ghost predicate CanServe(cfg: S.Config, s: S.Store, owner: Owner, now: int) {
    O.Serving(cfg, s) && O.Countable(cfg, R.Swept(cfg, s.disk, now), owner)
  }

  /** A well-formed request that fits. */
  ghost predicate CanStart(
    cfg: S.Config, d: Disk, maxUploadBytes: int, size: int, checksum: string, owner: Owner, now: int)
  {
    && 0 < size <= maxUploadBytes && (checksum == "" || IsSha256(checksum))
    && O.HasRoom(cfg, R.Swept(cfg, d, now), owner, size)
  }

  /** Some sessions may be gone, and nothing else has changed. */
  ghost predicate Remaining(before: Disk, after: Disk) {
    && FilesKept(before, after)
    && forall id | id in after.uploads :: id in before.uploads && after.uploads[id] == before.uploads[id]
  }

  lemma SweepRemains(cfg: S.Config, s: S.Store, listing: seq<Id>, now: int)
    ensures Remaining(s.disk, S.SweepAll(cfg, s, listing, now).disk)
  {
    R.SweepIsExpiry(cfg, s, listing, now);
  }

  lemma AdmitRemains(
    cfg: S.Config, d: Disk, s: S.Store, id: Id, size: int, checksum: string, info: Info, now: int)
    requires Remaining(d, s.disk) && id !in d.uploads
    ensures
      var (t, r) := S.Admit(cfg, s, id, size, checksum, info, now);
      Remaining(d, if r.Ok? then PatchSession(t.disk, id, None) else t.disk)
  {
    if S.Admit(cfg, s, id, size, checksum, info, now).1.Ok? {
      var u := S.NewSession(id, size, checksum, info, now);
      PatchSessionTwice(s.disk, id, Some(StartedDir(u)), None);
      PatchSessionSame(s.disk, id);
    }
  }

  /** StartUpload changes nothing but its own session and those that its sweep ends. */
  lemma StartRemains(
    cfg: S.Config, s: S.Store, pause: S.Pause, listing: seq<Id>, id: Id, size: int, checksum: string, info: Info,
    now: int)
    requires id !in s.disk.uploads
    ensures
      var (t, r) := S.StartUpload(cfg, s, pause, listing, id, size, checksum, info, now);
      && Remaining(s.disk, if r.Ok? then PatchSession(t.disk, id, None) else t.disk)
      && (r.Ok? ==> && r.value == S.NewSession(id, size, Lower(TrimSpace(checksum)), info, now)
                    && GetAt(t.disk.uploads, id) == Some(StartedDir(r.value)))
  {
    var gated := S.PauseGate(s, pause).0;
    var t := S.Load(S.SweepAll(cfg, gated, listing, now));
    Q.GateKeepsDisk(s, pause);
    Q.StartCases(cfg, s, pause, listing, id, size, checksum, info, now);
    SweepRemains(cfg, gated, listing, now);
    Soundness.LoadKeepsDisk(S.SweepAll(cfg, gated, listing, now));
    AdmitRemains(cfg, s.disk, t, id, size, Lower(TrimSpace(checksum)), info, now);
  }

  class Gateway {
    const store: D.DiskStore
    const maxUploadBytes: int
    // When set, nobody else uses the store and it is never paused.
    const quiet: bool

    constructor (store: D.DiskStore, maxUploadBytes: int, quiet: bool)
      ensures this.store == store && this.maxUploadBytes == maxUploadBytes && this.quiet == quiet
    {
      this.store, this.maxUploadBytes, this.quiet := store, maxUploadBytes, quiet;
    }

    /** Anything anybody else does to the store. */
    method Others(id: Id)
      modifies store
      ensures LeftAlone(old(store.disk), store.disk, id)
      ensures quiet ==> store.disk == old(store.disk)
    {
      if quiet { return; }
      assert LeftAlone(store.disk, store.disk, id);
      var d: Disk :| LeftAlone(store.disk, d, id);
      store.disk := d;
      store.usageValid, store.loaded, store.loadFailed := *, *, *;
      var files, trash, uploads := *, *, *;
      store.usage := S.Usage(files, trash, uploads);
    }

    method CurrentPause() returns (pause: S.Pause)
      ensures quiet ==> pause.Off?
    {
      pause := S.Off;
      if !quiet {
        var exceeded := *;
        pause := S.On(exceeded);
      }
    }

    /** startUpload: a session under an identifier of its own, for a size within the maximum. On a
        store in a good state that nobody else uses it is opened exactly when the request is well
        formed and the size fits next to what the owner has left after the sweep. */
    method Start(size: int, checksum: string, info: Info, now: int) returns (r: Outcome<Session>)
      modifies store
      ensures r.Ok? ==> 0 < size <= maxUploadBytes
      ensures r.Ok? ==> r.value == S.NewSession(r.value.id, size, Lower(TrimSpace(checksum)), info, now)
      ensures r.Ok? ==> r.value.id !in old(store.disk).uploads
      ensures r.Ok? ==> r.value.id in store.disk.uploads && store.disk.uploads[r.value.id] == StartedDir(r.value)
      ensures Remaining(old(store.disk), if r.Ok? then PatchSession(store.disk, r.value.id, None) else store.disk)
      ensures quiet && !store.mayFail && CanServe(store.cfg, old(store.State()), info.owner, now) ==>
        (r.Ok? <==> CanStart(store.cfg, old(store.disk), maxUploadBytes, size, checksum, info.owner, now))
    {
      if size <= 0 { return Err(InvalidUpload); }
      if size > maxUploadBytes { return Err(UploadTooLarge); }
      ghost var unused := UnusedSession(store.disk);
      var id: Id :| id !in store.disk.uploads;
      var pause := CurrentPause();
      ghost var s, listing := store.State(), [];
      r, listing := StartAt(pause, id, size, checksum, info, now);
      if !store.mayFail && CanServe(store.cfg, s, info.owner, now) {
        O.StartUploadFitsIff(store.cfg, s, pause, listing, id, size, checksum, info, now);
      }
    }

    /** The call of the store. */
    method StartAt(pause: S.Pause, id: Id, size: int, checksum: string, info: Info, now: int)
      returns (r: Outcome<Session>, ghost listing: seq<Id>)
      requires id !in store.disk.uploads
      modifies store
      ensures S.Lists(listing, old(store.disk).uploads.Keys)
      ensures !store.mayFail ==>
        r == S.StartUpload(store.cfg, old(store.State()), pause, listing, id, size, checksum, info, now).1
      ensures r.Ok? ==> r.value == S.NewSession(id, size, Lower(TrimSpace(checksum)), info, now)
      ensures r.Ok? ==> id in store.disk.uploads && store.disk.uploads[id] == StartedDir(r.value)
      ensures Remaining(old(store.disk), if r.Ok? then PatchSession(store.disk, id, None) else store.disk)
    {
      ghost var s, upTo, middle, before := store.State(), 0, [], [];
      r, listing, upTo, middle, before := store.StartUpload(pause, id, size, checksum, info, now);
      if r != Err(Io) || !store.mayFail {
        StartRemains(store.cfg, s, pause, listing, id, size, checksum, info, now);
      } else {
        Q.GateKeepsDisk(s, pause);
        SweepRemains(store.cfg, S.PauseGate(s, pause).0, listing[..upTo], now);
      }
    }

    /** appendUpload: the header, the declared total and the content length must agree with the
        session before the store is asked; the session is read in a call of its own. */
    method Append(id: Id, header: string, contentLength: int, body: Body, checksum: string)
      returns (r: Outcome<Session>)
      modifies store
      ensures r.Err? ==> LeftAlone(old(store.disk), store.disk, id)
      ensures r.Ok? ==> && Parse(header).Some? && id in old(store.disk).uploads && id in store.disk.uploads
                        && Took(store.cfg, old(store.disk).uploads[id], id, Parse(header).value, body, checksum,
                                store.disk.uploads[id], r.value)
      ensures quiet && !store.mayFail && Parse(header).Some? && id in old(store.disk).uploads
              && Welcome(store.cfg, old(store.disk).uploads[id], id, Parse(header).value, body, checksum)
              && contentLength == |body.bytes|
              ==> r.Ok?
      ensures quiet && id in old(store.disk).uploads ==> id in store.disk.uploads
      ensures quiet ==>
        store.disk
        == if r.Ok? then PatchSession(old(store.disk), id, GetAt(store.disk.uploads, id)) else old(store.disk)
    {
      var parsed := Parse(header);
      if parsed.None? { return Err(InvalidUpload); }
      var range := parsed.value;
      var session := ReadSession(store.disk, id);
      if session.Err? { return Err(session.error); }
      if range.total != session.value.size { return Err(InvalidUpload); }
      var chunkSize := range.end - range.start + 1;
      if contentLength != chunkSize { return Err(InvalidUpload); }
      ParseIff(header, range);
      Others(id);
      var now := *;
      var pause := CurrentPause();
      AppendOutcomes(store.cfg, store.State(), pause, id, range, chunkSize, body, checksum, now);
      r := store.AppendUpload(pause, id, range.start, chunkSize, MaxBytes(body, chunkSize), checksum, now);
    }

    /** completeUpload */
    method Complete(id: Id) returns (r: Outcome<File>)
      modifies store
      ensures
        var dir, read := GetAt(old(store.disk).uploads, id), ReadSession(old(store.disk), id);
        r.Ok? && read.Ok? && read.value.status.Uploading? ==>
          && Published(store.cfg, store.disk, read.value, dir.value.data.value, r.value)
          && View(old(store.disk), r.value.id) == VACANT
      ensures id !in old(store.disk).uploads ==> r.Err?
      ensures forall x | View(old(store.disk), x) != VACANT :: View(store.disk, x) == View(old(store.disk), x)
      ensures forall x | x != id :: GetAt(store.disk.uploads, x) == GetAt(old(store.disk).uploads, x)
      ensures !store.mayFail && id in old(store.disk).uploads && Finished(store.cfg, old(store.disk).uploads[id], id)
              ==> r.Ok?
    {
      ghost var free := FreshId(store.disk);
      var fileId: Id :| View(store.disk, fileId) == VACANT;
      var now := *;
      ghost var s := store.State();
      if ReadSession(store.disk, id).Ok? && ReadSession(store.disk, id).value.status.Uploading? {
        CompletionOutcomes(store.cfg, store.State(), id, fileId, now);
      }
      r := store.CompleteUpload(id, fileId, now);
      forall x
        ensures View(s.disk, x) != VACANT ==> View(store.disk, x) == View(s.disk, x)
        ensures x != id ==> GetAt(store.disk.uploads, x) == GetAt(s.disk.uploads, x)
      {
        CompletionFrame(store.cfg, s, id, fileId, now, x);
      }
    }

    /** abortUpload: the session goes, and nothing else does. */
    method Abort(id: Id) returns (r: Outcome<()>)
      modifies store
      ensures r.Ok? ==> id !in store.disk.uploads || ReadSession(store.disk, id) == Err(UploadNotFound)
      ensures store.disk == old(store.disk) || (r.Ok? && store.disk == PatchSession(old(store.disk), id, None))
      ensures !store.mayFail && ReadSession(old(store.disk), id).Ok?
              && ReadSession(old(store.disk), id).value.status == Uploading
              ==> r.Ok? && id !in store.disk.uploads
    {
      r := store.AbortUpload(id);
    }
  }
}
