/** The class and the runs: whatever a method of the store does, with whatever calls failing in
    it, is a step of a run, and wherever the process ends within it is a crash of one. So what
    is proved about runs is true of the object: for each method its contract gives the step, and
    its trail gives the directories in which a crash can leave the store. */
module StoreRuns {
  import opened Basics
  import opened Text
  import opened DiskModel
  import opened Trails
  import opened StoreSpec
  import opened CutOff
  import opened Operations
  import opened Runs
  import Accounting
  import Billing
  import R = Recovery
  import D = DiskStore
  import G = Gateway

  /** What is asked of a store; generated identifiers and listing orders are its own. */
  datatype Request =
    | PutFile(pause: Pause, id: Id, body: Body, info: Info, now: int)
    | StartSession(pause: Pause, size: int, checksum: string, info: Info, now: int)
    | AppendChunk(pause: Pause, id: Id, offset: int, chunkSize: int, body: Body, checksum: string, now: int)
    | CompleteSession(id: Id, now: int)
    | AbortSession(id: Id)
    | DeleteFile(id: Id, now: int)
    | RestoreFile(id: Id)
    | PurgeTrash(olderThan: Option<int>)
    | SweepSessions(now: int)
    | RecoverStore(now: int)
    | RebuildIndex
    | ReadQuota(owner: Accounting.Owner)
    | ReadCapacity
    | CheckReady

  /** The operation that a request asks for; the identifiers it generates and the order in which it
      lists a directory are the store's own. */
  predicate AsksFor(q: Request, op: Op) {
    match q
    case PutFile(pause, id, body, info, now) => op == OpPut(pause, id, body, info, now)
    case StartSession(pause, size, checksum, info, now) =>
      op.OpStart? && op == OpStart(pause, op.listing, op.id, size, checksum, info, now)
    case AppendChunk(pause, id, offset, chunkSize, body, checksum, now) =>
      op == OpAppend(pause, id, offset, chunkSize, body, checksum, now)
    case CompleteSession(id, now) => op.OpComplete? && op == OpComplete(id, op.fileId, now)
    case AbortSession(id) => op == OpAbort(id)
    case DeleteFile(id, now) => op == OpDelete(id, now)
    case RestoreFile(id) => op == OpRestore(id)
    case PurgeTrash(olderThan) => op.OpPurge? && op == OpPurge(op.listing, olderThan)
    case SweepSessions(now) => op.OpSweep? && op == OpSweep(op.listing, now)
    case RecoverStore(now) => op.OpRecover? && op == OpRecover(op.listing, now)
    case RebuildIndex => op == OpRebuild
    case ReadQuota(_) => op == OpRead
    case ReadCapacity => op == OpRead
    case CheckReady => op == OpReady
  }

  /** The directories that the operation meets are listed in full. */
  ghost predicate ListsAll(s: Store, op: Op) {
    match op
    case OpStart(_, listing, _, _, _, _, _) => Lists(listing, s.disk.uploads.Keys)
    case OpSweep(listing, _) => Lists(listing, s.disk.uploads.Keys)
    case OpPurge(listing, _) => Lists(listing, s.disk.trash.Keys)
    case OpRecover(listing, now) => R.CanQuarantine(s.disk, now) ==> Lists(listing, R.KeptSessions(s.disk.uploads).Keys)
    case _ => true
  }

  /** What comes of the operation when no file-system call fails. */
  ghost predicate Fulfils(cfg: Config, s: Store, op: Op, t: Store) {
    Fresh(s, op) && ListsAll(s, op) && (t == Apply(cfg, s, op) || (op.OpRecover? && !R.CanQuarantine(s.disk, op.now)))
  }

  /** Each directory that the store has passed through, on its way from s, is the one it has
      reached or one that a crash during op can leave. */
  ghost predicate Passes(cfg: Config, s: Store, op: Op, d: Disk, was: seq<Disk>, now: seq<Disk>) {
    was <= now && forall i | |was| <= i < |now| :: now[i] == d || CrashDuring(cfg, s, op, now[i])
  }

  /** So the process can end at any of them, and the next one starts with a step of the run. */
  lemma AnyStepCanBeTheLast(
    cfg: Config, s: Store, op: Op, t: Store, was: seq<Disk>, now: seq<Disk>, i: nat, repair: Option<Repair>)
    requires Step(cfg, s, op, t) && !op.OpCrash? && Passes(cfg, s, op, t.disk, was, now) && |was| <= i < |now|
    ensures
      var early, late := OpCrash(op, now[i], repair), OpCrash(OpRead, now[i], repair);
      Step(cfg, s, early, Apply(cfg, s, early)) || (now[i] == t.disk && Step(cfg, t, late, Apply(cfg, t, late)))
  {
    if now[i] == t.disk {
      CrashIsStep(cfg, t, OpRead, now[i], repair);
    } else {
      CrashIsStep(cfg, s, op, now[i], repair);
    }
  }

  lemma CrashIsStep(cfg: Config, s: Store, op: Op, e: Disk, repair: Option<Repair>)
    requires !op.OpCrash? && Fresh(s, op) && CrashDuring(cfg, s, op, e)
    ensures Step(cfg, s, OpCrash(op, e, repair), Apply(cfg, s, OpCrash(op, e, repair)))
  {}

  // ---------------------------------------------------------------- what each method's contract means

  lemma PutCrash(cfg: Config, s: Store, op: Op, e: Disk, f: File)
    requires op.OpPut? && f == NewFile(cfg, op.id, op.body.bytes, op.info, op.now)
    requires IsStep(e, s.disk, op.id, PutSteps(View(s.disk, op.id), op.body.bytes, f))
    ensures CrashDuring(cfg, s, op, e)
  {
    assert PutCut(s.disk, e, op.id, op.body.bytes, f);
  }

  lemma PutIsStep(cfg: Config, s: Store, op: Op, t: Store, r: Outcome<File>)
    requires op.OpPut?
    requires if r == Err(Io) then t == Load(s) else (t, r) == Put(cfg, s, op.pause, op.id, op.body, op.info, op.now)
    ensures Step(cfg, s, op, t)
    ensures (t, r) == Put(cfg, s, op.pause, op.id, op.body, op.info, op.now) ==> Fulfils(cfg, s, op, t)
  {}

  lemma PassesThenArrives(cfg: Config, s: Store, op: Op, d: Disk, was: seq<Disk>, before: seq<Disk>, now: seq<Disk>)
    requires was <= before && (forall i | |was| <= i < |before| :: CrashDuring(cfg, s, op, before[i]))
    requires now == before || now == before + [d]
    ensures Passes(cfg, s, op, d, was, now)
  {}

  lemma PutPasses(cfg: Config, s: Store, op: Op, d: Disk, was: seq<Disk>, before: seq<Disk>, now: seq<Disk>, f: File)
    requires op.OpPut? && f == NewFile(cfg, op.id, op.body.bytes, op.info, op.now)
    requires PutOnTheWay(was, before, s.disk, op.id, op.body.bytes, f) && (now == before || now == before + [d])
    ensures Passes(cfg, s, op, d, was, now)
  {
    forall i | |was| <= i < |before| ensures CrashDuring(cfg, s, op, before[i]) {
      PutCrash(cfg, s, op, before[i], f);
    }
    PassesThenArrives(cfg, s, op, d, was, before, now);
  }

  lemma PutResultPasses(
    cfg: Config, s: Store, op: Op, d: Disk, r: Outcome<File>, was: seq<Disk>, now: seq<Disk>, f: File)
    requires op.OpPut? && f == NewFile(cfg, op.id, op.body.bytes, op.info, op.now)
    requires r.Ok? ==> |now| > |was| && now[|now| - 1] == d
    requires PutOnTheWay(was, if r.Ok? then now[..|now| - 1] else now, s.disk, op.id, op.body.bytes, f)
    ensures Passes(cfg, s, op, d, was, now)
  {
    var before := if r.Ok? then now[..|now| - 1] else now;
    assert now == if r.Ok? then before + [d] else before;
    PutPasses(cfg, s, op, d, was, before, now, f);
  }

  lemma SweptIsCut(cfg: Config, s: Store, listing: seq<Id>, now: int, e: Disk)
    requires D.SweptTo(cfg, s, listing, now, e)
    ensures SweepCut(cfg, s, listing, now, e)
  {
    var n: nat :| n <= |listing| && e == SweepAll(cfg, s, listing[..n], now).disk;
    assert SweepCutAt(cfg, s, listing, now, e, n);
  }

  lemma StartCrash(cfg: Config, s: Store, op: Op, u: Session, e: Disk)
    requires op.OpStart?
    requires
      var gated := PauseGate(s, op.pause).0;
      || D.SweptTo(cfg, gated, op.listing, op.now, e)
      || IsSessionStep(e, SweepAll(cfg, gated, op.listing, op.now).disk, op.id, StartSteps(u))
    ensures CrashDuring(cfg, s, op, e)
  {
    var gated := PauseGate(s, op.pause).0;
    if D.SweptTo(cfg, gated, op.listing, op.now, e) {
      SweptIsCut(cfg, gated, op.listing, op.now, e);
    } else {
      var n := |op.listing|;
      assert op.listing[..n] == op.listing;
      assert StartCut(SweepAll(cfg, gated, op.listing[..n], op.now).disk, e, op.id, u);
    }
  }

  lemma StartCrashes(
    cfg: Config, s: Store, op: Op, u: Session, was: seq<Disk>, middle: seq<Disk>, before: seq<Disk>, i: nat)
    requires op.OpStart? && |was| <= i < |before|
    requires
      var gated := PauseGate(s, op.pause).0;
      && D.SweepTrail(was, middle, cfg, gated, op.listing, op.now)
      && SessionSteps(middle, before, SweepAll(cfg, gated, op.listing, op.now).disk, op.id, StartSteps(u))
    ensures CrashDuring(cfg, s, op, before[i])
  {
    if i < |middle| {
      assert before[i] == middle[i];
    }
    StartCrash(cfg, s, op, u, before[i]);
  }

  lemma StartIsStep(cfg: Config, s: Store, op: Op, t: Store, r: Outcome<Session>, upTo: nat)
    requires op.OpStart? && op.id !in s.disk.uploads && upTo <= |op.listing|
    requires if r == Err(Io) then SweptUpTo(cfg, PauseGate(s, op.pause).0, op.listing, op.now, upTo, t)
             else (t, r) == StartUpload(cfg, s, op.pause, op.listing, op.id, op.size, op.checksum, op.info, op.now)
    ensures Step(cfg, s, op, t)
    ensures Lists(op.listing, s.disk.uploads.Keys)
            && (t, r) == StartUpload(cfg, s, op.pause, op.listing, op.id, op.size, op.checksum, op.info, op.now)
            ==> Fulfils(cfg, s, op, t)
  {}

  lemma StartPasses(
    cfg: Config, s: Store, op: Op, u: Session, d: Disk, was: seq<Disk>, middle: seq<Disk>, before: seq<Disk>,
    now: seq<Disk>)
    requires op.OpStart? && (now == before || now == before + [d])
    requires
      var gated := PauseGate(s, op.pause).0;
      && D.SweepTrail(was, middle, cfg, gated, op.listing, op.now)
      && SessionSteps(middle, before, SweepAll(cfg, gated, op.listing, op.now).disk, op.id, StartSteps(u))
    ensures Passes(cfg, s, op, d, was, now)
  {
    forall i | |was| <= i < |before| ensures CrashDuring(cfg, s, op, before[i]) {
      StartCrashes(cfg, s, op, u, was, middle, before, i);
    }
    PassesThenArrives(cfg, s, op, d, was, before, now);
  }

  lemma AppendIsStep(cfg: Config, s: Store, op: Op, t: Store, r: Outcome<Session>)
    requires op.OpAppend?
    requires if r == Err(Io) then t == PauseGate(s, op.pause).0
             else (t, r) == AppendUpload(cfg, s, op.pause, op.id, op.offset, op.chunkSize, op.body, op.checksum, op.now)
    ensures Step(cfg, s, op, t)
    ensures (t, r) == AppendUpload(cfg, s, op.pause, op.id, op.offset, op.chunkSize, op.body, op.checksum, op.now)
            ==> Fulfils(cfg, s, op, t)
  {}

  lemma AppendPasses(cfg: Config, s: Store, op: Op, d: Disk, was: seq<Disk>, now: seq<Disk>)
    requires op.OpAppend?
    requires now == was
             || (&& ReadSession(s.disk, op.id).Ok? && ReadSession(s.disk, op.id).value.status.Uploading?
                 && op.chunkSize > 0
                 && var u, written := ReadSession(s.disk, op.id).value, Written(op.body, op.chunkSize);
                    SessionSteps(was, now, s.disk, op.id,
                                 AppendSteps(s.disk.uploads[op.id], written, Grown(u, written, op.now))))
    ensures Passes(cfg, s, op, d, was, now)
  {
    forall i | |was| <= i < |now| ensures CrashDuring(cfg, s, op, now[i]) {
      assert AppendCut(s.disk, now[i], op.id, op.chunkSize, op.body, op.now);
    }
  }

  lemma CompleteIsStep(cfg: Config, s: Store, op: Op, t: Store, r: Outcome<File>)
    requires op.OpComplete? && View(s.disk, op.fileId) == VACANT
    requires if r == Err(Io) then t == s || (Completable(s.disk, op.id) && t == s.(disk := PartLost(s.disk, op.id)))
             else (t, r) == CompleteUpload(cfg, s, op.id, op.fileId, op.now)
    ensures Step(cfg, s, op, t)
    ensures (t, r) == CompleteUpload(cfg, s, op.id, op.fileId, op.now) ==> Fulfils(cfg, s, op, t)
  {}

  lemma CompletePasses(cfg: Config, s: Store, op: Op, d: Disk, was: seq<Disk>, now: seq<Disk>)
    requires op.OpComplete?
    requires if !Completable(s.disk, op.id) then now == was
             else
               var u, bytes := ReadSession(s.disk, op.id).value, s.disk.uploads[op.id].data.value;
               CompleteSteps(was, now, s.disk, op.id, op.fileId, CompletedFile(cfg, u, op.fileId, bytes),
                             CompletedSession(u, op.fileId, op.now))
    ensures Passes(cfg, s, op, d, was, now)
  {
    forall i | |was| <= i < |now| ensures CrashDuring(cfg, s, op, now[i]) {
      assert CompleteCut(cfg, s.disk, now[i], op.id, op.fileId, op.now);
    }
  }

  lemma AbortIsStep(cfg: Config, s: Store, op: Op, t: Store, r: Outcome<()>)
    requires op.OpAbort? && (if r == Err(Io) then t == s else (t, r) == AbortUpload(s, op.id))
    ensures Step(cfg, s, op, t)
    ensures (t, r) == AbortUpload(s, op.id) ==> Fulfils(cfg, s, op, t)
  {}

  lemma DeleteIsStep(cfg: Config, s: Store, op: Op, t: Store, r: Outcome<()>)
    requires op.OpDelete? && (if r == Err(Io) then t == s else (t, r) == Delete(s, op.id, op.now))
    ensures Step(cfg, s, op, t)
    ensures (t, r) == Delete(s, op.id, op.now) ==> Fulfils(cfg, s, op, t)
  {}

  lemma DeletePasses(cfg: Config, s: Store, op: Op, d: Disk, was: seq<Disk>, now: seq<Disk>)
    requires op.OpDelete?
    requires if !Deletable(s.disk, op.id) then now == was
             else
               Steps(was, now, s.disk, op.id,
                     DeleteSteps(View(s.disk, op.id), s.disk.manifests[op.id].(deletedAt := Some(op.now))))
    ensures Passes(cfg, s, op, d, was, now)
  {
    forall i | |was| <= i < |now| ensures CrashDuring(cfg, s, op, now[i]) {
      assert DeleteCut(s.disk, now[i], op.id, op.now);
    }
  }

  lemma RestoreIsStep(cfg: Config, s: Store, op: Op, t: Store, r: Outcome<File>)
    requires op.OpRestore?
    requires if r == Err(Io)
             then t == s || (Restorable(s.disk, op.id) && t == s.(disk := RestoreCleared(s.disk, op.id)))
                  || (Restorable(s.disk, op.id) && t == s.(disk := RestoreSplit(s.disk, op.id)))
             else (t, r) == Restore(s, op.id)
    ensures Step(cfg, s, op, t)
    ensures (t, r) == Restore(s, op.id) ==> Fulfils(cfg, s, op, t)
  {}

  lemma RestorePasses(cfg: Config, s: Store, op: Op, d: Disk, was: seq<Disk>, now: seq<Disk>)
    requires op.OpRestore?
    requires if !Restorable(s.disk, op.id) then now == was
             else
               Steps(was, now, s.disk, op.id,
                     RestoreSteps(View(s.disk, op.id), ReadTrash(s.disk, op.id).value.(deletedAt := None)))
    ensures Passes(cfg, s, op, d, was, now)
  {
    forall i | |was| <= i < |now| ensures CrashDuring(cfg, s, op, now[i]) {
      assert RestoreCut(s.disk, now[i], op.id);
    }
  }

  /** After the entry at which it stops a purge does nothing. */
  lemma {:induction false} PurgeStaysStopped(s: Store, listing: seq<Id>, n: nat, olderThan: Option<int>)
    requires n <= |listing| && PurgeAll(s, listing[..n], olderThan).1.Some?
    ensures PurgeAll(s, listing, olderThan) == PurgeAll(s, listing[..n], olderThan)
  {
    if n == |listing| {
      assert listing[..n] == listing;
    } else {
      var m := |listing| - 1;
      assert listing[..m][..n] == listing[..n];
      PurgeStaysStopped(s, listing[..m], n, olderThan);
    }
  }

  lemma PurgeIsStep(cfg: Config, s: Store, op: Op, t: Store, upTo: nat, stop: Option<Error>)
    requires op.OpPurge? && upTo <= |op.listing| && PurgeAll(s, op.listing[..upTo], op.olderThan) == (t, stop)
    ensures Step(cfg, s, op, t)
    ensures Lists(op.listing, s.disk.trash.Keys) && (stop.Some? || upTo == |op.listing|) ==> Fulfils(cfg, s, op, t)
  {
    if stop.Some? {
      PurgeStaysStopped(s, op.listing, upTo, op.olderThan);
    } else if upTo == |op.listing| {
      assert op.listing[..upTo] == op.listing;
    }
  }

  lemma PurgePasses(cfg: Config, s: Store, op: Op, d: Disk, was: seq<Disk>, now: seq<Disk>)
    requires op.OpPurge? && D.PurgeTrail(was, now, s, op.listing, op.olderThan)
    ensures Passes(cfg, s, op, d, was, now)
  {
    forall i | |was| <= i < |now| ensures CrashDuring(cfg, s, op, now[i]) {
      assert D.PurgedTo(s, op.listing, op.olderThan, now[i]);
      var n: nat :| n <= |op.listing| && now[i] == PurgeAll(s, op.listing[..n], op.olderThan).0.disk;
      assert PurgeCutAt(s, op.listing, op.olderThan, now[i], n);
    }
  }

  lemma SweepIsStep(cfg: Config, s: Store, op: Op, t: Store, upTo: nat)
    requires op.OpSweep? && upTo <= |op.listing| && t == SweepAll(cfg, s, op.listing[..upTo], op.now)
    ensures Step(cfg, s, op, t)
    ensures Lists(op.listing, s.disk.uploads.Keys) && upTo == |op.listing| ==> Fulfils(cfg, s, op, t)
  {
    assert SweptUpTo(cfg, s, op.listing, op.now, upTo, t);
    if upTo == |op.listing| {
      assert op.listing[..upTo] == op.listing;
    }
  }

  lemma SweepPasses(cfg: Config, s: Store, op: Op, d: Disk, was: seq<Disk>, now: seq<Disk>)
    requires op.OpSweep? && D.SweepTrail(was, now, cfg, s, op.listing, op.now)
    ensures Passes(cfg, s, op, d, was, now)
  {
    forall i | |was| <= i < |now| ensures CrashDuring(cfg, s, op, now[i]) {
      SweptIsCut(cfg, s, op.listing, op.now, now[i]);
    }
  }

  lemma RecoverIsStep(cfg: Config, s: Store, op: Op, t: Store, r: Outcome<R.Report>)
    requires op.OpRecover? && R.CanQuarantine(s.disk, op.now) && (t, r) == R.Recover(cfg, s, op.listing, op.now)
    ensures Step(cfg, s, op, t)
    ensures Lists(op.listing, R.KeptSessions(s.disk.uploads).Keys) ==> Fulfils(cfg, s, op, t)
  {
    RecoverIsApplied(cfg, s, op);
  }

  lemma RecoverIsApplied(cfg: Config, s: Store, op: Op)
    requires op.OpRecover? && R.CanQuarantine(s.disk, op.now)
    ensures Apply(cfg, s, op) == R.Recover(cfg, s, op.listing, op.now).0
  {
    assert Apply(cfg, s, op) == Recovered(cfg, s, Repair(op.listing, op.now));
  }

  lemma FailedRecoverIsStep(cfg: Config, s: Store, op: Op, t: Store, upTo: nat)
    requires op.OpRecover?
    requires
      || (!R.Tidy(s.disk) && t == s.(disk := t.disk) && R.PartlyCleaned(s.disk, t.disk))
      || (R.CanQuarantine(s.disk, op.now) && upTo <= |op.listing|
          && t == SweepAll(cfg, s.(disk := R.Cleaned(s.disk, op.now)), op.listing[..upTo], op.now))
    ensures Step(cfg, s, op, t)
  {
    if !(!R.Tidy(s.disk) && t == s.(disk := t.disk) && R.PartlyCleaned(s.disk, t.disk)) {
      assert SweptUpTo(cfg, s.(disk := R.Cleaned(s.disk, op.now)), op.listing, op.now, upTo, t);
    }
  }

  lemma RecoverPasses(cfg: Config, s: Store, op: Op, d: Disk, was: seq<Disk>, now: seq<Disk>)
    requires op.OpRecover? && D.RecoverTrail(was, now, cfg, s, op.listing, op.now)
    ensures Passes(cfg, s, op, d, was, now)
  {
    forall i | |was| <= i < |now| ensures CrashDuring(cfg, s, op, now[i]) {
      if !R.PartlyCleaned(s.disk, now[i]) {
        SweptIsCut(cfg, s.(disk := R.Cleaned(s.disk, op.now)), op.listing, op.now, now[i]);
      }
    }
  }

  /** Requests that only load the index, and the readiness probe. */
  lemma IndexIsStep(cfg: Config, s: Store, op: Op, t: Store)
    requires (op.OpRebuild? || op.OpRead?) && t == Apply(cfg, s, op)
    ensures Step(cfg, s, op, t)
    ensures Fulfils(cfg, s, op, t)
  {}

  lemma LoadIsStep(cfg: Config, s: Store, t: Store)
    requires t == Load(s)
    ensures Step(cfg, s, OpRead, t) && Fulfils(cfg, s, OpRead, t)
  {
    IndexIsStep(cfg, s, OpRead, t);
  }

  lemma ReadyIsStep(cfg: Config, s: Store, op: Op, t: Store)
    requires op.OpReady? && (t == s || t == s.(disk := s.disk.(probe := true)))
    ensures Step(cfg, s, op, t)
    ensures t == s ==> Fulfils(cfg, s, op, t)
  {}

  lemma ReadyPasses(cfg: Config, s: Store, op: Op, d: Disk, was: seq<Disk>, now: seq<Disk>)
    requires op.OpReady? && was <= now
    requires forall i | |was| <= i < |now| :: now[i] == s.disk || now[i] == s.disk.(probe := true)
    ensures Passes(cfg, s, op, d, was, now)
  {}

  lemma {:induction false} FreshSession(d: Disk) returns (id: Id)
    ensures id !in d.uploads
  {
    var n := G.LongerThanAll(d.uploads.Keys);
    id := Id(seq(n, _ => '0'));
  }

  // ---------------------------------------------------------------- one request

  method PerformPut(store: D.DiskStore, pause: Pause, id: Id, body: Body, info: Info, now: int) returns (ghost op: Op)
    modifies store
    ensures AsksFor(PutFile(pause, id, body, info, now), op)
    ensures Step(store.cfg, old(store.State()), op, store.State()) && !op.OpCrash?
    ensures !store.mayFail ==> Fulfils(store.cfg, old(store.State()), op, store.State())
    ensures Passes(store.cfg, old(store.State()), op, store.disk, old(store.trail), store.trail)
  {
    ghost var s, was, f := store.State(), store.trail, NewFile(store.cfg, id, body.bytes, info, now);
    op := OpPut(pause, id, body, info, now);
    var r := store.Put(pause, id, body, info, now);
    PutIsStep(store.cfg, s, op, store.State(), r);
    PutResultPasses(store.cfg, s, op, store.disk, r, was, store.trail, f);
  }

  method PerformFileRequest(store: D.DiskStore, q: Request) returns (ghost op: Op)
    requires q.DeleteFile? || q.RestoreFile?
    modifies store
    ensures AsksFor(q, op)
    ensures Step(store.cfg, old(store.State()), op, store.State()) && !op.OpCrash?
    ensures !store.mayFail ==> Fulfils(store.cfg, old(store.State()), op, store.State())
    ensures Passes(store.cfg, old(store.State()), op, store.disk, old(store.trail), store.trail)
  {
    ghost var s, was := store.State(), store.trail;
    match q
    case DeleteFile(id, now) =>
      op := OpDelete(id, now);
      var r := store.Delete(id, now);
      DeleteIsStep(store.cfg, s, op, store.State(), r);
      DeletePasses(store.cfg, s, op, store.disk, was, store.trail);
    case RestoreFile(id) =>
      op := OpRestore(id);
      var r := store.Restore(id);
      RestoreIsStep(store.cfg, s, op, store.State(), r);
      RestorePasses(store.cfg, s, op, store.disk, was, store.trail);
  }

  method PerformStart(store: D.DiskStore, pause: Pause, size: int, checksum: string, info: Info, now: int)
    returns (ghost op: Op)
    modifies store
    ensures AsksFor(StartSession(pause, size, checksum, info, now), op)
    ensures Step(store.cfg, old(store.State()), op, store.State()) && !op.OpCrash?
    ensures !store.mayFail ==> Fulfils(store.cfg, old(store.State()), op, store.State())
    ensures Passes(store.cfg, old(store.State()), op, store.disk, old(store.trail), store.trail)
  {
    ghost var s, was := store.State(), store.trail;
    ghost var unused := FreshSession(store.disk);
    var id :| id !in store.disk.uploads;
    ghost var listing, upTo, middle, before;
    var r;
    r, listing, upTo, middle, before := store.StartUpload(pause, id, size, checksum, info, now);
    op := OpStart(pause, listing, id, size, checksum, info, now);
    StartIsStep(store.cfg, s, op, store.State(), r, upTo);
    ghost var u := NewSession(id, size, Lower(TrimSpace(checksum)), info, now);
    StartPasses(store.cfg, s, op, u, store.disk, was, middle, before, store.trail);
  }

  method PerformUploadRequest(store: D.DiskStore, q: Request) returns (ghost op: Op)
    requires q.AppendChunk? || q.CompleteSession? || q.AbortSession?
    modifies store
    ensures AsksFor(q, op)
    ensures Step(store.cfg, old(store.State()), op, store.State()) && !op.OpCrash?
    ensures !store.mayFail ==> Fulfils(store.cfg, old(store.State()), op, store.State())
    ensures Passes(store.cfg, old(store.State()), op, store.disk, old(store.trail), store.trail)
  {
    ghost var s, was := store.State(), store.trail;
    match q
    case AppendChunk(pause, id, offset, chunkSize, body, checksum, now) =>
      op := OpAppend(pause, id, offset, chunkSize, body, checksum, now);
      var r := store.AppendUpload(pause, id, offset, chunkSize, body, checksum, now);
      AppendIsStep(store.cfg, s, op, store.State(), r);
      AppendPasses(store.cfg, s, op, store.disk, was, store.trail);
    case CompleteSession(id, now) =>
      ghost var unused := G.FreshId(store.disk);
      var fileId :| View(store.disk, fileId) == VACANT;
      op := OpComplete(id, fileId, now);
      var r := store.CompleteUpload(id, fileId, now);
      CompleteIsStep(store.cfg, s, op, store.State(), r);
      CompletePasses(store.cfg, s, op, store.disk, was, store.trail);
    case AbortSession(id) =>
      op := OpAbort(id);
      var r := store.AbortUpload(id);
      AbortIsStep(store.cfg, s, op, store.State(), r);
  }

  method PerformRecover(store: D.DiskStore, now: int) returns (ghost op: Op)
    modifies store
    ensures AsksFor(RecoverStore(now), op)
    ensures Step(store.cfg, old(store.State()), op, store.State()) && !op.OpCrash?
    ensures !store.mayFail ==> Fulfils(store.cfg, old(store.State()), op, store.State())
    ensures Passes(store.cfg, old(store.State()), op, store.disk, old(store.trail), store.trail)
  {
    ghost var s, was, listing, upTo := store.State(), store.trail, [], 0;
    var r;
    r, listing, upTo := store.Recover(now);
    op := OpRecover(listing, now);
    RecoverPasses(store.cfg, s, op, store.disk, was, store.trail);
    if r == Err(Io) {
      FailedRecoverIsStep(store.cfg, s, op, store.State(), upTo);
    } else {
      RecoverIsStep(store.cfg, s, op, store.State(), r);
    }
  }

  method PerformPurge(store: D.DiskStore, olderThan: Option<int>) returns (ghost op: Op)
    modifies store
    ensures AsksFor(PurgeTrash(olderThan), op)
    ensures Step(store.cfg, old(store.State()), op, store.State()) && !op.OpCrash?
    ensures !store.mayFail ==> Fulfils(store.cfg, old(store.State()), op, store.State())
    ensures Passes(store.cfg, old(store.State()), op, store.disk, old(store.trail), store.trail)
  {
    ghost var s, was, listing, upTo := store.State(), store.trail, [], 0;
    var r;
    r, listing, upTo := store.PurgeTrash(olderThan);
    op := OpPurge(listing, olderThan);
    PurgeIsStep(store.cfg, s, op, store.State(), upTo, if r.Ok? || r.error == Io then None else Some(r.error));
    PurgePasses(store.cfg, s, op, store.disk, was, store.trail);
  }

  method PerformSweep(store: D.DiskStore, now: int) returns (ghost op: Op)
    modifies store
    ensures AsksFor(SweepSessions(now), op)
    ensures Step(store.cfg, old(store.State()), op, store.State()) && !op.OpCrash?
    ensures !store.mayFail ==> Fulfils(store.cfg, old(store.State()), op, store.State())
    ensures Passes(store.cfg, old(store.State()), op, store.disk, old(store.trail), store.trail)
  {
    ghost var s, was, listing, upTo := store.State(), store.trail, [], 0;
    var removed, ok;
    removed, ok, listing, upTo := store.SweepUploads(now);
    op := OpSweep(listing, now);
    SweepIsStep(store.cfg, s, op, store.State(), upTo);
    SweepPasses(store.cfg, s, op, store.disk, was, store.trail);
  }

  method PerformRebuild(store: D.DiskStore) returns (ghost op: Op)
    modifies store`usage, store`usageValid
    ensures AsksFor(RebuildIndex, op)
    ensures Step(store.cfg, old(store.State()), op, store.State()) && !op.OpCrash?
    ensures !store.mayFail ==> Fulfils(store.cfg, old(store.State()), op, store.State())
  {
    ghost var s := store.State();
    op := OpRebuild;
    var failed := store.RebuildUsage();
    IndexIsStep(store.cfg, s, op, store.State());
  }

  method PerformQuota(store: D.DiskStore, owner: Accounting.Owner) returns (ghost op: Op)
    modifies store`usage, store`usageValid, store`loaded, store`loadFailed
    ensures AsksFor(ReadQuota(owner), op)
    ensures Step(store.cfg, old(store.State()), op, store.State()) && !op.OpCrash?
    ensures !store.mayFail ==> Fulfils(store.cfg, old(store.State()), op, store.State())
  {
    ghost var s := store.State();
    op := OpRead;
    var r := store.OwnerQuota(owner);
    LoadIsStep(store.cfg, s, store.State());
  }

  method PerformCapacity(store: D.DiskStore) returns (ghost op: Op)
    modifies store`usage, store`usageValid, store`loaded, store`loadFailed
    ensures AsksFor(ReadCapacity, op)
    ensures Step(store.cfg, old(store.State()), op, store.State()) && !op.OpCrash?
    ensures !store.mayFail ==> Fulfils(store.cfg, old(store.State()), op, store.State())
  {
    ghost var s := store.State();
    op := OpRead;
    var r := store.ReportCapacity();
    LoadIsStep(store.cfg, s, store.State());
  }

  method PerformProbe(store: D.DiskStore) returns (ghost op: Op)
    modifies store
    ensures AsksFor(CheckReady, op)
    ensures Step(store.cfg, old(store.State()), op, store.State()) && !op.OpCrash?
    ensures !store.mayFail ==> Fulfils(store.cfg, old(store.State()), op, store.State())
    ensures Passes(store.cfg, old(store.State()), op, store.disk, old(store.trail), store.trail)
  {
    ghost var s, was := store.State(), store.trail;
    op := OpReady;
    var ok := store.CheckReady();
    ReadyIsStep(store.cfg, s, op, store.State());
    ReadyPasses(store.cfg, s, op, store.disk, was, store.trail);
  }

  /** Whatever is asked of the store and whatever fails, early or late, the object has taken one
      step of a run, through directories in each of which a run can crash. */
  method Perform(store: D.DiskStore, q: Request) returns (ghost op: Op)
    modifies store
    ensures AsksFor(q, op)
    ensures Step(store.cfg, old(store.State()), op, store.State()) && !op.OpCrash?
    ensures !store.mayFail ==> Fulfils(store.cfg, old(store.State()), op, store.State())
    ensures Passes(store.cfg, old(store.State()), op, store.disk, old(store.trail), store.trail)
  {
    if q.PutFile? {
      op := PerformPut(store, q.pause, q.id, q.body, q.info, q.now);
    } else if q.DeleteFile? || q.RestoreFile? {
      op := PerformFileRequest(store, q);
    } else if q.StartSession? {
      op := PerformStart(store, q.pause, q.size, q.checksum, q.info, q.now);
    } else if q.AppendChunk? || q.CompleteSession? || q.AbortSession? {
      op := PerformUploadRequest(store, q);
    } else if q.PurgeTrash? {
      op := PerformPurge(store, q.olderThan);
    } else if q.SweepSessions? {
      op := PerformSweep(store, q.now);
    } else if q.RecoverStore? {
      op := PerformRecover(store, q.now);
    } else if q.CheckReady? {
      op := PerformProbe(store);
    } else if q.RebuildIndex? {
      op := PerformRebuild(store);
    } else if q.ReadQuota? {
      op := PerformQuota(store, q.owner);
    } else {
      op := PerformCapacity(store);
    }
  }

  // ---------------------------------------------------------------- any sequence of requests

  lemma RunGrows(cfg: Config, states: seq<Store>, ops: seq<Op>, op: Op, t: Store)
    requires Run(cfg, states, ops) && Step(cfg, states[|ops|], op, t)
    ensures Run(cfg, states + [t], ops + [op])
  {
    forall i | 0 <= i < |ops| + 1 ensures Step(cfg, (states + [t])[i], (ops + [op])[i], (states + [t])[i + 1]) {
      if i < |ops| {
        assert Step(cfg, states[i], ops[i], states[i + 1]);
      }
    }
  }

  /** The life of a process: its requests, with whatever fails in them, are a run; so from a store
      within its quota nobody is ever charged more than the limit. */
  method Serve(store: D.DiskStore, requests: seq<Request>) returns (ghost states: seq<Store>, ghost ops: seq<Op>)
    modifies store
    ensures Run(store.cfg, states, ops) && |ops| == |requests|
    ensures forall i | 0 <= i < |ops| :: AsksFor(requests[i], ops[i])
    ensures !store.mayFail ==> forall i | 0 <= i < |ops| :: Fulfils(store.cfg, states[i], ops[i], states[i + 1])
    ensures states[0] == old(store.State()) && states[|ops|] == store.State()
    ensures ValidConfig(store.cfg) && store.cfg.quota > 0 && Billing.Billed(store.cfg, old(store.State())) ==>
              forall o :: 0 <= OwnerBytes(store.disk, o) <= store.cfg.quota
  {
    states, ops := [store.State()], [];
    for n := 0 to |requests|
      invariant Run(store.cfg, states, ops) && |ops| == n
      invariant states[0] == old(store.State()) && states[n] == store.State()
      invariant forall i | 0 <= i < n :: !ops[i].OpCrash? && AsksFor(requests[i], ops[i])
      invariant !store.mayFail ==> forall i | 0 <= i < n :: Fulfils(store.cfg, states[i], ops[i], states[i + 1])
    {
      ghost var op := Perform(store, requests[n]);
      RunGrows(store.cfg, states, ops, op, store.State());
      states, ops := states + [store.State()], ops + [op];
    }
    if ValidConfig(store.cfg) && store.cfg.quota > 0 && Billing.Billed(store.cfg, old(store.State())) {
      RunStaysWithinQuota(store.cfg, states, ops);
    }
  }
}
