/** What a store goes through: operations that succeed, are refused or fail at any file-system
    call, restarts in between, and crashes wherever an operation can be cut off. */
module Operations {
  import opened Basics
  import opened DiskModel
  import opened Trails
  import opened StoreSpec
  import opened CutOff
  import R = Recovery

  /** The Recover of a new process: the order of its sweep, and its clock. */
  datatype Repair = Repair(listing: seq<Id>, now: int)

  datatype Op =
    | OpPut(pause: Pause, id: Id, body: Body, info: Info, now: int)
    | OpStart(pause: Pause, listing: seq<Id>, id: Id, size: int, checksum: string, info: Info, now: int)
    | OpAppend(pause: Pause, id: Id, offset: int, chunkSize: int, body: Body, checksum: string, now: int)
    | OpComplete(id: Id, fileId: Id, now: int)
    | OpAbort(id: Id)
    | OpDelete(id: Id, now: int)
    | OpRestore(id: Id)
    | OpPurge(listing: seq<Id>, olderThan: Option<int>)
    | OpSweep(listing: seq<Id>, now: int)
    | OpRecover(listing: seq<Id>, now: int)
    | OpRebuild
    | OpRead       // Quota and Capacity: they load the index
    | OpReady      // the readiness probe
    | OpRestart    // a new process on the same directory
    // The process ends during an operation and leaves a directory behind; the next one may
    // begin with Recover.
    | OpCrash(during: Op, left: Disk, repair: Option<Repair>)

  ghost function Apply(cfg: Config, s: Store, op: Op): Store
    requires op.OpComplete? ==> View(s.disk, op.fileId) == VACANT
  {
    match op
    case OpPut(pause, id, body, info, now) => Put(cfg, s, pause, id, body, info, now).0
    case OpStart(pause, listing, id, size, checksum, info, now) =>
      StartUpload(cfg, s, pause, listing, id, size, checksum, info, now).0
    case OpAppend(pause, id, offset, chunkSize, body, checksum, now) =>
      AppendUpload(cfg, s, pause, id, offset, chunkSize, body, checksum, now).0
    case OpComplete(id, fileId, now) => CompleteUpload(cfg, s, id, fileId, now).0
    case OpAbort(id) => AbortUpload(s, id).0
    case OpDelete(id, now) => Delete(s, id, now).0
    case OpRestore(id) => Restore(s, id).0
    case OpPurge(listing, olderThan) => PurgeAll(s, listing, olderThan).0
    case OpSweep(listing, now) => SweepAll(cfg, s, listing, now)
    case OpRecover(listing, now) => Recovered(cfg, s, Repair(listing, now))
    case OpRebuild => Rebuild(s).0
    case OpRead => Load(s)
    case OpReady => s
    case OpRestart => Opened(s.disk)
    case OpCrash(_, left, repair) => if repair.Some? then Recovered(cfg, Opened(left), repair.value) else Opened(left)
  }

  ghost function Recovered(cfg: Config, s: Store, repair: Repair): Store {
    if R.CanQuarantine(s.disk, repair.now) then R.Recover(cfg, s, repair.listing, repair.now).0 else s
  }

  // ---------------------------------------------------------------- failures

  /** What is left when a file-system call fails before the commit point: at most the index
      has been loaded and the first sessions or trash entries of a listing are gone. */
  ghost predicate Interrupted(cfg: Config, s: Store, op: Op, t: Store) {
    || t == s
    || ((op.OpPut? || op.OpAppend?) && t == Load(s))
    || (op.OpStart? && SweptInPart(cfg, PauseGate(s, op.pause).0, op.listing, op.now, t))
    || (op.OpSweep? && SweptInPart(cfg, s, op.listing, op.now, t))
    || (op.OpRecover? && R.CanQuarantine(s.disk, op.now)
        && SweptInPart(cfg, s.(disk := R.Cleaned(s.disk, op.now)), op.listing, op.now, t))
    || (op.OpPurge? && exists n: nat :: n <= |op.listing| && t == PurgeAll(s, op.listing[..n], op.olderThan).0)
  }

  ghost predicate SweptInPart(cfg: Config, s: Store, listing: seq<Id>, now: int, t: Store) {
    exists n: nat :: n <= |listing| && SweptUpTo(cfg, s, listing, now, n, t)
  }

  ghost predicate SweptUpTo(cfg: Config, s: Store, listing: seq<Id>, now: int, n: nat, t: Store)
    requires n <= |listing|
  {
    t == SweepAll(cfg, s, listing[..n], now) || t == Load(SweepAll(cfg, s, listing[..n], now))
  }

  /** What is left when a call fails so late that the operation cannot be undone. */
  ghost predicate Late(s: Store, op: Op, t: Store) {
    || (op.OpRestore? && Restorable(s.disk, op.id)
        && (t == s.(disk := RestoreCleared(s.disk, op.id)) || t == s.(disk := RestoreSplit(s.disk, op.id))))
    || (op.OpComplete? && Completable(s.disk, op.id) && t == s.(disk := PartLost(s.disk, op.id)))
    || (op.OpReady? && t == s.(disk := s.disk.(probe := true)))
    || (op.OpRecover? && !R.Tidy(s.disk) && t == s.(disk := t.disk) && R.PartlyCleaned(s.disk, t.disk))
  }

  // ---------------------------------------------------------------- crashes

  /** Whether the end of the process during the operation can leave the directory e. The commit
      itself is a success, followed by a crash during nothing. */
  ghost predicate CrashDuring(cfg: Config, s: Store, op: Op, e: Disk) {
    || e == s.disk
    || match op
       case OpPut(_, id, body, info, now) => PutCut(s.disk, e, id, body.bytes, NewFile(cfg, id, body.bytes, info, now))
       case OpStart(pause, listing, id, size, checksum, info, now) =>
         || SweepCut(cfg, PauseGate(s, pause).0, listing, now, e)
         || exists n: nat, u ::
              n <= |listing| && StartCut(SweepAll(cfg, PauseGate(s, pause).0, listing[..n], now).disk, e, id, u)
       case OpAppend(_, id, _, chunkSize, body, _, now) => AppendCut(s.disk, e, id, chunkSize, body, now)
       case OpComplete(id, fileId, now) => CompleteCut(cfg, s.disk, e, id, fileId, now)
       case OpAbort(id) => DirCut(s.disk, e, id)
       case OpDelete(id, now) => DeleteCut(s.disk, e, id, now)
       case OpRestore(id) => RestoreCut(s.disk, e, id)
       case OpPurge(listing, olderThan) => PurgeCut(s, listing, olderThan, e)
       case OpSweep(listing, now) => SweepCut(cfg, s, listing, now, e)
       case OpRecover(listing, now) =>
         || R.PartlyCleaned(s.disk, e)
         || (R.CanQuarantine(s.disk, now) && SweepCut(cfg, s.(disk := R.Cleaned(s.disk, now)), listing, now, e))
       case OpReady => e == s.disk.(probe := true)
       case _ => false
  }

  /** A sweep or a purge that is cut off between two removals or within one. */
  ghost predicate SweepCut(cfg: Config, s: Store, listing: seq<Id>, now: int, e: Disk) {
    exists n: nat :: n <= |listing| && SweepCutAt(cfg, s, listing, now, e, n)
  }

  ghost predicate SweepCutAt(cfg: Config, s: Store, listing: seq<Id>, now: int, e: Disk, n: nat)
    requires n <= |listing|
  {
    var d := SweepAll(cfg, s, listing[..n], now).disk;
    e == d || (n < |listing| && DirCut(d, e, listing[n]))
  }

  ghost predicate PurgeCut(s: Store, listing: seq<Id>, olderThan: Option<int>, e: Disk) {
    exists n: nat :: n <= |listing| && PurgeCutAt(s, listing, olderThan, e, n)
  }

  ghost predicate PurgeCutAt(s: Store, listing: seq<Id>, olderThan: Option<int>, e: Disk, n: nat)
    requires n <= |listing|
  {
    var d := PurgeAll(s, listing[..n], olderThan).0.disk;
    e == d || (n < |listing| && TrashCut(d, e, listing[n]))
  }

  // ---------------------------------------------------------------- runs

  /** Generated identifiers are fresh, and a crash leaves what it can leave. */
  ghost predicate Legal(cfg: Config, s: Store, op: Op) {
    && Fresh(s, op)
    && (op.OpCrash? ==> !op.during.OpCrash? && Fresh(s, op.during) && CrashDuring(cfg, s, op.during, op.left))
  }

  ghost predicate Fresh(s: Store, op: Op) {
    && (op.OpComplete? ==> View(s.disk, op.fileId) == VACANT)
    && (op.OpStart? ==> op.id !in s.disk.uploads)
  }

  ghost predicate Step(cfg: Config, s: Store, op: Op, t: Store) {
    Legal(cfg, s, op) && (Arrived(cfg, s, op, t) || Late(s, op, t))
  }

  ghost predicate Run(cfg: Config, states: seq<Store>, ops: seq<Op>) {
    && |states| == |ops| + 1
    && forall i | 0 <= i < |ops| :: Step(cfg, states[i], ops[i], states[i + 1])
  }

  /** A step without a late failure, and with no crash but one that leaves the directory as the
      operation or a failure before its commit would leave it, with temporary files and bare
      session directories next to it, and that Recover follows. */
  ghost predicate Orderly(cfg: Config, s: Store, op: Op, t: Store) {
    && Legal(cfg, s, op) && Arrived(cfg, s, op, t)
    && (op.OpCrash? ==> Mended(cfg, s, op))
  }

  ghost predicate Mended(cfg: Config, s: Store, op: Op)
    requires op.OpCrash? && Fresh(s, op.during)
  {
    && op.repair.Some? && R.CanQuarantine(op.left, op.repair.value.now)
    && exists m :: Arrived(cfg, s, op.during, m) && R.Littered(m.disk, op.left)
  }

  /** The operation has come to its end, or has failed before its commit. */
  ghost predicate Arrived(cfg: Config, s: Store, op: Op, t: Store)
    requires Fresh(s, op)
  {
    t == Apply(cfg, s, op) || Interrupted(cfg, s, op, t)
  }

  /** A run of such steps. */
  ghost predicate OrderlyRun(cfg: Config, states: seq<Store>, ops: seq<Op>) {
    && Run(cfg, states, ops)
    && (forall i | 0 <= i < |ops| :: Orderly(cfg, states[i], ops[i], states[i + 1]))
  }

  /** At no moment do an owner's bytes overflow. */
  ghost predicate AlwaysFits(states: seq<Store>) {
    forall i | 0 <= i < |states| :: AllFit(states[i].disk)
  }

  predicate FileOp(op: Op) {
    op.OpPut? || op.OpDelete? || op.OpRestore? || op.OpPurge?
  }

  predicate UploadOp(op: Op) {
    op.OpStart? || op.OpAppend? || op.OpComplete? || op.OpAbort?
  }

  /** Whether a crash falls where CompleteUpload shows the file and still holds the
      reservation. */
  predicate DoublingCrash(op: Op) {
    op.OpCrash? && op.during.OpComplete? && Doubled(op.left, op.during.id, op.during.fileId)
  }
}
