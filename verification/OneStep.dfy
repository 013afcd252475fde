/** What one step of a run keeps. Each operation is taken once, for everything that is to be kept:
    sound files, an index that agrees with a rescan, an index that is exactly the rescanned one,
    what the owners are charged, and the error of the first load. Then come the failures before
    the commit and the crashes that Recover mends; and last, for the owners' charges alone, the
    late failures and the crashes of every kind. */
module OneStep {
  import opened Basics
  import opened DiskModel
  import opened StoreSpec
  import opened Invariants
  import opened Quota
  import opened Soundness
  import opened Exact
  import opened Billing
  import opened CutOff
  import opened Operations
  import R = Recovery

  predicate Broken(s: Store) {
    s.loaded && s.loadFailed
  }

  /** What is kept of a good state. */
  ghost predicate KeepsGood(cfg: Config, s: Store, t: Store) {
    ValidConfig(cfg) ==>
      && (Sound(cfg.sha, s.disk) ==> Sound(cfg.sha, t.disk))
      && (Inv(cfg, s) && AllFit(s.disk) && AllFit(t.disk) ==> Inv(cfg, t))
      && (Counted(cfg, s) && AllFit(t.disk) && Sized(t.disk) ==> ExactIndex(t))
  }

  /** And of any state. */
  ghost predicate Keeps(cfg: Config, s: Store, t: Store) {
    KeepsGood(cfg, s, t) && (ValidConfig(cfg) && cfg.quota > 0 && Billed(cfg, s) ==> Billed(cfg, t))
  }

  predicate KeepsFailure(s: Store, t: Store) {
    Broken(s) ==> Broken(t)
  }

  /** Two stages of which one leaves the directory of a sound store alone. */
  lemma KeepsThen(cfg: Config, s: Store, m: Store, t: Store)
    requires Keeps(cfg, s, m) && Keeps(cfg, m, t)
    requires m.disk == t.disk || (Sound(cfg.sha, s.disk) ==> m.disk == s.disk)
    ensures Keeps(cfg, s, t)
  {}

  // ---------------------------------------------------------------- file operations

  lemma PutKeeps(cfg: Config, s: Store, pause: Pause, id: Id, body: Body, info: Info, now: int)
    requires ValidConfig(cfg)
    ensures Keeps(cfg, s, Put(cfg, s, pause, id, body, info, now).0)
  {
    var t := Put(cfg, s, pause, id, body, info, now).0;
    if Sound(cfg.sha, s.disk) {
      PutKeepsSound(cfg, s, pause, id, body, info, now);
    }
    if Inv(cfg, s) && AllFit(s.disk) && AllFit(t.disk) {
      PutKeepsInv(cfg, s, pause, id, body, info, now);
    }
    if Counted(cfg, s) && AllFit(t.disk) && Sized(t.disk) {
      PutIsExact(cfg, s, pause, id, body, info, now);
    }
    if cfg.quota > 0 && Billed(cfg, s) {
      PutIsBilled(cfg, s, pause, id, body, info, now);
    }
  }

  lemma DeleteKeeps(cfg: Config, s: Store, id: Id, now: int)
    requires ValidConfig(cfg)
    ensures Keeps(cfg, s, Delete(s, id, now).0)
  {
    var t := Delete(s, id, now).0;
    if Sound(cfg.sha, s.disk) {
      DeleteKeepsSound(cfg, s, id, now);
    }
    if Inv(cfg, s) && AllFit(s.disk) && AllFit(t.disk) {
      DeleteKeepsInv(cfg, s, id, now);
    }
    if Counted(cfg, s) && AllFit(t.disk) && Sized(t.disk) {
      DeleteIsExact(cfg, s, id, now);
    }
    if cfg.quota > 0 && Billed(cfg, s) {
      DeleteIsBilled(cfg, s, id, now);
    }
  }

  lemma RestoreKeeps(cfg: Config, s: Store, id: Id)
    requires ValidConfig(cfg)
    ensures Keeps(cfg, s, Restore(s, id).0)
  {
    var t := Restore(s, id).0;
    if Sound(cfg.sha, s.disk) {
      RestoreKeepsSound(cfg, s, id);
    }
    if Inv(cfg, s) && AllFit(s.disk) && AllFit(t.disk) {
      RestoreKeepsInv(cfg, s, id);
    }
    if Counted(cfg, s) && AllFit(t.disk) && Sized(t.disk) {
      RestoreIsExact(cfg, s, id);
    }
    if cfg.quota > 0 && Billed(cfg, s) {
      RestoreIsBilled(cfg, s, id);
    }
  }

  lemma PurgeKeeps(cfg: Config, s: Store, listing: seq<Id>, olderThan: Option<int>)
    ensures Keeps(cfg, s, PurgeAll(s, listing, olderThan).0) && KeepsFailure(s, PurgeAll(s, listing, olderThan).0)
  {
    PurgeKeepsFlags(s, listing, olderThan);
    if Sound(cfg.sha, s.disk) {
      PurgeKeepsSound(cfg, s, listing, olderThan);
    }
    if Inv(cfg, s) && AllFit(s.disk) {
      PurgeKeepsInv(cfg, s, listing, olderThan);
    }
    if Counted(cfg, s) {
      PurgeIsExact(cfg, s, listing, olderThan);
    }
    if ValidConfig(cfg) && cfg.quota > 0 && Billed(cfg, s) {
      PurgeIsBilled(cfg, s, listing, olderThan);
    }
  }

  // ---------------------------------------------------------------- uploads

  lemma StartKeeps(
    cfg: Config, s: Store, pause: Pause, listing: seq<Id>, id: Id, size: int, checksum: string, info: Info, now: int)
    requires ValidConfig(cfg)
    ensures Keeps(cfg, s, StartUpload(cfg, s, pause, listing, id, size, checksum, info, now).0)
  {
    var t := StartUpload(cfg, s, pause, listing, id, size, checksum, info, now).0;
    if Sound(cfg.sha, s.disk) {
      StartKeepsSound(cfg, s, pause, listing, id, size, checksum, info, now);
    }
    if Inv(cfg, s) && AllFit(s.disk) && AllFit(t.disk) {
      StartKeepsInv(cfg, s, pause, listing, id, size, checksum, info, now);
    }
    if Counted(cfg, s) && AllFit(t.disk) && Sized(t.disk) {
      StartIsExact(cfg, s, pause, listing, id, size, checksum, info, now);
    }
    if cfg.quota > 0 && Billed(cfg, s) {
      StartIsBilled(cfg, s, pause, listing, id, size, checksum, info, now);
    }
  }

  lemma AppendKeeps(
    cfg: Config, s: Store, pause: Pause, id: Id, offset: int, chunkSize: int, body: Body, checksum: string, now: int)
    requires ValidConfig(cfg)
    ensures Keeps(cfg, s, AppendUpload(cfg, s, pause, id, offset, chunkSize, body, checksum, now).0)
  {
    if Sound(cfg.sha, s.disk) {
      AppendKeepsSound(cfg, s, pause, id, offset, chunkSize, body, checksum, now);
    }
    if Inv(cfg, s) && AllFit(s.disk) {
      AppendKeepsInv(cfg, s, pause, id, offset, chunkSize, body, checksum, now);
    }
    if Counted(cfg, s) {
      AppendIsExact(cfg, s, pause, id, offset, chunkSize, body, checksum, now);
    }
    if cfg.quota > 0 && Billed(cfg, s) {
      AppendIsBilled(cfg, s, pause, id, offset, chunkSize, body, checksum, now);
    }
  }

  lemma CompleteKeeps(cfg: Config, s: Store, id: Id, fileId: Id, now: int)
    requires ValidConfig(cfg) && View(s.disk, fileId) == VACANT
    ensures Keeps(cfg, s, CompleteUpload(cfg, s, id, fileId, now).0)
  {
    var t := CompleteUpload(cfg, s, id, fileId, now).0;
    if Sound(cfg.sha, s.disk) {
      CompleteKeepsSound(cfg, s, id, fileId, now);
    }
    if Inv(cfg, s) && AllFit(s.disk) && AllFit(t.disk) {
      CompleteKeepsInv(cfg, s, id, fileId, now);
    }
    if Counted(cfg, s) && AllFit(t.disk) && Sized(t.disk) {
      CompleteIsExact(cfg, s, id, fileId, now);
    }
    if cfg.quota > 0 && Billed(cfg, s) {
      CompleteIsBilled(cfg, s, id, fileId, now);
    }
  }

  lemma AbortKeeps(cfg: Config, s: Store, id: Id)
    requires ValidConfig(cfg)
    ensures Keeps(cfg, s, AbortUpload(s, id).0)
  {
    if Sound(cfg.sha, s.disk) {
      AbortKeepsSound(cfg, s, id);
    }
    if Inv(cfg, s) && AllFit(s.disk) {
      AbortKeepsInv(cfg, s, id);
    }
    if Counted(cfg, s) {
      AbortIsExact(cfg, s, id);
    }
    if cfg.quota > 0 && Billed(cfg, s) {
      AbortIsBilled(cfg, s, id);
    }
  }

  // ---------------------------------------------------------------- the index, the sweep and Recover

  lemma LoadKeeps(cfg: Config, s: Store)
    ensures Keeps(cfg, s, Load(s)) && Keeps(cfg, s, Rebuild(s).0) && Load(s).disk == s.disk == Rebuild(s).0.disk
    ensures KeepsFailure(s, Load(s)) && KeepsFailure(s, Rebuild(s).0)
  {
    RebuildAgrees(s);
    if ExactIndex(s) {
      LoadIsExact(s);
    }
    if Inv(cfg, s) {
      LoadKeepsInv(cfg, s);
    }
    if ValidConfig(cfg) && Billed(cfg, s) {
      LoadIsBilled(cfg, s);
      RebuildIsBilled(cfg, s);
    }
  }

  lemma SweepKeeps(cfg: Config, s: Store, listing: seq<Id>, now: int)
    ensures Keeps(cfg, s, SweepAll(cfg, s, listing, now)) && KeepsFailure(s, SweepAll(cfg, s, listing, now))
  {
    SweepKeepsFlags(cfg, s, listing, now);
    if Sound(cfg.sha, s.disk) {
      SweepKeepsSound(cfg, s, listing, now);
    }
    if Inv(cfg, s) && AllFit(s.disk) {
      SweepKeepsInv(cfg, s, listing, now);
    }
    if Counted(cfg, s) {
      SweepIsExact(cfg, s, listing, now);
    }
    if ValidConfig(cfg) && Billed(cfg, s) {
      SweepIsBilled(cfg, s, listing, now);
    }
  }

  /** The sweep with the load of the index after it. */
  lemma SweptAndLoadedKeeps(cfg: Config, s: Store, listing: seq<Id>, now: int)
    ensures
      var t := SweepAll(cfg, s, listing, now);
      Keeps(cfg, s, Load(t)) && Keeps(cfg, s, Rebuild(t).0) && KeepsFailure(s, Load(t)) && KeepsFailure(s, Rebuild(t).0)
  {
    var t := SweepAll(cfg, s, listing, now);
    SweepKeeps(cfg, s, listing, now);
    LoadKeeps(cfg, t);
    KeepsThen(cfg, s, t, Load(t));
    KeepsThen(cfg, s, t, Rebuild(t).0);
  }

  /** Recover begins by removing the leftovers; a sound store has none. */
  lemma CleaningKeeps(cfg: Config, s: Store, now: int)
    requires R.CanQuarantine(s.disk, now)
    ensures
      var t := s.(disk := R.Cleaned(s.disk, now));
      Keeps(cfg, s, t) && (Sound(cfg.sha, s.disk) ==> t == s)
  {
    if Sound(cfg.sha, s.disk) {
      CleanedOfSound(cfg, s, now);
    }
    if ValidConfig(cfg) && Billed(cfg, s) {
      CleanedIsBilled(cfg, s, now);
    }
  }

  lemma RecoverKeeps(cfg: Config, s: Store, repair: Repair)
    ensures Keeps(cfg, s, Recovered(cfg, s, repair)) && KeepsFailure(s, Recovered(cfg, s, repair))
  {
    if R.CanQuarantine(s.disk, repair.now) {
      var cleaned := s.(disk := R.Cleaned(s.disk, repair.now));
      CleaningKeeps(cfg, s, repair.now);
      SweepKeeps(cfg, cleaned, repair.listing, repair.now);
      SweptAndLoadedKeeps(cfg, cleaned, repair.listing, repair.now);
      KeepsThen(cfg, s, cleaned, Recovered(cfg, s, repair));
    }
  }

  // ---------------------------------------------------------------- operations that come to their end

  lemma FileOpKeeps(cfg: Config, s: Store, op: Op)
    requires FileOp(op)
    ensures Keeps(cfg, s, Apply(cfg, s, op)) && KeepsFailure(s, Apply(cfg, s, op))
  {
    match op
    case OpPut(pause, id, body, info, now) => if ValidConfig(cfg) { PutKeeps(cfg, s, pause, id, body, info, now); }
    case OpDelete(id, now) => if ValidConfig(cfg) { DeleteKeeps(cfg, s, id, now); }
    case OpRestore(id) => if ValidConfig(cfg) { RestoreKeeps(cfg, s, id); }
    case OpPurge(listing, olderThan) => PurgeKeeps(cfg, s, listing, olderThan);
  }

  lemma UploadOpKeeps(cfg: Config, s: Store, op: Op)
    requires UploadOp(op) && Fresh(s, op)
    ensures Keeps(cfg, s, Apply(cfg, s, op)) && KeepsFailure(s, Apply(cfg, s, op))
  {
    match op
    case OpStart(pause, listing, id, size, checksum, info, now) =>
      if ValidConfig(cfg) { StartKeeps(cfg, s, pause, listing, id, size, checksum, info, now); }
      SweepKeepsFlags(cfg, PauseGate(s, pause).0, listing, now);
    case OpAppend(pause, id, offset, chunkSize, body, checksum, now) =>
      if ValidConfig(cfg) { AppendKeeps(cfg, s, pause, id, offset, chunkSize, body, checksum, now); }
    case OpComplete(id, fileId, now) => if ValidConfig(cfg) { CompleteKeeps(cfg, s, id, fileId, now); }
    case OpAbort(id) => if ValidConfig(cfg) { AbortKeeps(cfg, s, id); }
  }

  lemma OtherOpKeeps(cfg: Config, s: Store, op: Op)
    requires !FileOp(op) && !UploadOp(op) && !op.OpCrash?
    ensures Keeps(cfg, s, Apply(cfg, s, op)) && (!op.OpRestart? ==> KeepsFailure(s, Apply(cfg, s, op)))
  {
    match op
    case OpSweep(listing, now) => SweepKeeps(cfg, s, listing, now);
    case OpRecover(listing, now) => RecoverKeeps(cfg, s, Repair(listing, now));
    case OpRebuild => LoadKeeps(cfg, s);
    case OpRead => LoadKeeps(cfg, s);
    case _ =>
  }

  lemma ApplyKeeps(cfg: Config, s: Store, op: Op)
    requires Fresh(s, op) && !op.OpCrash?
    ensures Keeps(cfg, s, Apply(cfg, s, op)) && (!op.OpRestart? ==> KeepsFailure(s, Apply(cfg, s, op)))
  {
    if FileOp(op) {
      FileOpKeeps(cfg, s, op);
    } else if UploadOp(op) {
      UploadOpKeeps(cfg, s, op);
    } else {
      OtherOpKeeps(cfg, s, op);
    }
  }

  // ---------------------------------------------------------------- failures before the commit

  lemma SweptInPartKeeps(cfg: Config, s: Store, listing: seq<Id>, now: int, t: Store)
    requires SweptInPart(cfg, s, listing, now, t)
    ensures Keeps(cfg, s, t) && KeepsFailure(s, t)
  {
    var n: nat :| n <= |listing| && SweptUpTo(cfg, s, listing, now, n, t);
    SweepKeeps(cfg, s, listing[..n], now);
    SweptAndLoadedKeeps(cfg, s, listing[..n], now);
  }

  lemma InterruptedStartKeeps(cfg: Config, s: Store, op: Op, t: Store)
    requires op.OpStart? && SweptInPart(cfg, PauseGate(s, op.pause).0, op.listing, op.now, t)
    ensures Keeps(cfg, s, t) && KeepsFailure(s, t)
  {
    LoadKeeps(cfg, s);
    SweptInPartKeeps(cfg, PauseGate(s, op.pause).0, op.listing, op.now, t);
    KeepsThen(cfg, s, PauseGate(s, op.pause).0, t);
  }

  lemma InterruptedRecoverKeeps(cfg: Config, s: Store, op: Op, t: Store)
    requires op.OpRecover? && R.CanQuarantine(s.disk, op.now)
    requires SweptInPart(cfg, s.(disk := R.Cleaned(s.disk, op.now)), op.listing, op.now, t)
    ensures Keeps(cfg, s, t) && KeepsFailure(s, t)
  {
    var cleaned := s.(disk := R.Cleaned(s.disk, op.now));
    CleaningKeeps(cfg, s, op.now);
    SweptInPartKeeps(cfg, cleaned, op.listing, op.now, t);
    KeepsThen(cfg, s, cleaned, t);
  }

  lemma InterruptedKeeps(cfg: Config, s: Store, op: Op, t: Store)
    requires Interrupted(cfg, s, op, t)
    ensures Keeps(cfg, s, t) && KeepsFailure(s, t)
  {
    LoadKeeps(cfg, s);
    if t != s && t != Load(s) {
      if op.OpStart? {
        InterruptedStartKeeps(cfg, s, op, t);
      } else if op.OpSweep? {
        SweptInPartKeeps(cfg, s, op.listing, op.now, t);
      } else if op.OpRecover? {
        InterruptedRecoverKeeps(cfg, s, op, t);
      } else {
        var n: nat :| n <= |op.listing| && t == PurgeAll(s, op.listing[..n], op.olderThan).0;
        PurgeKeeps(cfg, s, op.listing[..n], op.olderThan);
      }
    }
  }

  lemma ArrivalKeeps(cfg: Config, s: Store, op: Op, t: Store)
    requires Fresh(s, op) && !op.OpCrash? && Arrived(cfg, s, op, t)
    ensures Keeps(cfg, s, t) && (!op.OpRestart? ==> KeepsFailure(s, t))
  {
    if Interrupted(cfg, s, op, t) {
      InterruptedKeeps(cfg, s, op, t);
    } else {
      ApplyKeeps(cfg, s, op);
    }
  }

  // ---------------------------------------------------------------- crashes that Recover mends

  /** A new process has no index, or one that Recover has just built. */
  lemma RebootIsExact(cfg: Config, d: Disk, repair: Repair)
    ensures ExactIndex(Recovered(cfg, Opened(d), repair))
  {
    if R.CanQuarantine(d, repair.now) {
      var cleaned := Opened(d).(disk := R.Cleaned(d, repair.now));
      SweepKeepsNoIndex(cfg, cleaned, repair.listing, repair.now);
    }
  }

  /** The new process after a crash that has left nothing but litter next to a sound directory. */
  lemma MendedIsGood(cfg: Config, s: Store, op: Op)
    requires ValidConfig(cfg) && op.OpCrash? && !op.during.OpCrash? && Fresh(s, op.during) && Mended(cfg, s, op)
    requires Sound(cfg.sha, s.disk)
    ensures Inv(cfg, Apply(cfg, s, op))
  {
    var m :| Arrived(cfg, s, op.during, m) && R.Littered(m.disk, op.left);
    ArrivalKeeps(cfg, s, op.during, m);
    RebootKeepsInv(cfg, m.disk, op.left, op.repair.value.listing, op.repair.value.now);
  }

  lemma MendedKeeps(cfg: Config, s: Store, op: Op)
    requires ValidConfig(cfg) && op.OpCrash? && !op.during.OpCrash? && Fresh(s, op.during) && Mended(cfg, s, op)
    ensures KeepsGood(cfg, s, Apply(cfg, s, op))
  {
    if Sound(cfg.sha, s.disk) {
      MendedIsGood(cfg, s, op);
    }
    RebootIsExact(cfg, op.left, op.repair.value);
  }

  /** What every step of an orderly run keeps. */
  lemma OrderlyKeeps(cfg: Config, s: Store, op: Op, t: Store)
    requires ValidConfig(cfg) && Orderly(cfg, s, op, t)
    ensures KeepsGood(cfg, s, t)
  {
    if Interrupted(cfg, s, op, t) {
      InterruptedKeeps(cfg, s, op, t);
    } else if op.OpCrash? {
      MendedKeeps(cfg, s, op);
    } else {
      ArrivalKeeps(cfg, s, op, t);
    }
  }

  // ---------------------------------------------------------------- no load fails in a good state

  predicate Healthy(s: Store) {
    s.loaded ==> !s.loadFailed
  }

  /** A good state in which the index is there, or can be had. */
  ghost predicate Loadable(cfg: Config, s: Store) {
    Inv(cfg, s) && AllFit(s.disk) && Healthy(s)
  }

  lemma LoadIsHealthy(cfg: Config, s: Store)
    requires Loadable(cfg, s)
    ensures Loadable(cfg, Load(s)) && Healthy(Rebuild(s).0)
  {
    LoadKeepsInv(cfg, s);
  }

  lemma SweptIsHealthy(cfg: Config, s: Store, listing: seq<Id>, now: int)
    requires Loadable(cfg, s)
    ensures
      var t := SweepAll(cfg, s, listing, now);
      Loadable(cfg, t) && Healthy(Load(t)) && Healthy(Rebuild(t).0)
  {
    SweepKeepsFlags(cfg, s, listing, now);
    SweepKeepsInv(cfg, s, listing, now);
    LoadIsHealthy(cfg, SweepAll(cfg, s, listing, now));
  }

  lemma StartIsHealthy(cfg: Config, s: Store, op: Op)
    requires op.OpStart? && Fresh(s, op) && Loadable(cfg, s)
    ensures Healthy(Apply(cfg, s, op))
  {
    var gated := PauseGate(s, op.pause).0;
    LoadIsHealthy(cfg, s);
    SweptIsHealthy(cfg, gated, op.listing, op.now);
    StartCases(cfg, s, op.pause, op.listing, op.id, op.size, op.checksum, op.info, op.now);
  }

  lemma RecoveredIsHealthy(cfg: Config, s: Store, repair: Repair)
    requires Healthy(s)
    ensures Healthy(Recovered(cfg, s, repair))
  {
    if R.CanQuarantine(s.disk, repair.now) {
      SweepKeepsFlags(cfg, s.(disk := R.Cleaned(s.disk, repair.now)), repair.listing, repair.now);
    }
  }

  lemma FileOpIsHealthy(cfg: Config, s: Store, op: Op)
    requires FileOp(op) && Loadable(cfg, s)
    ensures Healthy(Apply(cfg, s, op))
  {
    LoadIsHealthy(cfg, s);
    if op.OpPurge? {
      PurgeKeepsFlags(s, op.listing, op.olderThan);
    }
  }

  lemma UploadOpIsHealthy(cfg: Config, s: Store, op: Op)
    requires UploadOp(op) && Fresh(s, op) && Loadable(cfg, s)
    ensures Healthy(Apply(cfg, s, op))
  {
    LoadIsHealthy(cfg, s);
    if op.OpStart? {
      StartIsHealthy(cfg, s, op);
    }
  }

  lemma ApplyIsHealthy(cfg: Config, s: Store, op: Op)
    requires Fresh(s, op) && Loadable(cfg, s)
    ensures Healthy(Apply(cfg, s, op))
  {
    if FileOp(op) {
      FileOpIsHealthy(cfg, s, op);
    } else if UploadOp(op) {
      UploadOpIsHealthy(cfg, s, op);
    } else if op.OpSweep? {
      SweptIsHealthy(cfg, s, op.listing, op.now);
    } else if op.OpRecover? {
      RecoveredIsHealthy(cfg, s, Repair(op.listing, op.now));
    } else if op.OpCrash? && op.repair.Some? {
      RecoveredIsHealthy(cfg, Opened(op.left), op.repair.value);
    } else {
      LoadIsHealthy(cfg, s);
    }
  }

  lemma SweptInPartIsHealthy(cfg: Config, s: Store, listing: seq<Id>, now: int, t: Store)
    requires Loadable(cfg, s) && SweptInPart(cfg, s, listing, now, t)
    ensures Healthy(t)
  {
    var n: nat :| n <= |listing| && SweptUpTo(cfg, s, listing, now, n, t);
    SweptIsHealthy(cfg, s, listing[..n], now);
  }

  lemma InterruptedIsHealthy(cfg: Config, s: Store, op: Op, t: Store)
    requires Loadable(cfg, s) && Interrupted(cfg, s, op, t)
    ensures Healthy(t)
  {
    LoadIsHealthy(cfg, s);
    if t != s && t != Load(s) {
      if op.OpStart? {
        SweptInPartIsHealthy(cfg, PauseGate(s, op.pause).0, op.listing, op.now, t);
      } else if op.OpSweep? {
        SweptInPartIsHealthy(cfg, s, op.listing, op.now, t);
      } else if op.OpRecover? {
        CleanedOfSound(cfg, s, op.now);
        SweptInPartIsHealthy(cfg, s, op.listing, op.now, t);
      } else {
        var n: nat :| n <= |op.listing| && t == PurgeAll(s, op.listing[..n], op.olderThan).0;
        PurgeKeepsFlags(s, op.listing[..n], op.olderThan);
      }
    }
  }

  /** No step of an orderly run makes the load of the index fail. */
  lemma OrderlyIsHealthy(cfg: Config, s: Store, op: Op, t: Store)
    requires Loadable(cfg, s) && Orderly(cfg, s, op, t)
    ensures Healthy(t)
  {
    if Interrupted(cfg, s, op, t) {
      InterruptedIsHealthy(cfg, s, op, t);
    } else {
      ApplyIsHealthy(cfg, s, op);
    }
  }

  // ---------------------------------------------------------------- one failed load is for ever

  lemma StepKeepsFailure(cfg: Config, s: Store, op: Op, t: Store)
    requires Step(cfg, s, op, t) && !op.OpRestart? && !op.OpCrash?
    ensures KeepsFailure(s, t)
  {
    if !Late(s, op, t) {
      ArrivalKeeps(cfg, s, op, t);
    }
  }

  // ---------------------------------------------------------------- what the owners are charged

  lemma RecoveredIsBilled(cfg: Config, s: Store, repair: Repair)
    requires ValidConfig(cfg) && Billed(cfg, s)
    ensures Billed(cfg, Recovered(cfg, s, repair))
  {
    if R.CanQuarantine(s.disk, repair.now) {
      RecoverIsBilled(cfg, s, repair.listing, repair.now);
    }
  }

  lemma LateIsBilled(cfg: Config, s: Store, op: Op, t: Store)
    requires Billed(cfg, s) && Late(s, op, t)
    ensures Billed(cfg, t)
  {
    if op.OpRestore? {
      RestoreClearedIsBilled(cfg, s, op.id);
      RestoreSplitIsBilled(cfg, s, op.id);
    } else if op.OpComplete? {
      PartLostIsBilled(cfg, s, op.id);
    } else if op.OpReady? {
      SameRecordsAreBilled(cfg, s, t.disk);
    } else {
      PartlyCleanedIsBilled(cfg, s, t.disk);
    }
  }

  lemma BilledOpens(cfg: Config, s: Store)
    requires Billed(cfg, s)
    ensures Billed(cfg, Opened(s.disk))
  {}

  lemma SweepCutIsBilled(cfg: Config, s: Store, listing: seq<Id>, now: int, e: Disk)
    requires ValidConfig(cfg) && Billed(cfg, s) && SweepCut(cfg, s, listing, now, e)
    ensures Billed(cfg, Opened(e))
  {
    var n: nat :| n <= |listing| && SweepCutAt(cfg, s, listing, now, e, n);
    SweepIsBilled(cfg, s, listing[..n], now);
    var d := SweepAll(cfg, s, listing[..n], now).disk;
    if e != d {
      DirCutIsNoDearer(d, e, listing[n]);
      OpenedIsBilled(cfg, d, e);
    }
  }

  lemma PurgeCutIsBilled(cfg: Config, s: Store, listing: seq<Id>, olderThan: Option<int>, e: Disk)
    requires ValidConfig(cfg) && Billed(cfg, s) && PurgeCut(s, listing, olderThan, e)
    ensures Billed(cfg, Opened(e))
  {
    var n: nat :| n <= |listing| && PurgeCutAt(s, listing, olderThan, e, n);
    PurgeIsBilled(cfg, s, listing[..n], olderThan);
    var d := PurgeAll(s, listing[..n], olderThan).0.disk;
    if e != d {
      TrashCutIsNoDearer(d, e, listing[n]);
      OpenedIsBilled(cfg, d, e);
    }
  }

  lemma FileOpCutIsBilled(cfg: Config, s: Store, op: Op, e: Disk)
    requires ValidConfig(cfg) && Billed(cfg, s) && FileOp(op) && e != s.disk && CrashDuring(cfg, s, op, e)
    ensures Billed(cfg, Opened(e))
  {
    match op
    case OpPut(_, id, body, info, now) =>
      PutCutIsNoDearer(s.disk, e, id, body.bytes, NewFile(cfg, id, body.bytes, info, now));
      OpenedIsBilled(cfg, s.disk, e);
    case OpDelete(id, now) =>
      DeleteCutIsNoDearer(s.disk, e, id, now);
      OpenedIsBilled(cfg, s.disk, e);
    case OpRestore(id) =>
      RestoreCutIsNoDearer(s.disk, e, id);
      OpenedIsBilled(cfg, s.disk, e);
    case OpPurge(listing, olderThan) => PurgeCutIsBilled(cfg, s, listing, olderThan, e);
  }

  lemma StartCrashIsBilled(cfg: Config, s: Store, op: Op, e: Disk)
    requires ValidConfig(cfg) && Billed(cfg, s) && op.OpStart? && e != s.disk && CrashDuring(cfg, s, op, e)
    ensures Billed(cfg, Opened(e))
  {
    var gated := PauseGate(s, op.pause).0;
    GateIsBilled(cfg, s, op.pause);
    if SweepCut(cfg, gated, op.listing, op.now, e) {
      SweepCutIsBilled(cfg, gated, op.listing, op.now, e);
    } else {
      var n: nat, u :| n <= |op.listing| && StartCut(SweepAll(cfg, gated, op.listing[..n], op.now).disk, e, op.id, u);
      var swept := SweepAll(cfg, gated, op.listing[..n], op.now);
      SweepIsBilled(cfg, gated, op.listing[..n], op.now);
      StartCutIsNoDearer(swept.disk, e, op.id, u);
      OpenedIsBilled(cfg, swept.disk, e);
    }
  }

  lemma UploadOpCutIsBilled(cfg: Config, s: Store, op: Op, e: Disk)
    requires ValidConfig(cfg) && Billed(cfg, s) && UploadOp(op) && Fresh(s, op) && e != s.disk
    requires CrashDuring(cfg, s, op, e)
    requires op.OpComplete? ==> !Doubled(e, op.id, op.fileId)
    ensures Billed(cfg, Opened(e))
  {
    match op
    case OpStart(_, _, _, _, _, _, _) => StartCrashIsBilled(cfg, s, op, e);
    case OpAppend(_, id, _, chunkSize, body, _, now) =>
      AppendCutIsNoDearer(s.disk, e, id, chunkSize, body, now);
      OpenedIsBilled(cfg, s.disk, e);
    case OpComplete(id, fileId, now) =>
      CompleteCutIsNoDearer(cfg, s.disk, e, id, fileId, now);
      OpenedIsBilled(cfg, s.disk, e);
    case OpAbort(id) =>
      DirCutIsNoDearer(s.disk, e, id);
      OpenedIsBilled(cfg, s.disk, e);
  }

  lemma OtherOpCutIsBilled(cfg: Config, s: Store, op: Op, e: Disk)
    requires ValidConfig(cfg) && Billed(cfg, s) && !FileOp(op) && !UploadOp(op) && e != s.disk
    requires CrashDuring(cfg, s, op, e)
    ensures Billed(cfg, Opened(e))
  {
    match op
    case OpSweep(listing, now) => SweepCutIsBilled(cfg, s, listing, now, e);
    case OpRecover(listing, now) =>
      if R.PartlyCleaned(s.disk, e) {
        PartlyCleanedIsBilled(cfg, s, e);
        BilledOpens(cfg, s.(disk := e));
      } else {
        CleanedIsBilled(cfg, s, now);
        SweepCutIsBilled(cfg, s.(disk := R.Cleaned(s.disk, now)), listing, now, e);
      }
    case OpReady =>
      SameRecordsAreBilled(cfg, s, e);
      BilledOpens(cfg, s.(disk := e));
  }

  /** What a crash leaves costs nobody more. */
  lemma CutIsBilled(cfg: Config, s: Store, op: Op, e: Disk)
    requires ValidConfig(cfg) && Billed(cfg, s) && Fresh(s, op) && CrashDuring(cfg, s, op, e)
    requires op.OpComplete? ==> !Doubled(e, op.id, op.fileId)
    ensures Billed(cfg, Opened(e))
  {
    if e == s.disk {
      BilledOpens(cfg, s);
    } else if FileOp(op) {
      FileOpCutIsBilled(cfg, s, op, e);
    } else if UploadOp(op) {
      UploadOpCutIsBilled(cfg, s, op, e);
    } else {
      OtherOpCutIsBilled(cfg, s, op, e);
    }
  }

  lemma RebootIsBilled(cfg: Config, left: Disk, repair: Option<Repair>)
    requires ValidConfig(cfg) && Billed(cfg, Opened(left))
    ensures Billed(cfg, if repair.Some? then Recovered(cfg, Opened(left), repair.value) else Opened(left))
  {
    if repair.Some? {
      RecoveredIsBilled(cfg, Opened(left), repair.value);
    }
  }

  lemma CrashIsBilled(cfg: Config, s: Store, op: Op, t: Store)
    requires ValidConfig(cfg) && op.OpCrash? && Billed(cfg, Opened(op.left)) && t == Apply(cfg, s, op)
    ensures Billed(cfg, t)
  {
    RebootIsBilled(cfg, op.left, op.repair);
  }

  lemma StepIsBilled(cfg: Config, s: Store, op: Op, t: Store)
    requires ValidConfig(cfg) && cfg.quota > 0 && Billed(cfg, s) && Step(cfg, s, op, t) && !DoublingCrash(op)
    ensures Billed(cfg, t)
  {
    if Interrupted(cfg, s, op, t) {
      InterruptedKeeps(cfg, s, op, t);
    } else if Late(s, op, t) {
      LateIsBilled(cfg, s, op, t);
    } else if op.OpCrash? {
      CutIsBilled(cfg, s, op.during, op.left);
      CrashIsBilled(cfg, s, op, t);
    } else {
      ApplyKeeps(cfg, s, op);
    }
  }
}
