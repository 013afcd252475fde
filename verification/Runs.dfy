/** Whole runs of the store. */
module Runs {
  import opened Basics
  import opened Maps
  import opened Accounting
  import opened DiskModel
  import opened Trails
  import opened StoreSpec
  import opened Invariants
  import opened Quota
  import opened Exact
  import opened Billing
  import opened Soundness
  import opened CutOff
  import opened Operations
  import opened OneStep
  import opened Outcomes
  import C = Crash
  import R = Recovery

  // ---------------------------------------------------------------- the index refines the rescan

  /** Every run theorem can begin with a new directory. */
  lemma EmptyStoreIsAStart(cfg: Config)
    requires ValidConfig(cfg)
    ensures
      var s := Opened(EMPTY);
      && Inv(cfg, s) && Serving(cfg, s) && ExactIndex(s) && Sized(s.disk) && AllFit(s.disk) && Billed(cfg, s)
      && forall id :: View(s.disk, id) == VACANT
  {
    var d := EMPTY;
    EmptyStoreServes(cfg, 0);
    assert FileCharges(d) == map[] && TrashCharges(d) == map[] && UploadCharges(d) == map[];
    GoodIsBilled(cfg, Opened(d));
  }

  /** What happens before the last step of an orderly run is an orderly run. */
  lemma OrderlyPrefix(cfg: Config, states: seq<Store>, ops: seq<Op>, n: nat)
    requires OrderlyRun(cfg, states, ops) && n <= |ops|
    ensures OrderlyRun(cfg, states[..n + 1], ops[..n]) && states[..n + 1][0] == states[0]
  {
    forall i | 0 <= i < n ensures Orderly(cfg, states[..n + 1][i], ops[..n][i], states[..n + 1][i + 1]) {
      assert Orderly(cfg, states[i], ops[i], states[i + 1]);
    }
    forall i | 0 <= i < n ensures Step(cfg, states[..n + 1][i], ops[..n][i], states[..n + 1][i + 1]) {
      assert Step(cfg, states[i], ops[i], states[i + 1]);
    }
  }

  /** Over every orderly run every file stays complete and in one place. */
  lemma {:induction false} RunStaysSound(cfg: Config, states: seq<Store>, ops: seq<Op>)
    requires ValidConfig(cfg) && OrderlyRun(cfg, states, ops) && Sound(cfg.sha, states[0].disk)
    ensures Sound(cfg.sha, states[|ops|].disk)
  {
    if ops != [] {
      var n := |ops| - 1;
      OrderlyPrefix(cfg, states, ops, n);
      RunStaysSound(cfg, states[..n + 1], ops[..n]);
      assert Orderly(cfg, states[n], ops[n], states[n + 1]);
      OrderlyKeeps(cfg, states[n], ops[n], states[n + 1]);
    }
  }

  /** And as long as no owner's bytes overflow, a valid index agrees with a rescan at every
      moment. */
  lemma {:induction false} RunKeepsInv(cfg: Config, states: seq<Store>, ops: seq<Op>)
    requires ValidConfig(cfg) && OrderlyRun(cfg, states, ops) && AlwaysFits(states) && Inv(cfg, states[0])
    ensures Inv(cfg, states[|ops|])
  {
    if ops != [] {
      var n := |ops| - 1;
      OrderlyPrefix(cfg, states, ops, n);
      RunKeepsInv(cfg, states[..n + 1], ops[..n]);
      assert Orderly(cfg, states[n], ops[n], states[n + 1]);
      OrderlyKeeps(cfg, states[n], ops[n], states[n + 1]);
    }
  }

  /** So the store goes on serving: in no such run does the load of the index fail, and what
      `Outcomes` says of each operation holds at every moment. */
  lemma {:induction false} RunKeepsServing(cfg: Config, states: seq<Store>, ops: seq<Op>)
    requires OrderlyRun(cfg, states, ops) && AlwaysFits(states) && Serving(cfg, states[0])
    ensures Serving(cfg, states[|ops|])
  {
    if ops != [] {
      var n := |ops| - 1;
      OrderlyPrefix(cfg, states, ops, n);
      RunKeepsServing(cfg, states[..n + 1], ops[..n]);
      assert Orderly(cfg, states[n], ops[n], states[n + 1]);
      OrderlyIsHealthy(cfg, states[n], ops[n], states[n + 1]);
    }
    RunKeepsInv(cfg, states, ops);
  }

  /** No late failure leaves a good state: those runs have to be without them. */
  lemma LateIsNeverGood(cfg: Config, s: Store, op: Op, t: Store)
    requires Inv(cfg, s) && Late(s, op, t)
    ensures !Sound(cfg.sha, t.disk)
  {
    if op.OpRestore? {
      LateRestoreIsNotReady(cfg, s.disk, op.id);
      assert !SlotSound(cfg.sha, View(t.disk, op.id), op.id);
    } else if op.OpComplete? {
      assert !SessionReady(t.disk.uploads[op.id], op.id);
    } else if op.OpRecover? {
      SoundIsReady(cfg.sha, s.disk);
      R.ReadyIsTidy(s.disk);
    }
  }

  lemma LateRestoreIsNotReady(cfg: Config, d: Disk, id: Id)
    requires Sound(cfg.sha, d) && Restorable(d, id)
    ensures !SlotReady(View(RestoreCleared(d, id), id), id) && !SlotReady(View(RestoreSplit(d, id), id), id)
  {
    var v, dir := View(d, id), d.trash[id];
    var f := dir.manifest.value.(deletedAt := None);
    ViewPatch(d, id, v.(trash := Some(dir.(manifest := Some(f)))), id);
    ViewPatch(d, id, v.(manifest := Some(f), content := None, trash := Some(TrashDir(dir.content, None, None))), id);
  }

  /** In any state the invariant holds, a store that always rescans would show the same
      capacity figures. */
  lemma CapacityIsRescanned(cfg: Config, s: Store)
    requires Inv(cfg, s) && s.usageValid
    ensures TotalBytes(s.usage.files) == TotalBytes(Rescan(FileCharges(s.disk)))
    ensures TotalBytes(s.usage.trash) == TotalBytes(Rescan(TrashCharges(s.disk)))
  {
    RescanUsageAgrees(s.disk);
    var r := RescanUsage(s.disk);
    forall o
      ensures At(s.usage.files, o).bytes == At(r.files, o).bytes
      ensures At(s.usage.trash, o).bytes == At(r.trash, o).bytes
    {
      assert At(s.usage.files, o).bytes == BytesOf(FileCharges(s.disk), o) == At(r.files, o).bytes;
      assert At(s.usage.trash, o).bytes == BytesOf(TrashCharges(s.disk), o) == At(r.trash, o).bytes;
    }
    SameBytesSameCapacity(s.usage.files, r.files);
    SameBytesSameCapacity(s.usage.trash, r.trash);
  }

  // ---------------------------------------------------------------- record counts

  lemma {:induction false} RunKeepsCounts(cfg: Config, states: seq<Store>, ops: seq<Op>)
    requires ValidConfig(cfg) && OrderlyRun(cfg, states, ops) && AlwaysFits(states)
    requires Inv(cfg, states[0]) && ExactIndex(states[0])
    requires forall i | 0 <= i < |states| :: Sized(states[i].disk)
    ensures Counted(cfg, states[|ops|])
  {
    var n, s := |ops|, states[|ops|];
    if ops != [] {
      OrderlyPrefix(cfg, states, ops, n - 1);
      RunKeepsCounts(cfg, states[..n], ops[..n - 1]);
      assert Orderly(cfg, states[n - 1], ops[n - 1], s);
      OrderlyKeeps(cfg, states[n - 1], ops[n - 1], s);
    }
    RunKeepsInv(cfg, states, ops);
  }

  /** Over every orderly run in which no file is empty a valid index is, at every moment, exactly
      the one that a rescan would build: bytes and record counts of every owner. So the capacity
      report counts the objects, manifests and trash entries that are on disk. */
  lemma RunStaysExact(cfg: Config, states: seq<Store>, ops: seq<Op>)
    requires ValidConfig(cfg) && OrderlyRun(cfg, states, ops) && AlwaysFits(states)
    requires Inv(cfg, states[0]) && ExactIndex(states[0])
    requires forall i | 0 <= i < |states| :: Sized(states[i].disk)
    requires states[|ops|].usageValid
    ensures
      var s := states[|ops|];
      && s.usage == RescanUsage(s.disk)
      && Capacity(s.usage)
         == Figures(|s.disk.objects|, Wrapped(Sum(FileCharges(s.disk), Sizes())), |s.disk.manifests|,
                    |s.disk.trash|, Wrapped(Sum(TrashCharges(s.disk), Sizes())))
  {
    RunKeepsCounts(cfg, states, ops);
    CapacityCountsTheDisk(cfg, states[|ops|]);
  }

  // ---------------------------------------------------------------- removals that are cut off

  /** What is left of d, entry by entry. */
  ghost predicate LeftOf(d: Disk, b: Disk) {
    && (forall x | x in b.uploads :: x in d.uploads && b.uploads[x] == d.uploads[x])
    && (forall x | x in b.trash :: x in d.trash && b.trash[x] == d.trash[x])
  }

  /** The removal of one directory, cut off before, within or after it. */
  ghost predicate OneCut(b: Disk, e: Disk, id: Id) {
    e == b || DirCut(b, e, id) || TrashCut(b, e, id)
  }

  lemma OneCutAddsNothing(b: Disk, e: Disk, id: Id)
    requires OneCut(b, e, id)
    ensures e.uploads.Keys <= b.uploads.Keys && e.trash.Keys <= b.trash.Keys
  {
    if e != b && !DirCut(b, e, id) {
      var left :| e == Patch(b, id, View(b, id).(trash := Some(left))) && HalfTrash(b.trash[id], left);
    }
  }

  lemma WholeInBoth(d: Disk, b: Disk, e: Disk, id: Id)
    requires LeftOf(d, b) && OneCut(b, e, id)
    ensures WholeEntries(b, e) <==> WholeEntries(d, e)
  {
    OneCutAddsNothing(b, e, id);
  }

  /** Recover on whole entries and litter leads to a good state. */
  lemma LitterBecomesGood(cfg: Config, c: Disk, e: Disk, repair: Repair)
    requires Sound(cfg.sha, c) && R.Littered(c, e) && R.CanQuarantine(e, repair.now)
    ensures Inv(cfg, Recovered(cfg, Opened(e), repair))
  {
    RebootKeepsInv(cfg, c, e, repair.listing, repair.now);
  }

  lemma OneCutHealsIff(cfg: Config, b: Disk, e: Disk, id: Id, repair: Repair)
    requires Sound(cfg.sha, b) && OneCut(b, e, id) && R.CanQuarantine(e, repair.now)
    ensures C.Heals(cfg, e, repair.now) <==> WholeEntries(b, e)
    ensures WholeEntries(b, e) ==> R.Littered(b, e) || R.Littered(PatchSession(b, id, None), e)
  {
    OpenSessionsAreTidy(cfg.sha, b);
    if e == b {
      C.SoundHeals(cfg, b, repair.now);
    } else if DirCut(b, e, id) {
      DirCutHealsIff(cfg, b, e, id, repair.now);
    } else {
      TrashCutHealsIff(cfg, b, e, id, repair.now);
    }
  }

  lemma SweptIsLeftOf(cfg: Config, s: Store, listing: seq<Id>, now: int)
    requires Sound(cfg.sha, s.disk)
    ensures Sound(cfg.sha, SweepAll(cfg, s, listing, now).disk) && LeftOf(s.disk, SweepAll(cfg, s, listing, now).disk)
  {
    SweepKeepsSound(cfg, s, listing, now);
    SweepReleases(cfg, s, listing, now, Owner(""));
  }

  lemma PurgedIsLeftOf(cfg: Config, s: Store, listing: seq<Id>, olderThan: Option<int>)
    requires Sound(cfg.sha, s.disk)
    ensures Sound(cfg.sha, PurgeAll(s, listing, olderThan).0.disk)
    ensures LeftOf(s.disk, PurgeAll(s, listing, olderThan).0.disk)
  {
    PurgeKeepsSound(cfg, s, listing, olderThan);
    PurgeLeavesUploads(s, listing, olderThan);
    PurgeReleases(s, listing, olderThan, Owner(""));
  }

  /** The directory in which the removal that was cut off began, and its entry. */
  lemma RemovalBase(cfg: Config, s: Store, op: Op, e: Disk) returns (b: Disk, id: Id)
    requires Sound(cfg.sha, s.disk) && (op.OpAbort? || op.OpSweep? || op.OpPurge?) && CrashDuring(cfg, s, op, e)
    ensures Sound(cfg.sha, b) && LeftOf(s.disk, b) && OneCut(b, e, id)
  {
    b, id := s.disk, Id("");
    if e != s.disk {
      match op
      case OpAbort(session) => id := session;
      case OpSweep(listing, now) =>
        var n: nat :| n <= |listing| && SweepCutAt(cfg, s, listing, now, e, n);
        SweptIsLeftOf(cfg, s, listing[..n], now);
        b, id := SweepAll(cfg, s, listing[..n], now).disk, if n < |listing| then listing[n] else id;
      case OpPurge(listing, olderThan) =>
        var n: nat :| n <= |listing| && PurgeCutAt(s, listing, olderThan, e, n);
        PurgedIsLeftOf(cfg, s, listing[..n], olderThan);
        b, id := PurgeAll(s, listing[..n], olderThan).0.disk, if n < |listing| then listing[n] else id;
    }
  }

  /** The removals of AbortUpload, of the sweep and of PurgeTrash take one directory after another
      and each in several steps: a crash anywhere in them heals exactly when every session that
      still has its manifest, and every trash entry, is whole; then Recover leads to a good
      state. */
  lemma RemovalCrashHealsIff(cfg: Config, s: Store, op: Op, e: Disk, repair: Repair)
    requires Sound(cfg.sha, s.disk) && (op.OpAbort? || op.OpSweep? || op.OpPurge?)
    requires CrashDuring(cfg, s, op, e) && R.CanQuarantine(e, repair.now)
    ensures C.Heals(cfg, e, repair.now) <==> WholeEntries(s.disk, e)
    ensures WholeEntries(s.disk, e) ==> Inv(cfg, Recovered(cfg, Opened(e), repair))
  {
    var b, id := RemovalBase(cfg, s, op, e);
    WholeInBoth(s.disk, b, e, id);
    OneCutHealsIff(cfg, b, e, id, repair);
    if WholeEntries(b, e) {
      if R.Littered(b, e) {
        LitterBecomesGood(cfg, b, e, repair);
      } else {
        DropSessionKeepsSound(cfg.sha, b, id);
        LitterBecomesGood(cfg, PatchSession(b, id, None), e, repair);
      }
    }
  }

  // ---------------------------------------------------------------- torn writes

  /** The end of the process can leave any part of a Put's body, */
  lemma TornBodyIsAStep(cfg: Config, s: Store, put: Op, torn: Bytes, repair: Option<Repair>)
    requires put.OpPut?
    ensures
      var left := Patch(s.disk, put.id, View(s.disk, put.id).(part := Some(torn)));
      var crash := OpCrash(put, left, repair);
      Step(cfg, s, crash, Apply(cfg, s, crash))
  {
    var left := Patch(s.disk, put.id, View(s.disk, put.id).(part := Some(torn)));
    assert PutCut(s.disk, left, put.id, put.body.bytes,
                  NewFile(cfg, put.id, put.body.bytes, put.info, put.now));
  }

  /** any part of a chunk behind the bytes that the session counts, */
  lemma TornChunkIsAStep(cfg: Config, s: Store, append: Op, n: nat, repair: Option<Repair>)
    requires append.OpAppend? && append.chunkSize > 0 && n <= |Written(append.body, append.chunkSize)|
    requires ReadSession(s.disk, append.id).Ok? && ReadSession(s.disk, append.id).value.status.Uploading?
    ensures
      var more := Written(append.body, append.chunkSize)[..n];
      var left := PatchSession(s.disk, append.id, Some(Lengthened(s.disk.uploads[append.id], more)));
      var crash := OpCrash(append, left, repair);
      Step(cfg, s, crash, Apply(cfg, s, crash))
  {}

  /** and any half of a session directory. */
  lemma HalfSessionIsAStep(cfg: Config, s: Store, id: Id, left: SessionDir, repair: Option<Repair>)
    requires id in s.disk.uploads && HalfDir(s.disk.uploads[id], left)
    ensures
      var crash := OpCrash(OpAbort(id), PatchSession(s.disk, id, Some(left)), repair);
      Step(cfg, s, crash, Apply(cfg, s, crash))
  {
    assert DirCut(s.disk, PatchSession(s.disk, id, Some(left)), id);
  }

  // ---------------------------------------------------------------- orderly crashes

  /** Every crash of an orderly run heals. */
  lemma OrderlyCrashHeals(cfg: Config, s: Store, op: Op, t: Store)
    requires ValidConfig(cfg) && Sound(cfg.sha, s.disk) && op.OpCrash? && Orderly(cfg, s, op, t)
    ensures C.Heals(cfg, op.left, op.repair.value.now)
  {
    var m :| Arrived(cfg, s, op.during, m) && R.Littered(m.disk, op.left);
    ArrivalKeeps(cfg, s, op.during, m);
    SoundIsReady(cfg.sha, m.disk);
    R.LitterIsRemoved(cfg, m.disk, op.left, op.repair.value.now);
  }

  /** Of the crashes within a Put every one that heals is a step of the orderly runs. */
  lemma PutCrashIsOrderlyIff(cfg: Config, s: Store, op: Op, repair: Repair)
    requires ValidConfig(cfg) && Sound(cfg.sha, s.disk) && op.OpCrash? && op.during.OpPut? && Legal(cfg, s, op)
    requires View(s.disk, op.during.id) == VACANT && op.repair == Some(repair) && R.CanQuarantine(op.left, repair.now)
    ensures Orderly(cfg, s, op, Apply(cfg, s, op)) <==> C.Heals(cfg, op.left, repair.now)
  {
    var put, e := op.during, op.left;
    if Orderly(cfg, s, op, Apply(cfg, s, op)) {
      OrderlyCrashHeals(cfg, s, op, Apply(cfg, s, op));
    }
    if C.Heals(cfg, e, repair.now) {
      OpenSessionsAreTidy(cfg.sha, s.disk);
      if e != s.disk {
        PutCutHealsIff(cfg, s.disk, e, put.id, put.body.bytes,
                       NewFile(cfg, put.id, put.body.bytes, put.info, put.now), repair.now);
      }
      assert Arrived(cfg, s, put, s) && R.Littered(s.disk, e);
    }
  }

  // ---------------------------------------------------------------- one failed load is for ever

  lemma BrokenRefusesPut(cfg: Config, s: Store, pause: Pause, id: Id, body: Body, info: Info, now: int)
    requires Broken(s)
    ensures Put(cfg, s, pause, id, body, info, now).1 == Err(UsageUnavailable)
  {}

  /** The error of the first load is remembered for the life of the process, whatever is
      repaired meanwhile: uploads stay refused until a restart. */
  lemma {:induction false} FailedLoadIsForEver(
    cfg: Config, states: seq<Store>, ops: seq<Op>, pause: Pause, id: Id, body: Body, info: Info, now: int)
    requires Run(cfg, states, ops) && Broken(states[0])
    requires forall op | op in ops :: !op.OpRestart? && !op.OpCrash?
    ensures Broken(states[|ops|])
    ensures Put(cfg, states[|ops|], pause, id, body, info, now).1 == Err(UsageUnavailable)
  {
    if ops != [] {
      var n := |ops| - 1;
      FailedLoadIsForEver(cfg, states[..n + 1], ops[..n], pause, id, body, info, now);
      assert Step(cfg, states[n], ops[n], states[n + 1]);
      assert ops[n] in ops;
      StepKeepsFailure(cfg, states[n], ops[n], states[n + 1]);
    }
    BrokenRefusesPut(cfg, states[|ops|], pause, id, body, info, now);
  }

  // ---------------------------------------------------------------- quota safety

  /** With a quota and a start within it, no run ever charges an owner more than the limit, over
      files, trash and reservations together, and a valid index always shows what the owner is
      charged for: whatever fails, early or late, wherever the process ends, repaired or not,
      but for the one window of CompleteUpload in which a file counts twice. */
  lemma {:induction false} RunStaysWithinQuota(cfg: Config, states: seq<Store>, ops: seq<Op>)
    requires ValidConfig(cfg) && cfg.quota > 0 && Run(cfg, states, ops) && Billed(cfg, states[0])
    requires forall i | 0 <= i < |ops| :: !DoublingCrash(ops[i])
    ensures
      var s := states[|ops|];
      && Billed(cfg, s) && AllFit(s.disk)
      && forall o ::
           0 <= OwnerBytes(s.disk, o) <= cfg.quota && (s.usageValid ==> Total(s.usage, o) == OwnerBytes(s.disk, o))
  {
    var s := states[|ops|];
    if ops != [] {
      var n := |ops| - 1;
      RunStaysWithinQuota(cfg, states[..n + 1], ops[..n]);
      assert Step(cfg, states[n], ops[n], s);
      StepIsBilled(cfg, states[n], ops[n], s);
    }
    WithinQuotaFits(cfg, s.disk);
    forall o ensures 0 <= OwnerBytes(s.disk, o) <= cfg.quota
                     && (s.usageValid ==> Total(s.usage, o) == OwnerBytes(s.disk, o))
    {
      assert OwnerBytes(s.disk, o) <= cfg.quota;
      if s.usageValid {
        TotalIsBilled(cfg, s.usage, s.disk, o);
      }
    }
  }
}
