/** Replicating an upload to a second store: one execution of the job, any number of them, and
    the queue that runs them. */
module Replication {
  import opened Basics
  import opened Text
  import opened Maps
  import opened DiskModel
  import opened Trails
  import J = JobQueue
  import R = JobRuns
  import S = StoreSpec
  import L = LimitReader
  import D = DiskStore
  import Q = Quota
  import C = CutOff
  import V = Recovery

  /** What happens to the POST: nobody receives it, the replica receives only part of the file
      or all of it, the connection ends after the file but before the end of the request, when
      the replica deletes what it has stored unless that fails too, or the reply is lost. */
  datatype Fate = Lost | Broken(received: nat) | CutOff(cleaned: bool) | ReplyLost | Delivered

  /** One execution: whether the source could be opened and the replica's status was obtained,
      and what became of the POST. */
  datatype Try = Try(readable: bool, answered: bool, fate: Fate, pause: S.Pause, now: int)

  /** The multipart form carries name, metadata and bytes; the content type is always the same. */
  function SentInfo(f: File): Info {
    f.info.(contentType := "application/octet-stream")
  }

  ghost function PutAt(cfg: S.Config, r: S.Store, f: File, body: Body, limit: nat, t: Try): (S.Store, Outcome<File>) {
    S.Put(cfg, r, t.pause, f.id, L.Limited(body, limit), SentInfo(f), t.now)
  }

  /** mutateRemoteWithID as the replica sees it. */
  ghost function Post(cfg: S.Config, r: S.Store, f: File, bytes: Bytes, limit: nat, t: Try): (S.Store, bool) {
    match t.fate
    case Lost => (r, false)
    case Broken(received) =>
      (PutAt(cfg, r, f, Body(if received < |bytes| then bytes[..received] else bytes, true), limit, t).0, false)
    case CutOff(cleaned) =>
      var (s, stored) := PutAt(cfg, r, f, Body(bytes, false), limit, t);
      (if stored.Ok? && cleaned then S.Delete(s, f.id, t.now).0 else s, false)
    case ReplyLost => (PutAt(cfg, r, f, Body(bytes, false), limit, t).0, false)
    case Delivered =>
      var (s, stored) := PutAt(cfg, r, f, Body(bytes, false), limit, t);
      (s, stored.Ok?)
  }

  /** The comparison of remoteFileMatches. */
  predicate Same(f: File, g: File) {
    g.id == f.id && g.size == f.size && EqualFold(g.checksum, f.checksum)
  }

  /** replicateUpload of the file f with the given bytes. */
  ghost function Execute(cfg: S.Config, r: S.Store, f: File, bytes: Bytes, limit: nat, t: Try): (S.Store, bool) {
    if !t.readable || !t.answered then (r, false)
    else
      match ReadFile(r.disk, f.id)
      case Ok(g) => (r, Same(f, g))
      case Err(e) => if e.NotFound? then Post(cfg, r, f, bytes, limit, t) else (r, false)
  }

  /** The replica has the file active, with the same identifier, size and checksum. */
  predicate Held(d: Disk, f: File) {
    ReadFile(d, f.id).Ok? && Same(f, ReadFile(d, f.id).value)
  }

  lemma HeldIsOfTheSlot(d: Disk, e: Disk, f: File)
    requires View(d, f.id) == View(e, f.id)
    ensures Held(d, f) == Held(e, f)
  {}

  /** On a sound replica the checksum speaks for the bytes. */
  lemma HeldBytes(sha: Bytes -> string, d: Disk, f: File)
    requires Sound(sha, d) && Held(d, f)
    ensures f.id in d.objects && |d.objects[f.id]| == f.size && EqualFold(sha(d.objects[f.id]), f.checksum)
  {
    assert SlotSound(sha, View(d, f.id), f.id);
  }

  // ---------------------------------------------------------------- one execution

  function SentFile(cfg: S.Config, f: File, bytes: Bytes, now: int): File {
    S.NewFile(cfg, f.id, bytes, SentInfo(f), now)
  }

  /** The replica's directory with the file stored. */
  function StoredDisk(cfg: S.Config, d: Disk, f: File, bytes: Bytes, now: int): Disk {
    Patch(d, f.id, StoredSlot(bytes, SentFile(cfg, f, bytes, now)))
  }

  lemma StoredIsHeld(cfg: S.Config, d: Disk, f: File, bytes: Bytes, now: int)
    requires S.ValidConfig(cfg) && Complete(cfg.sha, f, bytes)
    ensures Held(StoredDisk(cfg, d, f, bytes, now), f)
  {
    EqualFoldIsEquivalence(f.checksum, f.checksum, f.checksum);
    ViewPatch(d, f.id, StoredSlot(bytes, SentFile(cfg, f, bytes, now)), f.id);
  }

  /** A Put leaves the directory alone or stores the file. */
  lemma PutSlot(cfg: S.Config, r: S.Store, f: File, body: Body, limit: nat, t: Try)
    requires S.ValidConfig(cfg)
    ensures
      var (s, stored) := PutAt(cfg, r, f, body, limit, t);
      && (stored.Err? ==> s.disk == r.disk)
      && (body.fails ==> stored.Err?)
      && (stored.Ok? ==>
            && s.disk == StoredDisk(cfg, r.disk, f, body.bytes, t.now)
            && View(r.disk, f.id) == VACANT)
  {
    assert L.Limited(body, limit).fails || L.Limited(body, limit) == body;
    Q.PutCases(cfg, r, t.pause, f.id, L.Limited(body, limit), SentInfo(f), t.now);
  }

  lemma PostOutcomes(cfg: S.Config, r: S.Store, f: File, bytes: Bytes, limit: nat, t: Try)
    requires S.ValidConfig(cfg)
    ensures
      var (s, ok) := Post(cfg, r, f, bytes, limit, t);
      var stored := StoredDisk(cfg, r.disk, f, bytes, t.now);
      || (s.disk == r.disk && !ok)
      || (View(r.disk, f.id) == VACANT && s.disk == stored)
      || (View(r.disk, f.id) == VACANT && !ok && s.disk == S.Delete(r.(disk := stored), f.id, t.now).0.disk)
  {
    PutSlot(cfg, r, f, Body(bytes, false), limit, t);
    if t.fate.Broken? {
      PutSlot(cfg, r, f, Body(if t.fate.received < |bytes| then bytes[..t.fate.received] else bytes, true), limit, t);
    } else if t.fate.CutOff? {
      DeleteReadsTheDisk(PutAt(cfg, r, f, Body(bytes, false), limit, t).0, r, f.id, t.now);
    }
  }

  lemma DeleteReadsTheDisk(s: S.Store, r: S.Store, id: Id, now: int)
    ensures S.Delete(s, id, now).0.disk == S.Delete(r.(disk := s.disk), id, now).0.disk
  {}

  /** Whatever happens, one execution leaves the replica alone, stores the file, or stores and
      deletes it again; and it reports success only when the replica holds the file. */
  lemma ExecutionOutcomes(cfg: S.Config, r: S.Store, f: File, bytes: Bytes, limit: nat, t: Try)
    requires S.ValidConfig(cfg) && Complete(cfg.sha, f, bytes)
    ensures
      var (s, ok) := Execute(cfg, r, f, bytes, limit, t);
      var stored := StoredDisk(cfg, r.disk, f, bytes, t.now);
      && (s.disk == r.disk
          || (View(r.disk, f.id) == VACANT
              && (s.disk == stored || s.disk == S.Delete(r.(disk := stored), f.id, t.now).0.disk)))
      && (ok ==> Held(s.disk, f))
  {
    PostOutcomes(cfg, r, f, bytes, limit, t);
    StoredIsHeld(cfg, r.disk, f, bytes, t.now);
  }

  /** Once the replica holds the file, no execution changes it any more, and each that gets an
      answer succeeds: running a job again after a crash has no effect. */
  lemma RerunChangesNothing(cfg: S.Config, r: S.Store, f: File, bytes: Bytes, limit: nat, t: Try)
    requires Held(r.disk, f)
    ensures Execute(cfg, r, f, bytes, limit, t) == (r, t.readable && t.answered)
  {}

  /** An identifier in the replica's trash blocks the job for good: every execution fails and
      changes nothing. */
  lemma TrashBlocksReplication(cfg: S.Config, r: S.Store, f: File, bytes: Bytes, limit: nat, t: Try)
    requires S.ValidConfig(cfg) && f.id in r.disk.trash && f.id !in r.disk.manifests
    ensures Execute(cfg, r, f, bytes, limit, t).0.disk == r.disk && !Execute(cfg, r, f, bytes, limit, t).1
  {
    PutSlot(cfg, r, f, Body(bytes, false), limit, t);
    if t.fate.Broken? {
      PutSlot(cfg, r, f, Body(if t.fate.received < |bytes| then bytes[..t.fate.received] else bytes, true), limit, t);
    }
  }

  /** Whether the replica can take the file at all. */
  ghost predicate Accepts(cfg: S.Config, r: S.Store, f: File, bytes: Bytes, limit: nat, pause: S.Pause) {
    var (gated, stop) := S.PauseGate(r, pause);
    && View(r.disk, f.id) == VACANT && |bytes| <= limit
    && stop.None? && !S.Load(gated).loadFailed
    && S.QuotaGate(cfg, S.Load(gated), f.info.owner, |bytes|).None?
  }

  /** An execution in which everything arrives succeeds exactly when the replica holds the file
      already, or has the identifier unused and room for it. */
  lemma DeliveredSucceedsIff(cfg: S.Config, r: S.Store, f: File, bytes: Bytes, limit: nat, t: Try)
    requires t.readable && t.answered && t.fate.Delivered?
    ensures Execute(cfg, r, f, bytes, limit, t).1 <==> Held(r.disk, f) || Accepts(cfg, r, f, bytes, limit, t.pause)
  {
    var gated := S.PauseGate(r, t.pause).0;
    assert S.Load(gated).disk == r.disk;
    if f.id !in r.disk.manifests {
      DeliveredPut(cfg, r, f, bytes, limit, t);
    }
  }

  lemma DeliveredPut(cfg: S.Config, r: S.Store, f: File, bytes: Bytes, limit: nat, t: Try)
    ensures PutAt(cfg, r, f, Body(bytes, false), limit, t).1.Ok? <==> Accepts(cfg, r, f, bytes, limit, t.pause)
  {
    assert S.Load(S.PauseGate(r, t.pause).0).disk == r.disk;
  }

  /** The record g of the copy: the bytes, with the name and the metadata of the original, and so
      charged to the same owner. */
  ghost predicate CopyOf(sha: Bytes -> string, d: Disk, f: File, g: File, bytes: Bytes) {
    && ReadFile(d, f.id) == Ok(g) && GetAt(d.objects, f.id) == Some(bytes)
    && g.info.name == f.info.name && g.info.metadata == f.info.metadata && g.info.owner == f.info.owner
    && g.info.contentType == "application/octet-stream"
    && g.size == |bytes| && g.checksum == sha(bytes)
  }

  lemma StoredIsCopy(cfg: S.Config, d: Disk, f: File, bytes: Bytes, now: int)
    requires S.ValidConfig(cfg)
    ensures CopyOf(cfg.sha, StoredDisk(cfg, d, f, bytes, now), f, SentFile(cfg, f, bytes, now), bytes)
  {
    ViewPatch(d, f.id, StoredSlot(bytes, SentFile(cfg, f, bytes, now)), f.id);
    assert View(StoredDisk(cfg, d, f, bytes, now), f.id).content == Some(bytes);
  }

  lemma SuccessStores(cfg: S.Config, r: S.Store, f: File, bytes: Bytes, limit: nat, t: Try)
    requires S.ValidConfig(cfg) && View(r.disk, f.id) == VACANT && Execute(cfg, r, f, bytes, limit, t).1
    ensures Execute(cfg, r, f, bytes, limit, t).0.disk == StoredDisk(cfg, r.disk, f, bytes, t.now)
  {
    assert ReadFile(r.disk, f.id) == Err(NotFound) by {
      assert View(r.disk, f.id).manifest.None?;
    }
    assert Execute(cfg, r, f, bytes, limit, t) == Post(cfg, r, f, bytes, limit, t);
    PostOutcomes(cfg, r, f, bytes, limit, t);
  }

  /** What a successful execution stores under an unused identifier. */
  lemma SuccessCopies(cfg: S.Config, r: S.Store, f: File, bytes: Bytes, limit: nat, t: Try)
    requires S.ValidConfig(cfg) && View(r.disk, f.id) == VACANT && Execute(cfg, r, f, bytes, limit, t).1
    ensures exists g :: CopyOf(cfg.sha, Execute(cfg, r, f, bytes, limit, t).0.disk, f, g, bytes)
  {
    SuccessStores(cfg, r, f, bytes, limit, t);
    StoredIsCopy(cfg, r.disk, f, bytes, t.now);
  }

  // ---------------------------------------------------------------- any number of executions

  /** What the replica's slot may look like after executions from an unused identifier. */
  ghost predicate Fresh(s: Slot) {
    s == VACANT
  }

  ghost predicate StoredOnce(cfg: S.Config, s: Slot, f: File, bytes: Bytes) {
    exists now :: s == StoredSlot(bytes, SentFile(cfg, f, bytes, now))
  }

  ghost predicate Withdrawn(s: Slot) {
    s.manifest.None? && s.content.None? && s.trash.Some?
  }

  /** The replica after a number of executions, with nobody else writing to it. */
  ghost function After(cfg: S.Config, r: S.Store, f: File, bytes: Bytes, limit: nat, tries: seq<Try>): S.Store {
    if tries == [] then r
    else Execute(cfg, After(cfg, r, f, bytes, limit, tries[..|tries| - 1]), f, bytes, limit, tries[|tries| - 1]).0
  }

  lemma OneMore(cfg: S.Config, r: S.Store, f: File, bytes: Bytes, limit: nat, t: Try)
    requires S.ValidConfig(cfg) && Complete(cfg.sha, f, bytes) && GoodFile(f, f.id)
    requires
      var s := View(r.disk, f.id);
      Fresh(s) || StoredOnce(cfg, s, f, bytes) || Withdrawn(s)
    ensures
      var s, u := View(r.disk, f.id), View(Execute(cfg, r, f, bytes, limit, t).0.disk, f.id);
      && (Fresh(u) || StoredOnce(cfg, u, f, bytes) || Withdrawn(u))
      && (!Fresh(s) ==> u == s)
  {
    var s := View(r.disk, f.id);
    if StoredOnce(cfg, s, f, bytes) {
      EqualFoldIsEquivalence(f.checksum, f.checksum, f.checksum);
      RerunChangesNothing(cfg, r, f, bytes, limit, t);
    } else if Withdrawn(s) {
      TrashBlocksReplication(cfg, r, f, bytes, limit, t);
    } else {
      ExecutionOutcomes(cfg, r, f, bytes, limit, t);
      var g := SentFile(cfg, f, bytes, t.now);
      var stored := StoredDisk(cfg, r.disk, f, bytes, t.now);
      ViewPatch(r.disk, f.id, StoredSlot(bytes, g), f.id);
      ViewPatch(stored, f.id, DeletedSlot(StoredSlot(bytes, g), g.(deletedAt := Some(t.now))), f.id);
    }
  }

  /** At-least-once execution has at most one effect: over any number of executions under any
      fates the replica's entry is unused, or the one stored file, or that file in trash, and
      after the first change it never changes again. */
  lemma {:induction false} ExecutionsHaveOneEffect(
    cfg: S.Config, r: S.Store, f: File, bytes: Bytes, limit: nat, tries: seq<Try>, n: nat)
    requires S.ValidConfig(cfg) && Complete(cfg.sha, f, bytes) && GoodFile(f, f.id) && View(r.disk, f.id) == VACANT
    requires n <= |tries|
    ensures
      var s := View(After(cfg, r, f, bytes, limit, tries[..n]).disk, f.id);
      var u := View(After(cfg, r, f, bytes, limit, tries).disk, f.id);
      && (Fresh(u) || StoredOnce(cfg, u, f, bytes) || Withdrawn(u))
      && (Fresh(s) || u == s)
    decreases |tries|
  {
    if n == |tries| {
      assert tries[..n] == tries;
    }
    if tries != [] {
      var m := |tries| - 1;
      ExecutionsHaveOneEffect(cfg, r, f, bytes, limit, tries[..m], if n < m then n else m);
      if n < m {
        assert tries[..m][..n] == tries[..n];
      } else {
        assert tries[..m][..m] == tries[..m];
      }
      OneMore(cfg, After(cfg, r, f, bytes, limit, tries[..m]), f, bytes, limit, tries[m]);
    }
  }

  // ---------------------------------------------------------------- together with the queue

  /** The queue, the replica's directory, what the execution under way has come to, and whether
      the replica has stored the file for a request that has not ended there. */
  datatype World = World(queue: J.Queue, replica: Disk, outcome: Option<bool>, unfinished: bool)

  /** A POST that its execution has given up, by a timeout or a crash, may reach the replica at any
      later time, and the replica learns only at the end of the request whether it is whole. */
  datatype Event =
    | OfQueue(e: J.Event)
    | Executes(t: Try)                      // the worker executes the job it has claimed
    | Arrives(t: Try)                       // a POST given up earlier reaches the replica
    | Ends                                  // such a request turns out to be whole,
    | CleansUp(now: int)                    // or not: the replica deletes what it has stored
    | Dies(left: Option<Slot>, now: int)    // the replica's process ends, perhaps within a Put
    | Restarts                              // and comes back with Recover

  function UploadJob(f: File): J.JobId {
    J.JobIdOf(J.OpUpload, f.id)
  }

  /** The slot of the file changes as in one execution, begun in some state of the replica
      that shows the same slot. */
  ghost predicate Ran(cfg: S.Config, before: Disk, after: Disk, f: File, bytes: Bytes, limit: nat, t: Try, ok: bool) {
    exists r: S.Store ::
      && View(r.disk, f.id) == View(before, f.id)
      && View(Execute(cfg, r, f, bytes, limit, t).0.disk, f.id) == View(after, f.id)
      && Execute(cfg, r, f, bytes, limit, t).1 == ok
  }

  /** It changes as in one POST that nobody waits for. */
  ghost predicate Came(cfg: S.Config, before: Disk, after: Disk, f: File, bytes: Bytes, limit: nat, t: Try) {
    exists r: S.Store ::
      && View(r.disk, f.id) == View(before, f.id)
      && View(Post(cfg, r, f, bytes, limit, t).0.disk, f.id) == View(after, f.id)
  }

  /** It changes as when the replica ends within its Put of the file. */
  ghost predicate CutShort(cfg: S.Config, before: Disk, after: Disk, f: File, bytes: Bytes, left: Slot, now: int) {
    && f.id !in before.objects && f.id !in before.manifests && f.id !in before.trash && View(after, f.id) == left
    && C.PutCut(before, Patch(before, f.id, left), f.id, bytes, SentFile(cfg, f, bytes, now))
  }

  /** The outcome of an execution is what gets recorded; a crash forgets it. */
  function NextOutcome(w: World, e: J.Event): Option<bool> {
    if e.Claim? || e.Record? || e.Crash? then None else w.outcome
  }

  ghost predicate QueueStep(queue: J.Config, w: World, e: J.Event, v: World, f: File) {
    && J.Step(queue, w.queue, e, v.queue)
    && (e.Record? && w.queue.worker == Some(UploadJob(f)) ==> w.outcome == Some(e.succeeded))
    && v.outcome == NextOutcome(w, e) && v.unfinished == w.unfinished
    && View(v.replica, f.id) == View(w.replica, f.id)
  }

  /** A request under which the file was stored and that nobody saw succeed is not known to have
      ended. */
  ghost predicate Opens(w: World, v: World, f: File, answered: bool) {
    v.unfinished == (w.unfinished || (!answered && View(v.replica, f.id) != View(w.replica, f.id)))
  }

  /** Nobody else writes to the slot. */
  ghost predicate Step(
    queue: J.Config, cfg: S.Config, w: World, e: Event, v: World, f: File, bytes: Bytes, limit: nat)
  {
    match e
    case OfQueue(q) => QueueStep(queue, w, q, v, f)
    case Executes(t) =>
      && w.queue.worker == Some(UploadJob(f)) && w.outcome.None? && v.outcome.Some? && v.queue == w.queue
      && Ran(cfg, w.replica, v.replica, f, bytes, limit, t, v.outcome.value) && Opens(w, v, f, v.outcome.value)
    case Arrives(t) =>
      && v.queue == w.queue && v.outcome == w.outcome
      && Came(cfg, w.replica, v.replica, f, bytes, limit, t) && Opens(w, v, f, false)
    case Ends =>
      v == w.(replica := v.replica, unfinished := false) && View(v.replica, f.id) == View(w.replica, f.id)
    case CleansUp(now) =>
      && w.unfinished && v == w.(replica := v.replica, unfinished := false)
      && View(v.replica, f.id) == View(S.Delete(S.Opened(w.replica), f.id, now).0.disk, f.id)
    case Dies(left, now) =>
      && v == w.(replica := v.replica, unfinished := false)
      && if left.Some? then CutShort(cfg, w.replica, v.replica, f, bytes, left.value, now)
         else View(v.replica, f.id) == View(w.replica, f.id)
    case Restarts =>
      && v == w.(replica := v.replica, unfinished := false)
      && View(v.replica, f.id) == V.WithoutTmp(View(w.replica, f.id))
  }

  ghost predicate Run(
    queue: J.Config, cfg: S.Config, states: seq<World>, events: seq<Event>, f: File, bytes: Bytes, limit: nat)
  {
    && |states| == |events| + 1
    && forall i | 0 <= i < |events| :: Step(queue, cfg, states[i], events[i], states[i + 1], f, bytes, limit)
  }

  /** The run has a step for every execution that the worker may make, whatever the state of the
      replica's process and whatever becomes of the POST; */
  lemma AnyExecutionIsAStep(
    queue: J.Config, cfg: S.Config, w: World, r: S.Store, t: Try, f: File, bytes: Bytes, limit: nat)
    returns (v: World)
    requires w.queue.worker == Some(UploadJob(f)) && w.outcome.None? && r.disk == w.replica
    ensures Step(queue, cfg, w, Executes(t), v, f, bytes, limit)
    ensures
      var (s, ok) := Execute(cfg, r, f, bytes, limit, t);
      v.replica == s.disk && v.outcome == Some(ok)
  {
    var (s, ok) := Execute(cfg, r, f, bytes, limit, t);
    v := w.(replica := s.disk, outcome := Some(ok),
            unfinished := w.unfinished || (!ok && View(s.disk, f.id) != View(w.replica, f.id)));
    assert Ran(cfg, w.replica, v.replica, f, bytes, limit, t, ok);
  }

  /** for every POST that comes late, at any time; */
  lemma AnyLateRequestIsAStep(
    queue: J.Config, cfg: S.Config, w: World, r: S.Store, t: Try, f: File, bytes: Bytes, limit: nat)
    returns (v: World)
    requires r.disk == w.replica
    ensures Step(queue, cfg, w, Arrives(t), v, f, bytes, limit)
    ensures v.replica == Post(cfg, r, f, bytes, limit, t).0.disk && v.queue == w.queue
  {
    var d := Post(cfg, r, f, bytes, limit, t).0.disk;
    v := w.(replica := d, unfinished := w.unfinished || View(d, f.id) != View(w.replica, f.id));
    assert Came(cfg, w.replica, v.replica, f, bytes, limit, t);
  }

  /** and for every directory that the end of the replica's process within its Put can leave. */
  lemma AnyCutIsAStep(
    queue: J.Config, cfg: S.Config, w: World, left: Slot, now: int, f: File, bytes: Bytes, limit: nat)
    returns (v: World)
    requires View(w.replica, f.id) == VACANT
    requires left in PutSteps(VACANT, bytes, SentFile(cfg, f, bytes, now)) || left == VACANT.(part := left.part)
    ensures Step(queue, cfg, w, Dies(Some(left), now), v, f, bytes, limit)
    ensures v.replica == Patch(w.replica, f.id, left) && v.queue == w.queue && v.outcome == w.outcome
  {
    var d, g := w.replica, SentFile(cfg, f, bytes, now);
    v := w.(replica := Patch(d, f.id, left), unfinished := false);
    ViewPatch(d, f.id, left, f.id);
    assert View(d, f.id).manifest.None? && View(d, f.id).content.None? && View(d, f.id).trash.None?;
    assert C.PutCut(d, Patch(d, f.id, left), f.id, bytes, g) by {
      if left in PutSteps(VACANT, bytes, g) {
        assert IsStep(Patch(d, f.id, left), d, f.id, PutSteps(View(d, f.id), bytes, g));
      } else {
        assert Patch(d, f.id, left) == Patch(d, f.id, View(d, f.id).(part := Some(left.part.value)));
      }
    }
  }

  // ---------------------------------------------------------------- one step

  /** A POST leaves the slot alone, or fills a vacant one with the file, perhaps already in trash
      again. */
  ghost predicate Effect(cfg: S.Config, before: Slot, after: Slot, f: File, bytes: Bytes) {
    after == before || (before == VACANT && (StoredOnce(cfg, after, f, bytes) || Withdrawn(after)))
  }

  lemma PostEffect(cfg: S.Config, r: S.Store, f: File, bytes: Bytes, limit: nat, t: Try)
    requires S.ValidConfig(cfg)
    ensures Effect(cfg, View(r.disk, f.id), View(Post(cfg, r, f, bytes, limit, t).0.disk, f.id), f, bytes)
  {
    var g := SentFile(cfg, f, bytes, t.now);
    var stored := StoredDisk(cfg, r.disk, f, bytes, t.now);
    PostOutcomes(cfg, r, f, bytes, limit, t);
    ViewPatch(r.disk, f.id, StoredSlot(bytes, g), f.id);
    ViewPatch(stored, f.id, DeletedSlot(StoredSlot(bytes, g), g.(deletedAt := Some(t.now))), f.id);
  }

  lemma RanEffect(cfg: S.Config, before: Disk, after: Disk, f: File, bytes: Bytes, limit: nat, t: Try, ok: bool)
    requires S.ValidConfig(cfg) && Complete(cfg.sha, f, bytes) && Ran(cfg, before, after, f, bytes, limit, t, ok)
    ensures Effect(cfg, View(before, f.id), View(after, f.id), f, bytes)
    ensures ok ==> Held(after, f)
  {
    var r: S.Store :|
      && View(r.disk, f.id) == View(before, f.id)
      && View(Execute(cfg, r, f, bytes, limit, t).0.disk, f.id) == View(after, f.id)
      && Execute(cfg, r, f, bytes, limit, t).1 == ok;
    ExecutionOutcomes(cfg, r, f, bytes, limit, t);
    HeldIsOfTheSlot(Execute(cfg, r, f, bytes, limit, t).0.disk, after, f);
    PostEffect(cfg, r, f, bytes, limit, t);
  }

  lemma CameEffect(cfg: S.Config, before: Disk, after: Disk, f: File, bytes: Bytes, limit: nat, t: Try)
    requires S.ValidConfig(cfg) && Came(cfg, before, after, f, bytes, limit, t)
    ensures Effect(cfg, View(before, f.id), View(after, f.id), f, bytes)
  {
    var r: S.Store :|
      && View(r.disk, f.id) == View(before, f.id)
      && View(Post(cfg, r, f, bytes, limit, t).0.disk, f.id) == View(after, f.id);
    PostEffect(cfg, r, f, bytes, limit, t);
  }

  /** The file's entry without temporary files. */
  function Entry(d: Disk, f: File): Slot {
    V.WithoutTmp(View(d, f.id))
  }

  /** What the file's slot can become in one step in which the replica does not clean up. */
  ghost predicate Change(cfg: S.Config, before: Slot, after: Slot, f: File, bytes: Bytes) {
    || Effect(cfg, before, after, f, bytes)
    || V.WithoutTmp(after) == V.WithoutTmp(before)
    || (before.manifest.None? && before.trash.None? && after.manifest.None? && after.trash.None?)
  }

  lemma StepChange(queue: J.Config, cfg: S.Config, w: World, e: Event, v: World, f: File, bytes: Bytes, limit: nat)
    requires S.ValidConfig(cfg) && Complete(cfg.sha, f, bytes) && Step(queue, cfg, w, e, v, f, bytes, limit)
    requires !e.CleansUp?
    ensures Change(cfg, View(w.replica, f.id), View(v.replica, f.id), f, bytes)
    ensures e.Executes? && v.outcome == Some(true) ==> Held(v.replica, f)
    ensures v.unfinished && !w.unfinished ==>
              && Effect(cfg, View(w.replica, f.id), View(v.replica, f.id), f, bytes)
              && View(v.replica, f.id) != View(w.replica, f.id)
  {
    match e
    case Executes(t) => RanEffect(cfg, w.replica, v.replica, f, bytes, limit, t, v.outcome.value);
    case Arrives(t) => CameEffect(cfg, w.replica, v.replica, f, bytes, limit, t);
    case Dies(left, now) =>
      if left.Some? {
        CutShortIsHidden(cfg, w.replica, v.replica, f, bytes, left.value, now);
      }
    case _ =>
  }

  lemma CutShortIsHidden(cfg: S.Config, before: Disk, after: Disk, f: File, bytes: Bytes, left: Slot, now: int)
    requires CutShort(cfg, before, after, f, bytes, left, now)
    ensures f.id !in after.manifests && f.id !in after.trash
  {
    var e := Patch(before, f.id, left);
    C.PutCutSlot(before, e, f.id, bytes, SentFile(cfg, f, bytes, now));
    ViewPatch(before, f.id, left, f.id);
  }

  predicate HeldIn(s: Slot, f: File) {
    s.manifest.Some? && GoodFile(s.manifest.value, f.id) && Same(f, s.manifest.value)
  }

  lemma HeldIsHeldIn(d: Disk, f: File)
    ensures Held(d, f) <==> HeldIn(View(d, f.id), f)
  {}

  predicate WholeIn(s: Slot) {
    s.content.Some? && s.manifest.Some? && s.trash.None?
  }

  predicate GoneIn(s: Slot) {
    s.trash.Some? && s.manifest.None?
  }

  lemma WhatChanges(cfg: S.Config, before: Slot, after: Slot, f: File, bytes: Bytes)
    requires Change(cfg, before, after, f, bytes)
    ensures HeldIn(before, f) ==> HeldIn(after, f) && V.WithoutTmp(after) == V.WithoutTmp(before)
    ensures HeldIn(after, f) && !HeldIn(before, f) ==> WholeIn(after)
    ensures GoneIn(before) ==> GoneIn(after)
  {}

  /** A held file stays as it is. */
  ghost predicate Spared(before: Disk, after: Disk, f: File) {
    Held(before, f) ==> Held(after, f) && Entry(after, f) == Entry(before, f)
  }

  lemma StepSpares(queue: J.Config, cfg: S.Config, w: World, e: Event, v: World, f: File, bytes: Bytes, limit: nat)
    requires S.ValidConfig(cfg) && Complete(cfg.sha, f, bytes) && Step(queue, cfg, w, e, v, f, bytes, limit)
    requires !e.CleansUp?
    ensures Spared(w.replica, v.replica, f)
    ensures Held(w.replica, f) && v.unfinished ==> w.unfinished
  {
    StepChange(queue, cfg, w, e, v, f, bytes, limit);
    WhatChanges(cfg, View(w.replica, f.id), View(v.replica, f.id), f, bytes);
    HeldIsHeldIn(w.replica, f);
    HeldIsHeldIn(v.replica, f);
  }

  /** What the replica may still delete is whole. */
  ghost predicate Covered(w: World, f: File) {
    w.unfinished && Held(w.replica, f) ==> WholeIn(View(w.replica, f.id))
  }

  lemma CleanupEnds(queue: J.Config, cfg: S.Config, w: World, e: Event, v: World, f: File, bytes: Bytes, limit: nat)
    requires Step(queue, cfg, w, e, v, f, bytes, limit) && e.CleansUp?
    ensures w.unfinished && !v.unfinished
    ensures View(v.replica, f.id) == View(S.Delete(S.Opened(w.replica), f.id, e.now).0.disk, f.id)
  {}

  lemma StepKeepsCovered(
    queue: J.Config, cfg: S.Config, w: World, e: Event, v: World, f: File, bytes: Bytes, limit: nat)
    requires S.ValidConfig(cfg) && Complete(cfg.sha, f, bytes) && Step(queue, cfg, w, e, v, f, bytes, limit)
    requires Covered(w, f)
    ensures Covered(v, f)
  {
    if e.CleansUp? {
      CleanupEnds(queue, cfg, w, e, v, f, bytes, limit);
    } else {
      StepChange(queue, cfg, w, e, v, f, bytes, limit);
      WhatChanges(cfg, View(w.replica, f.id), View(v.replica, f.id), f, bytes);
      HeldIsHeldIn(w.replica, f);
      HeldIsHeldIn(v.replica, f);
    }
  }

  /** In trash and nowhere else. */
  predicate Gone(d: Disk, f: File) {
    GoneIn(View(d, f.id))
  }

  lemma StepKeepsGone(queue: J.Config, cfg: S.Config, w: World, e: Event, v: World, f: File, bytes: Bytes, limit: nat)
    requires S.ValidConfig(cfg) && Complete(cfg.sha, f, bytes) && Step(queue, cfg, w, e, v, f, bytes, limit)
    requires Gone(w.replica, f)
    ensures Gone(v.replica, f)
  {
    if e.CleansUp? {
      CleanupEnds(queue, cfg, w, e, v, f, bytes, limit);
    } else {
      StepChange(queue, cfg, w, e, v, f, bytes, limit);
      WhatChanges(cfg, View(w.replica, f.id), View(v.replica, f.id), f, bytes);
    }
  }

  lemma CleanupTakesItBack(w: World, v: World, f: File, now: int)
    requires Held(w.replica, f) && WholeIn(View(w.replica, f.id))
    requires View(v.replica, f.id) == View(S.Delete(S.Opened(w.replica), f.id, now).0.disk, f.id)
    ensures Gone(v.replica, f)
  {
    var slot := View(w.replica, f.id);
    ViewPatch(w.replica, f.id, DeletedSlot(slot, slot.manifest.value.(deletedAt := Some(now))), f.id);
  }

  lemma GoneIsNotHeld(d: Disk, f: File)
    requires Gone(d, f)
    ensures !Held(d, f)
  {
    HeldIsHeldIn(d, f);
  }

  // ---------------------------------------------------------------- whole runs

  /** No request of the file is open on the replica, and nothing of it has been executed yet. */
  predicate Begins(w: World, f: File) {
    !w.unfinished && w.outcome.None? && !R.Done(w.queue, UploadJob(f))
  }

  /** The execution that reported success. */
  predicate Confirmed(states: seq<World>, events: seq<Event>, i: nat)
    requires |states| == |events| + 1
  {
    i < |events| && events[i].Executes? && states[i + 1].outcome == Some(true)
  }

  lemma {:induction false} CoveredAllAlong(
    queue: J.Config, cfg: S.Config, states: seq<World>, events: seq<Event>, f: File, bytes: Bytes, limit: nat, n: nat)
    requires S.ValidConfig(cfg) && Complete(cfg.sha, f, bytes) && Run(queue, cfg, states, events, f, bytes, limit)
    requires n <= |events| && !states[0].unfinished
    ensures Covered(states[n], f)
  {
    if n > 0 {
      CoveredAllAlong(queue, cfg, states, events, f, bytes, limit, n - 1);
      StepKeepsCovered(queue, cfg, states[n - 1], events[n - 1], states[n], f, bytes, limit);
    }
  }

  /** The replica cleans up in none of the events from i on and before n. */
  predicate NoCleanup(events: seq<Event>, i: nat, n: nat)
    requires n <= |events|
  {
    forall k | i <= k < n :: !events[k].CleansUp?
  }

  /** From the first success on the replica's entry never changes, however often the job is run
      again, whatever arrives late and whenever the replica restarts, unless the replica cleans
      up. */
  lemma {:induction false} HeldStays(
    queue: J.Config, cfg: S.Config, states: seq<World>, events: seq<Event>, f: File, bytes: Bytes, limit: nat,
    i: nat, n: nat)
    requires S.ValidConfig(cfg) && Complete(cfg.sha, f, bytes) && Run(queue, cfg, states, events, f, bytes, limit)
    requires i <= n <= |events| && Held(states[i].replica, f)
    requires NoCleanup(events, i, n)
    ensures Held(states[n].replica, f) && Entry(states[n].replica, f) == Entry(states[i].replica, f)
    ensures !states[i].unfinished ==> !states[n].unfinished
    decreases n
  {
    if i < n {
      HeldStays(queue, cfg, states, events, f, bytes, limit, i, n - 1);
      StepSpares(queue, cfg, states[n - 1], events[n - 1], states[n], f, bytes, limit);
    }
  }

  lemma CleanupOfHeld(
    queue: J.Config, cfg: S.Config, states: seq<World>, events: seq<Event>, f: File, bytes: Bytes, limit: nat, k: nat)
    requires S.ValidConfig(cfg) && Complete(cfg.sha, f, bytes) && Run(queue, cfg, states, events, f, bytes, limit)
    requires k < |events| && events[k].CleansUp? && !states[0].unfinished && Held(states[k].replica, f)
    ensures Gone(states[k + 1].replica, f)
  {
    CoveredAllAlong(queue, cfg, states, events, f, bytes, limit, k);
    CleanupEnds(queue, cfg, states[k], events[k], states[k + 1], f, bytes, limit);
    CleanupTakesItBack(states[k], states[k + 1], f, events[k].now);
  }

  /** A held file is lost with the first cleanup, for good, and by nothing else. */
  lemma {:induction false} HeldUntilCleanup(
    queue: J.Config, cfg: S.Config, states: seq<World>, events: seq<Event>, f: File, bytes: Bytes, limit: nat,
    i: nat, n: nat)
    requires S.ValidConfig(cfg) && Complete(cfg.sha, f, bytes) && Run(queue, cfg, states, events, f, bytes, limit)
    requires i <= n <= |events| && !states[0].unfinished && Held(states[i].replica, f)
    ensures if NoCleanup(events, i, n) then Held(states[n].replica, f) else Gone(states[n].replica, f)
    decreases n
  {
    if NoCleanup(events, i, n) {
      HeldStays(queue, cfg, states, events, f, bytes, limit, i, n);
    } else {
      HeldUntilCleanup(queue, cfg, states, events, f, bytes, limit, i, n - 1);
      if NoCleanup(events, i, n - 1) {
        CleanupOfHeld(queue, cfg, states, events, f, bytes, limit, n - 1);
      } else {
        StepKeepsGone(queue, cfg, states[n - 1], events[n - 1], states[n], f, bytes, limit);
      }
    }
  }

  /** A job is completed only after one of its executions has found or left the file on the
      replica. */
  lemma {:induction false} CompletedIsConfirmed(
    queue: J.Config, cfg: S.Config, states: seq<World>, events: seq<Event>, f: File, bytes: Bytes, limit: nat, n: nat)
    returns (i: nat)
    requires Run(queue, cfg, states, events, f, bytes, limit) && n <= |events| && Begins(states[0], f)
    requires R.Done(states[n].queue, UploadJob(f)) || states[n].outcome == Some(true)
    ensures i < n && Confirmed(states, events, i)
  {
    i := n - 1;
    var w, v := states[n - 1], states[n];
    assert Step(queue, cfg, w, events[n - 1], v, f, bytes, limit);
    if !Confirmed(states, events, n - 1) {
      if events[n - 1].OfQueue? && R.Done(v.queue, UploadJob(f)) && !R.Done(w.queue, UploadJob(f)) {
        R.OnlySuccessCompletes(queue, w.queue, events[n - 1].e, UploadJob(f));
      }
      i := CompletedIsConfirmed(queue, cfg, states, events, f, bytes, limit, n - 1);
    }
  }

  /** In every run of queue and replica, with crashes and lost writes on either side and requests
      that arrive late, a completed job has had its file on the replica, with the same identifier,
      size and checksum, when its execution succeeded; and the replica still has it if and only if
      it has not since then cleaned up after an older request of the same file, which it cannot
      when none was open. */
  lemma CompletedIsReplicated(
    queue: J.Config, cfg: S.Config, states: seq<World>, events: seq<Event>, f: File, bytes: Bytes, limit: nat, n: nat)
    returns (i: nat)
    requires S.ValidConfig(cfg) && Complete(cfg.sha, f, bytes) && Run(queue, cfg, states, events, f, bytes, limit)
    requires n <= |events| && Begins(states[0], f) && R.Done(states[n].queue, UploadJob(f))
    ensures i < n && Confirmed(states, events, i) && Held(states[i + 1].replica, f)
    ensures Held(states[n].replica, f) <==> NoCleanup(events, i + 1, n)
    ensures Held(states[n].replica, f) || Gone(states[n].replica, f)
    ensures !states[i + 1].unfinished ==> Held(states[n].replica, f)
  {
    i := CompletedIsConfirmed(queue, cfg, states, events, f, bytes, limit, n);
    StepChange(queue, cfg, states[i], events[i], states[i + 1], f, bytes, limit);
    HeldUntilCleanup(queue, cfg, states, events, f, bytes, limit, i + 1, n);
    if !NoCleanup(events, i + 1, n) {
      GoneIsNotHeld(states[n].replica, f);
    }
    if !states[i + 1].unfinished {
      SettledStays(queue, cfg, states, events, f, bytes, limit, i + 1, n);
    }
  }

  /** With no request open on the replica there is nothing that it could still clean up. */
  lemma {:induction false} SettledStays(
    queue: J.Config, cfg: S.Config, states: seq<World>, events: seq<Event>, f: File, bytes: Bytes, limit: nat,
    i: nat, n: nat)
    requires S.ValidConfig(cfg) && Complete(cfg.sha, f, bytes) && Run(queue, cfg, states, events, f, bytes, limit)
    requires i <= n <= |events| && Held(states[i].replica, f) && !states[i].unfinished
    ensures Held(states[n].replica, f) && !states[n].unfinished
    decreases n
  {
    if i < n {
      SettledStays(queue, cfg, states, events, f, bytes, limit, i, n - 1);
      if events[n - 1].CleansUp? {
        CleanupEnds(queue, cfg, states[n - 1], events[n - 1], states[n], f, bytes, limit);
      }
      StepSpares(queue, cfg, states[n - 1], events[n - 1], states[n], f, bytes, limit);
    }
  }

  // ---------------------------------------------------------------- a run that loses the file

  /** A store on an empty directory, with its index loaded. */
  const EMPTY_STORE := S.Store(EMPTY, S.NO_USAGE, true, true, false)

  lemma EmptyStoreTakes(cfg: S.Config, f: File, bytes: Bytes, limit: nat, t: Try)
    requires S.ValidConfig(cfg) && |bytes| <= limit && (cfg.quota == 0 || |bytes| <= cfg.quota) && t.pause.Off?
    ensures
      var (s, stored) := PutAt(cfg, EMPTY_STORE, f, Body(bytes, false), limit, t);
      stored.Ok? && s.disk == StoredDisk(cfg, EMPTY, f, bytes, t.now)
  {
    assert S.Total(S.NO_USAGE, f.info.owner) == 0;
  }

  /** The steps of the run below on the replica. */
  lemma LostAfterAll(cfg: S.Config, f: File, bytes: Bytes, limit: nat, posted: Try, asked: Try)
    returns (d: Disk, e: Disk)
    requires S.ValidConfig(cfg) && Complete(cfg.sha, f, bytes) && GoodFile(f, f.id)
    requires |bytes| <= limit && (cfg.quota == 0 || |bytes| <= cfg.quota)
    requires posted.fate.ReplyLost? && posted.pause.Off? && asked.readable && asked.answered
    ensures Came(cfg, EMPTY, d, f, bytes, limit, posted) && View(d, f.id) != VACANT
    ensures Ran(cfg, d, d, f, bytes, limit, asked, true)
    ensures e == S.Delete(S.Opened(d), f.id, 0).0.disk && Gone(e, f)
  {
    var g := SentFile(cfg, f, bytes, posted.now);
    d := StoredDisk(cfg, EMPTY, f, bytes, posted.now);
    e := S.Delete(S.Opened(d), f.id, 0).0.disk;
    EmptyStoreTakes(cfg, f, bytes, limit, posted);
    assert View(Post(cfg, EMPTY_STORE, f, bytes, limit, posted).0.disk, f.id) == View(d, f.id);
    ViewPatch(EMPTY, f.id, StoredSlot(bytes, g), f.id);
    StoredIsHeld(cfg, EMPTY, f, bytes, posted.now);
    RerunChangesNothing(cfg, S.Opened(d), f, bytes, limit, asked);
    ViewPatch(d, f.id, DeletedSlot(StoredSlot(bytes, g), g.(deletedAt := Some(0))), f.id);
  }

  function PendingJob(f: File): J.Queue {
    var jobs := map[UploadJob(f) := J.NewJob(J.OpUpload, f.id, 0)];
    J.Queue(jobs, jobs, None, true, 0)
  }

  /** And on the queue: the job is claimed and recorded as done. */
  lemma ClaimedAndDone(queue: J.Config, f: File) returns (claimed: J.Queue, done: J.Queue)
    requires queue.maxAttempts > 0
    ensures J.Step(queue, PendingJob(f), J.Claim(UploadJob(f), 0, true), claimed)
    ensures !R.Done(PendingJob(f), UploadJob(f))
    ensures claimed.worker == Some(UploadJob(f))
    ensures J.Step(queue, claimed, J.Record(true, 0, true), done) && R.Done(done, UploadJob(f))
  {
    claimed := J.Next(queue, PendingJob(f), J.Claim(UploadJob(f), 0, true));
    done := J.Next(queue, claimed, J.Record(true, 0, true));
  }

  lemma RunGrows(
    queue: J.Config, cfg: S.Config, states: seq<World>, events: seq<Event>, e: Event, v: World, f: File, bytes: Bytes,
    limit: nat)
    requires Run(queue, cfg, states, events, f, bytes, limit)
    requires Step(queue, cfg, states[|events|], e, v, f, bytes, limit)
    ensures Run(queue, cfg, states + [v], events + [e], f, bytes, limit)
  {
    forall i | 0 <= i < |events| + 1
      ensures Step(queue, cfg, (states + [v])[i], (events + [e])[i], (states + [v])[i + 1], f, bytes, limit)
    {
      if i < |events| {
        assert Step(queue, cfg, states[i], events[i], states[i + 1], f, bytes, limit);
      }
    }
  }

  lemma QueueMoves(
    queue: J.Config, cfg: S.Config, states: seq<World>, events: seq<Event>, e: J.Event, q: J.Queue, f: File,
    bytes: Bytes, limit: nat)
    returns (v: World)
    requires Run(queue, cfg, states, events, f, bytes, limit)
    requires
      var w := states[|events|];
      J.Step(queue, w.queue, e, q) && (e.Record? ==> w.outcome == Some(e.succeeded))
    ensures
      var w := states[|events|];
      v == w.(queue := q, outcome := NextOutcome(w, e))
    ensures Run(queue, cfg, states + [v], events + [OfQueue(e)], f, bytes, limit)
  {
    var w := states[|events|];
    v := w.(queue := q, outcome := NextOutcome(w, e));
    RunGrows(queue, cfg, states, events, OfQueue(e), v, f, bytes, limit);
  }

  lemma LateArrival(
    queue: J.Config, cfg: S.Config, states: seq<World>, events: seq<Event>, t: Try, d: Disk, f: File, bytes: Bytes,
    limit: nat)
    returns (v: World)
    requires Run(queue, cfg, states, events, f, bytes, limit)
    requires
      var w := states[|events|];
      Came(cfg, w.replica, d, f, bytes, limit, t) && View(d, f.id) != View(w.replica, f.id)
    ensures v == states[|events|].(replica := d, unfinished := true)
    ensures Run(queue, cfg, states + [v], events + [Arrives(t)], f, bytes, limit)
  {
    v := states[|events|].(replica := d, unfinished := true);
    RunGrows(queue, cfg, states, events, Arrives(t), v, f, bytes, limit);
  }

  lemma FoundThere(
    queue: J.Config, cfg: S.Config, states: seq<World>, events: seq<Event>, t: Try, f: File, bytes: Bytes, limit: nat)
    returns (v: World)
    requires Run(queue, cfg, states, events, f, bytes, limit)
    requires
      var w := states[|events|];
      && w.queue.worker == Some(UploadJob(f)) && w.outcome.None?
      && Ran(cfg, w.replica, w.replica, f, bytes, limit, t, true)
    ensures v == states[|events|].(outcome := Some(true))
    ensures Run(queue, cfg, states + [v], events + [Executes(t)], f, bytes, limit)
  {
    v := states[|events|].(outcome := Some(true));
    RunGrows(queue, cfg, states, events, Executes(t), v, f, bytes, limit);
  }

  lemma TakenBack(
    queue: J.Config, cfg: S.Config, states: seq<World>, events: seq<Event>, now: int, e: Disk, f: File, bytes: Bytes,
    limit: nat)
    returns (v: World)
    requires Run(queue, cfg, states, events, f, bytes, limit)
    requires
      var w := states[|events|];
      w.unfinished && e == S.Delete(S.Opened(w.replica), f.id, now).0.disk
    ensures v == states[|events|].(replica := e, unfinished := false)
    ensures Run(queue, cfg, states + [v], events + [CleansUp(now)], f, bytes, limit)
  {
    v := states[|events|].(replica := e, unfinished := false);
    RunGrows(queue, cfg, states, events, CleansUp(now), v, f, bytes, limit);
  }

  /** The file arrives late and the next execution finds it. */
  lemma FoundTooEarly(
    queue: J.Config, cfg: S.Config, start: World, claimed: J.Queue, posted: Try, asked: Try, d: Disk, f: File,
    bytes: Bytes, limit: nat)
    returns (states: seq<World>, events: seq<Event>)
    requires start == World(PendingJob(f), EMPTY, None, false) && claimed.worker == Some(UploadJob(f))
    requires J.Step(queue, start.queue, J.Claim(UploadJob(f), 0, true), claimed)
    requires Came(cfg, EMPTY, d, f, bytes, limit, posted) && View(d, f.id) != VACANT
    requires Ran(cfg, d, d, f, bytes, limit, asked, true)
    ensures Run(queue, cfg, states, events, f, bytes, limit) && |events| == 3
    ensures states[0] == start && states[3] == World(claimed, d, Some(true), true)
  {
    states, events := [start], [];
    var w := QueueMoves(queue, cfg, states, events, J.Claim(UploadJob(f), 0, true), claimed, f, bytes, limit);
    states, events := states + [w], events + [OfQueue(J.Claim(UploadJob(f), 0, true))];
    w := LateArrival(queue, cfg, states, events, posted, d, f, bytes, limit);
    states, events := states + [w], events + [Arrives(posted)];
    w := FoundThere(queue, cfg, states, events, asked, f, bytes, limit);
    states, events := states + [w], events + [Executes(asked)];
  }

  /** The condition is needed. An execution has sent the whole file and then broken off before the
      end of its request, say because the primary has crashed. While the replica still waits for
      that end, the next execution finds the file there and the job is completed; then the replica
      gives up waiting and deletes the file. Nothing will send it again. */
  lemma LateCleanupUndoesReplication(queue: J.Config, cfg: S.Config, f: File, bytes: Bytes, limit: nat)
    returns (states: seq<World>, events: seq<Event>)
    requires queue.maxAttempts > 0 && S.ValidConfig(cfg) && Complete(cfg.sha, f, bytes) && GoodFile(f, f.id)
    requires |bytes| <= limit && (cfg.quota == 0 || |bytes| <= cfg.quota)
    ensures Run(queue, cfg, states, events, f, bytes, limit) && |events| == 5
    ensures Begins(states[0], f) && states[0].replica == EMPTY
    ensures R.Done(states[5].queue, UploadJob(f)) && Gone(states[5].replica, f)
  {
    var posted, asked := Try(true, true, ReplyLost, S.Off, 0), Try(true, true, Lost, S.Off, 0);
    var d, e := LostAfterAll(cfg, f, bytes, limit, posted, asked);
    var claimed, done := ClaimedAndDone(queue, f);
    var start := World(PendingJob(f), EMPTY, None, false);
    states, events := FoundTooEarly(queue, cfg, start, claimed, posted, asked, d, f, bytes, limit);
    var w := QueueMoves(queue, cfg, states, events, J.Record(true, 0, true), done, f, bytes, limit);
    states, events := states + [w], events + [OfQueue(J.Record(true, 0, true))];
    w := TakenBack(queue, cfg, states, events, 0, e, f, bytes, limit);
    states, events := states + [w], events + [CleansUp(0)];
  }

  // ---------------------------------------------------------------- as the source does it

  class Replicator {
    const replica: D.DiskStore
    const limit: nat

    constructor (replica: D.DiskStore, limit: nat)
      ensures this.replica == replica && this.limit == limit
    {
      this.replica, this.limit := replica, limit;
    }

    /** replicateUpload: ask for the status, accept a match, refuse a mismatch, and send the
        file when there is none. What the network and the source do is given; only a replica whose
        own calls fail can make of it a request that did not arrive. An execution in which everything
        arrives succeeds exactly when the replica has the file already, or can take it. */
    method ReplicateUpload(f: File, bytes: Bytes, t: Try) returns (ok: bool, ghost had: Try)
      requires S.ValidConfig(replica.cfg)
      modifies replica
      ensures replica.disk == Execute(replica.cfg, old(replica.State()), f, bytes, limit, had).0.disk
      ensures ok == Execute(replica.cfg, old(replica.State()), f, bytes, limit, had).1
      ensures had == t.(fate := had.fate) && (!replica.mayFail ==> had == t)
      ensures !replica.mayFail && t.readable && t.answered && t.fate == Delivered ==>
        (ok <==> Held(old(replica.disk), f) || Accepts(replica.cfg, old(replica.State()), f, bytes, limit, t.pause))
      ensures ok && Complete(replica.cfg.sha, f, bytes) ==> Held(replica.disk, f)
    {
      had := t;
      if Complete(replica.cfg.sha, f, bytes) {
        ExecutionOutcomes(replica.cfg, replica.State(), f, bytes, limit, t);
      }
      if t.readable && t.answered && t.fate.Delivered? {
        DeliveredSucceedsIff(replica.cfg, replica.State(), f, bytes, limit, t);
      }
      if !t.readable || !t.answered { return false, had; }
      var remote := ReadFile(replica.disk, f.id);
      if remote.Ok? { return Same(f, remote.value), had; }
      if !remote.error.NotFound? { return false, had; }
      ghost var fate, before := t.fate, replica.State();
      ok, fate := PostFile(f, bytes, t);
      had := t.(fate := fate);
      if Complete(replica.cfg.sha, f, bytes) {
        ExecutionOutcomes(replica.cfg, before, f, bytes, limit, had);
      }
    }

    /** mutateRemoteWithID, with the fate that the request has in the end: a replica that fails
        to store the file is one that nobody reached. */
    method PostFile(f: File, bytes: Bytes, t: Try) returns (ok: bool, ghost had: Fate)
      requires S.ValidConfig(replica.cfg)
      modifies replica
      ensures
        var (s, stored) := Post(replica.cfg, old(replica.State()), f, bytes, limit, t.(fate := had));
        replica.disk == s.disk && ok == stored
      ensures !replica.mayFail ==> had == t.fate
    {
      var fate := t.fate;
      had := fate;
      if fate.Lost? { return false, had; }
      var received := bytes;
      if fate.Broken? && fate.received < |bytes| { received := bytes[..fate.received]; }
      var stored, failed := StoreBody(f, Body(received, fate.Broken?), t);
      if failed { return false, Lost; }
      if stored && fate == CutOff(true) {
        var gone := RemoveBody(f.id, t.now);
        if !gone { return false, CutOff(false); }
      }
      ok := stored && fate.Delivered?;
    }

    /** The replica's Put, and whether one of its calls has failed. */
    method StoreBody(f: File, body: Body, t: Try) returns (stored: bool, failed: bool)
      requires S.ValidConfig(replica.cfg)
      modifies replica
      ensures
        var (s, r) := PutAt(replica.cfg, old(replica.State()), f, body, limit, t);
        !failed ==> replica.State() == s && stored == r.Ok?
      ensures !failed && body.fails ==> !stored
      ensures failed ==> replica.mayFail && replica.disk == old(replica.disk)
    {
      PutSlot(replica.cfg, replica.State(), f, body, limit, t);
      var r := replica.Put(t.pause, f.id, L.Limited(body, limit), SentInfo(f), t.now);
      stored, failed := r.Ok?, r == Err(Io) && replica.mayFail;
    }

    /** The replica's Delete. */
    method RemoveBody(id: Id, now: int) returns (gone: bool)
      modifies replica
      ensures gone ==> replica.disk == S.Delete(old(replica.State()), id, now).0.disk
      ensures !gone ==> replica.mayFail && replica.disk == old(replica.disk)
    {
      var r := replica.Delete(id, now);
      gone := r != Err(Io);
    }
  }
}
