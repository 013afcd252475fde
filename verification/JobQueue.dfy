/** The replication queue as a state machine: one event for every time its lock is held, and
    crashes and restarts in between. */
module JobQueue {
  import opened Basics
  import opened Backoff

  datatype Operation = OpUpload | OpDelete | OpRestore
  datatype Status = Pending | Running | Failed | Completed
  datatype JobId = JobId(text: string)

  /** failures lists the clock readings of the failures counted in attempts; it is kept for
      the statements below only. */
  datatype Job = Job(
    operation: Operation, file: Id, status: Status, attempts: nat, createdAt: int, updatedAt: int,
    nextAttemptAt: Option<int>, failures: seq<int>)

  datatype Config = Config(maxAttempts: nat, base: int, max: int)

  /** The defaults of NewManager, in nanoseconds for the delays. */
  function Configured(maxAttempts: int, base: int, max: int): (cfg: Config)
    ensures cfg.maxAttempts > 0 && cfg.base <= cfg.max
    ensures cfg.maxAttempts == (if maxAttempts > 0 then maxAttempts else 10)
    ensures base != 0 ==> cfg.base == base
    ensures 0 < max && base <= max && base != 0 ==> cfg.max == max
    ensures base == 0 && max == 0 ==> cfg.base == 5_000_000_000 && cfg.max == 600_000_000_000
  {
    var b := if base == 0 then 5_000_000_000 else base;
    var m := if max <= 0 then 600_000_000_000 else max;
    Config(if maxAttempts <= 0 then 10 else maxAttempts, b, if m < b then b else m)
  }

  function Text(operation: Operation): string {
    match operation case OpUpload => "upload" case OpDelete => "delete" case OpRestore => "restore"
  }

  function JobIdOf(operation: Operation, file: Id): JobId {
    JobId(Text(operation) + "-" + file.text)
  }

  /** There is one job per operation and file: different ones get different identifiers. */
  lemma JobIdsAreDistinct(a: Operation, f: Id, b: Operation, g: Id)
    ensures JobIdOf(a, f) == JobIdOf(b, g) <==> a == b && f == g
  {
    var s, t := Text(a) + "-" + f.text, Text(b) + "-" + g.text;
    assert s[0] == Text(a)[0] && t[0] == Text(b)[0];
    assert s[|Text(a)| + 1..] == f.text && t[|Text(b)| + 1..] == g.text;
  }

  /** jobs is the map in memory, stored the jobs directory; worker is the job that the worker
      has claimed and not yet recorded; clock is the last reading of the clock. */
  datatype Queue = Queue(
    jobs: map<JobId, Job>, stored: map<JobId, Job>, worker: Option<JobId>, up: bool, clock: int)

  datatype Event =
    | Enqueue(operation: Operation, file: Id, now: int, persisted: bool)
    | Retry(ids: seq<JobId>, now: int)            // the jobs it has reset
    | Claim(id: JobId, now: int, persisted: bool)
    | Record(succeeded: bool, now: int, persisted: bool)
    | Crash(now: int)
    | Load(now: int)
    | LoadPart(done: set<JobId>, now: int)        // a restart that fails halfway

  function NewJob(operation: Operation, file: Id, now: int): Job {
    Job(operation, file, Pending, 0, now, now, None, [])
  }

  function Reset(job: Job, now: int): Job {
    job.(status := Pending, attempts := 0, nextAttemptAt := None, updatedAt := now, failures := [])
  }

  /** What a restart makes of a stored job. */
  function Revived(job: Job, now: int): Job {
    if job.status.Running? then job.(status := Pending, updatedAt := now) else job
  }

  /** The test of claimNext. */
  predicate Claimable(cfg: Config, job: Job, now: int) {
    && (job.status.Pending? || job.status.Failed?) && job.attempts < cfg.maxAttempts
    && !(cfg.base > 0 && job.nextAttemptAt.Some? && now < job.nextAttemptAt.value)
  }

  function Recorded(cfg: Config, job: Job, succeeded: bool, now: int): Job {
    if succeeded then job.(status := Completed, updatedAt := now)
    else job.(status := Failed, attempts := job.attempts + 1, updatedAt := now,
              nextAttemptAt := Some(now + Delay(cfg.base, cfg.max, job.attempts + 1)),
              failures := job.failures + [now])
  }

  /** A job changed in memory, and on disk when that worked. */
  function Keep(q: Queue, id: JobId, job: Job, persisted: bool): Queue {
    q.(jobs := q.jobs[id := job], stored := if persisted then q.stored[id := job] else q.stored)
  }

  function ResetAll(q: Queue, ids: seq<JobId>, now: int): Queue {
    if ids == [] then q
    else
      var t := ResetAll(q, ids[..|ids| - 1], now);
      var id := ids[|ids| - 1];
      if id in t.jobs then Keep(t, id, Reset(t.jobs[id], now), true) else t
  }

  predicate Enabled(cfg: Config, q: Queue, e: Event) {
    match e
    case Enqueue(_, _, _, _) => q.up
    case Retry(ids, _) => q.up && forall id | id in ids :: id in q.jobs
    case Claim(id, now, _) => q.up && q.worker.None? && id in q.jobs && Claimable(cfg, q.jobs[id], now)
    case Record(_, _, _) => q.up && q.worker.Some? && q.worker.value in q.jobs
    case Crash(_) => true
    case Load(_) => !q.up
    case LoadPart(_, _) => !q.up
  }

  function Enqueued(q: Queue, operation: Operation, file: Id, now: int, persisted: bool): Queue {
    var id := JobIdOf(operation, file);
    if !persisted then q
    else if id !in q.jobs then Keep(q, id, NewJob(operation, file, now), true)
    else if q.jobs[id].status.Failed? then Keep(q, id, Reset(q.jobs[id], now), true)
    else q
  }

  function Claimed(q: Queue, id: JobId, now: int, persisted: bool): Queue
    requires id in q.jobs
  {
    var t := Keep(q, id, q.jobs[id].(status := Running, updatedAt := now), persisted);
    t.(worker := if persisted then Some(id) else None)
  }

  function Loaded(stored: map<JobId, Job>, done: set<JobId>, now: int): map<JobId, Job> {
    map id | id in stored :: if id in done then Revived(stored[id], now) else stored[id]
  }

  function Next(cfg: Config, q: Queue, e: Event): Queue
    requires Enabled(cfg, q, e)
  {
    var s := q.(clock := e.now);
    match e
    case Enqueue(operation, file, now, persisted) => Enqueued(s, operation, file, now, persisted)
    case Retry(ids, now) => ResetAll(s, ids, now)
    case Claim(id, now, persisted) => Claimed(s, id, now, persisted)
    case Record(succeeded, now, persisted) =>
      var id := q.worker.value;
      Keep(s, id, Recorded(cfg, q.jobs[id], succeeded, now), persisted).(worker := None)
    case Crash(_) => s.(jobs := map[], worker := None, up := false)
    case Load(now) =>
      var jobs := Loaded(q.stored, q.stored.Keys, now);
      s.(jobs := jobs, stored := jobs, worker := None, up := true)
    case LoadPart(done, now) => s.(stored := Loaded(q.stored, done, now))
  }

  ghost predicate Run(cfg: Config, states: seq<Queue>, events: seq<Event>) {
    && |states| == |events| + 1
    && forall i | 0 <= i < |events| :: Step(cfg, states[i], events[i], states[i + 1])
  }

  ghost predicate Step(cfg: Config, q: Queue, e: Event, r: Queue) {
    Enabled(cfg, q, e) && r == Next(cfg, q, e)
  }

  // ---------------------------------------------------------------- the invariant

  predicate GoodJob(cfg: Config, id: JobId, job: Job) {
    JobIdOf(job.operation, job.file) == id && job.attempts <= cfg.maxAttempts
  }

  /** No job has more than the permitted attempts; memory and disk list the same jobs; the
      worker's job is one that may still be attempted. */
  ghost predicate Inv(cfg: Config, q: Queue) {
    && (forall id | id in q.jobs :: GoodJob(cfg, id, q.jobs[id]))
    && (forall id | id in q.stored :: GoodJob(cfg, id, q.stored[id]))
    && (q.up ==> forall id :: id in q.jobs <==> id in q.stored)
    && (q.worker.Some? ==> q.up && q.worker.value in q.jobs && InHand(cfg, q.jobs[q.worker.value]))
  }

  predicate InHand(cfg: Config, job: Job) {
    (job.status.Running? || job.status.Pending?) && job.attempts < cfg.maxAttempts
  }

  lemma KeepInv(cfg: Config, q: Queue, id: JobId, job: Job, persisted: bool)
    requires Inv(cfg, q) && q.up && GoodJob(cfg, id, job) && (id in q.jobs || persisted)
    requires q.worker == Some(id) ==> InHand(cfg, job)
    ensures Inv(cfg, Keep(q, id, job, persisted))
  {}

  lemma {:induction false} ResetAllInv(cfg: Config, q: Queue, ids: seq<JobId>, now: int)
    requires Inv(cfg, q) && q.up && cfg.maxAttempts > 0 && forall id | id in ids :: id in q.jobs
    ensures Inv(cfg, ResetAll(q, ids, now)) && ResetAll(q, ids, now).up
    ensures ResetAll(q, ids, now).worker == q.worker && ResetAll(q, ids, now).clock == q.clock
  {
    if ids != [] {
      var t, id := ResetAll(q, ids[..|ids| - 1], now), ids[|ids| - 1];
      ResetAllInv(cfg, q, ids[..|ids| - 1], now);
      if id in t.jobs {
        KeepInv(cfg, t, id, Reset(t.jobs[id], now), true);
      }
    }
  }

  /** What Retry makes of one job: all its attempts are given back and nothing puts it off. */
  predicate Restored(q: Queue, r: Queue, id: JobId, now: int) {
    && id in q.jobs && id in r.jobs && id in r.stored && r.stored[id] == r.jobs[id]
    && r.jobs[id].status == Pending && r.jobs[id].attempts == 0 && r.jobs[id].nextAttemptAt.None?
    && r.jobs[id].operation == q.jobs[id].operation && r.jobs[id].file == q.jobs[id].file
    && r.jobs[id].createdAt == q.jobs[id].createdAt && r.jobs[id].updatedAt == now
  }

  lemma {:induction false} ResetIsFresh(q: Queue, ids: seq<JobId>, now: int, id: JobId)
    requires id in q.jobs
    ensures
      var r := ResetAll(q, ids, now);
      if id in ids then Restored(q, r, id, now) else id in r.jobs && r.jobs[id] == q.jobs[id]
  {
    if ids != [] {
      var n := |ids| - 1;
      ResetIsFresh(q, ids[..n], now, id);
      assert id in ids <==> id in ids[..n] || id == ids[n];
    }
  }

  lemma {:induction false} ResetKeepsWorker(q: Queue, ids: seq<JobId>, now: int)
    ensures ResetAll(q, ids, now).worker == q.worker && ResetAll(q, ids, now).up == q.up
  {
    if ids != [] {
      ResetKeepsWorker(q, ids[..|ids| - 1], now);
    }
  }

  lemma StepInv(cfg: Config, q: Queue, e: Event)
    requires Inv(cfg, q) && Enabled(cfg, q, e) && cfg.maxAttempts > 0
    ensures Inv(cfg, Next(cfg, q, e))
  {
    var s := q.(clock := e.now);
    match e
    case Enqueue(operation, file, now, persisted) =>
      var id := JobIdOf(operation, file);
      if persisted && id !in q.jobs {
        KeepInv(cfg, s, id, NewJob(operation, file, now), true);
      } else if persisted && q.jobs[id].status.Failed? {
        KeepInv(cfg, s, id, Reset(q.jobs[id], now), true);
      }
    case Retry(ids, now) => ResetAllInv(cfg, s, ids, now);
    case Claim(id, now, persisted) => KeepInv(cfg, s, id, q.jobs[id].(status := Running, updatedAt := now), persisted);
    case Record(succeeded, now, persisted) =>
      var id := q.worker.value;
      KeepInv(cfg, s.(worker := None), id, Recorded(cfg, q.jobs[id], succeeded, now), persisted);
    case _ =>
  }

  /** Over every run, crashes and lost writes included, no job is attempted more often than
      permitted and no restart forgets a job or invents one. */
  lemma {:induction false} RunKeepsInv(cfg: Config, states: seq<Queue>, events: seq<Event>, n: nat)
    requires Run(cfg, states, events) && Inv(cfg, states[0]) && cfg.maxAttempts > 0 && n <= |events|
    ensures Inv(cfg, states[n])
  {
    if n > 0 {
      RunKeepsInv(cfg, states, events, n - 1);
      assert Step(cfg, states[n - 1], events[n - 1], states[n]);
      StepInv(cfg, states[n - 1], events[n - 1]);
    }
  }
}
