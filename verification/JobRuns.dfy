/** What holds over every run of the replication queue: durability, the retry bound and the
    timing of the attempts. */
module JobRuns {
  import opened Basics
  import opened Maps
  import opened Backoff
  import opened JobQueue
  import Accounting

  // ---------------------------------------------------------------- durability

  predicate Saved(e: Event) {
    (e.Enqueue? || e.Claim? || e.Record? ==> e.persisted) && !e.LoadPart?
  }

  lemma {:induction false} ResetAllSaves(q: Queue, ids: seq<JobId>, now: int)
    requires q.jobs == q.stored
    ensures ResetAll(q, ids, now).jobs == ResetAll(q, ids, now).stored && ResetAll(q, ids, now).up == q.up
  {
    if ids != [] {
      ResetAllSaves(q, ids[..|ids| - 1], now);
    }
  }

  lemma StepSaves(cfg: Config, q: Queue, e: Event)
    requires Enabled(cfg, q, e) && Saved(e) && (q.up ==> q.jobs == q.stored)
    ensures Next(cfg, q, e).up ==> Next(cfg, q, e).jobs == Next(cfg, q, e).stored
  {
    if e.Retry? {
      ResetAllSaves(q.(clock := e.now), e.ids, e.now);
    }
  }

  /** While no write fails, the jobs directory equals the map in memory whenever the lock is
      free. */
  lemma {:induction false} DiskEqualsMemory(cfg: Config, states: seq<Queue>, events: seq<Event>, n: nat)
    requires Run(cfg, states, events) && n <= |events| && !states[0].up
    requires forall i | 0 <= i < n :: Saved(events[i])
    ensures states[n].up ==> states[n].jobs == states[n].stored
  {
    if n > 0 {
      DiskEqualsMemory(cfg, states, events, n - 1);
      assert Step(cfg, states[n - 1], events[n - 1], states[n]);
      StepSaves(cfg, states[n - 1], events[n - 1]);
    }
  }

  /** A crash and a restart then give back every job, none running, all else unchanged. */
  lemma RestartLosesNothing(cfg: Config, q: Queue, crash: int, now: int)
    requires q.up && q.jobs == q.stored
    ensures
      var r := Next(cfg, Next(cfg, q, Crash(crash)), Load(now));
      && r.up && r.jobs.Keys == q.jobs.Keys && r.stored == r.jobs && r.worker.None?
      && forall id | id in r.jobs :: !r.jobs[id].status.Running? && r.jobs[id] == Revived(q.jobs[id], now)
  {}

  lemma {:induction false} ResetAllStores(q: Queue, ids: seq<JobId>, now: int)
    ensures q.stored.Keys <= ResetAll(q, ids, now).stored.Keys
  {
    if ids != [] {
      ResetAllStores(q, ids[..|ids| - 1], now);
    }
  }

  /** Whatever fails, a job that was once on disk stays there. */
  lemma {:induction false} JobsStay(cfg: Config, states: seq<Queue>, events: seq<Event>, n: nat)
    requires Run(cfg, states, events) && n <= |events|
    ensures states[0].stored.Keys <= states[n].stored.Keys
  {
    if n > 0 {
      JobsStay(cfg, states, events, n - 1);
      var q, e := states[n - 1], events[n - 1];
      assert Step(cfg, q, e, states[n]);
      if e.Retry? {
        ResetAllStores(q.(clock := e.now), e.ids, e.now);
      }
    }
  }

  /** Some event of the run has recorded a successful execution of the job. */
  ghost predicate RecordedSuccess(states: seq<Queue>, events: seq<Event>, n: nat, id: JobId)
    requires |states| == |events| + 1 && n <= |events|
  {
    exists i: nat :: i < n && Succeeded(states[i], events[i], id)
  }

  predicate Succeeded(q: Queue, e: Event, id: JobId) {
    e.Record? && e.succeeded && q.worker == Some(id)
  }

  predicate Done(q: Queue, id: JobId) {
    || (id in q.jobs && q.jobs[id].status.Completed?)
    || (id in q.stored && q.stored[id].status.Completed?)
  }

  lemma {:induction false} ResetCompletesNothing(q: Queue, ids: seq<JobId>, now: int, id: JobId)
    requires Done(ResetAll(q, ids, now), id) && forall x | x in ids :: x in q.jobs
    ensures Done(q, id)
  {
    if ids != [] {
      ResetCompletesNothing(q, ids[..|ids| - 1], now, id);
    }
  }

  lemma OnlySuccessCompletes(cfg: Config, q: Queue, e: Event, id: JobId)
    requires Enabled(cfg, q, e) && Done(Next(cfg, q, e), id) && !Done(q, id)
    ensures Succeeded(q, e, id)
  {
    if e.Retry? && Done(ResetAll(q.(clock := e.now), e.ids, e.now), id) {
      ResetCompletesNothing(q.(clock := e.now), e.ids, e.now, id);
    }
  }

  /** A job is completed, in memory or on disk, only if one of its executions has returned
      without error. */
  lemma {:induction false} CompletedMeansExecuted(
    cfg: Config, states: seq<Queue>, events: seq<Event>, n: nat, id: JobId)
    requires Run(cfg, states, events) && n <= |events| && !Done(states[0], id) && Done(states[n], id)
    ensures RecordedSuccess(states, events, n, id)
  {
    if n > 0 {
      assert Step(cfg, states[n - 1], events[n - 1], states[n]);
      if Done(states[n - 1], id) {
        CompletedMeansExecuted(cfg, states, events, n - 1, id);
        var i: nat :| i < n - 1 && Succeeded(states[i], events[i], id);
        assert i < n;
      } else {
        OnlySuccessCompletes(cfg, states[n - 1], events[n - 1], id);
      }
    }
  }

  // ---------------------------------------------------------------- the retry bound

  /** The attempts a job has left. */
  function Chances(cfg: Config): Job -> int {
    (job: Job) => if job.status.Completed? || job.attempts > cfg.maxAttempts then 0 else cfg.maxAttempts - job.attempts
  }

  /** The executions the worker may still begin without a reset. */
  ghost function Left(cfg: Config, q: Queue): int {
    Sum(q.jobs, Chances(cfg)) - if q.worker.Some? then 1 else 0
  }

  /** No crash, no restart and no reset. */
  predicate Quiet(q: Queue, e: Event) {
    match e
    case Claim(_, _, _) => true
    case Record(_, _, _) => true
    case Enqueue(operation, file, _, _) =>
      var id := JobIdOf(operation, file);
      id !in q.jobs || !q.jobs[id].status.Failed?
    case Retry(ids, _) => ids == []
    case _ => false
  }

  function Started(e: Event): nat {
    if e.Claim? && e.persisted then 1 else 0
  }

  ghost function Executions(events: seq<Event>, n: nat): nat
    requires n <= |events|
  {
    if n == 0 then 0 else Executions(events, n - 1) + Started(events[n - 1])
  }

  /** The chances that come with a new job. */
  function Granted(cfg: Config, q: Queue, e: Event): nat {
    if e.Enqueue? && e.persisted && JobIdOf(e.operation, e.file) !in q.jobs then cfg.maxAttempts else 0
  }

  ghost function AllGranted(cfg: Config, states: seq<Queue>, events: seq<Event>, n: nat): nat
    requires n <= |events| && |states| == |events| + 1
  {
    if n == 0 then 0 else AllGranted(cfg, states, events, n - 1) + Granted(cfg, states[n - 1], events[n - 1])
  }

  lemma ChancesLeft(cfg: Config, jobs: map<JobId, Job>)
    ensures Sum(jobs, Chances(cfg)) >= 0
  {
    SumNonNegative(jobs, Chances(cfg));
  }

  lemma ChanceInHand(cfg: Config, jobs: map<JobId, Job>, id: JobId)
    requires id in jobs && InHand(cfg, jobs[id])
    ensures Sum(jobs, Chances(cfg)) >= 1
  {
    SumRemove(jobs, id, Chances(cfg));
    ChancesLeft(cfg, jobs - {id});
  }

  lemma LeftIsNotNegative(cfg: Config, q: Queue)
    requires Inv(cfg, q)
    ensures Left(cfg, q) >= 0
  {
    if q.worker.Some? {
      ChanceInHand(cfg, q.jobs, q.worker.value);
    } else {
      ChancesLeft(cfg, q.jobs);
    }
  }

  /** A changed job changes the sum by the difference of its chances. */
  lemma KeepChances(cfg: Config, q: Queue, id: JobId, job: Job, persisted: bool)
    requires id in q.jobs
    ensures Sum(Keep(q, id, job, persisted).jobs, Chances(cfg))
            == Sum(q.jobs, Chances(cfg)) - Chances(cfg)(q.jobs[id]) + Chances(cfg)(job)
  {
    SumSet(q.jobs, id, Some(job), Chances(cfg));
  }

  lemma ClaimTakesAChance(cfg: Config, q: Queue, id: JobId, now: int, persisted: bool)
    requires id in q.jobs && Claimable(cfg, q.jobs[id], now) && q.worker.None?
    ensures Left(cfg, Claimed(q, id, now, persisted)) == Left(cfg, q) - if persisted then 1 else 0
  {
    KeepChances(cfg, q, id, q.jobs[id].(status := Running, updatedAt := now), persisted);
  }

  lemma RecordGivesNoneBack(cfg: Config, q: Queue, succeeded: bool, now: int, persisted: bool)
    requires q.worker.Some? && q.worker.value in q.jobs && InHand(cfg, q.jobs[q.worker.value])
    ensures
      var id := q.worker.value;
      Left(cfg, Keep(q, id, Recorded(cfg, q.jobs[id], succeeded, now), persisted).(worker := None)) <= Left(cfg, q)
  {
    KeepChances(cfg, q, q.worker.value, Recorded(cfg, q.jobs[q.worker.value], succeeded, now), persisted);
  }

  lemma NewJobBringsChances(cfg: Config, q: Queue, operation: Operation, file: Id, now: int)
    requires JobIdOf(operation, file) !in q.jobs
    ensures Left(cfg, Enqueued(q, operation, file, now, true)) == Left(cfg, q) + cfg.maxAttempts
  {
    SumSet(q.jobs, JobIdOf(operation, file), Some(NewJob(operation, file, now)), Chances(cfg));
  }

  /** Every execution that begins uses up a chance, and only a new job brings any. */
  lemma QuietStep(cfg: Config, q: Queue, e: Event)
    requires Inv(cfg, q) && Enabled(cfg, q, e) && Quiet(q, e)
    ensures Left(cfg, Next(cfg, q, e)) <= Left(cfg, q) - Started(e) + Granted(cfg, q, e)
  {
    var s := q.(clock := e.now);
    match e
    case Claim(id, now, persisted) => ClaimTakesAChance(cfg, s, id, now, persisted);
    case Record(succeeded, now, persisted) => RecordGivesNoneBack(cfg, s, succeeded, now, persisted);
    case Enqueue(operation, file, now, persisted) =>
      if persisted && JobIdOf(operation, file) !in q.jobs {
        NewJobBringsChances(cfg, s, operation, file, now);
      }
    case _ =>
  }

  /** The worker begins at most as many executions as the uncompleted jobs have attempts
      left, new jobs with all of theirs included: that sum is a termination measure. */
  lemma {:induction false} ExecutionsAreBounded(cfg: Config, states: seq<Queue>, events: seq<Event>, n: nat)
    requires Run(cfg, states, events) && Inv(cfg, states[0]) && cfg.maxAttempts > 0 && n <= |events|
    requires forall i | 0 <= i < n :: Quiet(states[i], events[i])
    ensures Executions(events, n) <= Left(cfg, states[0]) - Left(cfg, states[n]) + AllGranted(cfg, states, events, n)
    ensures Executions(events, n) <= Sum(states[0].jobs, Chances(cfg)) + AllGranted(cfg, states, events, n)
  {
    if n > 0 {
      ExecutionsAreBounded(cfg, states, events, n - 1);
      RunKeepsInv(cfg, states, events, n - 1);
      assert Step(cfg, states[n - 1], events[n - 1], states[n]);
      QuietStep(cfg, states[n - 1], events[n - 1]);
    }
    RunKeepsInv(cfg, states, events, n);
    LeftIsNotNegative(cfg, states[n]);
  }

  /** A crash during an execution gives the attempt back, so crashes can repeat a job without
      bound. */
  lemma CrashedExecutionIsNotCounted(cfg: Config, q: Queue, id: JobId, now: int)
    requires q.up && q.worker.None? && id in q.jobs && Claimable(cfg, q.jobs[id], now)
    ensures
      var r := Next(cfg, Next(cfg, Next(cfg, q, Claim(id, now, true)), Crash(now)), Load(now));
      id in r.jobs && r.jobs[id].attempts == q.jobs[id].attempts && Enabled(cfg, r, Claim(id, now, true))
  {}

  // ---------------------------------------------------------------- which jobs are claimed

  /** What a free worker may claim: a job that waits or has failed, that has attempts left, and whose
      next attempt is not put off; with a base that is not positive nothing is ever put off. */
  lemma ClaimedIff(cfg: Config, q: Queue, id: JobId, now: int, persisted: bool)
    ensures Enabled(cfg, q, Claim(id, now, persisted))
            <==> && q.up && q.worker.None? && id in q.jobs
                 && q.jobs[id].status != Running && q.jobs[id].status != Completed
                 && q.jobs[id].attempts < cfg.maxAttempts
                 && (cfg.base <= 0 || q.jobs[id].nextAttemptAt.None? || q.jobs[id].nextAttemptAt.value <= now)
  {}

  /** A failure is retried: as long as attempts are left the job can be claimed again exactly from
      the end of its backoff delay on, and after the last one never. */
  lemma RetriedWhenDueIff(cfg: Config, q: Queue, now: int, persisted: bool, later: int, again: bool)
    requires Enabled(cfg, q, Record(false, now, persisted))
    ensures
      var id := q.worker.value;
      var n := q.jobs[id].attempts + 1;
      Enabled(cfg, Next(cfg, q, Record(false, now, persisted)), Claim(id, later, again))
      <==> n < cfg.maxAttempts && (cfg.base <= 0 || now + Delay(cfg.base, cfg.max, n) <= later)
  {}

  /** A job that has succeeded is never claimed again, whenever somebody looks. */
  lemma SucceededIsDone(cfg: Config, q: Queue, now: int, persisted: bool, later: int, again: bool)
    requires Enabled(cfg, q, Record(true, now, persisted))
    ensures !Enabled(cfg, Next(cfg, q, Record(true, now, persisted)), Claim(q.worker.value, later, again))
  {}

  /** A job that is enqueued for the first time, or again after it has failed, can be claimed at
      once by a free worker, with all its attempts before it. */
  lemma EnqueuedIsDue(cfg: Config, q: Queue, operation: Operation, file: Id, now: int, later: int, again: bool)
    requires q.up && q.worker.None? && cfg.maxAttempts > 0
    requires JobIdOf(operation, file) in q.jobs ==> q.jobs[JobIdOf(operation, file)].status.Failed?
    ensures
      var id, r := JobIdOf(operation, file), Next(cfg, q, Enqueue(operation, file, now, true));
      && Enabled(cfg, r, Claim(id, later, again))
      && r.jobs[id].attempts == 0 && r.stored[id] == r.jobs[id]
      && (id !in q.jobs ==> r.jobs[id].operation == operation && r.jobs[id].file == file)
  {}

  /** Enqueuing any other job again does nothing. */
  lemma EnqueuedAgainIsNothing(cfg: Config, q: Queue, operation: Operation, file: Id, now: int, persisted: bool)
    requires q.up && JobIdOf(operation, file) in q.jobs && !q.jobs[JobIdOf(operation, file)].status.Failed?
    ensures Next(cfg, q, Enqueue(operation, file, now, persisted)) == q.(clock := now)
  {}

  /** A job that was reset can be claimed at once by a free worker. */
  lemma ResetIsDue(cfg: Config, q: Queue, ids: seq<JobId>, now: int, id: JobId, later: int, again: bool)
    requires Enabled(cfg, q, Retry(ids, now)) && id in ids && q.worker.None? && cfg.maxAttempts > 0
    ensures Enabled(cfg, Next(cfg, q, Retry(ids, now)), Claim(id, later, again))
  {
    ResetIsFresh(q.(clock := now), ids, now, id);
    ResetKeepsWorker(q.(clock := now), ids, now);
  }

  // ---------------------------------------------------------------- a lost claim

  /** The job is marked running and nobody runs it. */
  predicate Stuck(q: Queue, id: JobId) {
    q.up && id in q.jobs && q.jobs[id].status.Running? && q.worker != Some(id)
  }

  lemma LostClaimIsStuck(cfg: Config, q: Queue, id: JobId, now: int)
    requires Enabled(cfg, q, Claim(id, now, false))
    ensures Stuck(Next(cfg, q, Claim(id, now, false)), id)
  {}

  lemma {:induction false} ResetLeavesOthers(q: Queue, ids: seq<JobId>, now: int, id: JobId)
    requires id !in ids && id in q.jobs
    ensures id in ResetAll(q, ids, now).jobs && ResetAll(q, ids, now).jobs[id] == q.jobs[id]
    ensures ResetAll(q, ids, now).up == q.up && ResetAll(q, ids, now).worker == q.worker
  {
    if ids != [] {
      ResetLeavesOthers(q, ids[..|ids| - 1], now, id);
    }
  }

  predicate Frees(e: Event, id: JobId) {
    e.Crash? || (e.Retry? && id in e.ids)
  }

  /** When claimNext cannot write its claim the job stays marked as running, and until a
      restart or an explicit Retry of this job it is never executed again. */
  lemma {:induction false} StuckUntilFreed(cfg: Config, states: seq<Queue>, events: seq<Event>, n: nat, id: JobId)
    requires Run(cfg, states, events) && n <= |events| && Stuck(states[0], id)
    requires forall i | 0 <= i < n :: !Frees(events[i], id)
    ensures Stuck(states[n], id)
    ensures forall i | 0 <= i < n :: events[i].Claim? ==> events[i].id != id
  {
    if n > 0 {
      StuckUntilFreed(cfg, states, events, n - 1, id);
      var q, e := states[n - 1], events[n - 1];
      assert Step(cfg, q, e, states[n]);
      if e.Retry? {
        ResetLeavesOthers(q.(clock := e.now), e.ids, e.now, id);
      }
    }
  }

  lemma {:induction false} ResetMakesPending(q: Queue, ids: seq<JobId>, now: int, id: JobId)
    requires id in ids && id in q.jobs
    ensures id in ResetAll(q, ids, now).jobs && ResetAll(q, ids, now).jobs[id].status.Pending?
  {
    var n := |ids| - 1;
    if id in ids[..n] {
      ResetMakesPending(q, ids[..n], now, id);
    } else {
      assert ids[n] == id;
      ResetLeavesOthers(q, ids[..n], now, id);
    }
  }

  lemma {:induction false} ResetFreezesNone(q: Queue, ids: seq<JobId>, now: int, id: JobId)
    requires !Stuck(q, id)
    ensures !Stuck(ResetAll(q, ids, now), id)
  {
    if ids != [] {
      ResetFreezesNone(q, ids[..|ids| - 1], now, id);
    }
  }

  predicate LosesClaim(e: Event, id: JobId) {
    e.Claim? && e.id == id && !e.persisted
  }

  /** Only a lost claim strands a job, and only a restart or its Retry frees it. */
  lemma StuckStepIff(cfg: Config, q: Queue, e: Event, id: JobId)
    requires Enabled(cfg, q, e)
    ensures Stuck(Next(cfg, q, e), id) <==> LosesClaim(e, id) || (Stuck(q, id) && !Frees(e, id))
  {
    var s := q.(clock := e.now);
    if e.Retry? {
      if id in e.ids {
        ResetMakesPending(s, e.ids, e.now, id);
      } else if Stuck(q, id) {
        ResetLeavesOthers(s, e.ids, e.now, id);
      } else {
        ResetFreezesNone(s, e.ids, e.now, id);
      }
    }
  }

  predicate LostAt(events: seq<Event>, i: nat, n: nat, id: JobId)
    requires i < n <= |events|
  {
    LosesClaim(events[i], id) && forall j | i < j < n :: !Frees(events[j], id)
  }

  /** A claim of the job was lost and nothing has freed it since. */
  ghost predicate Stranded(events: seq<Event>, n: nat, id: JobId)
    requires n <= |events|
  {
    exists i: nat :: i < n && LostAt(events, i, n, id)
  }

  lemma StrandedStepIff(events: seq<Event>, n: nat, id: JobId)
    requires 0 < n <= |events|
    ensures Stranded(events, n, id)
            <==> LosesClaim(events[n - 1], id) || (Stranded(events, n - 1, id) && !Frees(events[n - 1], id))
  {
    if LosesClaim(events[n - 1], id) {
      assert LostAt(events, n - 1, n, id);
    } else if Stranded(events, n - 1, id) && !Frees(events[n - 1], id) {
      var i: nat :| i < n - 1 && LostAt(events, i, n - 1, id);
      assert LostAt(events, i, n, id);
    }
    if Stranded(events, n, id) && !LosesClaim(events[n - 1], id) {
      var i: nat :| i < n && LostAt(events, i, n, id);
      assert LostAt(events, i, n - 1, id);
    }
  }

  /** In every run a job is marked as running with nobody running it exactly when a claim of it
      could not be written and neither a restart nor an explicit Retry has come since. */
  lemma {:induction false} StuckIff(cfg: Config, states: seq<Queue>, events: seq<Event>, n: nat, id: JobId)
    requires Run(cfg, states, events) && n <= |events| && !Stuck(states[0], id)
    ensures Stuck(states[n], id) <==> Stranded(events, n, id)
  {
    if n > 0 {
      StuckIff(cfg, states, events, n - 1, id);
      assert Step(cfg, states[n - 1], events[n - 1], states[n]);
      StuckStepIff(cfg, states[n - 1], events[n - 1], id);
      StrandedStepIff(events, n, id);
    }
  }

  /** So while every claim is written no job is ever stranded. */
  lemma WrittenClaimsNeverStick(cfg: Config, states: seq<Queue>, events: seq<Event>, n: nat, id: JobId)
    requires Run(cfg, states, events) && n <= |events| && !Stuck(states[0], id)
    requires forall i | 0 <= i < n :: events[i].Claim? ==> events[i].persisted
    ensures !Stuck(states[n], id)
  {
    StuckIff(cfg, states, events, n, id);
  }

  // ---------------------------------------------------------------- timing

  /** The counted failures of a job are at least the backoff delays apart, and the next attempt
      waits out the last of them. */
  ghost predicate Timed(cfg: Config, job: Job) {
    && |job.failures| == job.attempts
    && (forall k | 1 <= k < |job.failures| :: Apart(cfg, job.failures, k))
    && (job.attempts > 0 ==>
          job.nextAttemptAt == Some(job.failures[job.attempts - 1] + Delay(cfg.base, cfg.max, job.attempts)))
  }

  predicate Apart(cfg: Config, failures: seq<int>, k: nat)
    requires 1 <= k < |failures|
  {
    failures[k] >= failures[k - 1] + Delay(cfg.base, cfg.max, k)
  }

  ghost predicate AllTimed(cfg: Config, q: Queue) {
    && (forall id | id in q.jobs :: Timed(cfg, q.jobs[id]))
    && (forall id | id in q.stored :: Timed(cfg, q.stored[id]))
    && (q.worker.Some? && q.worker.value in q.jobs ==> Due(q.jobs[q.worker.value], q.clock))
  }

  predicate Due(job: Job, now: int) {
    job.nextAttemptAt.Some? ==> job.nextAttemptAt.value <= now
  }

  lemma RecordedIsTimed(cfg: Config, job: Job, succeeded: bool, now: int)
    requires Timed(cfg, job) && Due(job, now)
    ensures Timed(cfg, Recorded(cfg, job, succeeded, now))
  {
    var r := Recorded(cfg, job, succeeded, now);
    if !succeeded {
      forall k | 1 <= k < |r.failures| ensures Apart(cfg, r.failures, k) {
        if k < |job.failures| {
          assert Apart(cfg, job.failures, k);
        }
      }
    }
  }

  lemma KeepTimed(cfg: Config, q: Queue, id: JobId, job: Job, persisted: bool)
    requires AllTimed(cfg, q) && Timed(cfg, job) && (q.worker == Some(id) ==> Due(job, q.clock))
    requires q.worker.Some? ==> q.worker.value in q.jobs
    ensures AllTimed(cfg, Keep(q, id, job, persisted))
  {}

  lemma {:induction false} ResetAllTimed(cfg: Config, q: Queue, ids: seq<JobId>, now: int)
    requires AllTimed(cfg, q) && (q.worker.Some? ==> q.worker.value in q.jobs) && forall id | id in ids :: id in q.jobs
    ensures AllTimed(cfg, ResetAll(q, ids, now))
    ensures q.worker.Some? ==> ResetAll(q, ids, now).worker == q.worker && q.worker.value in ResetAll(q, ids, now).jobs
    ensures ResetAll(q, ids, now).worker == q.worker
  {
    if ids != [] {
      var t, id := ResetAll(q, ids[..|ids| - 1], now), ids[|ids| - 1];
      ResetAllTimed(cfg, q, ids[..|ids| - 1], now);
      if id in t.jobs {
        KeepTimed(cfg, t, id, Reset(t.jobs[id], now), true);
      }
    }
  }

  lemma EnqueueTimed(cfg: Config, q: Queue, operation: Operation, file: Id, now: int, persisted: bool)
    requires AllTimed(cfg, q) && (q.worker.Some? ==> q.worker.value in q.jobs)
    ensures AllTimed(cfg, Enqueued(q, operation, file, now, persisted))
  {
    var id := JobIdOf(operation, file);
    if persisted && id !in q.jobs {
      KeepTimed(cfg, q, id, NewJob(operation, file, now), true);
    } else if persisted && q.jobs[id].status.Failed? {
      KeepTimed(cfg, q, id, Reset(q.jobs[id], now), true);
    }
  }

  lemma ClaimTimed(cfg: Config, q: Queue, id: JobId, persisted: bool)
    requires AllTimed(cfg, q) && q.worker.None? && id in q.jobs && Claimable(cfg, q.jobs[id], q.clock) && cfg.base > 0
    ensures AllTimed(cfg, Claimed(q, id, q.clock, persisted))
  {
    KeepTimed(cfg, q, id, q.jobs[id].(status := Running, updatedAt := q.clock), persisted);
  }

  lemma RecordTimed(cfg: Config, q: Queue, succeeded: bool, persisted: bool)
    requires AllTimed(cfg, q) && q.worker.Some? && q.worker.value in q.jobs
    ensures
      var id := q.worker.value;
      AllTimed(cfg, Keep(q, id, Recorded(cfg, q.jobs[id], succeeded, q.clock), persisted).(worker := None))
  {
    var id := q.worker.value;
    RecordedIsTimed(cfg, q.jobs[id], succeeded, q.clock);
    KeepTimed(cfg, q.(worker := None), id, Recorded(cfg, q.jobs[id], succeeded, q.clock), persisted);
  }

  lemma LoadedTimed(cfg: Config, stored: map<JobId, Job>, done: set<JobId>, now: int)
    requires forall id | id in stored :: Timed(cfg, stored[id])
    ensures forall id | id in Loaded(stored, done, now) :: Timed(cfg, Loaded(stored, done, now)[id])
  {}

  /** Time passing makes no job less due. */
  lemma LaterIsTimed(cfg: Config, q: Queue, now: int)
    requires AllTimed(cfg, q) && now >= q.clock
    ensures AllTimed(cfg, q.(clock := now))
  {}

  lemma StepTimed(cfg: Config, q: Queue, e: Event)
    requires AllTimed(cfg, q) && (q.worker.Some? ==> q.worker.value in q.jobs)
    requires Enabled(cfg, q, e) && cfg.base > 0 && e.now >= q.clock
    ensures AllTimed(cfg, Next(cfg, q, e))
  {
    var s := q.(clock := e.now);
    LaterIsTimed(cfg, q, e.now);
    match e
    case Enqueue(operation, file, now, persisted) => EnqueueTimed(cfg, s, operation, file, now, persisted);
    case Retry(ids, now) => ResetAllTimed(cfg, s, ids, now);
    case Claim(id, now, persisted) => ClaimTimed(cfg, s, id, persisted);
    case Record(succeeded, now, persisted) => RecordTimed(cfg, s, succeeded, persisted);
    case Load(now) => LoadedTimed(cfg, q.stored, q.stored.Keys, now);
    case LoadPart(done, now) => LoadedTimed(cfg, q.stored, done, now);
    case Crash(_) =>
  }

  /** On a clock that never runs backwards, over every run with crashes and lost writes, the
      counted failures of each job keep their distances. */
  lemma {:induction false} RunKeepsTime(cfg: Config, states: seq<Queue>, events: seq<Event>, n: nat)
    requires Run(cfg, states, events) && Inv(cfg, states[0]) && AllTimed(cfg, states[0])
    requires cfg.maxAttempts > 0 && cfg.base > 0 && n <= |events|
    requires forall i | 0 <= i < n :: events[i].now >= states[i].clock
    ensures AllTimed(cfg, states[n])
  {
    if n > 0 {
      RunKeepsTime(cfg, states, events, n - 1);
      RunKeepsInv(cfg, states, events, n - 1);
      assert Step(cfg, states[n - 1], events[n - 1], states[n]);
      StepTimed(cfg, states[n - 1], events[n - 1]);
    }
  }

  /** The delays before the attempts 2 to n + 1, as they are meant. */
  ghost function IdealDelays(cfg: Config, n: nat): int {
    if n == 0 then 0 else IdealDelays(cfg, n - 1) + Ideal(cfg.base, cfg.max, n)
  }

  /** So the n-th failure of a job comes no earlier than its first plus the first n - 1 delays
      of the exponential backoff, where that does not overflow. */
  lemma {:induction false} NthFailureIsLate(cfg: Config, job: Job, n: nat)
    requires Timed(cfg, job) && 1 <= n <= job.attempts
    requires 0 < cfg.base <= cfg.max <= Accounting.MAX_INT64
    requires FirstReach(2 * cfg.base, cfg.max) <= Accounting.MAX_INT64
    ensures job.failures[n - 1] >= job.failures[0] + IdealDelays(cfg, n - 1)
  {
    if n > 1 {
      NthFailureIsLate(cfg, job, n - 1);
      assert Apart(cfg, job.failures, n - 1);
      BackoffIsExponentialIff(cfg.base, cfg.max);
      assert Delay(cfg.base, cfg.max, n - 1) == Ideal(cfg.base, cfg.max, n - 1);
    }
  }
}
