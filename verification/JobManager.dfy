/** The replication manager as an object, one method for every time its lock is held. */
module JobManager {
  import opened Basics
  import opened Backoff
  import opened JobQueue

  /** A run followed by one more event. */
  lemma Extends(cfg: Config, states: seq<Queue>, events: seq<Event>, e: Event, q: Queue)
    requires Run(cfg, states, events) && Step(cfg, states[|events|], e, q)
    ensures Run(cfg, states + [q], events + [e])
  {}

  lemma ResetOneMore(q: Queue, ids: seq<JobId>, id: JobId, now: int)
    requires id in q.jobs
    ensures
      var t := ResetAll(q, ids, now);
      id in t.jobs && ResetAll(q, ids + [id], now) == Keep(t, id, Reset(t.jobs[id], now), true)
  {
    assert (ids + [id])[..|ids|] == ids;
    ResetKeepsJobs(q, ids, now);
  }

  lemma {:induction false} ResetKeepsJobs(q: Queue, ids: seq<JobId>, now: int)
    ensures ResetAll(q, ids, now).jobs.Keys == q.jobs.Keys
    ensures ResetAll(q, ids, now).stored.Keys <= q.stored.Keys + q.jobs.Keys
  {
    if ids != [] {
      ResetKeepsJobs(q, ids[..|ids| - 1], now);
    }
  }

  /** The jobs that Retry means: the one with this identifier, or else those of this file that
      are not completed. */
  predicate Meant(jobs: map<JobId, Job>, text: string, id: JobId) {
    id in jobs
    && if JobId(text) in jobs then id == JobId(text) else jobs[id].file == Id(text) && !jobs[id].status.Completed?
  }

  /** The last event records the outcome, and between the claim and it there are only requests. */
  predicate RecordsAtTheEnd(events: seq<Event>, succeeded: bool, later: int, mayFail: bool) {
    && |events| >= 2 && events[|events| - 1].Record?
    && events[|events| - 1].succeeded == succeeded && events[|events| - 1].now == later
    && (!mayFail ==> events[|events| - 1].persisted)
    && forall i | 0 < i < |events| - 1 :: events[i].Enqueue? || events[i].Retry?
  }

  class Manager {
    const cfg: Config
    // Whether writes to the jobs directory may fail.
    const mayFail: bool
    var jobs: map<JobId, Job>
    var stored: map<JobId, Job>
    var up: bool
    ghost var worker: Option<JobId>
    ghost var clock: int

    ghost function State(): Queue
      reads this
    {
      Queue(jobs, stored, worker, up, clock)
    }

    constructor (cfg: Config, directory: map<JobId, Job>, now: int, mayFail: bool)
      ensures State() == Queue(map[], directory, None, false, now) && this.cfg == cfg && this.mayFail == mayFail
    {
      this.cfg, this.mayFail, jobs, stored, up, worker, clock := cfg, mayFail, map[], directory, false, None, now;
    }

    /** persistJob: a temporary file and a rename, so all or nothing. */
    method PersistJob(id: JobId, job: Job) returns (ok: bool)
      modifies this`stored
      ensures stored == if ok then old(stored)[id := job] else old(stored)
      ensures !mayFail ==> ok
    {
      ok := true;
      if mayFail { ok := *; }
      if ok { stored := stored[id := job]; }
    }

    /** enqueue, for a file identifier that is not empty. */
    method Enqueue(operation: Operation, file: Id, now: int) returns (r: Option<Job>, ghost e: Event)
      requires up
      modifies this
      ensures Step(cfg, old(State()), e, State()) && e == Event.Enqueue(operation, file, now, r.Some?)
      ensures r.Some? ==>
        JobIdOf(operation, file) in jobs && r.value == jobs[JobIdOf(operation, file)] && !r.value.status.Failed?
      ensures !mayFail ==> r.Some?
    {
      clock := now;
      var id := JobIdOf(operation, file);
      if id in jobs {
        var existing := jobs[id];
        if existing.status.Failed? {
          existing := Reset(existing, now);
          var ok := PersistJob(id, existing);
          if !ok { return None, Event.Enqueue(operation, file, now, false); }
          jobs := jobs[id := existing];
        }
        return Some(existing), Event.Enqueue(operation, file, now, true);
      }
      var job := NewJob(operation, file, now);
      var ok := PersistJob(id, job);
      if !ok { return None, Event.Enqueue(operation, file, now, false); }
      jobs := jobs[id := job];
      return Some(job), Event.Enqueue(operation, file, now, true);
    }

    /** The first half of Retry: which jobs are meant, in the order of the map. */
    method Select(text: string) returns (ids: seq<JobId>)
      ensures forall id :: id in ids <==> Meant(jobs, text, id)
    {
      if JobId(text) in jobs { return [JobId(text)]; }
      ids := [];
      var todo := jobs.Keys;
      while todo != {}
        invariant todo <= jobs.Keys
        invariant forall id :: id in ids <==> id !in todo && Meant(jobs, text, id)
      {
        var id :| id in todo;
        if jobs[id].file == Id(text) && !jobs[id].status.Completed? { ids := ids + [id]; }
        todo := todo - {id};
      }
    }

    /** Retry: resets the jobs that are meant, up to the first that cannot be written. */
    method Retry(text: string, now: int) returns (found: bool, ok: bool, ghost e: Event)
      requires up
      modifies this
      ensures Step(cfg, old(State()), e, State()) && e.Retry? && e.now == now
      ensures forall id | id in e.ids :: Meant(old(jobs), text, id)
      ensures found <==> exists id :: Meant(old(jobs), text, id)
      ensures ok ==> forall id | Meant(old(jobs), text, id) :: id in e.ids
      ensures ok ==> forall id | id in old(jobs) ::
        && id in jobs
        && if id == JobId(text) || (JobId(text) !in old(jobs) && old(jobs)[id].file == Id(text)
                                    && old(jobs)[id].status != Completed)
           then jobs[id].status == Pending && jobs[id].attempts == 0 && jobs[id].nextAttemptAt.None?
           else jobs[id] == old(jobs)[id]
      ensures !mayFail ==> ok
    {
      ghost var start := State().(clock := now);
      var ids := Select(text);
      clock := now;
      if ids == [] {
        assert forall id | id in jobs :: !Meant(jobs, text, id);
        return false, true, Event.Retry([], now);
      }
      assert Meant(jobs, text, ids[0]);
      assert forall id | id in ids :: id in start.jobs;
      var i := 0;
      while i < |ids|
        invariant 0 <= i <= |ids| && State() == ResetAll(start, ids[..i], now)
      {
        assert ids[..i + 1] == ids[..i] + [ids[i]];
        ResetOneMore(start, ids[..i], ids[i], now);
        var job := Reset(jobs[ids[i]], now);
        var saved := PersistJob(ids[i], job);
        if !saved { return true, false, Event.Retry(ids[..i], now); }
        jobs := jobs[ids[i] := job];
        i := i + 1;
      }
      assert ids[..i] == ids;
      forall id | id in start.jobs
        ensures id in jobs
        ensures if Meant(start.jobs, text, id) then Restored(start, State(), id, now) else jobs[id] == start.jobs[id]
      {
        ResetIsFresh(start, ids, now, id);
      }
      return true, true, Event.Retry(ids, now);
    }

    /** claimNext: the first claimable job in the order of the map; nothing happens when there
        is none. */
    method ClaimNext(now: int) returns (claimed: Option<JobId>, ghost e: Option<Event>)
      requires up && worker.None?
      modifies this
      ensures e.Some? ==> Step(cfg, old(State()), e.value, State()) && e.value.Claim? && e.value.now == now
      ensures e.Some? ==> claimed == if e.value.persisted then Some(e.value.id) else None
      ensures e.None? ==> State() == old(State()) && claimed.None?
      ensures e.None? <==>
        forall id | id in old(jobs) ::
          var job := old(jobs)[id];
          || job.status == Completed || job.status == Running || job.attempts >= cfg.maxAttempts
          || (cfg.base > 0 && job.nextAttemptAt.Some? && now < job.nextAttemptAt.value)
      ensures !mayFail && e.Some? ==> claimed.Some?
      ensures worker == claimed
    {
      var todo := jobs.Keys;
      while todo != {}
        invariant todo <= jobs.Keys && forall id | id in jobs && id !in todo :: !Claimable(cfg, jobs[id], now)
      {
        var id :| id in todo;
        var job := jobs[id];
        if Claimable(cfg, job, now) {
          job := job.(status := Running, updatedAt := now);
          clock := now;
          jobs := jobs[id := job];
          var ok := PersistJob(id, job);
          if !ok { return None, Some(Event.Claim(id, now, false)); }
          worker := Some(id);
          return Some(id), Some(Event.Claim(id, now, true));
        }
        todo := todo - {id};
      }
      return None, None;
    }

    /** The second half of ProcessPending. */
    method Finish(id: JobId, succeeded: bool, now: int) returns (ok: bool, ghost e: Event)
      requires up && worker == Some(id) && id in jobs
      modifies this
      ensures Step(cfg, old(State()), e, State()) && e == Event.Record(succeeded, now, ok)
      ensures !mayFail ==> ok
    {
      clock := now;
      var current := jobs[id];
      if succeeded {
        current := current.(status := Completed);
      } else {
        current := current.(status := Failed, attempts := current.attempts + 1, failures := current.failures + [now]);
        var delay := BackoffFor(cfg.base, cfg.max, current.attempts);
        current := current.(nextAttemptAt := Some(now + delay));
      }
      current := current.(updatedAt := now);
      jobs := jobs[id := current];
      ok := PersistJob(id, current);
      worker := None;
      e := Event.Record(succeeded, now, ok);
    }

    /** ProcessPending with an execution that ends with the given outcome at a later clock reading,
        and during which the lock is free, so that any number of enqueues and retries come in
        between: together a run of the state machine, which claims a job if any is due, and records
        what became of it if the claim could be written. */
    method ProcessPending(now: int, succeeded: bool, later: int)
      returns (ghost states: seq<Queue>, ghost events: seq<Event>)
      requires up && worker.None?
      modifies this
      ensures Run(cfg, states, events) && states[0] == old(State()) && states[|events|] == State()
      ensures up && worker.None?
      ensures events == [] <==> forall id | id in old(jobs) :: !Enabled(cfg, old(State()), Event.Claim(id, now, true))
      ensures events != [] ==> events[0].Claim? && events[0].now == now && (!mayFail ==> events[0].persisted)
      ensures events != [] && events[0].persisted ==> RecordsAtTheEnd(events, succeeded, later, mayFail)
      ensures events != [] && !events[0].persisted ==> |events| == 1
    {
      states, events := [State()], [];
      var claimed;
      ghost var e: Option<Event>;
      ghost var before := State();
      claimed, e := ClaimNext(now);
      assert e.None? ==> forall id | id in before.jobs :: !Enabled(cfg, before, Event.Claim(id, now, true));
      if e.Some? {
        Extends(cfg, states, events, e.value, State());
        states, events := states + [State()], events + [e.value];
      }
      if claimed.None? { return; }
      var more := *;
      while more > 0
        invariant Run(cfg, states, events) && states[0] == old(State()) && states[|events|] == State()
        invariant up && worker == claimed && claimed.value in jobs
        invariant |events| > 0 && events[0] == e.value
        invariant forall i | 0 < i < |events| :: events[i].Enqueue? || events[i].Retry?
      {
        ghost var f := Other();
        Extends(cfg, states, events, f, State());
        states, events := states + [State()], events + [f];
        more := more - 1;
      }
      var ok;
      ghost var f;
      ok, f := Finish(claimed.value, succeeded, later);
      Extends(cfg, states, events, f, State());
      states, events := states + [State()], events + [f];
    }

    /** A request of somebody else while the worker executes a job. */
    method Other() returns (ghost e: Event)
      requires up
      modifies this
      ensures Step(cfg, old(State()), e, State()) && (e.Enqueue? || e.Retry?)
      ensures up && worker == old(worker) && old(jobs).Keys <= jobs.Keys
    {
      var retry, now := *, *;
      if retry {
        var text, found, ok := *, *, *;
        found, ok, e := Retry(text, now);
        ResetKeepsJobs(old(State()).(clock := now), e.ids, now);
        ResetKeepsWorker(old(State()).(clock := now), e.ids, now);
      } else {
        var operation, file, r := *, *, *;
        r, e := Enqueue(operation, file, now);
      }
    }

    /** loadJobs at the start of a process; on an error there is no manager. */
    method LoadJobs(now: int) returns (ok: bool, ghost e: Event)
      requires !up
      modifies this
      ensures Step(cfg, old(State()), e, State()) && (if ok then e == Event.Load(now) else e.LoadPart? && e.now == now)
      ensures !mayFail ==> ok
    {
      clock := now;
      var loaded, todo := map[], stored.Keys;
      ghost var directory, done := stored, {};
      while todo != {}
        invariant done == directory.Keys - todo && todo <= directory.Keys
        invariant State() == old(State()).(clock := now, stored := stored) && stored == Loaded(directory, done, now)
        invariant loaded == map id | id in directory && id in done :: Revived(directory[id], now)
      {
        var id :| id in todo;
        var job := stored[id];
        if job.status.Running? {
          job := job.(status := Pending, updatedAt := now);
          ok := PersistJob(id, job);
          if !ok { return false, Event.LoadPart(done, now); }
        }
        loaded := loaded[id := job];
        done, todo := done + {id}, todo - {id};
      }
      assert done == directory.Keys;
      assert loaded == Loaded(directory, directory.Keys, now);
      jobs, worker, up := loaded, None, true;
      return true, Event.Load(now);
    }
  }
}
