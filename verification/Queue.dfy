/** src/vemsa/jobs/queue.py: one worker process. Each method is the code between two awaits of the claim
    loop, of a job run, or of its heartbeat; `Shows` ties the object to the state of the whole system,
    and every method is proved to take exactly one step of the protocol. */
module Queue {
  import opened Base
  import opened Store
  import opened Tables
  import opened Protocol

  // ---- one worker's steps and everybody else's

  /** The worker that takes a step, if any. */
  ghost function Actor(s: State, step: Step): Option<string> {
    if step.Join? || step.Claim? || step.Start? || step.Drop? then Some(step.worker)
    else if step.Create? || step.Renew? || step.Cancel? || step.Purge? || step.PurgeStats? || step.Deliver? || step.Tick? then None
    else if step.run in s.runs then Some(s.runs[step.run].worker)
    else None
  }

  /** Worker w and its runs are in s' as they are in s. */
  ghost predicate SameFor(s: State, s': State, w: string) {
    && w in s.workers && w in s'.workers && s'.workers[w] == s.workers[w]
    && (forall r :: r in s.runs && s.runs[r].worker == w ==> r in s'.runs && s'.runs[r] == s.runs[r])
    && (forall r :: r in s'.runs && s'.runs[r].worker == w ==> r in s.runs && s'.runs[r] == s.runs[r])
  }

  /** A step that moves one run of another worker, and that worker at most. */
  lemma {:induction false} MoveLeavesUs(s: State, s': State, r: nat, run: Run, w: string)
    requires r in s.runs && s.runs[r].worker != w && run.worker == s.runs[r].worker && w in s.workers
    requires s'.runs == s.runs[r := run] && s'.workers == s.workers
    ensures SameFor(s, s', w)
  {
  }

  lemma {:induction false} RunStepLeavesUs(cfg: Config, s: State, step: Step, w: string)
    requires Enabled(cfg, s, step) && w in s.workers && Actor(s, step) != Some(w)
    requires step.Open? || step.SetAudio? || step.Report? || step.Throw? || step.Finalize? || step.Finish? || step.Release? || step.Fail?
    ensures SameFor(s, After(cfg, s, step), w)
  {
    hide Renewed, WithAudio, Staged, Released, Finished, FailedWith, Settlement, SameFor;
    var s' := After(cfg, s, step);
    if step.Report? && step.stage == s.runs[step.run].stage {
      NothingLeavesUs(s, w);
    } else {
      MoveLeavesUs(s, s', step.run, s'.runs[step.run], w);
    }
  }

  lemma {:induction false} NothingLeavesUs(s: State, w: string)
    requires w in s.workers
    ensures SameFor(s, s, w)
  {
  }

  /** Nobody's step touches another worker's slots, active map, claim or runs. */
  lemma {:induction false} OthersLeaveUsAlone(cfg: Config, s: State, step: Step, w: string)
    requires Enabled(cfg, s, step) && w in s.workers && Actor(s, step) != Some(w)
    ensures SameFor(s, After(cfg, s, step), w)
  {
    hide Admits, Oldest, Renewed, CancelledBy, Purged, StatsPurged, Delivered, Claimed, Settlement,
      AfterOpen, AfterSetAudio, AfterReport, AfterFinalize, AfterFinish, AfterRelease, AfterFail;
    match step
    case Open(_, _) | SetAudio(_, _) | Report(_, _, _) | Throw(_, _) | Finalize(_, _) | Finish(_, _, _) | Release(_, _) | Fail(_, _) =>
      RunStepLeavesUs(cfg, s, step, w);
    case Create(_, _, _, _, _, _) | Join(_) | Claim(_, _, _) | Start(_, _) | Drop(_) | End(_) =>
    case Renew(_, _) | Cancel(_, _) | Purge(_) | PurgeStats(_) | Deliver(_) | Tick(_) =>
  }

  class JobQueue {
    const store: PostgresJobStore
    const workerId: string
    const cfg: Config
    var slots: nat
    var active: map<string, nat>
    var pending: Option<Ticket>
    var tasks: map<nat, Run>

    constructor (store: PostgresJobStore, workerId: string, cfg: Config, ghost s: State)
      requires s.db == store.Tables() && workerId !in s.workers && forall r :: r in s.runs ==> s.runs[r].worker != workerId
      ensures this.store == store && this.workerId == workerId && this.cfg == cfg && active == map[] && pending.None? && tasks == map[]
      ensures Enabled(cfg, s, Join(workerId)) && Shows(After(cfg, s, Join(workerId)))
    {
      this.store, this.workerId, this.cfg := store, workerId, cfg;
      slots, active, pending, tasks := cfg.concurrency, map[], None, map[];
    }

    /** This worker, its runs and the tables are what the system state says. */
    ghost predicate Shows(s: State)
      reads this, store
    {
      && s.db == store.Tables()
      && workerId in s.workers && s.workers[workerId] == Worker(slots, active, pending)
      && (forall r :: r in tasks ==> r in s.runs && s.runs[r] == tasks[r] && tasks[r].worker == workerId)
      && (forall r :: r in s.runs && s.runs[r].worker == workerId ==> r in tasks)
    }

    // ---- _worker_loop

    /** One turn of the claim loop, up to the reply of the store: nothing while every slot is taken; no job
        only when none outside the active set is claimable. */
    method ClaimNext(now: real, ghost s: State) returns (claimed: bool)
      requires Shows(s) && pending.None? && s.now == now
      modifies this`pending, store`jobs
      ensures claimed ==> pending.Some? && MayClaim(s, workerId, active.Keys, pending.value.job)
      ensures claimed ==> Shows(After(cfg, s, Claim(workerId, active.Keys, pending.value.job)))
      ensures !claimed ==> Shows(s)
      ensures !claimed ==> slots == 0 || forall j :: j in s.db.jobs && j !in active ==> !Claimable(s.db.jobs[j], s.now)
    {
      claimed := false;
      if slots > 0 {
        var job := store.ClaimNextQueued(workerId, cfg.lease, active.Keys, now);
        if job.Some? {
          var row := store.jobs[job.value];
          pending := Some(Ticket(job.value, row.attempt, row.webhook, row.audio, row.stage));
          claimed := true;
        }
      }
    }

    /** The claimed job takes a slot and its run enters the active map. */
    method StartJob(r: nat, ghost s: State)
      requires Shows(s) && pending.Some? && slots > 0 && r !in s.runs
      modifies this
      ensures Enabled(cfg, s, Start(workerId, r)) && Shows(After(cfg, s, Start(workerId, r)))
    {
      var job := pending.value;
      slots := slots - 1;
      tasks := tasks[r := Run(workerId, job.job, job.attempt, job.webhook, job.audio, job.stage, Opening)];
      active := active[job.job := r];
      pending := None;
    }

    /** The claim's reply was lost: the loop goes on without the job, whose lease will lapse. */
    method DropClaim(ghost s: State)
      requires Shows(s) && pending.Some?
      modifies this`pending
      ensures Enabled(cfg, s, Drop(workerId)) && Shows(After(cfg, s, Drop(workerId)))
    {
      pending := None;
    }

    // ---- _process_job

    /** The first renewal: a run whose job was cancelled or taken over stops before it works. */
    method OpenRun(r: nat, lost: Option<Failure>, now: real, ghost s: State)
      requires Shows(s) && s.now == now && r in tasks && tasks[r].phase == Opening
      modifies this`tasks, store`jobs
      ensures Enabled(cfg, s, Open(r, lost)) && Shows(After(cfg, s, Open(r, lost)))
    {
      var run := tasks[r];
      var renewed := store.RenewLease(run.job, workerId, cfg.lease, now);
      if lost.Some? {
        tasks := tasks[r := run.(phase := Failing(lost.value))];
      } else if renewed {
        tasks := tasks[r := run.(phase := Working)];
      } else {
        tasks := tasks[r := run.(phase := Done)];
      }
    }

    /** The fetch is done: the path is kept for the next attempt, whoever owns the job by now. */
    method KeepAudio(r: nat, path: string, now: real, ghost s: State)
      requires Shows(s) && s.now == now && r in tasks && tasks[r].phase == Working && tasks[r].audio.None?
      modifies this`tasks, store`jobs
      ensures Enabled(cfg, s, SetAudio(r, path)) && Shows(After(cfg, s, SetAudio(r, path)))
    {
      tasks := tasks[r := tasks[r].(audio := Some(path))];
      store.SetAudioPath(tasks[r].job, path, now);
    }

    /** _report_stage: a stage is written once, and only while the worker owns the job. */
    method ReportStage(r: nat, stage: Stage, lost: Option<Failure>, now: real, ghost s: State)
      requires Shows(s) && s.now == now && r in tasks && tasks[r].phase == Working && tasks[r].audio.Some?
      modifies this`tasks, store`jobs
      ensures Enabled(cfg, s, Report(r, stage, lost)) && Shows(After(cfg, s, Report(r, stage, lost)))
    {
      var run := tasks[r];
      if stage == run.stage {
        return;
      }
      var held := store.SetStage(run.job, stage, workerId, now);
      if lost.Some? {
        tasks := tasks[r := run.(phase := Failing(lost.value))];
      } else if held {
        tasks := tasks[r := run.(stage := stage)];
      } else {
        tasks := tasks[r := run.(phase := Done)];
      }
    }

    /** The result is in: FINALIZING is written whatever the stage was. */
    method FinalizeRun(r: nat, lost: Option<Failure>, now: real, ghost s: State)
      requires Shows(s) && s.now == now && r in tasks && tasks[r].phase == Working && tasks[r].audio.Some?
      modifies this`tasks, store`jobs
      ensures Enabled(cfg, s, Finalize(r, lost)) && Shows(After(cfg, s, Finalize(r, lost)))
    {
      var run := tasks[r];
      var held := store.SetStage(run.job, Finalizing, workerId, now);
      if lost.Some? {
        tasks := tasks[r := run.(phase := Failing(lost.value))];
      } else if held {
        tasks := tasks[r := run.(stage := Finalizing, phase := Closing)];
      } else {
        tasks := tasks[r := run.(phase := Done)];
      }
    }

    method CompleteRun(r: nat, result: string, lost: Option<Failure>, now: real, ghost s: State)
      requires Shows(s) && s.now == now && r in tasks && tasks[r].phase == Closing
      modifies this`tasks, store
      ensures Enabled(cfg, s, Finish(r, result, lost)) && Shows(After(cfg, s, Finish(r, result, lost)))
    {
      var run := tasks[r];
      var committed := store.Finish(run.job, result, workerId, run.webhook, now);
      tasks := tasks[r := run.(phase := if lost.Some? then Failing(lost.value) else Done)];
    }

    /** Any exception but a cancellation or a lost lease. */
    method Raise(r: nat, failure: Failure, ghost s: State)
      requires Shows(s) && r in tasks
      requires tasks[r].phase == Opening || tasks[r].phase == Working || tasks[r].phase == Closing
      modifies this`tasks
      ensures Enabled(cfg, s, Throw(r, failure)) && Shows(After(cfg, s, Throw(r, failure)))
    {
      tasks := tasks[r := tasks[r].(phase := Failing(failure))];
    }

    /** Memory pressure is no fault of the job while attempts are left: it goes back to the queue. When the
        release is refused the failure is recorded after all. */
    method TryRelease(r: nat, now: real, ghost s: State) returns (released: bool)
      requires Shows(s) && s.now == now && r in tasks && tasks[r].phase.Failing?
      requires Retryable(cfg, tasks[r].phase.failure, tasks[r].attempt)
      modifies this`tasks, store`jobs
      ensures Enabled(cfg, s, Release(r, false)) && Shows(After(cfg, s, Release(r, false)))
      ensures released <==> Held(s, s.runs[r])
    {
      var run := tasks[r];
      released := store.ReleaseForRetry(run.job, workerId, cfg.oomDelay, now);
      tasks := tasks[r := run.(phase := if released then Done else Refused(run.phase.failure))];
    }

    method RecordFailure(r: nat, error: string, now: real, ghost s: State)
      requires Shows(s) && s.now == now && r in tasks && MayFail(cfg, tasks[r])
      modifies this`tasks, store
      ensures Enabled(cfg, s, Protocol.Fail(r, error)) && Shows(After(cfg, s, Protocol.Fail(r, error)))
    {
      var run := tasks[r];
      var committed := store.Fail(run.job, error, KindOf(run.phase.failure), workerId, run.webhook, now);
      tasks := tasks[r := run.(phase := Done)];
    }

    /** The `finally` of _run_job. */
    method EndRun(r: nat, ghost s: State)
      requires Shows(s) && r in tasks
      modifies this
      ensures Enabled(cfg, s, End(r)) && Shows(After(cfg, s, End(r)))
    {
      active := active - {tasks[r].job};
      tasks := tasks - {r};
      slots := slots + 1;
    }

    // ---- _heartbeat_lease

    method Heartbeat(job: string, now: real, ghost s: State) returns (renewed: bool)
      requires Shows(s) && s.now == now
      modifies store`jobs
      ensures Enabled(cfg, s, Renew(workerId, job)) && Shows(After(cfg, s, Renew(workerId, job)))
      ensures renewed <==> Owns(s.db, job, workerId)
    {
      renewed := store.RenewLease(job, workerId, cfg.lease, now);
    }

    // ---- purge_once and the delivery of webhooks

    /** The first transaction of a purge: the files of the removed jobs go after it. */
    method PurgeJobs(cutoff: real, ghost s: State) returns (removed: set<string>)
      requires Shows(s)
      modifies store
      ensures Shows(After(cfg, s, Purge(cutoff)))
      ensures removed == set j | j in s.db.jobs && Purgeable(s.db.jobs[j], cutoff)
    {
      removed := store.PurgeOlderThan(cutoff);
    }

    /** The second: statistics have a retention of their own. */
    method PurgeOldStats(cutoff: real, ghost s: State)
      requires Shows(s)
      modifies store`stats
      ensures Shows(After(cfg, s, PurgeStats(cutoff)))
    {
      var removed := store.PurgeStatsOlderThan(cutoff);
    }

    /** The receiver answered: the event leaves the outbox; any other answer leaves it there. */
    method DeliverWebhook(at: nat, answered: bool, ghost s: State)
      requires Shows(s)
      modifies store`outbox
      ensures Shows(if answered then After(cfg, s, Deliver(at)) else s)
    {
      if answered {
        store.MarkWebhookDelivered(at);
      }
    }
  }
}
