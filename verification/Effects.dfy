/** What single steps of the lease protocol do to the tables, column by column. */
module Effects {
  import opened Base
  import opened Tables
  import opened Protocol
  import opened Records
  import opened Safety

  // ---- admission

  function InProgress(db: Db): set<string> {
    set j | j in db.jobs && (db.jobs[j].status == Queued || db.jobs[j].status == Running)
  }

  function InProgressOf(db: Db, client: string): set<string> {
    set j | j in db.jobs && (db.jobs[j].status == Queued || db.jobs[j].status == Running) && db.jobs[j].client == client
  }

  /** A request is admitted exactly when no job of the client has its key and both caps leave room for one
      more; otherwise nothing changes. */
  lemma {:induction false} AdmittedExactlyWhen(cfg: Config, s: State, step: Step)
    requires Reachable(cfg, s) && Enabled(cfg, s, step) && step.Create?
    ensures step.job in After(cfg, s, step).db.jobs <==>
      && (step.key.Some? ==> forall j :: j in s.db.jobs && s.db.jobs[j].client == step.client ==> s.db.jobs[j].key != step.key)
      && (cfg.maxActive.Some? ==> |InProgress(s.db)| < cfg.maxActive.value)
      && (cfg.maxPerClient.Some? ==> |InProgressOf(s.db, step.client)| < cfg.maxPerClient.value)
    ensures step.job !in After(cfg, s, step).db.jobs ==> After(cfg, s, step) == s
  {
    hide Inv, Reachable;
    AlwaysInv(cfg, s);
    NotThereYet(cfg, s, step.job);
    assert InProgress(s.db) == ActiveJobs(s.db);
    assert InProgressOf(s.db, step.client) == ActiveJobsOf(s.db, step.client);
    if j :| j in s.db.jobs && s.db.jobs[j].client == step.client && step.key.Some? && s.db.jobs[j].key == step.key {
      assert Keyed(s.db, step.client, step.key, j);
    }
  }

  lemma {:induction false} NotThereYet(cfg: Config, s: State, j: string)
    requires Inv(cfg, s) && j !in s.born
    ensures j !in s.db.jobs
  {
    assert JobOk(cfg, s.db, s.log, s.born, j);
  }

  // ---- claims and commits

  /** It may be claimed: it waits in the queue and any cooldown is over, or its lease has passed. */
  ghost predicate UpForAClaim(s: State, exclude: set<string>, j: string) {
    && j in s.db.jobs && j !in exclude
    && var row := s.db.jobs[j];
    || (row.status == Queued && (row.retryAfter.Some? ==> row.retryAfter.value <= s.now))
    || (row.status == Running && row.leaseEnd.Some? && row.leaseEnd.value < s.now)
  }

  /** A worker with a free slot and no claim under way can claim the oldest job up for it, and no other. */
  lemma {:induction false} TheOldestIsClaimed(cfg: Config, s: State, worker: string, exclude: set<string>, j: string)
    requires worker in s.workers
    ensures Enabled(cfg, s, Claim(worker, exclude, j)) <==>
      && s.workers[worker].pending.None? && s.workers[worker].slots > 0 && s.workers[worker].active.Keys <= exclude
      && UpForAClaim(s, exclude, j) && forall k :: UpForAClaim(s, exclude, k) ==> s.db.jobs[j].created <= s.db.jobs[k].created
  {
    forall k ensures UpForAClaim(s, exclude, k) <==> k in s.db.jobs && k !in exclude && Claimable(s.db.jobs[k], s.now) {
    }
  }

  /** A claim starts the next attempt under its worker; when the job first started is kept. */
  lemma {:induction false} ClaimStartsAnAttempt(cfg: Config, s: State, step: Step)
    requires Enabled(cfg, s, step) && step.Claim?
    ensures var s', j := After(cfg, s, step), step.job;
      && j in s.db.jobs && s'.db.jobs.Keys == s.db.jobs.Keys && (forall k :: k in s.db.jobs && k != j ==> s'.db.jobs[k] == s.db.jobs[k])
      && var before, row := s.db.jobs[j], s'.db.jobs[j];
      && row.status == Running && row.owner == Some(step.worker) && row.attempt == before.attempt + 1
      && row.started == (if before.started.Some? then before.started else Some(s.now))
      && row.retryAfter.None? && row.stage == before.stage && row.audio == before.audio && row.updated == s.now
      && s'.workers[step.worker].pending == Some(Ticket(j, row.attempt, row.webhook, row.audio, row.stage))
  {
  }

  /** The statistics of an outcome: whose job it was, how it ended, after how many attempts, and when. */
  ghost predicate StatsTell(stats: Stats, row: Row, worker: Option<string>, now: real) {
    && stats.client == row.client && stats.status == row.status && stats.attempts == row.attempt && stats.worker == worker
    && stats.created == row.created && stats.started == row.started && stats.finished == now
  }

  /** What a terminal update leaves of one job: row, statistics and webhook event; nothing of the others. */
  ghost predicate SettledAs(s: State, s': State, j: string, status: Status, worker: Option<string>) {
    && j in s.db.jobs && s'.db.jobs.Keys == s.db.jobs.Keys && (forall k :: k in s.db.jobs && k != j ==> s'.db.jobs[k] == s.db.jobs[k])
    && var before, row := s.db.jobs[j], s'.db.jobs[j];
    && row.status == status && row.owner.None? && row.leaseEnd.None? && row.updated == s.now
    && row.attempt == before.attempt && row.stage == before.stage && row.started == before.started && row.audio == before.audio
    && s'.db.stats.Keys == s.db.stats.Keys + {j} && (forall k :: k in s.db.stats && k != j ==> s'.db.stats[k] == s.db.stats[k])
    && StatsTell(s'.db.stats[j], row, worker, s.now)
  }

  lemma {:induction false} UncountedAndKnown(cfg: Config, s: State, j: string)
    requires Reachable(cfg, s) && j in s.db.jobs && Active(s.db.jobs[j])
    ensures j !in s.db.stats
  {
    hide Inv, Reachable, JobOk;
    AlwaysInv(cfg, s);
    Recorded(cfg, s, j);
    NotYetCounted(cfg, s.db, s.log, s.born, j);
  }

  lemma {:induction false} Recorded(cfg: Config, s: State, j: string)
    requires Inv(cfg, s)
    ensures JobOk(cfg, s.db, s.log, s.born, j)
  {
  }

  /** A result that commits is stored, counted, and sent to the job's webhook. */
  lemma {:induction false} FinishStoresTheResult(cfg: Config, s: State, step: Step)
    requires Reachable(cfg, s) && Enabled(cfg, s, step) && step.Finish? && Held(s, s.runs[step.run])
    ensures var run, s' := s.runs[step.run], After(cfg, s, step);
      && SettledAs(s, s', run.job, Completed, Some(run.worker))
      && s'.db.jobs[run.job].result == Some(step.result) && s'.db.jobs[run.job].error.None?
      && s'.db.outbox == s.db.outbox + if run.webhook.Some? then [Event(run.job, run.webhook.value, Completed, Some(step.result))] else []
  {
    hide Inv, Reachable;
    UncountedAndKnown(cfg, s, s.runs[step.run].job);
    AlwaysInv(cfg, s);
    RowOf(cfg, s, s.runs[step.run].job);
  }

  /** So is a failure. */
  lemma {:induction false} FailStoresTheError(cfg: Config, s: State, step: Step)
    requires Reachable(cfg, s) && Enabled(cfg, s, step) && step.Fail? && Held(s, s.runs[step.run])
    ensures var run, s' := s.runs[step.run], After(cfg, s, step);
      && SettledAs(s, s', run.job, Tables.Failed, Some(run.worker))
      && s'.db.jobs[run.job].error == Some(step.error) && s'.db.jobs[run.job].result.None?
      && s'.db.outbox == s.db.outbox + if run.webhook.Some? then [Event(run.job, run.webhook.value, Tables.Failed, Some(step.error))] else []
  {
    hide Inv, Reachable;
    UncountedAndKnown(cfg, s, s.runs[step.run].job);
    AlwaysInv(cfg, s);
    RowOf(cfg, s, s.runs[step.run].job);
  }

  /** A cancellation hits exactly the client's own job in progress, whoever holds its lease. */
  lemma {:induction false} CancelStopsTheJob(cfg: Config, s: State, step: Step)
    requires Reachable(cfg, s) && Enabled(cfg, s, step) && step.Cancel?
    ensures var s' := After(cfg, s, step);
      if step.job in InProgressOf(s.db, step.client) then
        && SettledAs(s, s', step.job, Cancelled, None)
        && s'.db.jobs[step.job].cancelledAt == Some(s.now) && s'.db.jobs[step.job].failure == Some(Cancellation)
        && var url := s.db.jobs[step.job].webhook;
           s'.db.outbox == s.db.outbox + if url.Some? then [Event(step.job, url.value, Cancelled, None)] else []
      else s' == s
  {
    hide Inv, Reachable;
    if step.job in InProgressOf(s.db, step.client) {
      UncountedAndKnown(cfg, s, step.job);
    }
  }

  /** One row, and of it only what is named, differs. */
  ghost predicate OnlyTheRow(s: State, s': State, j: string) {
    && j in s.db.jobs && s'.db.jobs.Keys == s.db.jobs.Keys && (forall k :: k in s.db.jobs && k != j ==> s'.db.jobs[k] == s.db.jobs[k])
    && s'.db.stats == s.db.stats && s'.db.outbox == s.db.outbox && s'.now == s.now
  }

  /** A release puts the job back to the start of the queue for after the cooldown; its attempts stay counted. */
  lemma {:induction false} ReleasePutsItBack(cfg: Config, s: State, step: Step)
    requires Enabled(cfg, s, step) && step.Release? && Held(s, s.runs[step.run])
    ensures var j, s' := s.runs[step.run].job, After(cfg, s, step);
      && OnlyTheRow(s, s', j)
      && s'.db.jobs[j] == s.db.jobs[j].(status := Queued, stage := Waiting, owner := None, leaseEnd := None,
           retryAfter := Some(s.now + cfg.oomDelay), updated := s.now)
  {
  }

  /** A stage that is not current yet is written while the run owns its row, and nothing else of the row. */
  lemma {:induction false} ReportWritesTheStage(cfg: Config, s: State, step: Step)
    requires Enabled(cfg, s, step) && (step.Report? || step.Finalize?)
    ensures var run, s' := s.runs[step.run], After(cfg, s, step);
      var stage := if step.Report? then step.stage else Finalizing;
      if Held(s, run) && (step.Finalize? || stage != run.stage) then
        OnlyTheRow(s, s', run.job) && s'.db.jobs[run.job] == s.db.jobs[run.job].(stage := stage, updated := s.now)
      else s'.db == s.db
  {
  }

  /** The fetched audio is written to the row, if there still is one; the run keeps it. */
  lemma {:induction false} FetchWritesTheAudio(cfg: Config, s: State, step: Step)
    requires Enabled(cfg, s, step) && step.SetAudio?
    ensures var run, s' := s.runs[step.run], After(cfg, s, step);
      && s'.runs[step.run] == run.(audio := Some(step.path))
      && if run.job in s.db.jobs then
           OnlyTheRow(s, s', run.job) && s'.db.jobs[run.job] == s.db.jobs[run.job].(audio := Some(step.path), updated := s.now)
         else s'.db == s.db
  {
  }

  /** A delivered event leaves the outbox, the others keep their order. */
  lemma {:induction false} DeliveryTakesOne(cfg: Config, s: State, at: nat)
    ensures var s' := After(cfg, s, Deliver(at));
      && s'.db.jobs == s.db.jobs && s'.db.stats == s.db.stats
      && |s'.db.outbox| == (if at < |s.db.outbox| then |s.db.outbox| - 1 else |s.db.outbox|)
      && forall i :: 0 <= i < |s'.db.outbox| ==> s'.db.outbox[i] == if i < at then s.db.outbox[i] else s.db.outbox[i + 1]
  {
  }

  // ---- failures

  /** A failed run goes back to the queue exactly when memory ran out, by no fault of the provider, and attempts
      are left; in every other case its failure is recorded. */
  lemma {:induction false} WhatAFailureLeadsTo(cfg: Config, s: State, r: nat, raised: bool, error: string)
    requires r in s.runs && s.runs[r].phase.Failing?
    ensures var run := s.runs[r]; var cause := run.phase.failure;
      && (Enabled(cfg, s, Release(r, raised)) <==> cause.outOfMemory && !cause.provider && run.attempt < cfg.oomMaxAttempts)
      && (Enabled(cfg, s, Protocol.Fail(r, error)) <==> !Enabled(cfg, s, Release(r, raised)))
  {
  }

  /** What a committed failure tells the client: the provider's fault before all else, then a lack of capacity,
      then bad input; everything else is internal, and no failure is a cancellation. */
  lemma {:induction false} FailureTellsItsKind(cfg: Config, s: State, step: Step)
    requires Enabled(cfg, s, step) && step.Fail? && Held(s, s.runs[step.run])
    ensures var run := s.runs[step.run];
      run.job in After(cfg, s, step).db.jobs && var row := After(cfg, s, step).db.jobs[run.job];
      var cause := run.phase.failure;
      && row.failure.Some?
      && (row.failure == Some(Provider) <==> cause.provider)
      && (row.failure == Some(Capacity) <==> !cause.provider && (cause.outOfMemory || cause.queueFull))
      && (row.failure == Some(BadInput) <==> cause.badInput && !cause.provider && !cause.outOfMemory && !cause.queueFull)
      && row.failure != Some(Cancellation)
  {
  }

  // ---- retention

  /** The purge removes exactly the completed, failed and cancelled jobs last updated before the cutoff, and
      their events; the other purge exactly the statistics finished before its own. */
  lemma {:induction false} PurgesTakeWhatIsOld(cfg: Config, s: State, cutoff: real)
    ensures var db := After(cfg, s, Purge(cutoff)).db;
      && (forall j :: j in db.jobs <==>
           j in s.db.jobs && (s.db.jobs[j].status == Queued || s.db.jobs[j].status == Running || s.db.jobs[j].updated >= cutoff))
      && (forall j :: j in db.jobs ==> db.jobs[j] == s.db.jobs[j]) && db.stats == s.db.stats
      && (forall e :: e in db.outbox <==> e in s.db.outbox && e.job in db.jobs)
    ensures var db := After(cfg, s, PurgeStats(cutoff)).db;
      && (forall j :: j in db.stats <==> j in s.db.stats && s.db.stats[j].finished >= cutoff)
      && (forall j :: j in db.stats ==> db.stats[j] == s.db.stats[j]) && db.jobs == s.db.jobs && db.outbox == s.db.outbox
  {
    FilterMembers((event: Event) => event.job in s.db.jobs && !Purgeable(s.db.jobs[event.job], cutoff), s.db.outbox);
  }
}
