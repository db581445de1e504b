/** What the lease protocol promises in every reachable state. */
module Guarantees {
  import opened Base
  import opened Tables
  import opened Protocol
  import opened Records
  import opened Crew
  import opened Safety
  import opened History

  // ---- fencing without a token

  /** The step is a commit attempted for run r. */
  ghost predicate Commits(step: Step, r: nat) {
    (step.Finish? || step.Fail? || step.Release?) && step.run == r
  }

  /** A finish, fail or release made for a run commits only while the row is at the attempt the run
      claimed; otherwise it changes no table and is not recorded. */
  lemma {:induction false} OnlyTheCurrentAttemptCommits(cfg: Config, s: State, step: Step, r: nat)
    requires Reachable(cfg, s) && Enabled(cfg, s, step) && Commits(step, r)
    ensures r in s.runs && var run := s.runs[r];
      if Held(s, run) then s.db.jobs[run.job].attempt == run.attempt
      else After(cfg, s, step).db == s.db && After(cfg, s, step).log == s.log
  {
    AlwaysInv(cfg, s);
    ClaimOf(cfg, s, r);
  }

  /** Everything that ever committed for a run was made at the row's attempt of that moment. */
  lemma {:induction false} EveryCommitWasFenced(cfg: Config, s: State, c: Commit)
    requires Reachable(cfg, s) && c in s.log
    ensures c.run.Some? ==> c.run.value == c.row.attempt
  {
    hide JobOk, CrewOk, Reachable;
    AlwaysInv(cfg, s);
  }

  /** No worker ever has two runs of one job in flight. */
  lemma {:induction false} NoDoubleRun(cfg: Config, s: State, q: nat, r: nat)
    requires Reachable(cfg, s) && q in s.runs && r in s.runs
    requires s.runs[q].worker == s.runs[r].worker && s.runs[q].job == s.runs[r].job
    ensures q == r
  {
    hide RecordsOk, RosterOk, ClaimsOk, Reachable;
    AlwaysInv(cfg, s);
    OneRunPerJob(cfg, s.workers, s.runs, q, r);
  }

  ghost function RunsOf(s: State, w: string): set<nat> {
    set r | r in s.runs && s.runs[r].worker == w
  }

  /** A worker has at most as many runs in flight as it has slots. */
  lemma {:induction false} RunsFitTheSlots(cfg: Config, s: State, w: string)
    requires Reachable(cfg, s) && w in s.workers
    ensures |RunsOf(s, w)| <= cfg.concurrency
  {
    hide RecordsOk, RosterOk, ClaimsOk, Reachable;
    AlwaysInv(cfg, s);
    var active := s.workers[w].active;
    CrewListed(cfg, s.workers, s.runs, w);
    forall r | r in RunsOf(s, w) ensures r in active.Values {
      RunListed(cfg, s.workers, s.runs, r);
    }
    FewerValues(active, RunsOf(s, w));
  }

  /** The exclusion is what it rests on: were a worker to claim again a job one of its runs is about to
      finish, that run would commit its result into the row of the next attempt. */
  lemma {:induction false} WithoutExclusionAStaleRunCommits(cfg: Config, s: State, r: nat, result: string)
    requires Reachable(cfg, s) && In(s, r, Closing) && Held(s, s.runs[r])
    ensures var run := s.runs[r];
      run.worker in s.workers && var claimed := AfterClaim(cfg, s, run.worker, run.job);
      var after := AfterFinish(claimed, r, result, None);
      && |after.log| == |s.log| + 1 && var commit := after.log[|s.log|];
      && commit.Outcome? && commit.run == Some(run.attempt) && commit.row.attempt == run.attempt + 1 && !Fenced(commit)
      && after.db.jobs[run.job] == commit.row && commit.row.result == Some(result)
  {
    hide RecordsOk, RosterOk, Reachable, Settled;
    AlwaysInv(cfg, s);
    ClaimOf(cfg, s, r);
    RunListed(cfg, s.workers, s.runs, r);
    var run := s.runs[r];
    var claimed := AfterClaim(cfg, s, run.worker, run.job);
    SettledRow(claimed.db, run.job, FinishedRow(claimed.db.jobs[run.job], result, s.now), Some(run.worker), run.webhook, Some(result), s.now);
  }

  lemma {:induction false} SettledRow(db: Db, j: string, row: Row, worker: Option<string>, url: Option<string>, body: Option<string>, now: real)
    ensures j in Settled(db, j, row, worker, url, body, now).jobs && Settled(db, j, row, worker, url, body, now).jobs[j] == row
  {
  }

  /** A run that came to its end let go of the row: nothing is left leased behind it. */
  lemma {:induction false} DoneRunsHoldNothing(cfg: Config, s: State, r: nat)
    requires Reachable(cfg, s) && In(s, r, Done)
    ensures !Held(s, s.runs[r])
  {
    hide RecordsOk, RosterOk, Reachable;
    AlwaysInv(cfg, s);
    ClaimOf(cfg, s, r);
  }

  // ---- stages

  /** Until it fails, a run that owns its row has the row at the stage it last wrote or was handed. */
  lemma {:induction false} RowsFollowTheirRuns(cfg: Config, s: State, r: nat)
    requires Reachable(cfg, s) && r in s.runs && Current(s.runs[r]) && Held(s, s.runs[r])
    ensures s.db.jobs[s.runs[r].job].stage == s.runs[r].stage
  {
    hide RecordsOk, RosterOk, Reachable;
    AlwaysInv(cfg, s);
    ClaimOf(cfg, s, r);
  }

  /** A claim hands out a stage other than the first exactly when it takes over a lapsed lease under which
      that stage was written: what waits in the queue is always at the first. */
  lemma {:induction false} StageHandedOut(cfg: Config, s: State, step: Step)
    requires Reachable(cfg, s) && step.Claim? && Enabled(cfg, s, step)
    ensures var row, ticket := s.db.jobs[step.job], After(cfg, s, step).workers[step.worker].pending.value;
      ticket.stage != Waiting
      <==> row.status == Running && row.leaseEnd.Some? && row.leaseEnd.value < s.now && row.stage != Waiting
  {
    hide RecordsOk, CrewOk, Reachable;
    AlwaysInv(cfg, s);
    RowOf(cfg, s, step.job);
  }

  // ---- one outcome per job

  /** At most one of finish, fail and cancel ever commits for a job, and before the job is gone one does.
      Every outcome inserted its statistics row: ON CONFLICT never fires, though statistics and jobs are
      deleted at times of their own. What is left of statistics and row is as that outcome made it. */
  lemma {:induction false} OneOutcomePerJob(cfg: Config, s: State, j: string)
    requires Reachable(cfg, s)
    ensures var tale := TaleOf(s.log, j);
      && tale.outcomes <= 1 && tale.counted == tale.outcomes
      && (tale.outcomes == 1 <==> j in s.born && (j in s.db.jobs ==> Terminal(s.db.jobs[j])))
      && (tale.outcomes == 1 <==> tale.final.Some?)
      && (j in s.db.stats ==> tale.final.Some? && Counts(s.db.stats[j], tale.final.value))
      && (j in s.db.jobs && tale.final.Some? ==> SameButAudio(s.db.jobs[j], tale.final.value))
    ensures forall c :: c in s.log && c.Outcome? ==> c.inserted
  {
    hide RowOk, Events, TaleOf, CrewOk, Reachable, SameButAudio, Counts;
    AlwaysInv(cfg, s);
    assert JobOk(cfg, s.db, s.log, s.born, j);
  }

  /** Over all time exactly one webhook event is inserted for a job that came to its outcome and was asked
      for with a URL, and none for any other, whatever has been delivered or deleted since. */
  lemma {:induction false} OneEventIffAsked(cfg: Config, s: State, s': State, j: string)
    requires Reachable(cfg, s) && Leads(cfg, s, s') && j in s.db.jobs
    ensures var tale := TaleOf(s'.log, j);
      tale.sent == if tale.outcomes == 1 && s.db.jobs[j].webhook.Some? then 1 else 0
  {
    hide Events, TaleOf, CrewOk, StepAt, RetainedOk;
    var trace, steps :| Path(cfg, trace, steps) && trace[0] == s && trace[|steps|] == s';
    UrlStays(cfg, trace, steps, |steps|, j);
    LeadsOn(cfg, Init, s, s');
    AlwaysInv(cfg, s');
    assert JobOk(cfg, s'.db, s'.log, s'.born, j);
  }

  /** The row a job's outcome left has the URL the job was asked for with. */
  lemma {:induction false} UrlStays(cfg: Config, trace: seq<State>, steps: seq<Step>, i: int, j: string)
    requires Path(cfg, trace, steps) && Reachable(cfg, trace[0]) && j in trace[0].db.jobs && 0 <= i <= |steps|
    ensures Inv(cfg, trace[i]) && j in trace[i].born
    ensures var final := TaleOf(trace[i].log, j).final; final.Some? ==> final.value.webhook == trace[0].db.jobs[j].webhook
  {
    hide Inv, Enabled, After, TaleOf, Reachable;
    AlwaysInv(cfg, trace[0]);
    RowOf(cfg, trace[0], j);
    PathKeepsInv(cfg, trace, steps, i);
    PathKeeps(cfg, trace, steps, i, j);
    if j in trace[i].db.jobs {
      FinalOf(cfg, trace[i], j);
    } else if i > 0 {
      UrlStays(cfg, trace, steps, i - 1, j);
      assert StepAt(cfg, trace, steps, i - 1);
      GoneIsSilent(cfg, trace[i - 1], steps[i - 1], j);
    }
  }

  lemma {:induction false} FinalOf(cfg: Config, s: State, j: string)
    requires Inv(cfg, s) && j in s.db.jobs
    ensures var final := TaleOf(s.log, j).final; final.Some? ==> SameButAudio(s.db.jobs[j], final.value)
  {
    hide RowOk, TaleOf, SameButAudio;
    Retained(cfg, s.db, s.log, s.born, j);
  }

  /** Nothing is recorded of a job that is not, or no longer, there. */
  lemma {:induction false} GoneIsSilent(cfg: Config, s: State, step: Step, j: string)
    requires Enabled(cfg, s, step) && j !in After(cfg, s, step).db.jobs
    ensures TaleOf(After(cfg, s, step).log, j) == TaleOf(s.log, j)
  {
    hide TaleOf, Admits, Renewed, Staged, Purged, StatsPurged, Delivered;
    var log := After(cfg, s, step).log;
    if log != s.log {
      assert log == s.log + [log[|s.log|]];
      TaleSnoc(s.log, log[|s.log|], j);
    }
  }

  /** What the tables say of a retained job: running exactly while leased; a failure kind exactly when
      failed or cancelled; a result exactly when completed, and then it went through FINALIZING; waiting
      at the first stage while queued. Its statistics, while kept, are those of its outcome, and there is
      at most its one webhook event, made of the outcome, until that is delivered. */
  lemma {:induction false} TablesAgree(cfg: Config, s: State, j: string)
    requires Reachable(cfg, s) && j in s.db.jobs
    ensures var row, events := s.db.jobs[j], Events(s.db.outbox, j);
      && (row.status == Running <==> row.owner.Some?)
      && (row.failure.Some? <==> row.status == Failed || row.status == Cancelled)
      && (row.result.Some? <==> row.status == Completed) && (row.error.Some? <==> row.status == Failed)
      && (row.status == Completed ==> row.stage == Finalizing) && (row.status == Queued ==> row.stage == Waiting)
      && (j in s.db.stats ==> Terminal(row) && Counts(s.db.stats[j], row))
      && |events| <= (if Terminal(row) && row.webhook.Some? then 1 else 0)
      && (forall e :: e in events ==> Tells(e, row))
  {
    hide Events, TaleOf, CrewOk, Reachable;
    AlwaysInv(cfg, s);
    assert JobOk(cfg, s.db, s.log, s.born, j);
  }

  /** Once terminal, a row is frozen until it is purged but for the path of its audio and the time of its
      last update, and a job that is gone never comes back. */
  lemma {:induction false} FrozenUntilPurged(cfg: Config, s: State, s': State, j: string)
    requires Reachable(cfg, s) && Leads(cfg, s, s') && j in s.born
    ensures j !in s.db.jobs ==> j !in s'.db.jobs
    ensures j in s.db.jobs && Terminal(s.db.jobs[j]) && j in s'.db.jobs ==> SameButAudio(s'.db.jobs[j], s.db.jobs[j])
  {
    hide Reachable, Leads;
    LaterKeeps(cfg, s, s', j);
  }

  /** What a step makes of a terminal row that stays: a run that fetched its job's audio too late writes
      the path and the time; every other step leaves the row as it is. */
  lemma {:induction false} OnlyALateFetchTouches(cfg: Config, s: State, step: Step, j: string)
    requires Reachable(cfg, s) && Enabled(cfg, s, step)
    requires j in s.db.jobs && Terminal(s.db.jobs[j]) && j in After(cfg, s, step).db.jobs
    ensures After(cfg, s, step).db.jobs[j] ==
            if step.SetAudio? && s.runs[step.run].job == j then AudioRow(s.db.jobs[j], step.path, s.now) else s.db.jobs[j]
  {
    hide Reachable, Inv, Enabled, After;
    if step.SetAudio? {
      LateFetch(cfg, s, step, j);
    } else {
      AlwaysInv(cfg, s);
      RowOf(cfg, s, j);
      StepLeaves(cfg, s, step, j);
    }
  }

  lemma {:induction false} LateFetch(cfg: Config, s: State, step: Step, j: string)
    requires Enabled(cfg, s, step) && step.SetAudio? && j in s.db.jobs
    ensures step.run in s.runs && j in After(cfg, s, step).db.jobs && After(cfg, s, step).db.jobs[j] ==
            if s.runs[step.run].job == j then AudioRow(s.db.jobs[j], step.path, s.now) else s.db.jobs[j]
  {
  }

  // ---- admission

  /** Active jobs never exceed the global cap, nor any client's its own. */
  lemma {:induction false} AdmissionHolds(cfg: Config, s: State, client: string)
    requires Reachable(cfg, s)
    ensures cfg.maxActive.Some? ==> |ActiveJobs(s.db)| <= cfg.maxActive.value
    ensures cfg.maxPerClient.Some? ==> |ActiveJobsOf(s.db, client)| <= cfg.maxPerClient.value
  {
    hide JobOk, CrewOk, Reachable;
    AlwaysInv(cfg, s);
  }

  /** Client, webhook, key, digest and creation time of a retained job never change. */
  lemma {:induction false} IdentityIsKept(cfg: Config, s: State, s': State, j: string)
    requires Reachable(cfg, s) && Leads(cfg, s, s') && j in s.db.jobs && j in s'.db.jobs
    ensures SameIdentity(s'.db.jobs[j], s.db.jobs[j])
  {
    hide Reachable, Leads;
    AlwaysInv(cfg, s);
    RowOf(cfg, s, j);
    LaterKeeps(cfg, s, s', j);
  }

  /** A repeated key finds the original and nothing else for as long as it is retained, whatever has
      happened to it since, so the repeat inserts nothing, full or not. */
  lemma {:induction false} RepeatFindsTheOriginal(cfg: Config, s: State, s': State, j: string)
    requires Reachable(cfg, s) && Leads(cfg, s, s') && j in s.db.jobs && s.db.jobs[j].key.Some? && j in s'.db.jobs
    ensures var first := s.db.jobs[j];
      && (forall other :: Keyed(s'.db, first.client, first.key, other) <==> other == j)
      && s'.db.jobs[j].digest == first.digest
      && !Admits(s'.db, cfg.maxActive, cfg.maxPerClient, first.client, first.key)
  {
    hide JobOk, CrewOk, CapsOk, StepAt;
    IdentityIsKept(cfg, s, s', j);
    LeadsOn(cfg, Init, s, s');
    AlwaysInv(cfg, s');
    var first := s.db.jobs[j];
    assert Keyed(s'.db, first.client, first.key, j);
  }

  /** A request admitted with a key is what a repeat finds from then on. */
  lemma {:induction false} RepeatFindsTheRequest(cfg: Config, s: State, step: Step, s': State)
    requires Reachable(cfg, s) && Enabled(cfg, s, step) && step.Create? && step.key.Some?
    requires Admits(s.db, cfg.maxActive, cfg.maxPerClient, step.client, step.key)
    requires Leads(cfg, After(cfg, s, step), s') && step.job in s'.db.jobs
    ensures forall other :: Keyed(s'.db, step.client, step.key, other) <==> other == step.job
    ensures s'.db.jobs[step.job].digest == step.digest && !Admits(s'.db, cfg.maxActive, cfg.maxPerClient, step.client, step.key)
  {
    hide Admits, Reachable, Leads;
    OneStepOn(cfg, s, step);
    ReachedOn(cfg, s, After(cfg, s, step));
    RepeatFindsTheOriginal(cfg, After(cfg, s, step), s', step.job);
  }

  lemma {:induction false} ReachedOn(cfg: Config, s: State, s': State)
    requires Reachable(cfg, s) && Leads(cfg, s, s')
    ensures Reachable(cfg, s')
  {
    hide Leads;
    LeadsOn(cfg, Init, s, s');
  }

  // ---- bounded retries

  /** A job is released after running out of memory at most oom_max_attempts - 1 times, however many
      lapsed leases were claimed in between. */
  lemma {:induction false} RetriesAreBounded(cfg: Config, s: State, j: string)
    requires Reachable(cfg, s) && cfg.oomMaxAttempts >= 1
    ensures TaleOf(s.log, j).requeues <= cfg.oomMaxAttempts - 1
  {
    hide RetainedOk, GoneOk, Events, TaleOf, CrewOk, Reachable;
    AlwaysInv(cfg, s);
    assert JobOk(cfg, s.db, s.log, s.born, j);
  }
}
