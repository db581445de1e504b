/** Every step of the lease protocol keeps the records and the crew consistent, and so the invariant
    holds at every moment of every run. The steps fall into four kinds: what a run writes of the row
    it owns, what it commits, what only its worker's own bookkeeping does, and what clients, the
    claim, the heartbeat, deliveries, purges and the clock do. For each kind the change of the tables
    is handed to Records and to Crew, and what is left is that the run itself moves on. */
module Safety {
  import opened Base
  import opened Tables
  import opened Protocol
  import opened Records
  import opened Crew

  ghost predicate Inv(cfg: Config, s: State) {
    && RecordsOk(cfg, s.db, s.log, s.born)
    && CrewOk(cfg, s.db, s.born, s.workers, s.runs)
  }

  lemma {:induction false} Retained(cfg: Config, db: Db, log: seq<Commit>, born: set<string>, j: string)
    requires RecordsOk(cfg, db, log, born) && j in db.jobs
    ensures RetainedOk(db.jobs[j], TaleOf(log, j)) && j in born
  {
    assert JobOk(cfg, db, log, born, j);
  }

  lemma {:induction false} ClaimOf(cfg: Config, s: State, r: nat)
    requires Inv(cfg, s) && r in s.runs
    ensures RunClaim(s.db, s.born, s.runs[r])
  {
  }

  /** A row that is no longer running has no owner. */
  lemma {:induction false} LetsGo(db: Db, j: string, row: Row, worker: Option<string>, url: Option<string>, body: Option<string>, now: real, w: string)
    requires row.status != Running
    ensures !Owns(Settled(db, j, row, worker, url, body, now), j, w) && !Owns(Put(db, j, row), j, w)
  {
  }

  /** So such a change gives nobody anything. */
  lemma {:induction false} LettingGoIsTame(db: Db, j: string, row: Row, worker: Option<string>, url: Option<string>, body: Option<string>, now: real)
    requires j in db.jobs && row.webhook == db.jobs[j].webhook && row.status != Running
    ensures Tame(db, Settled(db, j, row, worker, url, body, now)) && Tame(db, Put(db, j, row))
  {
  }

  /** A renewal takes the row from nobody and leaves its stage. */
  lemma {:induction false} RenewalIsQuiet(cfg: Config, s: State, j: string, w: string)
    ensures var db' := Renewed(s.db, j, w, s.now, cfg.lease);
      && (Owns(db', j, w) <==> Owns(s.db, j, w)) && (Owns(s.db, j, w) ==> db'.jobs[j].stage == s.db.jobs[j].stage)
  {
  }

  // ---- the updates of one row

  lemma {:induction false} RenewKeeps(cfg: Config, s: State, worker: string, j: string)
    requires Inv(cfg, s)
    ensures Inv(cfg, s.(db := Renewed(s.db, j, worker, s.now, cfg.lease)))
  {
    hide RecordsOk, CrewOk, Events, TaleOf;
    if Owns(s.db, j, worker) {
      Retained(cfg, s.db, s.log, s.born, j);
      UpdateKeepsRecords(cfg, s.db, s.log, s.born, j, RenewedRow(s.db.jobs[j], s.now, cfg.lease));
    }
    TameKeepsCrew(cfg, s.db, s.born, s.workers, s.runs, Renewed(s.db, j, worker, s.now, cfg.lease));
  }

  /** A working run writes its stage and moves on. */
  lemma {:induction false} StageKeeps(cfg: Config, s: State, r: nat, run: Run, stage: Stage)
    requires Inv(cfg, s) && r in s.runs && SameClaim(run, s.runs[r])
    requires PhaseOk(Staged(s.db, run.job, run.worker, stage, s.now), run)
    ensures Inv(cfg, s.(db := Staged(s.db, run.job, run.worker, stage, s.now), runs := s.runs[r := run]))
  {
    hide RecordsOk, CrewOk, Events, TaleOf, PhaseOk;
    if Owns(s.db, run.job, run.worker) {
      Retained(cfg, s.db, s.log, s.born, run.job);
      UpdateKeepsRecords(cfg, s.db, s.log, s.born, run.job, StagedRow(s.db.jobs[run.job], stage, s.now));
    }
    StageKeepsCrew(cfg, s.db, s.born, s.workers, s.runs, r, run, stage, s.now);
  }

  /** A run moves on without the tables changing. */
  lemma {:induction false} MoveKeeps(cfg: Config, s: State, r: nat, run: Run)
    requires Inv(cfg, s) && r in s.runs && SameClaim(run, s.runs[r]) && PhaseOk(s.db, run)
    ensures Inv(cfg, s.(runs := s.runs[r := run]))
  {
    hide RecordsOk, CrewOk;
    MoveKeepsCrew(cfg, s.db, s.born, s.workers, s.runs, r, run);
  }

  lemma {:induction false} AudioKeeps(cfg: Config, s: State, r: nat, path: string)
    requires Inv(cfg, s) && In(s, r, Working)
    ensures Inv(cfg, AfterSetAudio(s, r, path))
  {
    hide RecordsOk, CrewOk;
    var run := s.runs[r];
    var db' := WithAudio(s.db, run.job, path, s.now);
    ClaimOf(cfg, s, r);
    AudioKeepsRecords(cfg, s.db, s.log, s.born, run.job, path, s.now);
    TameKeepsCrew(cfg, s.db, s.born, s.workers, s.runs, db');
    MoveKeepsCrew(cfg, db', s.born, s.workers, s.runs, r, run.(audio := Some(path)));
  }

  // ---- the commits

  /** A terminal update of a row its run owns keeps everything, and is recorded as made at the run's attempt. */
  lemma {:induction false} SettleKeeps(cfg: Config, s: State, j: string, row: Row, worker: Option<string>, run: Option<nat>)
    requires Inv(cfg, s) && j in s.db.jobs && Active(s.db.jobs[j])
    requires Terminal(row) && SameIdentity(row, s.db.jobs[j]) && RowOk(row) && row.attempt == s.db.jobs[j].attempt
    requires run.Some? ==> run.value == row.attempt
    ensures Inv(cfg, AfterSettling(s, j, row, worker, run))
  {
    hide RecordsOk, CrewOk, Tame, RowOk;
    LettingGoIsTame(s.db, j, row, worker, row.webhook, BodyOf(row), s.now);
    SettleKeepsRecords(cfg, s.db, s.log, s.born, j, row, worker, s.now, run);
    TameKeepsCrew(cfg, s.db, s.born, s.workers, s.runs, Settled(s.db, j, row, worker, row.webhook, BodyOf(row), s.now));
  }

  ghost function AfterSettling(s: State, j: string, row: Row, worker: Option<string>, run: Option<nat>): State {
    s.(db := Settled(s.db, j, row, worker, row.webhook, BodyOf(row), s.now),
       log := s.log + [Settlement(s.db, j, row, run, row.webhook, BodyOf(row))])
  }

  lemma {:induction false} FinishKeeps(cfg: Config, s: State, r: nat, result: string, lost: Option<Failure>)
    requires Inv(cfg, s) && In(s, r, Closing)
    ensures Inv(cfg, AfterFinish(s, r, result, lost))
  {
    hide Inv, Settled, Events, TaleOf;
    var run := s.runs[r];
    ClaimOf(cfg, s, r);
    var t := s;
    if Held(s, run) {
      RowOf(cfg, s, run.job);
      var row := FinishedRow(s.db.jobs[run.job], result, s.now);
      SettleKeeps(cfg, s, run.job, row, Some(run.worker), Some(run.attempt));
      LetsGo(s.db, run.job, row, Some(run.worker), row.webhook, Some(result), s.now, run.worker);
      t := AfterSettling(s, run.job, row, Some(run.worker), Some(run.attempt));
    }
    MoveKeeps(cfg, t, r, run.(phase := Next(Held(s, run), lost, Done)));
  }

  lemma {:induction false} RowOf(cfg: Config, s: State, j: string)
    requires Inv(cfg, s) && j in s.db.jobs
    ensures RowOk(s.db.jobs[j]) && j in s.born
  {
    Retained(cfg, s.db, s.log, s.born, j);
  }

  lemma {:induction false} FailKeeps(cfg: Config, s: State, r: nat, error: string)
    requires Inv(cfg, s) && r in s.runs && (s.runs[r].phase.Failing? || s.runs[r].phase.Refused?)
    ensures Inv(cfg, AfterFail(s, r, error))
  {
    hide Inv, Settled, Events, TaleOf;
    var run := s.runs[r];
    ClaimOf(cfg, s, r);
    var t := s;
    if Held(s, run) {
      RowOf(cfg, s, run.job);
      var row := FailedRow(s.db.jobs[run.job], error, KindOf(run.phase.failure), s.now);
      SettleKeeps(cfg, s, run.job, row, Some(run.worker), Some(run.attempt));
      LetsGo(s.db, run.job, row, Some(run.worker), row.webhook, Some(error), s.now, run.worker);
      t := AfterSettling(s, run.job, row, Some(run.worker), Some(run.attempt));
    }
    MoveKeeps(cfg, t, r, run.(phase := Done));
  }

  lemma {:induction false} ReleaseKeeps(cfg: Config, s: State, r: nat, raised: bool)
    requires Inv(cfg, s) && r in s.runs && s.runs[r].phase.Failing? && Retryable(cfg, s.runs[r].phase.failure, s.runs[r].attempt)
    ensures Inv(cfg, AfterRelease(cfg, s, r, raised))
  {
    hide Inv, Put, Events, TaleOf;
    var run := s.runs[r];
    ClaimOf(cfg, s, r);
    var t := s;
    if Held(s, run) {
      var row := ReleasedRow(s.db.jobs[run.job], s.now, cfg.oomDelay);
      RequeueKeeps(cfg, s, run.job);
      LetsGo(s.db, run.job, row, None, None, None, s.now, run.worker);
      t := s.(db := Put(s.db, run.job, row), log := s.log + [Requeue(run.job, Some(run.attempt), row)]);
    }
    MoveKeeps(cfg, t, r, run.(phase := if Held(s, run) || raised then Done else Refused(run.phase.failure)));
  }

  lemma {:induction false} RequeueKeeps(cfg: Config, s: State, j: string)
    requires Inv(cfg, s) && j in s.db.jobs && s.db.jobs[j].status == Running && s.db.jobs[j].attempt < cfg.oomMaxAttempts
    ensures var row := ReleasedRow(s.db.jobs[j], s.now, cfg.oomDelay);
      Inv(cfg, s.(db := Put(s.db, j, row), log := s.log + [Requeue(j, Some(row.attempt), row)]))
  {
    hide RecordsOk, CrewOk, Tame;
    Retained(cfg, s.db, s.log, s.born, j);
    var row := ReleasedRow(s.db.jobs[j], s.now, cfg.oomDelay);
    LettingGoIsTame(s.db, j, row, None, None, None, s.now);
    ReleaseKeepsRecords(cfg, s.db, s.log, s.born, j, row);
    TameKeepsCrew(cfg, s.db, s.born, s.workers, s.runs, Put(s.db, j, row));
  }

  // ---- the other steps

  lemma {:induction false} CrewStepKeeps(cfg: Config, s: State, step: Step)
    requires Inv(cfg, s) && Enabled(cfg, s, step) && (step.Join? || step.Start? || step.Drop? || step.End? || step.Throw?)
    ensures Inv(cfg, After(cfg, s, step))
  {
    hide RecordsOk, CrewOk;
    match step
    case Join(w) => JoinKeepsCrew(cfg, s.db, s.born, s.workers, s.runs, w);
    case Start(w, r) => StartKeepsCrew(cfg, s.db, s.born, s.workers, s.runs, w, r);
    case Drop(w) => DropKeepsCrew(cfg, s.db, s.born, s.workers, s.runs, w);
    case End(r) => EndKeepsCrew(cfg, s.db, s.born, s.workers, s.runs, r);
    case Throw(r, failure) => MoveKeepsCrew(cfg, s.db, s.born, s.workers, s.runs, r, s.runs[r].(phase := Failing(failure)));
  }

  /** Renewals and stages: the run writes what it owns and moves on. */
  lemma {:induction false} WorkStepKeeps(cfg: Config, s: State, step: Step)
    requires Inv(cfg, s) && Enabled(cfg, s, step) && (step.Open? || step.SetAudio? || step.Report? || step.Finalize?)
    ensures Inv(cfg, After(cfg, s, step))
  {
    hide Inv, Renewed;
    var r := step.run;
    var run := s.runs[r];
    match step
    case Open(_, lost) =>
      RenewKeeps(cfg, s, run.worker, run.job);
      RenewalIsQuiet(cfg, s, run.job, run.worker);
      ClaimOf(cfg, s, r);
      MoveKeeps(cfg, s.(db := Renewed(s.db, run.job, run.worker, s.now, cfg.lease)), r, run.(phase := Next(Held(s, run), lost, Working)));
    case SetAudio(_, path) => AudioKeeps(cfg, s, r, path);
    case Report(_, stage, lost) =>
      if stage != run.stage {
        StageKeeps(cfg, s, r,
          if Held(s, run) && lost.None? then run.(stage := stage) else run.(phase := Next(Held(s, run), lost, Working)), stage);
      }
    case Finalize(_, lost) =>
      StageKeeps(cfg, s, r,
        if Held(s, run) && lost.None? then run.(stage := Finalizing, phase := Closing)
        else run.(phase := Next(Held(s, run), lost, Closing)), Finalizing);
  }

  /** Clients, the claim, the heartbeat, purges, deliveries and the clock. */
  lemma {:induction false} StoreStepKeeps(cfg: Config, s: State, step: Step)
    requires Inv(cfg, s) && Enabled(cfg, s, step)
    requires step.Create? || step.Claim? || step.Renew? || step.Cancel? || step.Purge? || step.PurgeStats? || step.Deliver? || step.Tick?
    ensures Inv(cfg, After(cfg, s, step))
  {
    hide RecordsOk, CrewOk, Admits, Events, TaleOf, Settled, Purged, StatsPurged, Delivered, Renewed, ClaimedRow;
    match step
    case Create(j, client, webhook, audio, key, digest) =>
      if Admits(s.db, cfg.maxActive, cfg.maxPerClient, client, key) {
        CreateKeepsRecords(cfg, s.db, s.log, s.born, j, client, webhook, audio, key, digest, s.now);
        CreateKeepsCrew(cfg, s.db, s.born, s.workers, s.runs, j, NewRow(client, webhook, audio, key, digest, s.now));
      }
    case Claim(w, exclude, j) => ClaimKeeps(cfg, s, w, exclude, j);
    case Renew(w, j) => RenewKeeps(cfg, s, w, j);
    case Cancel(j, client) =>
      if Cancellable(s.db, j, client) {
        RowOf(cfg, s, j);
        SettleKeeps(cfg, s, j, CancelledRow(s.db.jobs[j], s.now), None, None);
      }
    case Purge(cutoff) =>
      PurgeKeepsRecords(cfg, s.db, s.log, s.born, cutoff);
      PurgeIsTame(s.db, cutoff);
      TameKeepsCrew(cfg, s.db, s.born, s.workers, s.runs, Purged(s.db, cutoff));
    case PurgeStats(cutoff) =>
      PurgeStatsKeepsRecords(cfg, s.db, s.log, s.born, cutoff);
      OtherTablesAreTame(s.db, cutoff, 0);
      TameKeepsCrew(cfg, s.db, s.born, s.workers, s.runs, StatsPurged(s.db, cutoff));
    case Deliver(at) =>
      DeliveryKeepsRecords(cfg, s.db, s.log, s.born, at);
      OtherTablesAreTame(s.db, 0.0, at);
      TameKeepsCrew(cfg, s.db, s.born, s.workers, s.runs, Delivered(s.db, at));
    case Tick(_) =>
  }

  lemma {:induction false} OtherTablesAreTame(db: Db, cutoff: real, at: nat)
    ensures Tame(db, StatsPurged(db, cutoff)) && Tame(db, Delivered(db, at))
  {
  }

  lemma {:induction false} PurgeIsTame(db: Db, cutoff: real)
    ensures Tame(db, Purged(db, cutoff))
  {
  }

  lemma {:induction false} ClaimKeeps(cfg: Config, s: State, worker: string, exclude: set<string>, j: string)
    requires Inv(cfg, s) && MayClaim(s, worker, exclude, j)
    ensures Inv(cfg, AfterClaim(cfg, s, worker, j))
  {
    hide RecordsOk, CrewOk, Events, TaleOf;
    Retained(cfg, s.db, s.log, s.born, j);
    UpdateKeepsRecords(cfg, s.db, s.log, s.born, j, ClaimedRow(s.db.jobs[j], worker, s.now, cfg.lease));
    ClaimKeepsCrew(cfg, s.db, s.born, s.workers, s.runs, worker, j, s.now);
  }

  lemma {:induction false} StepKeepsInv(cfg: Config, s: State, step: Step)
    requires Inv(cfg, s) && Enabled(cfg, s, step)
    ensures Inv(cfg, After(cfg, s, step))
  {
    hide Inv, AfterCreate, AfterClaim, AfterOpen, AfterSetAudio, AfterReport, AfterFinalize, AfterFinish, AfterRelease, AfterFail, AfterCancel,
      AfterStart, AfterEnd, Renewed, Purged, StatsPurged, Delivered, MayClaim;
    match step
    case Finish(r, result, lost) => FinishKeeps(cfg, s, r, result, lost);
    case Release(r, raised) => ReleaseKeeps(cfg, s, r, raised);
    case Fail(r, error) => FailKeeps(cfg, s, r, error);
    case Open(_, _) | SetAudio(_, _) | Report(_, _, _) | Finalize(_, _) => WorkStepKeeps(cfg, s, step);
    case Join(_) | Start(_, _) | Drop(_) | End(_) | Throw(_, _) => CrewStepKeeps(cfg, s, step);
    case Create(_, _, _, _, _, _) | Claim(_, _, _) | Renew(_, _) | Cancel(_, _) | Purge(_) | PurgeStats(_) | Deliver(_) | Tick(_) =>
      StoreStepKeeps(cfg, s, step);
  }

  lemma {:induction false} InitInv(cfg: Config)
    ensures Inv(cfg, Init)
  {
  }

  lemma {:induction false} PathKeepsInv(cfg: Config, trace: seq<State>, steps: seq<Step>, i: int)
    requires Path(cfg, trace, steps) && Inv(cfg, trace[0]) && 0 <= i <= |steps|
    ensures Inv(cfg, trace[i])
  {
    hide Inv, Enabled, After;
    if i > 0 {
      PathKeepsInv(cfg, trace, steps, i - 1);
      assert StepAt(cfg, trace, steps, i - 1);
      StepKeepsInv(cfg, trace[i - 1], steps[i - 1]);
    }
  }

  /** The invariant holds in every reachable state. */
  lemma {:induction false} AlwaysInv(cfg: Config, s: State)
    requires Reachable(cfg, s)
    ensures Inv(cfg, s)
  {
    hide Inv, StepAt;
    InitInv(cfg);
    var trace, steps :| Path(cfg, trace, steps) && trace[0] == Init && trace[|steps|] == s;
    PathKeepsInv(cfg, trace, steps, |steps|);
  }
}
