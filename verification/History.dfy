/** What never changes of a job over a run of the system: who it belongs to, how it was asked for and,
    once it is terminal, anything but the path of its audio and the time of its last update; and that a
    job that is gone does not come back. Proved of every update of src/vemsa/jobs/postgres_store.py,
    then of every step, then of every run. A few facts about runs and finite maps on the way. Runs
    follow one another, so what is reachable from a reachable state is reachable. */
module History {
  import opened Base
  import opened Tables
  import opened Protocol
  import opened Records

  /** What no step changes of a job: who it belongs to and how it was asked for; once terminal, anything
      but the two columns a late fetch writes. */
  ghost predicate Keeps(db: Db, db': Db, j: string) {
    j in db'.jobs ==>
      j in db.jobs && SameIdentity(db'.jobs[j], db.jobs[j]) && (Terminal(db.jobs[j]) ==> SameButAudio(db'.jobs[j], db.jobs[j]))
  }

  /** What every step but such a fetch leaves: once terminal, everything. */
  ghost predicate Leaves(db: Db, db': Db, j: string) {
    j in db'.jobs ==>
      j in db.jobs && SameIdentity(db'.jobs[j], db.jobs[j]) && (Terminal(db.jobs[j]) ==> db'.jobs[j] == db.jobs[j])
  }

  /** Any table change that rewrites one active row under its own identity. */
  lemma {:induction false} RewriteLeaves(db: Db, i: string, row: Row, db': Db, j: string)
    requires i in db.jobs && Active(db.jobs[i]) && SameIdentity(row, db.jobs[i]) && db'.jobs == db.jobs[i := row]
    ensures Leaves(db, db', j)
  {
  }

  lemma {:induction false} NoChangeLeaves(db: Db, j: string)
    ensures Leaves(db, db, j)
  {
  }

  lemma {:induction false} UpdatesLeave(cfg: Config, s: State, run: Run, j: string, stage: Stage)
    ensures Leaves(s.db, Renewed(s.db, run.job, run.worker, s.now, cfg.lease), j)
    ensures Leaves(s.db, Staged(s.db, run.job, run.worker, stage, s.now), j)
    ensures Leaves(s.db, Released(s.db, run.job, run.worker, s.now, cfg.oomDelay), j)
  {
    hide Leaves;
    NoChangeLeaves(s.db, j);
    if Owns(s.db, run.job, run.worker) {
      var row := s.db.jobs[run.job];
      RewriteLeaves(s.db, run.job, RenewedRow(row, s.now, cfg.lease), Renewed(s.db, run.job, run.worker, s.now, cfg.lease), j);
      RewriteLeaves(s.db, run.job, StagedRow(row, stage, s.now), Staged(s.db, run.job, run.worker, stage, s.now), j);
      RewriteLeaves(s.db, run.job, ReleasedRow(row, s.now, cfg.oomDelay), Released(s.db, run.job, run.worker, s.now, cfg.oomDelay), j);
    }
  }

  lemma {:induction false} OutcomesLeave(s: State, run: Run, j: string, text: string, kind: FailureKind, url: Option<string>)
    ensures Leaves(s.db, Finished(s.db, run.job, run.worker, text, url, s.now), j)
    ensures Leaves(s.db, FailedWith(s.db, run.job, run.worker, text, kind, url, s.now), j)
  {
    hide Leaves;
    NoChangeLeaves(s.db, j);
    if Owns(s.db, run.job, run.worker) {
      var row := s.db.jobs[run.job];
      RewriteLeaves(s.db, run.job, FinishedRow(row, text, s.now), Finished(s.db, run.job, run.worker, text, url, s.now), j);
      RewriteLeaves(s.db, run.job, FailedRow(row, text, kind, s.now), FailedWith(s.db, run.job, run.worker, text, kind, url, s.now), j);
    }
  }

  /** One step that is no fetch: a row keeps its identity, and once terminal stays as it is or is purged; a
      job that is gone does not come back. */
  lemma {:induction false} StepLeaves(cfg: Config, s: State, step: Step, j: string)
    requires Enabled(cfg, s, step) && j in s.born && !step.SetAudio?
    ensures j in After(cfg, s, step).born && Leaves(s.db, After(cfg, s, step).db, j)
  {
    hide Leaves, AfterCreate, AfterClaim, AfterCancel, Purged;
    NoChangeLeaves(s.db, j);
    match step
    case Join(_) | Start(_, _) | Drop(_) | Throw(_, _) | End(_) | PurgeStats(_) | Deliver(_) | Tick(_) =>
      NoRowLeaves(s.db, After(cfg, s, step).db, j);
    case Create(_, _, _, _, _, _) | Claim(_, _, _) | Cancel(_, _) | Purge(_) => StoreStepLeaves(cfg, s, step, j);
    case Renew(_, _) | Open(_, _) | Report(_, _, _) | Finalize(_, _) | Finish(_, _, _) | Release(_, _) | Fail(_, _) =>
      RunStepLeaves(cfg, s, step, j);
  }

  lemma {:induction false} NoRowLeaves(db: Db, db': Db, j: string)
    requires db'.jobs == db.jobs
    ensures Leaves(db, db', j)
  {
  }

  lemma {:induction false} StoreStepLeaves(cfg: Config, s: State, step: Step, j: string)
    requires Enabled(cfg, s, step) && j in s.born && (step.Create? || step.Claim? || step.Cancel? || step.Purge?)
    ensures j in After(cfg, s, step).born && Leaves(s.db, After(cfg, s, step).db, j)
  {
    hide Admits;
  }

  lemma {:induction false} RunStepLeaves(cfg: Config, s: State, step: Step, j: string)
    requires Enabled(cfg, s, step) && j in s.born
    requires step.Renew? || step.Open? || step.Report? || step.Finalize? || step.Finish? || step.Release? || step.Fail?
    ensures j in After(cfg, s, step).born && Leaves(s.db, After(cfg, s, step).db, j)
  {
    hide Renewed, Staged, Released, Finished, FailedWith, Leaves, Settlement;
    NoChangeLeaves(s.db, j);
    match step
    case Renew(w, i) => UpdatesLeave(cfg, s, Run(w, i, 0, None, None, Waiting, Done), j, Waiting);
    case Open(r, _) => UpdatesLeave(cfg, s, s.runs[r], j, Waiting);
    case Report(r, stage, _) => UpdatesLeave(cfg, s, s.runs[r], j, stage);
    case Finalize(r, _) => UpdatesLeave(cfg, s, s.runs[r], j, Finalizing);
    case Release(r, _) => UpdatesLeave(cfg, s, s.runs[r], j, Waiting);
    case Finish(r, result, _) => OutcomesLeave(s, s.runs[r], j, result, Internal, s.runs[r].webhook);
    case Fail(r, error) => OutcomesLeave(s, s.runs[r], j, error, KindOf(s.runs[r].phase.failure), s.runs[r].webhook);
  }

  lemma {:induction false} AudioKeepsRow(db: Db, i: string, path: string, now: real, j: string)
    ensures Keeps(db, WithAudio(db, i, path, now), j)
  {
  }

  /** One step: only a late fetch ever touches a terminal row, and of it only the path and the time. */
  lemma {:induction false} StepKeeps(cfg: Config, s: State, step: Step, j: string)
    requires Enabled(cfg, s, step) && j in s.born
    ensures j in After(cfg, s, step).born && Keeps(s.db, After(cfg, s, step).db, j)
  {
    if step.SetAudio? {
      AudioKeepsRow(s.db, s.runs[step.run].job, step.path, s.now, j);
    } else {
      hide Enabled, After;
      StepLeaves(cfg, s, step, j);
    }
  }

  lemma {:induction false} PathKeeps(cfg: Config, trace: seq<State>, steps: seq<Step>, i: int, j: string)
    requires Path(cfg, trace, steps) && j in trace[0].born && 0 <= i <= |steps|
    ensures j in trace[i].born && Keeps(trace[0].db, trace[i].db, j)
  {
    hide Enabled, After;
    if i > 0 {
      PathKeeps(cfg, trace, steps, i - 1, j);
      assert StepAt(cfg, trace, steps, i - 1);
      StepKeeps(cfg, trace[i - 1], steps[i - 1], j);
    }
  }

  lemma {:induction false} LaterKeeps(cfg: Config, s: State, s': State, j: string)
    requires Leads(cfg, s, s') && j in s.born
    ensures j in s'.born && Keeps(s.db, s'.db, j)
  {
    hide StepAt;
    var trace, steps :| Path(cfg, trace, steps) && trace[0] == s && trace[|steps|] == s';
    PathKeeps(cfg, trace, steps, |steps|, j);
  }

  lemma {:induction false} OneStepOn(cfg: Config, s: State, step: Step)
    requires Enabled(cfg, s, step)
    ensures Leads(cfg, s, After(cfg, s, step))
  {
    hide Enabled, After;
    assert StepAt(cfg, [s, After(cfg, s, step)], [step], 0);
    assert Path(cfg, [s, After(cfg, s, step)], [step]);
  }

  /** Runs follow one another. */
  lemma {:induction false} LeadsOn(cfg: Config, a: State, b: State, c: State)
    requires Leads(cfg, a, b) && Leads(cfg, b, c)
    ensures Leads(cfg, a, c)
  {
    hide Enabled, After;
    var first, steps :| Path(cfg, first, steps) && first[0] == a && first[|steps|] == b;
    var second, more :| Path(cfg, second, more) && second[0] == b && second[|more|] == c;
    var trace := first + second[1..];
    forall i | 0 <= i < |steps + more| ensures StepAt(cfg, trace, steps + more, i) {
      assert i < |steps| ==> StepAt(cfg, first, steps, i);
      assert i >= |steps| ==> StepAt(cfg, second, more, i - |steps|);
    }
    assert Path(cfg, trace, steps + more);
  }

  lemma {:induction false} FewerValues(m: map<string, nat>, values: set<nat>)
    requires values <= m.Values
    ensures |values| <= |m|
    decreases |m|
  {
    if values != {} {
      var v :| v in values;
      var j :| j in m && m[j] == v;
      forall x | x in values - {v} ensures x in (m - {j}).Values {
        var k :| k in m && m[k] == x;
        assert k in m - {j};
      }
      FewerValues(m - {j}, values - {v});
    }
  }
}
