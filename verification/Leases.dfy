/** How long a lease and a cooldown of src/vemsa/jobs/queue.py last. */
module Leases {
  import opened Base
  import opened Tables
  import opened Protocol

  /** The step gives worker w the lease of job j, or extends the one it has: a claim, a run's first renewal,
      or a heartbeat. */
  ghost predicate Extends(s: State, step: Step, j: string, w: string) {
    || (step.Claim? && step.worker == w && step.job == j)
    || (step.Renew? && step.worker == w && step.job == j && Owns(s.db, j, w))
    || (step.Open? && step.run in s.runs && s.runs[step.run].worker == w && s.runs[step.run].job == j && Owns(s.db, j, w))
  }

  // ---- what the row keeps of it

  ghost predicate LeasedFor(db: Db, j: string, w: string, until: real) {
    Owns(db, j, w) && db.jobs[j].leaseEnd.Some? && db.jobs[j].leaseEnd.value >= until
  }

  lemma {:induction false} LeaseGiven(cfg: Config, s: State, step: Step, j: string, w: string)
    requires Enabled(cfg, s, step) && Extends(s, step, j, w)
    ensures var after := After(cfg, s, step);
      LeasedFor(after.db, j, w, s.now + cfg.lease) && after.db.jobs[j].leaseEnd == Some(s.now + cfg.lease) && after.now == s.now
  {
    hide Oldest;
  }

  /** Whatever happens while w owns the row, the lease does not get shorter, and only an extension changes it. */
  lemma {:induction false} LeaseKept(cfg: Config, s: State, step: Step, j: string, w: string, from: real)
    requires Enabled(cfg, s, step) && LeasedFor(s.db, j, w, from + cfg.lease) && from <= s.now
    requires Owns(After(cfg, s, step).db, j, w)
    ensures LeasedFor(After(cfg, s, step).db, j, w, from + cfg.lease) && from <= After(cfg, s, step).now
    ensures !Extends(s, step, j, w) ==> After(cfg, s, step).db.jobs[j].leaseEnd == s.db.jobs[j].leaseEnd
  {
    hide Oldest, Admits;
  }

  // ---- the promise: nobody claims a job whose lease runs

  ghost predicate HeldOn(trace: seq<State>, i: int, j: string, w: string)
    requires i < |trace|
  {
    forall k :: 0 < k <= i ==> Owns(trace[k].db, j, w)
  }

  lemma {:induction false} LeaseOnPath(cfg: Config, trace: seq<State>, steps: seq<Step>, i: int, j: string, w: string)
    requires Path(cfg, trace, steps) && 0 < i <= |steps| && Extends(trace[0], steps[0], j, w) && HeldOn(trace, i, j, w)
    ensures LeasedFor(trace[i].db, j, w, trace[0].now + cfg.lease) && trace[0].now <= trace[i].now
  {
    hide Enabled, After, Extends, Owns, LeasedFor;
    assert StepAt(cfg, trace, steps, i - 1);
    if i == 1 {
      LeaseGiven(cfg, trace[0], steps[0], j, w);
      assert LeasedFor(trace[1].db, j, w, trace[0].now + cfg.lease);
    } else {
      LeaseOnPath(cfg, trace, steps, i - 1, j, w);
      LeaseKept(cfg, trace[i - 1], steps[i - 1], j, w, trace[0].now);
    }
  }

  /** Within the lease after a claim, a first renewal or a heartbeat, nobody can claim the job for as long as
      the worker holds it. */
  lemma {:induction false} NoClaimWithinTheLease(cfg: Config, trace: seq<State>, steps: seq<Step>, i: int, j: string, w: string,
                                                 v: string, exclude: set<string>)
    requires Path(cfg, trace, steps) && 0 < i <= |steps| && Extends(trace[0], steps[0], j, w) && HeldOn(trace, i, j, w)
    requires trace[i].now <= trace[0].now + cfg.lease
    ensures !Enabled(cfg, trace[i], Claim(v, exclude, j))
  {
    hide Extends, After, StepAt;
    LeaseOnPath(cfg, trace, steps, i, j, w);
  }

  /** A worker with a free slot that has nothing else left to claim. */
  ghost predicate Idle(s: State, v: string, exclude: set<string>, j: string) {
    && v in s.workers && s.workers[v].pending.None? && s.workers[v].slots > 0 && s.workers[v].active.Keys <= exclude
    && j !in exclude && forall k :: k in s.db.jobs && k != j ==> k in exclude
  }

  ghost predicate NotExtended(trace: seq<State>, steps: seq<Step>, i: int, j: string, w: string)
    requires i <= |steps| && i <= |trace|
  {
    forall k :: 0 < k < i ==> !Extends(trace[k], steps[k], j, w)
  }

  lemma {:induction false} LeaseUnchanged(cfg: Config, trace: seq<State>, steps: seq<Step>, i: int, j: string, w: string)
    requires Path(cfg, trace, steps) && 0 < i <= |steps| && Extends(trace[0], steps[0], j, w) && HeldOn(trace, i, j, w)
    requires NotExtended(trace, steps, i, j, w)
    ensures j in trace[i].db.jobs && trace[i].db.jobs[j].leaseEnd == Some(trace[0].now + cfg.lease)
  {
    hide Enabled, After, Extends;
    assert StepAt(cfg, trace, steps, i - 1);
    if i == 1 {
      LeaseGiven(cfg, trace[0], steps[0], j, w);
    } else {
      LeaseUnchanged(cfg, trace, steps, i - 1, j, w);
      LeaseOnPath(cfg, trace, steps, i - 1, j, w);
      LeaseKept(cfg, trace[i - 1], steps[i - 1], j, w, trace[0].now);
    }
  }

  /** Without a renewal the lease is over right after that: a worker with nothing else to claim gets the job
      exactly when the lease has passed. */
  lemma {:induction false} LapsesAfterTheLease(cfg: Config, trace: seq<State>, steps: seq<Step>, i: int, j: string, w: string,
                                               v: string, exclude: set<string>)
    requires Path(cfg, trace, steps) && 0 < i <= |steps| && Extends(trace[0], steps[0], j, w) && HeldOn(trace, i, j, w)
    requires NotExtended(trace, steps, i, j, w) && Idle(trace[i], v, exclude, j)
    ensures Enabled(cfg, trace[i], Claim(v, exclude, j)) <==> trace[i].now > trace[0].now + cfg.lease
  {
    hide Extends, After, StepAt;
    LeaseUnchanged(cfg, trace, steps, i, j, w);
  }

  // ---- the cooldown of a released job

  /** The job waits until a time, or came to its outcome meanwhile. */
  ghost predicate Cooling(s: State, j: string, until: real) {
    && j in s.born
    && (j in s.db.jobs ==>
      Terminal(s.db.jobs[j]) || (s.db.jobs[j].status == Queued && s.db.jobs[j].retryAfter == Some(until)))
  }

  lemma {:induction false} Cooled(cfg: Config, s: State, step: Step, j: string)
    requires Enabled(cfg, s, step) && step.Release? && s.runs[step.run].job == j && Held(s, s.runs[step.run]) && j in s.born
    ensures Cooling(After(cfg, s, step), j, s.now + cfg.oomDelay) && After(cfg, s, step).now == s.now
  {
  }

  lemma {:induction false} CoolingKept(cfg: Config, s: State, step: Step, j: string, until: real)
    requires Enabled(cfg, s, step) && Cooling(s, j, until) && s.now < until
    ensures Cooling(After(cfg, s, step), j, until) && s.now <= After(cfg, s, step).now
  {
    hide Admits;
  }

  lemma {:induction false} CoolingOnPath(cfg: Config, trace: seq<State>, steps: seq<Step>, i: int, j: string)
    requires Path(cfg, trace, steps) && 0 < i <= |steps| && j in trace[0].born
    requires steps[0].Release? && steps[0].run in trace[0].runs && trace[0].runs[steps[0].run].job == j
    requires Held(trace[0], trace[0].runs[steps[0].run])
    ensures trace[i - 1].now <= trace[i].now
    ensures trace[i - 1].now < trace[0].now + cfg.oomDelay || i == 1 ==> Cooling(trace[i], j, trace[0].now + cfg.oomDelay)
  {
    hide Enabled, After, Held, Cooling;
    assert StepAt(cfg, trace, steps, i - 1);
    if i == 1 {
      Cooled(cfg, trace[0], steps[0], j);
    } else {
      CoolingOnPath(cfg, trace, steps, i - 1, j);
      TimePasses(cfg, trace[i - 1], steps[i - 1]);
      if trace[i - 1].now < trace[0].now + cfg.oomDelay {
        CoolingKept(cfg, trace[i - 1], steps[i - 1], j, trace[0].now + cfg.oomDelay);
      }
    }
  }

  lemma {:induction false} TimePasses(cfg: Config, s: State, step: Step)
    requires Enabled(cfg, s, step)
    ensures s.now <= After(cfg, s, step).now
  {
    hide Admits, Oldest;
  }

  /** A job released for a retry is claimed by nobody before its cooldown is over. */
  lemma {:induction false} NoClaimDuringTheCooldown(cfg: Config, trace: seq<State>, steps: seq<Step>, i: int, j: string,
                                                    v: string, exclude: set<string>)
    requires Path(cfg, trace, steps) && 0 < i <= |steps| && j in trace[0].born
    requires steps[0].Release? && steps[0].run in trace[0].runs && trace[0].runs[steps[0].run].job == j
    requires Held(trace[0], trace[0].runs[steps[0].run])
    requires trace[i].now < trace[0].now + cfg.oomDelay
    ensures !Enabled(cfg, trace[i], Claim(v, exclude, j))
  {
    hide After, StepAt, Held;
    CoolingOnPath(cfg, trace, steps, i, j);
  }

  /** Once it is over, and the job still waits, a worker with nothing else to claim gets it. */
  lemma {:induction false} ClaimedAfterTheCooldown(cfg: Config, s: State, step: Step, later: State, v: string, exclude: set<string>)
    requires Enabled(cfg, s, step) && step.Release? && Held(s, s.runs[step.run]) && s.runs[step.run].job in s.born
    requires var j := s.runs[step.run].job;
      && j in later.db.jobs && later.db.jobs[j] == After(cfg, s, step).db.jobs[j]
      && later.now >= s.now + cfg.oomDelay && Idle(later, v, exclude, j)
    ensures Enabled(cfg, later, Claim(v, exclude, s.runs[step.run].job))
  {
    Cooled(cfg, s, step, s.runs[step.run].job);
  }

  // ---- a new job

  /** What an admitted request leaves in the tables, and that it waits for nothing. */
  lemma {:induction false} CreateStoresTheRequest(cfg: Config, s: State, step: Step, v: string, exclude: set<string>)
    requires Enabled(cfg, s, step) && step.Create? && Admits(s.db, cfg.maxActive, cfg.maxPerClient, step.client, step.key)
    ensures var s', j := After(cfg, s, step), step.job;
      && s'.db.jobs.Keys == s.db.jobs.Keys + {j} && (forall k :: k in s.db.jobs && k != j ==> s'.db.jobs[k] == s.db.jobs[k])
      && s'.db.stats == s.db.stats && s'.db.outbox == s.db.outbox && s'.log == s.log
      && var row := s'.db.jobs[j];
      && row.client == step.client && row.webhook == step.webhook && row.audio == step.audio
      && row.key == step.key && row.digest == step.digest && row.created == s.now && row.updated == s.now
      && row.status == Queued && row.stage == Waiting && row.attempt == 0
      && row.owner.None? && row.result.None? && row.error.None? && row.failure.None? && row.started.None?
      && (Idle(s', v, exclude, j) ==> Enabled(cfg, s', Claim(v, exclude, j)))
  {
    hide Admits;
  }
}
