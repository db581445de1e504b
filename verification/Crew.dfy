/** What holds of the workers of src/vemsa/jobs/queue.py in every interleaving: who runs what, and for
    which attempt. There is no fencing token; the owner guards and the excluded active set do it. The
    roster says that the active map lists exactly the worker's runs, one for a job, and that slots and
    runs add up. The claims say that whoever still owns a row claimed the row's attempt and, until it
    fails, has it at its own stage, which is the last one when it closes, and that a run that is done
    owns nothing. A change of the tables touches the claims only, a change of the crew mostly the
    roster. */
module Crew {
  import opened Base
  import opened Tables
  import opened Protocol

  // ---- claims: what a worker knows of the jobs it took

  /** A claim kept by a worker: while it owns the row, the row is still at the claimed attempt. */
  ghost predicate Fence(db: Db, born: set<string>, worker: string, job: string, attempt: nat, webhook: Option<string>) {
    && job in born
    && (job in db.jobs ==> db.jobs[job].webhook == webhook)
    && (Owns(db, job, worker) ==> db.jobs[job].attempt == attempt)
  }

  /** The run's own stage is the one last written. */
  predicate Current(run: Run) {
    run.phase == Opening || run.phase == Working || run.phase == Closing
  }

  /** What a phase says while its worker owns the row: the row is at the run's stage until the run fails,
      at the last one when it closes; done, the worker does not own it any more. */
  ghost predicate PhaseOk(db: Db, run: Run) {
    Owns(db, run.job, run.worker) ==>
      && run.phase != Done && (Current(run) ==> db.jobs[run.job].stage == run.stage)
      && (run.phase == Closing ==> run.stage == Finalizing)
  }

  ghost predicate RunClaim(db: Db, born: set<string>, run: Run) {
    Fence(db, born, run.worker, run.job, run.attempt, run.webhook) && PhaseOk(db, run)
  }

  ghost predicate TicketClaim(db: Db, born: set<string>, w: string, pending: Option<Ticket>) {
    pending.Some? ==>
      && Fence(db, born, w, pending.value.job, pending.value.attempt, pending.value.webhook)
      && (Owns(db, pending.value.job, w) ==> db.jobs[pending.value.job].stage == pending.value.stage)
  }

  ghost predicate ClaimsOk(db: Db, born: set<string>, workers: map<string, Worker>, runs: map<nat, Run>) {
    && (forall r :: r in runs ==> RunClaim(db, born, runs[r]))
    && (forall w :: w in workers ==> TicketClaim(db, born, w, workers[w].pending))
  }

  // ---- the roster: `_active` and `_slots`

  ghost predicate Listed(workers: map<string, Worker>, r: nat, run: Run) {
    run.worker in workers && run.job in workers[run.worker].active && workers[run.worker].active[run.job] == r
  }

  ghost predicate Entry(runs: map<nat, Run>, w: string, j: string, r: nat) {
    r in runs && runs[r].worker == w && runs[r].job == j
  }

  ghost predicate WorkerOk(cfg: Config, runs: map<nat, Run>, w: string, crew: Worker) {
    && crew.slots + |crew.active| == cfg.concurrency
    && (forall j :: j in crew.active ==> Entry(runs, w, j, crew.active[j]))
    && (crew.pending.Some? ==> crew.slots > 0 && crew.pending.value.job !in crew.active)
  }

  ghost predicate RosterOk(cfg: Config, workers: map<string, Worker>, runs: map<nat, Run>) {
    && (forall r :: r in runs ==> Listed(workers, r, runs[r]))
    && (forall w :: w in workers ==> WorkerOk(cfg, runs, w, workers[w]))
  }

  ghost predicate CrewOk(cfg: Config, db: Db, born: set<string>, workers: map<string, Worker>, runs: map<nat, Run>) {
    RosterOk(cfg, workers, runs) && ClaimsOk(db, born, workers, runs)
  }

  /** No worker runs a job twice. */
  lemma {:induction false} OneRunPerJob(cfg: Config, workers: map<string, Worker>, runs: map<nat, Run>, q: nat, r: nat)
    requires RosterOk(cfg, workers, runs) && q in runs && r in runs
    requires runs[q].worker == runs[r].worker && runs[q].job == runs[r].job
    ensures q == r
  {
    assert Listed(workers, q, runs[q]) && Listed(workers, r, runs[r]);
  }

  // ---- taking the invariant apart and putting it together

  lemma {:induction false} RunListed(cfg: Config, workers: map<string, Worker>, runs: map<nat, Run>, r: nat)
    requires RosterOk(cfg, workers, runs) && r in runs
    ensures Listed(workers, r, runs[r])
  {
  }

  lemma {:induction false} CrewListed(cfg: Config, workers: map<string, Worker>, runs: map<nat, Run>, w: string)
    requires RosterOk(cfg, workers, runs) && w in workers
    ensures WorkerOk(cfg, runs, w, workers[w])
  {
  }

  lemma {:induction false} MakeRoster(cfg: Config, workers: map<string, Worker>, runs: map<nat, Run>)
    requires forall r :: r in runs ==> Listed(workers, r, runs[r])
    requires forall w :: w in workers ==> WorkerOk(cfg, runs, w, workers[w])
    ensures RosterOk(cfg, workers, runs)
  {
  }

  // ---- changes of the tables

  /** A change of the tables that gives nobody a row, a new attempt or a new stage. */
  ghost predicate Tame(db: Db, db': Db) {
    && (forall j :: j in db'.jobs ==> j in db.jobs && db'.jobs[j].webhook == db.jobs[j].webhook)
    && (forall j, w :: Owns(db', j, w) ==>
      Owns(db, j, w) && db'.jobs[j].attempt == db.jobs[j].attempt && db'.jobs[j].stage == db.jobs[j].stage)
  }

  lemma {:induction false} TameKeepsCrew(cfg: Config, db: Db, born: set<string>, workers: map<string, Worker>, runs: map<nat, Run>, db': Db)
    requires CrewOk(cfg, db, born, workers, runs) && Tame(db, db')
    ensures CrewOk(cfg, db', born, workers, runs)
  {
    hide Owns, RosterOk;
    forall r | r in runs ensures RunClaim(db', born, runs[r]) {
      assert RunClaim(db, born, runs[r]);
    }
    forall w | w in workers ensures TicketClaim(db', born, w, workers[w].pending) {
      assert TicketClaim(db, born, w, workers[w].pending);
    }
  }

  lemma {:induction false} CreateKeepsCrew(cfg: Config, db: Db, born: set<string>, workers: map<string, Worker>, runs: map<nat, Run>, j: string, row: Row)
    requires CrewOk(cfg, db, born, workers, runs) && j !in born && row.status == Queued
    ensures CrewOk(cfg, Put(db, j, row), born + {j}, workers, runs)
  {
    hide RosterOk;
    var db' := Put(db, j, row);
    forall r | r in runs ensures RunClaim(db', born + {j}, runs[r]) {
      assert RunClaim(db, born, runs[r]);
    }
    forall w | w in workers ensures TicketClaim(db', born + {j}, w, workers[w].pending) {
      assert TicketClaim(db, born, w, workers[w].pending);
    }
  }

  /** A run writes its stage and keeps in step with it. No other run and no pending claim has its row
      rewritten, for it is another worker's or of another job. */
  lemma {:induction false} StageKeepsCrew(cfg: Config, db: Db, born: set<string>, workers: map<string, Worker>, runs: map<nat, Run>,
                        r: nat, run: Run, stage: Stage, now: real)
    requires CrewOk(cfg, db, born, workers, runs) && r in runs && SameClaim(run, runs[r])
    requires PhaseOk(Staged(db, run.job, run.worker, stage, now), run)
    ensures CrewOk(cfg, Staged(db, run.job, run.worker, stage, now), born, workers, runs[r := run])
  {
    hide RosterOk, Owns;
    var db' := Staged(db, run.job, run.worker, stage, now);
    MoveKeepsRoster(cfg, workers, runs, r, run);
    assert RunClaim(db, born, runs[r]);
    StageTouchesOne(db, run.job, run.worker, stage, now);
    forall q | q in runs && q != r ensures RunClaim(db', born, runs[q]) {
      assert RunClaim(db, born, runs[q]);
      if runs[q].worker == run.worker && runs[q].job == run.job {
        OneRunPerJob(cfg, workers, runs, q, r);
      }
    }
    forall w | w in workers ensures TicketClaim(db', born, w, workers[w].pending) {
      assert TicketClaim(db, born, w, workers[w].pending);
      if w == run.worker && workers[w].pending.Some? {
        PendingIsNew(cfg, workers, runs, w, r);
      }
    }
  }

  /** The claimed job has no run of its worker yet. */
  lemma {:induction false} PendingIsNew(cfg: Config, workers: map<string, Worker>, runs: map<nat, Run>, w: string, r: nat)
    requires RosterOk(cfg, workers, runs) && w in workers && workers[w].pending.Some? && r in runs
    ensures Listed(workers, r, runs[r]) && (runs[r].worker == w ==> runs[r].job != workers[w].pending.value.job)
  {
    assert Listed(workers, r, runs[r]) && WorkerOk(cfg, runs, w, workers[w]);
  }

  /** Who else owns a row, and at which attempt and stage, is as it was. */
  lemma {:induction false} StageTouchesOne(db: Db, j: string, w: string, stage: Stage, now: real)
    ensures var db' := Staged(db, j, w, stage, now);
      && (forall i :: i in db'.jobs <==> i in db.jobs)
      && (forall i :: i in db.jobs ==> db'.jobs[i].webhook == db.jobs[i].webhook && db'.jobs[i].attempt == db.jobs[i].attempt)
      && (forall i, v :: Owns(db', i, v) <==> Owns(db, i, v))
      && (forall i, v :: Owns(db, i, v) && (i != j || v != w) ==> db'.jobs[i].stage == db.jobs[i].stage)
  {
  }

  // ---- changes of the crew

  predicate SameClaim(a: Run, b: Run) {
    a.worker == b.worker && a.job == b.job && a.attempt == b.attempt && a.webhook == b.webhook
  }

  /** A run moves on: same claim, and a phase the tables bear out. */
  lemma {:induction false} MoveKeepsCrew(cfg: Config, db: Db, born: set<string>, workers: map<string, Worker>, runs: map<nat, Run>, r: nat, run: Run)
    requires CrewOk(cfg, db, born, workers, runs) && r in runs && SameClaim(run, runs[r]) && PhaseOk(db, run)
    ensures CrewOk(cfg, db, born, workers, runs[r := run])
  {
    hide Owns, RosterOk;
    assert RunClaim(db, born, runs[r]);
    MoveKeepsRoster(cfg, workers, runs, r, run);
    var runs' := runs[r := run];
    forall q | q in runs' && q != r ensures RunClaim(db, born, runs'[q]) {
      assert RunClaim(db, born, runs[q]);
    }
  }

  lemma {:induction false} MoveKeepsRoster(cfg: Config, workers: map<string, Worker>, runs: map<nat, Run>, r: nat, run: Run)
    requires RosterOk(cfg, workers, runs) && r in runs && run.worker == runs[r].worker && run.job == runs[r].job
    ensures RosterOk(cfg, workers, runs[r := run])
  {
    hide RosterOk;
    var runs' := runs[r := run];
    forall q | q in runs' ensures Listed(workers, q, runs'[q]) {
      RunListed(cfg, workers, runs, q);
    }
    hide Listed;
    forall w | w in workers ensures WorkerOk(cfg, runs', w, workers[w]) {
      CrewListed(cfg, workers, runs, w);
      assert forall j :: j in workers[w].active ==> Entry(runs, w, j, workers[w].active[j]);
    }
    MakeRoster(cfg, workers, runs');
  }

  /** A claim takes the row from whoever held it; its own worker has no run of the job, since the
      active jobs were excluded. */
  lemma {:induction false} ClaimKeepsCrew(cfg: Config, db: Db, born: set<string>, workers: map<string, Worker>, runs: map<nat, Run>,
                        w: string, j: string, now: real)
    requires CrewOk(cfg, db, born, workers, runs) && w in workers && j in db.jobs && j in born
    requires workers[w].pending.None? && workers[w].slots > 0 && j !in workers[w].active
    ensures var db' := Claimed(db, j, w, now, cfg.lease);
      CrewOk(cfg, db', born, workers[w := workers[w].(pending := Some(TicketOf(j, db'.jobs[j])))], runs)
  {
    hide RosterOk, Owns, Claimed, RunClaim, TicketClaim;
    var db' := Claimed(db, j, w, now, cfg.lease);
    ClaimTouchesOne(db, j, w, now, cfg.lease);
    var ticket := Some(TicketOf(j, db'.jobs[j]));
    PendingKeepsRoster(cfg, workers, runs, w, ticket);
    forall r | r in runs ensures RunClaim(db', born, runs[r]) {
      RunListed(cfg, workers, runs, r);
      ClaimPasses(db, db', born, w, j, runs[r]);
    }
    forall v | v in workers && v != w ensures TicketClaim(db', born, v, workers[v].pending) {
      ClaimPassesTicket(db, db', born, w, j, v, workers[v].pending);
    }
    assert TicketClaim(db', born, w, ticket) by {
      TicketIsNew(db', born, w, j);
    }
  }

  /** After a claim of j by w the row is w's and nobody else's; the other rows are as they were. */
  ghost predicate Takes(db: Db, db': Db, w: string, j: string) {
    && (forall i :: i in db'.jobs <==> i in db.jobs) && (forall i :: i in db.jobs ==> db'.jobs[i].webhook == db.jobs[i].webhook)
    && (forall v :: Owns(db', j, v) <==> v == w)
    && (forall i, v :: Owns(db', i, v) && i != j ==> Owns(db, i, v) && db'.jobs[i] == db.jobs[i])
  }

  lemma {:induction false} ClaimTouchesOne(db: Db, j: string, w: string, now: real, lease: real)
    requires j in db.jobs
    ensures j in Claimed(db, j, w, now, lease).jobs && Takes(db, Claimed(db, j, w, now, lease), w, j)
  {
  }

  lemma {:induction false} ClaimPasses(db: Db, db': Db, born: set<string>, w: string, j: string, run: Run)
    requires RunClaim(db, born, run) && Takes(db, db', w, j) && (run.worker == w ==> run.job != j)
    ensures RunClaim(db', born, run)
  {
    hide Owns;
  }

  lemma {:induction false} ClaimPassesTicket(db: Db, db': Db, born: set<string>, w: string, j: string, v: string, pending: Option<Ticket>)
    requires TicketClaim(db, born, v, pending) && Takes(db, db', w, j) && v != w
    ensures TicketClaim(db', born, v, pending)
  {
    hide Owns;
  }

  lemma {:induction false} TicketIsNew(db: Db, born: set<string>, w: string, j: string)
    requires j in db.jobs && j in born
    ensures TicketClaim(db, born, w, Some(TicketOf(j, db.jobs[j])))
  {
  }

  lemma {:induction false} PendingKeepsRoster(cfg: Config, workers: map<string, Worker>, runs: map<nat, Run>, w: string, pending: Option<Ticket>)
    requires RosterOk(cfg, workers, runs) && w in workers
    requires pending.Some? ==> workers[w].slots > 0 && pending.value.job !in workers[w].active
    ensures RosterOk(cfg, workers[w := workers[w].(pending := pending)], runs)
  {
    hide RosterOk;
    var workers' := workers[w := workers[w].(pending := pending)];
    forall r | r in runs ensures Listed(workers', r, runs[r]) {
      RunListed(cfg, workers, runs, r);
    }
    forall v | v in workers' ensures WorkerOk(cfg, runs, v, workers'[v]) {
      CrewListed(cfg, workers, runs, v);
    }
    MakeRoster(cfg, workers', runs);
  }

  lemma {:induction false} DropKeepsCrew(cfg: Config, db: Db, born: set<string>, workers: map<string, Worker>, runs: map<nat, Run>, w: string)
    requires CrewOk(cfg, db, born, workers, runs) && w in workers
    ensures CrewOk(cfg, db, born, workers[w := workers[w].(pending := None)], runs)
  {
    hide Fence, RosterOk;
    PendingKeepsRoster(cfg, workers, runs, w, None);
  }

  lemma {:induction false} JoinKeepsCrew(cfg: Config, db: Db, born: set<string>, workers: map<string, Worker>, runs: map<nat, Run>, w: string)
    requires CrewOk(cfg, db, born, workers, runs) && w !in workers
    ensures CrewOk(cfg, db, born, workers[w := Worker(cfg.concurrency, map[], None)], runs)
  {
    hide Fence, Owns, RosterOk;
    JoinKeepsRoster(cfg, workers, runs, w);
  }

  lemma {:induction false} JoinKeepsRoster(cfg: Config, workers: map<string, Worker>, runs: map<nat, Run>, w: string)
    requires RosterOk(cfg, workers, runs) && w !in workers
    ensures RosterOk(cfg, workers[w := Worker(cfg.concurrency, map[], None)], runs)
  {
    hide RosterOk, WorkerOk;
    var workers' := workers[w := Worker(cfg.concurrency, map[], None)];
    NewWorkerOk(cfg, runs, w);
    forall r | r in runs ensures Listed(workers', r, runs[r]) {
      RunListed(cfg, workers, runs, r);
    }
    forall v | v in workers && v != w ensures WorkerOk(cfg, runs, v, workers'[v]) {
      CrewListed(cfg, workers, runs, v);
    }
    MakeRoster(cfg, workers', runs);
  }

  lemma {:induction false} NewWorkerOk(cfg: Config, runs: map<nat, Run>, w: string)
    ensures WorkerOk(cfg, runs, w, Worker(cfg.concurrency, map[], None))
  {
  }

  lemma {:induction false} StartKeepsCrew(cfg: Config, db: Db, born: set<string>, workers: map<string, Worker>, runs: map<nat, Run>, w: string, r: nat)
    requires CrewOk(cfg, db, born, workers, runs) && w in workers && workers[w].pending.Some? && r !in runs
    ensures var crew := workers[w]; var ticket := crew.pending.value;
      crew.slots > 0 && CrewOk(cfg, db, born,
        workers[w := Worker(crew.slots - 1, crew.active[ticket.job := r], None)],
        runs[r := Begun(w, ticket)])
  {
    hide RosterOk, ClaimsOk;
    var ticket := workers[w].pending.value;
    var run := Begun(w, ticket);
    StartKeepsRoster(cfg, workers, runs, w, r, run);
    StartKeepsClaims(db, born, workers, runs, w, r, Worker(workers[w].slots - 1, workers[w].active[ticket.job := r], None), run);
  }

  lemma {:induction false} StartKeepsClaims(db: Db, born: set<string>, workers: map<string, Worker>, runs: map<nat, Run>, w: string, r: nat,
                          crew: Worker, run: Run)
    requires ClaimsOk(db, born, workers, runs) && w in workers && r !in runs && crew.pending.None?
    requires workers[w].pending.Some? && run == Begun(w, workers[w].pending.value)
    ensures ClaimsOk(db, born, workers[w := crew], runs[r := run])
  {
    hide Fence, Owns;
    assert TicketClaim(db, born, w, workers[w].pending);
    forall q | q in runs && q != r ensures RunClaim(db, born, runs[r := run][q]) {
      assert RunClaim(db, born, runs[q]);
    }
  }

  lemma {:induction false} StartKeepsRoster(cfg: Config, workers: map<string, Worker>, runs: map<nat, Run>, w: string, r: nat, run: Run)
    requires RosterOk(cfg, workers, runs) && w in workers && workers[w].pending.Some? && r !in runs
    requires run.worker == w && run.job == workers[w].pending.value.job
    ensures workers[w].slots > 0
    ensures RosterOk(cfg, workers[w := Worker(workers[w].slots - 1, workers[w].active[run.job := r], None)], runs[r := run])
  {
    hide RosterOk, WorkerOk, Listed;
    var crew := workers[w];
    CrewListed(cfg, workers, runs, w);
    WorkerStarts(cfg, runs, w, crew, r, run);
    var workers', runs' := workers[w := Worker(crew.slots - 1, crew.active[run.job := r], None)], runs[r := run];
    forall q | q in runs' ensures Listed(workers', q, runs'[q]) {
      if q == r {
        ListedNow(workers', r, run);
      } else {
        PendingIsNew(cfg, workers, runs, w, q);
        ListedStill(workers, workers', q, runs[q], w, run.job);
      }
    }
    forall v | v in workers' && v != w ensures WorkerOk(cfg, runs', v, workers'[v]) {
      CrewListed(cfg, workers, runs, v);
      WorkerGrows(cfg, runs, r, run, v, workers[v]);
    }
    MakeRoster(cfg, workers', runs');
  }

  lemma {:induction false} ListedNow(workers: map<string, Worker>, r: nat, run: Run)
    requires run.worker in workers && run.job in workers[run.worker].active && workers[run.worker].active[run.job] == r
    ensures Listed(workers, r, run)
  {
  }

  /** A run stays listed when only worker w changes, and of its active jobs only job j. */
  lemma {:induction false} ListedStill(workers: map<string, Worker>, workers': map<string, Worker>, q: nat, run: Run, w: string, j: string)
    requires Listed(workers, q, run) && workers.Keys <= workers'.Keys && w in workers
    requires forall v :: v in workers && v != w ==> workers'[v] == workers[v]
    requires forall i :: i in workers[w].active && i != j ==>
      w in workers' && i in workers'[w].active && workers'[w].active[i] == workers[w].active[i]
    requires run.worker == w ==> run.job != j
    ensures Listed(workers', q, run)
  {
  }

  lemma {:induction false} WorkerStarts(cfg: Config, runs: map<nat, Run>, w: string, crew: Worker, r: nat, run: Run)
    requires WorkerOk(cfg, runs, w, crew) && crew.pending.Some? && r !in runs && run.worker == w && run.job == crew.pending.value.job
    ensures crew.slots > 0 && WorkerOk(cfg, runs[r := run], w, Worker(crew.slots - 1, crew.active[run.job := r], None))
  {
    assert forall j :: j in crew.active ==> Entry(runs, w, j, crew.active[j]);
  }

  lemma {:induction false} WorkerGrows(cfg: Config, runs: map<nat, Run>, r: nat, run: Run, v: string, crew: Worker)
    requires WorkerOk(cfg, runs, v, crew) && r !in runs
    ensures WorkerOk(cfg, runs[r := run], v, crew)
  {
    assert forall j :: j in crew.active ==> Entry(runs, v, j, crew.active[j]);
  }

  /** The workers once a run has ended: its slot is free, its job no longer active. */
  ghost function Freed(workers: map<string, Worker>, run: Run): map<string, Worker>
    requires run.worker in workers
  {
    var crew := workers[run.worker];
    workers[run.worker := crew.(slots := crew.slots + 1, active := Without(crew.active, run.job))]
  }

  function Without<K, V>(m: map<K, V>, k: K): map<K, V> {
    m - {k}
  }

  lemma {:induction false} EndKeepsCrew(cfg: Config, db: Db, born: set<string>, workers: map<string, Worker>, runs: map<nat, Run>, r: nat)
    requires CrewOk(cfg, db, born, workers, runs) && r in runs
    ensures runs[r].worker in workers && CrewOk(cfg, db, born, Freed(workers, runs[r]), Without(runs, r))
  {
    hide RosterOk, Fence, Owns;
    EndKeepsRoster(cfg, workers, runs, r);
  }

  lemma {:induction false} EndKeepsRoster(cfg: Config, workers: map<string, Worker>, runs: map<nat, Run>, r: nat)
    requires RosterOk(cfg, workers, runs) && r in runs
    ensures runs[r].worker in workers && RosterOk(cfg, Freed(workers, runs[r]), Without(runs, r))
  {
    hide RosterOk, WorkerOk;
    var run := runs[r];
    RunListed(cfg, workers, runs, r);
    var crew := workers[run.worker];
    CrewListed(cfg, workers, runs, run.worker);
    WorkerEnds(cfg, runs, run.worker, crew, r);
    var crew' := crew.(slots := crew.slots + 1, active := crew.active - {run.job});
    var workers', runs' := workers[run.worker := crew'], runs - {r};
    forall q | q in runs' ensures Listed(workers', q, runs'[q]) {
      RunListed(cfg, workers, runs, q);
    }
    forall v | v in workers' && v != run.worker ensures WorkerOk(cfg, runs', v, workers'[v]) {
      CrewListed(cfg, workers, runs, v);
      WorkerShrinks(cfg, runs, r, v, workers[v]);
    }
    MakeRoster(cfg, workers', runs');
  }

  lemma {:induction false} WorkerEnds(cfg: Config, runs: map<nat, Run>, w: string, crew: Worker, r: nat)
    requires WorkerOk(cfg, runs, w, crew) && r in runs && runs[r].worker == w
    requires runs[r].job in crew.active && crew.active[runs[r].job] == r
    ensures WorkerOk(cfg, Without(runs, r), w, crew.(slots := crew.slots + 1, active := Without(crew.active, runs[r].job)))
  {
    forall j | j in crew.active && j != runs[r].job ensures Entry(runs - {r}, w, j, crew.active[j]) {
      assert Entry(runs, w, j, crew.active[j]);
    }
  }

  lemma {:induction false} WorkerShrinks(cfg: Config, runs: map<nat, Run>, r: nat, v: string, crew: Worker)
    requires WorkerOk(cfg, runs, v, crew) && r in runs && runs[r].worker != v
    ensures WorkerOk(cfg, Without(runs, r), v, crew)
  {
    forall j | j in crew.active ensures Entry(runs - {r}, v, j, crew.active[j]) {
      assert Entry(runs, v, j, crew.active[j]);
    }
  }
}
