/** The lease protocol of src/vemsa/jobs/queue.py over the store: any number of workers, each a claim
    loop and the job runs it has started. A step is one store transaction or one local change
    between two of them; steps interleave freely. */
module Protocol {
  import opened Base
  import opened Tables

  datatype Config = Config(maxActive: Option<nat>, maxPerClient: Option<nat>, concurrency: nat,
                           oomMaxAttempts: nat, oomDelay: real, lease: real)

  // ---- failure_kind

  /** What the code asks of an exception: its class, and whether it reads as out of memory. */
  datatype Failure = Failure(provider: bool, outOfMemory: bool, queueFull: bool, badInput: bool)

  function KindOf(failure: Failure): FailureKind {
    if failure.provider then Provider
    else if failure.outOfMemory || failure.queueFull then Capacity
    else if failure.badInput then BadInput
    else Internal
  }

  predicate Retryable(cfg: Config, failure: Failure, attempt: nat) {
    !failure.provider && failure.outOfMemory && attempt < cfg.oomMaxAttempts
  }

  // ---- the state

  /** Where a run of _process_job stands. */
  datatype Phase = Opening | Working | Closing | Failing(failure: Failure) | Refused(failure: Failure) | Done

  /** One call of _process_job; `stage` is its current_stage, `audio` its audio_path. */
  datatype Run = Run(worker: string, job: string, attempt: nat, webhook: Option<string>, audio: Option<string>,
                     stage: Stage, phase: Phase)

  /** A job the claim returned and the loop has not yet started. */
  datatype Ticket = Ticket(job: string, attempt: nat, webhook: Option<string>, audio: Option<string>, stage: Stage)

  /** `_slots`, `_active`, and the claim in progress. */
  datatype Worker = Worker(slots: nat, active: map<string, nat>, pending: Option<Ticket>)

  /** What committed: an outcome or a release for retry, with the attempt of the run it was made for (none
      for a cancel) and the row it left; of an outcome also whether its statistics row was inserted, and
      the webhook event that was. */
  datatype Commit =
    | Outcome(job: string, run: Option<nat>, row: Row, inserted: bool, event: Option<Event>)
    | Requeue(job: string, run: Option<nat>, row: Row)

  datatype State = State(db: Db, now: real, workers: map<string, Worker>, runs: map<nat, Run>,
                         log: seq<Commit>, born: set<string>)

  const Init := State(Db(map[], map[], []), 0.0, map[], map[], [], {})

  datatype Step =
    | Create(job: string, client: string, webhook: Option<string>, audio: Option<string>, key: Option<string>, digest: Option<string>)
    | Join(worker: string)
    | Claim(worker: string, exclude: set<string>, job: string)
    | Start(worker: string, run: nat)
    | Drop(worker: string)
    | Open(run: nat, lost: Option<Failure>)
    | SetAudio(run: nat, path: string)
    | Report(run: nat, stage: Stage, lost: Option<Failure>)
    | Throw(run: nat, failure: Failure)
    | Finalize(run: nat, lost: Option<Failure>)
    | Finish(run: nat, result: string, lost: Option<Failure>)
    | Release(run: nat, raised: bool)
    | Fail(run: nat, error: string)
    | End(run: nat)
    | Renew(worker: string, job: string)
    | Cancel(job: string, client: string)
    | Purge(cutoff: real)
    | PurgeStats(cutoff: real)
    | Deliver(at: nat)
    | Tick(now: real)

  ghost predicate In(s: State, run: nat, phase: Phase) {
    run in s.runs && s.runs[run].phase == phase
  }

  /** `exclude` is the active set when the claim was sent; runs may have ended since, none has begun. */
  ghost predicate MayClaim(s: State, worker: string, exclude: set<string>, job: string) {
    && worker in s.workers && s.workers[worker].pending.None? && s.workers[worker].slots > 0
    && s.workers[worker].active.Keys <= exclude && Oldest(s.db, exclude, s.now, job)
  }

  ghost predicate MayFail(cfg: Config, run: Run) {
    run.phase.Refused? || (run.phase.Failing? && !Retryable(cfg, run.phase.failure, run.attempt))
  }

  ghost predicate Enabled(cfg: Config, s: State, step: Step) {
    match step
    case Create(job, _, _, _, _, _) => job !in s.born
    case Join(worker) => worker !in s.workers
    case Claim(worker, exclude, job) => MayClaim(s, worker, exclude, job)
    case Start(worker, run) => worker in s.workers && s.workers[worker].pending.Some? && run !in s.runs
    case Drop(worker) => worker in s.workers && s.workers[worker].pending.Some?
    case Open(run, _) => In(s, run, Opening)
    case SetAudio(run, _) => In(s, run, Working) && s.runs[run].audio.None?
    case Report(run, _, _) => In(s, run, Working) && s.runs[run].audio.Some?
    case Throw(run, _) => In(s, run, Opening) || In(s, run, Working) || In(s, run, Closing)
    case Finalize(run, _) => In(s, run, Working) && s.runs[run].audio.Some?
    case Finish(run, _, _) => In(s, run, Closing)
    case Release(run, _) =>
      run in s.runs && s.runs[run].phase.Failing? && Retryable(cfg, s.runs[run].phase.failure, s.runs[run].attempt)
    case Fail(run, _) => run in s.runs && MayFail(cfg, s.runs[run])
    case End(run) => run in s.runs
    case Renew(_, _) => true
    case Cancel(_, _) => true
    case Purge(_) => true
    case PurgeStats(_) => true
    case Deliver(_) => true
    case Tick(now) => now >= s.now
  }

  // ---- what each step does

  ghost function Held(s: State, run: Run): bool {
    Owns(s.db, run.job, run.worker)
  }

  /** The phase after a store call: a raised error fails the run, a refusal stops it. */
  ghost function Next(held: bool, lost: Option<Failure>, phase: Phase): Phase {
    if lost.Some? then Failing(lost.value) else if held then phase else Done
  }

  ghost function AfterCreate(cfg: Config, s: State, job: string, client: string, webhook: Option<string>,
                             audio: Option<string>, key: Option<string>, digest: Option<string>): State {
    if Admits(s.db, cfg.maxActive, cfg.maxPerClient, client, key) then
      s.(db := Put(s.db, job, NewRow(client, webhook, audio, key, digest, s.now)), born := s.born + {job})
    else s
  }

  function TicketOf(job: string, row: Row): Ticket {
    Ticket(job, row.attempt, row.webhook, row.audio, row.stage)
  }

  function Begun(worker: string, ticket: Ticket): Run {
    Run(worker, ticket.job, ticket.attempt, ticket.webhook, ticket.audio, ticket.stage, Opening)
  }

  ghost function AfterClaim(cfg: Config, s: State, worker: string, job: string): State
    requires worker in s.workers && job in s.db.jobs
  {
    var db := Claimed(s.db, job, worker, s.now, cfg.lease);
    var crew := s.workers[worker].(pending := Some(TicketOf(job, db.jobs[job])));
    s.(db := db, workers := s.workers[worker := crew])
  }

  ghost function AfterStart(s: State, worker: string, run: nat): State
    requires worker in s.workers && s.workers[worker].pending.Some?
  {
    var crew := s.workers[worker];
    var ticket := crew.pending.value;
    s.(workers := s.workers[worker := Worker(if crew.slots > 0 then crew.slots - 1 else 0, crew.active[ticket.job := run], None)],
       runs := s.runs[run := Begun(worker, ticket)])
  }

  ghost function AfterOpen(cfg: Config, s: State, r: nat, lost: Option<Failure>): State
    requires r in s.runs
  {
    var run := s.runs[r];
    s.(db := Renewed(s.db, run.job, run.worker, s.now, cfg.lease),
       runs := s.runs[r := run.(phase := Next(Held(s, run), lost, Working))])
  }

  ghost function AfterSetAudio(s: State, r: nat, path: string): State
    requires r in s.runs
  {
    var run := s.runs[r];
    s.(db := WithAudio(s.db, run.job, path, s.now), runs := s.runs[r := run.(audio := Some(path))])
  }

  ghost function AfterReport(s: State, r: nat, stage: Stage, lost: Option<Failure>): State
    requires r in s.runs
  {
    var run := s.runs[r];
    if stage == run.stage then s
    else
      var moved := if Held(s, run) && lost.None? then run.(stage := stage) else run.(phase := Next(Held(s, run), lost, Working));
      s.(db := Staged(s.db, run.job, run.worker, stage, s.now), runs := s.runs[r := moved])
  }

  ghost function AfterFinalize(s: State, r: nat, lost: Option<Failure>): State
    requires r in s.runs
  {
    var run := s.runs[r];
    var moved := if Held(s, run) && lost.None? then run.(stage := Finalizing, phase := Closing)
                 else run.(phase := Next(Held(s, run), lost, Closing));
    s.(db := Staged(s.db, run.job, run.worker, Finalizing, s.now), runs := s.runs[r := moved])
  }

  /** A terminal update as the log records it. */
  ghost function Settlement(db: Db, j: string, row: Row, run: Option<nat>, url: Option<string>, body: Option<string>): Commit {
    Outcome(j, run, row, j !in db.stats, Notice(j, row, url, body))
  }

  ghost function AfterFinish(s: State, r: nat, result: string, lost: Option<Failure>): State
    requires r in s.runs
  {
    var run := s.runs[r];
    s.(db := Finished(s.db, run.job, run.worker, result, run.webhook, s.now),
       runs := s.runs[r := run.(phase := Next(Held(s, run), lost, Done))],
       log := if Held(s, run) then
                s.log + [Settlement(s.db, run.job, FinishedRow(s.db.jobs[run.job], result, s.now), Some(run.attempt), run.webhook, Some(result))]
              else s.log)
  }

  ghost function AfterRelease(cfg: Config, s: State, r: nat, raised: bool): State
    requires r in s.runs && s.runs[r].phase.Failing?
  {
    var run := s.runs[r];
    s.(db := Released(s.db, run.job, run.worker, s.now, cfg.oomDelay),
       runs := s.runs[r := run.(phase := if Held(s, run) || raised then Done else Refused(run.phase.failure))],
       log := if Held(s, run) then s.log + [Requeue(run.job, Some(run.attempt), ReleasedRow(s.db.jobs[run.job], s.now, cfg.oomDelay))] else s.log)
  }

  ghost function AfterFail(s: State, r: nat, error: string): State
    requires r in s.runs && (s.runs[r].phase.Failing? || s.runs[r].phase.Refused?)
  {
    var run := s.runs[r];
    var kind := KindOf(run.phase.failure);
    s.(db := FailedWith(s.db, run.job, run.worker, error, kind, run.webhook, s.now), runs := s.runs[r := run.(phase := Done)],
       log := if Held(s, run) then
                s.log + [Settlement(s.db, run.job, FailedRow(s.db.jobs[run.job], error, kind, s.now), Some(run.attempt), run.webhook, Some(error))]
              else s.log)
  }

  /** The `finally` of _run_job: the job leaves `_active`, its slot is free again. */
  ghost function AfterEnd(s: State, r: nat): State
    requires r in s.runs
  {
    var run := s.runs[r];
    var runs := s.runs - {r};
    if run.worker !in s.workers then s.(runs := runs)
    else
      var crew := s.workers[run.worker];
      s.(runs := runs, workers := s.workers[run.worker := crew.(slots := crew.slots + 1, active := crew.active - {run.job})])
  }

  ghost function AfterCancel(s: State, job: string, client: string): State {
    if Cancellable(s.db, job, client) then
      s.(db := CancelledBy(s.db, job, client, s.db.jobs[job].webhook, s.now),
         log := s.log + [Settlement(s.db, job, CancelledRow(s.db.jobs[job], s.now), None, s.db.jobs[job].webhook, None)])
    else s
  }

  ghost function After(cfg: Config, s: State, step: Step): State
    requires Enabled(cfg, s, step)
  {
    match step
    case Create(job, client, webhook, audio, key, digest) => AfterCreate(cfg, s, job, client, webhook, audio, key, digest)
    case Join(worker) => s.(workers := s.workers[worker := Worker(cfg.concurrency, map[], None)])
    case Claim(worker, _, job) => AfterClaim(cfg, s, worker, job)
    case Start(worker, run) => AfterStart(s, worker, run)
    case Drop(worker) => s.(workers := s.workers[worker := s.workers[worker].(pending := None)])
    case Open(run, lost) => AfterOpen(cfg, s, run, lost)
    case SetAudio(run, path) => AfterSetAudio(s, run, path)
    case Report(run, stage, lost) => AfterReport(s, run, stage, lost)
    case Throw(run, failure) => s.(runs := s.runs[run := s.runs[run].(phase := Failing(failure))])
    case Finalize(run, lost) => AfterFinalize(s, run, lost)
    case Finish(run, result, lost) => AfterFinish(s, run, result, lost)
    case Release(run, raised) => AfterRelease(cfg, s, run, raised)
    case Fail(run, error) => AfterFail(s, run, error)
    case End(run) => AfterEnd(s, run)
    case Renew(worker, job) => s.(db := Renewed(s.db, job, worker, s.now, cfg.lease))
    case Cancel(job, client) => AfterCancel(s, job, client)
    case Purge(cutoff) => s.(db := Purged(s.db, cutoff))
    case PurgeStats(cutoff) => s.(db := StatsPurged(s.db, cutoff))
    case Deliver(at) => s.(db := Delivered(s.db, at))
    case Tick(now) => s.(now := now)
  }

  // ---- runs of the whole system

  ghost predicate StepAt(cfg: Config, trace: seq<State>, steps: seq<Step>, i: int) {
    0 <= i < |steps| && i + 1 < |trace| && Enabled(cfg, trace[i], steps[i]) && trace[i + 1] == After(cfg, trace[i], steps[i])
  }

  /** A run of the system: its states, and the steps between them. */
  ghost predicate Path(cfg: Config, trace: seq<State>, steps: seq<Step>) {
    |trace| == |steps| + 1 && forall i :: 0 <= i < |steps| ==> StepAt(cfg, trace, steps, i)
  }

  /** Some run gets from s to s'. */
  ghost predicate Leads(cfg: Config, s: State, s': State) {
    exists trace, steps :: Path(cfg, trace, steps) && trace[0] == s && trace[|steps|] == s'
  }

  ghost predicate Reachable(cfg: Config, s: State) {
    Leads(cfg, Init, s)
  }
}
