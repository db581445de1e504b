/** src/vemsa/jobs/postgres_store.py: the job table, the statistics table and the webhook outbox, and
    what each guarded statement makes of them. */
module Tables {
  import opened Base

  datatype Status = Queued | Running | Completed | Failed | Cancelled

  datatype Stage = Waiting | Transcribing | Aligning | Diarizing | Finalizing

  datatype FailureKind = BadInput | Capacity | Provider | Internal | Cancellation

  datatype Row = Row(
    client: string,
    webhook: Option<string>,
    key: Option<string>,
    digest: Option<string>,
    created: real,
    audio: Option<string>,
    status: Status,
    stage: Stage,
    updated: real,
    attempt: nat,
    owner: Option<string>,
    leaseEnd: Option<real>,
    retryAfter: Option<real>,
    started: Option<real>,
    cancelledAt: Option<real>,
    result: Option<string>,
    error: Option<string>,
    failure: Option<FailureKind>)

  datatype Stats = Stats(client: string, status: Status, attempts: nat, worker: Option<string>,
                         created: real, started: Option<real>, finished: real)

  datatype Event = Event(job: string, url: string, status: Status, body: Option<string>)

  datatype Db = Db(jobs: map<string, Row>, stats: map<string, Stats>, outbox: seq<Event>)

  predicate Active(row: Row) {
    row.status == Queued || row.status == Running
  }

  predicate Terminal(row: Row) {
    !Active(row)
  }

  // ---- create

  datatype Admission = Admitted(job: string) | Original(job: string) | Conflict | AtCapacity(scope: Scope)

  datatype Scope = Global | Client

  function NewRow(client: string, webhook: Option<string>, audio: Option<string>, key: Option<string>, digest: Option<string>,
                  now: real): Row {
    Row(client, webhook, key, digest, now, audio, Queued, Waiting, now, 0, None, None, None, None, None, None, None, None)
  }

  function ActiveJobs(db: Db): set<string> {
    set j | j in db.jobs && Active(db.jobs[j])
  }

  function ActiveJobsOf(db: Db, client: string): set<string> {
    set j | j in db.jobs && Active(db.jobs[j]) && db.jobs[j].client == client
  }

  predicate Keyed(db: Db, client: string, key: Option<string>, j: string) {
    key.Some? && j in db.jobs && db.jobs[j].client == client && db.jobs[j].key == key
  }

  predicate Full(cap: Option<nat>, active: nat) {
    cap.Some? && active >= cap.value
  }

  ghost predicate Admits(db: Db, maxActive: Option<nat>, maxPerClient: Option<nat>, client: string, key: Option<string>) {
    && (forall j :: !Keyed(db, client, key, j))
    && !Full(maxActive, |ActiveJobs(db)|) && !Full(maxPerClient, |ActiveJobsOf(db, client)|)
  }

  // ---- the guarded updates, each on one row

  predicate Owns(db: Db, j: string, worker: string) {
    j in db.jobs && db.jobs[j].status == Running && db.jobs[j].owner == Some(worker)
  }

  predicate Claimable(row: Row, now: real) {
    || (row.status == Queued && (row.retryAfter.None? || row.retryAfter.value <= now))
    || (row.status == Running && row.leaseEnd.Some? && row.leaseEnd.value < now)
  }

  /** The candidate of the claim: the oldest claimable row outside `exclude`. */
  ghost predicate Oldest(db: Db, exclude: set<string>, now: real, j: string) {
    && j in db.jobs && j !in exclude && Claimable(db.jobs[j], now)
    && forall k :: k in db.jobs && k !in exclude && Claimable(db.jobs[k], now) ==> db.jobs[j].created <= db.jobs[k].created
  }

  function ClaimedRow(row: Row, worker: string, now: real, lease: real): Row {
    row.(status := Running, updated := now, attempt := row.attempt + 1, owner := Some(worker),
      leaseEnd := Some(now + lease), retryAfter := None, started := if row.started.Some? then row.started else Some(now))
  }

  function RenewedRow(row: Row, now: real, lease: real): Row {
    row.(leaseEnd := Some(now + lease), updated := now)
  }

  function StagedRow(row: Row, stage: Stage, now: real): Row {
    row.(stage := stage, updated := now)
  }

  function AudioRow(row: Row, path: string, now: real): Row {
    row.(audio := Some(path), updated := now)
  }

  function ReleasedRow(row: Row, now: real, delay: real): Row {
    row.(status := Queued, stage := Waiting, owner := None, leaseEnd := None, retryAfter := Some(now + delay), updated := now)
  }

  function FinishedRow(row: Row, result: string, now: real): Row {
    row.(status := Completed, result := Some(result), updated := now, owner := None, leaseEnd := None)
  }

  function FailedRow(row: Row, error: string, kind: FailureKind, now: real): Row {
    row.(status := Failed, error := Some(error), failure := Some(kind), updated := now, owner := None, leaseEnd := None)
  }

  function CancelledRow(row: Row, now: real): Row {
    row.(status := Cancelled, failure := Some(Cancellation), cancelledAt := Some(now), updated := now, owner := None, leaseEnd := None)
  }

  predicate Cancellable(db: Db, j: string, client: string) {
    j in db.jobs && db.jobs[j].client == client && Active(db.jobs[j])
  }

  // ---- the new state of the tables

  function Put(db: Db, j: string, row: Row): Db {
    db.(jobs := db.jobs[j := row])
  }

  function StatsOf(row: Row, worker: Option<string>, now: real): Stats {
    Stats(row.client, row.status, row.attempt, worker, row.created, row.started, now)
  }

  /** The webhook event of a terminal update, if its job asked for one. */
  function Notice(j: string, row: Row, url: Option<string>, body: Option<string>): Option<Event> {
    if url.Some? then Some(Event(j, url.value, row.status, body)) else None
  }

  /** A terminal update, its statistics row (ON CONFLICT DO NOTHING) and its webhook event. */
  function Settled(db: Db, j: string, row: Row, worker: Option<string>, url: Option<string>, body: Option<string>, now: real): Db {
    Db(db.jobs[j := row],
       if j in db.stats then db.stats else db.stats[j := StatsOf(row, worker, now)],
       if Notice(j, row, url, body).Some? then db.outbox + [Notice(j, row, url, body).value] else db.outbox)
  }

  function Claimed(db: Db, j: string, worker: string, now: real, lease: real): Db
    requires j in db.jobs
  {
    Put(db, j, ClaimedRow(db.jobs[j], worker, now, lease))
  }

  function Renewed(db: Db, j: string, worker: string, now: real, lease: real): Db {
    if Owns(db, j, worker) then Put(db, j, RenewedRow(db.jobs[j], now, lease)) else db
  }

  function Staged(db: Db, j: string, worker: string, stage: Stage, now: real): Db {
    if Owns(db, j, worker) then Put(db, j, StagedRow(db.jobs[j], stage, now)) else db
  }

  /** The path of the fetched audio, written whoever owns the row and whatever its status. */
  function WithAudio(db: Db, j: string, path: string, now: real): Db {
    if j in db.jobs then Put(db, j, AudioRow(db.jobs[j], path, now)) else db
  }

  function Released(db: Db, j: string, worker: string, now: real, delay: real): Db {
    if Owns(db, j, worker) then Put(db, j, ReleasedRow(db.jobs[j], now, delay)) else db
  }

  function Finished(db: Db, j: string, worker: string, result: string, url: Option<string>, now: real): Db {
    if Owns(db, j, worker) then Settled(db, j, FinishedRow(db.jobs[j], result, now), Some(worker), url, Some(result), now) else db
  }

  function FailedWith(db: Db, j: string, worker: string, error: string, kind: FailureKind, url: Option<string>, now: real): Db {
    if Owns(db, j, worker) then Settled(db, j, FailedRow(db.jobs[j], error, kind, now), Some(worker), url, Some(error), now) else db
  }

  function CancelledBy(db: Db, j: string, client: string, url: Option<string>, now: real): Db {
    if Cancellable(db, j, client) then Settled(db, j, CancelledRow(db.jobs[j], now), None, url, None, now) else db
  }

  predicate Purgeable(row: Row, cutoff: real) {
    Terminal(row) && row.updated < cutoff
  }

  /** Deleting a job deletes its webhook events with it; its statistics stay. */
  function Purged(db: Db, cutoff: real): Db {
    var jobs := map j | j in db.jobs && !Purgeable(db.jobs[j], cutoff) :: db.jobs[j];
    Db(jobs, db.stats, Filter((event: Event) => event.job in db.jobs && !Purgeable(db.jobs[event.job], cutoff), db.outbox))
  }

  function StatsPurged(db: Db, cutoff: real): Db {
    db.(stats := map j | j in db.stats && db.stats[j].finished >= cutoff :: db.stats[j])
  }

  /** A delivered event leaves the outbox. */
  function Delivered(db: Db, at: nat): Db {
    if at < |db.outbox| then db.(outbox := db.outbox[..at] + db.outbox[at + 1..]) else db
  }
}
