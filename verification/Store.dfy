/** src/vemsa/jobs/postgres_store.py, PostgresJobStore. Each method is one transaction, hence one
    atomic step. */
module Store {
  import opened Base
  import opened Tables

  class PostgresJobStore {
    var jobs: map<string, Row>
    var stats: map<string, Stats>
    var outbox: seq<Event>

    function Tables(): Db
      reads this
    {
      Db(jobs, stats, outbox)
    }

    constructor ()
      ensures Tables() == Db(map[], map[], [])
    {
      jobs, stats, outbox := map[], map[], [];
    }

    /** `SELECT ... WHERE client_id = $1 AND idempotency_key = $2` */
    method FindKeyed(client: string, key: Option<string>) returns (found: Option<string>)
      ensures found.Some? ==> Keyed(Tables(), client, key, found.value)
      ensures found.None? ==> forall j :: !Keyed(Tables(), client, key, j)
    {
      var keyed := set j | j in jobs && Keyed(Tables(), client, key, j);
      if keyed == {} {
        assert forall j :: Keyed(Tables(), client, key, j) ==> j in keyed;
        return None;
      }
      var j :| j in keyed;
      return Some(j);
    }

    /** A repeated key answers with the original job, full or not; a new one is admitted under both caps. */
    method Create(job: string, client: string, webhook: Option<string>, audio: Option<string>, key: Option<string>,
                  digest: Option<string>, maxActive: Option<nat>, maxPerClient: Option<nat>, now: real) returns (admission: Admission)
      requires job !in jobs
      modifies this
      ensures admission == Admitted(job) <==> Admits(old(Tables()), maxActive, maxPerClient, client, key)
      ensures Tables() == if admission == Admitted(job) then Put(old(Tables()), job, NewRow(client, webhook, audio, key, digest, now))
                          else old(Tables())
      ensures admission.Admitted? ==> admission.job == job
      ensures admission.Original? ==> Keyed(old(Tables()), client, key, admission.job) && old(jobs[admission.job].digest) == digest
      ensures admission.Conflict? ==> exists j :: Keyed(old(Tables()), client, key, j) && old(jobs)[j].digest != digest
      ensures admission.AtCapacity? ==> forall j :: !Keyed(old(Tables()), client, key, j)
      ensures admission == AtCapacity(Global) ==> Full(maxActive, |ActiveJobs(old(Tables()))|)
      ensures admission == AtCapacity(Client) ==> Full(maxPerClient, |ActiveJobsOf(old(Tables()), client)|)
    {
      var original := FindKeyed(client, key);
      if original.Some? {
        return if jobs[original.value].digest == digest then Original(original.value) else Conflict;
      }
      if Full(maxActive, |ActiveJobs(Tables())|) {
        return AtCapacity(Global);
      }
      if Full(maxPerClient, |ActiveJobsOf(Tables(), client)|) {
        return AtCapacity(Client);
      }
      jobs := jobs[job := NewRow(client, webhook, audio, key, digest, now)];
      return Admitted(job);
    }

    /** `ORDER BY created_at LIMIT 1` over the claimable rows */
    method OldestClaimable(exclude: set<string>, now: real) returns (candidate: Option<string>)
      ensures candidate.Some? ==> Oldest(Tables(), exclude, now, candidate.value)
      ensures candidate.None? ==> forall j :: j in jobs && j !in exclude ==> !Claimable(jobs[j], now)
    {
      var rest := set j | j in jobs && j !in exclude && Claimable(jobs[j], now);
      candidate := None;
      while rest != {}
        invariant candidate.Some? ==> candidate.value in jobs && candidate.value !in exclude && Claimable(jobs[candidate.value], now)
        invariant forall j :: j in jobs && j !in exclude && Claimable(jobs[j], now) ==>
          j in rest || (candidate.Some? && jobs[candidate.value].created <= jobs[j].created)
        invariant forall j :: j in rest ==> j in jobs && j !in exclude && Claimable(jobs[j], now)
        decreases |rest|
      {
        var j :| j in rest;
        if candidate.None? || jobs[j].created < jobs[candidate.value].created {
          candidate := Some(j);
        }
        rest := rest - {j};
      }
    }

    method ClaimNextQueued(worker: string, lease: real, exclude: set<string>, now: real) returns (job: Option<string>)
      modifies this`jobs
      ensures job.Some? ==> Oldest(old(Tables()), exclude, now, job.value)
      ensures job.Some? ==> Tables() == Claimed(old(Tables()), job.value, worker, now, lease)
      ensures job.None? ==> Tables() == old(Tables())
      ensures job.None? ==> forall j :: j in jobs && j !in exclude ==> !Claimable(jobs[j], now)
    {
      job := OldestClaimable(exclude, now);
      if job.Some? {
        var row := jobs[job.value];
        var started := if row.started.Some? then row.started else Some(now);
        jobs := jobs[job.value := row.(status := Running, updated := now, attempt := row.attempt + 1, owner := Some(worker),
          leaseEnd := Some(now + lease), retryAfter := None, started := started)];
      }
    }

    method ReleaseForRetry(job: string, worker: string, delay: real, now: real) returns (released: bool)
      modifies this`jobs
      ensures released == Owns(old(Tables()), job, worker)
      ensures Tables() == Released(old(Tables()), job, worker, now, delay)
    {
      released := Owns(Tables(), job, worker);
      if released {
        jobs := jobs[job := jobs[job].(status := Queued, stage := Waiting, owner := None, leaseEnd := None,
          retryAfter := Some(now + delay), updated := now)];
      }
    }

    /** No guard: neither the status nor the owner is asked for. */
    method SetAudioPath(job: string, path: string, now: real)
      modifies this`jobs
      ensures Tables() == WithAudio(old(Tables()), job, path, now)
    {
      if job in jobs {
        jobs := jobs[job := jobs[job].(audio := Some(path), updated := now)];
      }
    }

    method SetStage(job: string, stage: Stage, worker: string, now: real) returns (held: bool)
      modifies this`jobs
      ensures held == Owns(old(Tables()), job, worker)
      ensures Tables() == Staged(old(Tables()), job, worker, stage, now)
    {
      held := Owns(Tables(), job, worker);
      if held {
        jobs := jobs[job := jobs[job].(stage := stage, updated := now)];
      }
    }

    method RenewLease(job: string, worker: string, lease: real, now: real) returns (renewed: bool)
      modifies this`jobs
      ensures renewed == Owns(old(Tables()), job, worker)
      ensures Tables() == Renewed(old(Tables()), job, worker, now, lease)
      ensures renewed <==> job in old(jobs) && old(jobs)[job].status == Running && old(jobs)[job].owner == Some(worker)
      ensures renewed ==> job in jobs && jobs[job].leaseEnd == Some(now + lease)
    {
      renewed := Owns(Tables(), job, worker);
      if renewed {
        jobs := jobs[job := jobs[job].(leaseEnd := Some(now + lease), updated := now)];
      }
    }

    method Finish(job: string, result: string, worker: string, webhook: Option<string>, now: real) returns (committed: bool)
      modifies this
      ensures committed == Owns(old(Tables()), job, worker)
      ensures Tables() == Finished(old(Tables()), job, worker, result, webhook, now)
    {
      committed := Owns(Tables(), job, worker);
      if committed {
        jobs := jobs[job := jobs[job].(status := Completed, result := Some(result), updated := now, owner := None, leaseEnd := None)];
        InsertJobStats(job, Completed, Some(worker), now);
        InsertWebhook(job, webhook, Completed, Some(result));
      }
    }

    method Fail(job: string, error: string, kind: FailureKind, worker: string, webhook: Option<string>, now: real) returns (committed: bool)
      modifies this
      ensures committed == Owns(old(Tables()), job, worker)
      ensures Tables() == FailedWith(old(Tables()), job, worker, error, kind, webhook, now)
    {
      committed := Owns(Tables(), job, worker);
      if committed {
        jobs := jobs[job := jobs[job].(status := Failed, error := Some(error), updated := now, failure := Some(kind),
          owner := None, leaseEnd := None)];
        InsertJobStats(job, Failed, Some(worker), now);
        InsertWebhook(job, webhook, Failed, Some(error));
      }
    }

    method Cancel(job: string, client: string, webhook: Option<string>, now: real) returns (cancelled: Option<Row>)
      modifies this
      ensures cancelled.Some? <==> Cancellable(old(Tables()), job, client)
      ensures Tables() == CancelledBy(old(Tables()), job, client, webhook, now)
      ensures cancelled.Some? ==> job in jobs && cancelled.value == jobs[job]
    {
      cancelled := None;
      if job in jobs && jobs[job].client == client && (jobs[job].status == Queued || jobs[job].status == Running) {
        jobs := jobs[job := jobs[job].(status := Cancelled, updated := now, failure := Some(Cancellation), cancelledAt := Some(now),
          owner := None, leaseEnd := None)];
        InsertJobStats(job, Cancelled, None, now);
        InsertWebhook(job, webhook, Cancelled, None);
        cancelled := Some(jobs[job]);
      }
    }

    method InsertJobStats(job: string, status: Status, worker: Option<string>, now: real)
      requires job in jobs && jobs[job].status == status
      modifies this`stats
      ensures stats == if job in old(stats) then old(stats) else old(stats)[job := StatsOf(jobs[job], worker, now)]
    {
      if job !in stats {
        var row := jobs[job];
        stats := stats[job := Stats(row.client, status, row.attempt, worker, row.created, row.started, now)];
      }
    }

    method InsertWebhook(job: string, url: Option<string>, status: Status, body: Option<string>)
      modifies this`outbox
      ensures outbox == if url.Some? then old(outbox) + [Event(job, url.value, status, body)] else old(outbox)
    {
      if url.Some? {
        outbox := outbox + [Event(job, url.value, status, body)];
      }
    }

    method PurgeOlderThan(cutoff: real) returns (removed: set<string>)
      modifies this
      ensures removed == set j | j in old(jobs) && Purgeable(old(jobs)[j], cutoff)
      ensures Tables() == Purged(old(Tables()), cutoff)
    {
      removed := set j | j in jobs && Terminal(jobs[j]) && jobs[j].updated < cutoff;
      var before := jobs;
      outbox := Filter((event: Event) => event.job in before && !Purgeable(before[event.job], cutoff), outbox);
      jobs := jobs - removed;
    }

    method PurgeStatsOlderThan(cutoff: real) returns (removed: nat)
      modifies this`stats
      ensures removed == |set j | j in old(stats) && old(stats)[j].finished < cutoff|
      ensures Tables() == StatsPurged(old(Tables()), cutoff)
    {
      var expired := set j | j in stats && stats[j].finished < cutoff;
      removed := |expired|;
      stats := stats - expired;
    }

    method MarkWebhookDelivered(at: nat)
      modifies this`outbox
      ensures Tables() == Delivered(old(Tables()), at)
    {
      if at < |outbox| {
        outbox := outbox[..at] + outbox[at + 1..];
      }
    }
  }
}
