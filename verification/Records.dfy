/** What the tables and the commit log say about each job, kept by every transaction of
    src/vemsa/jobs/postgres_store.py: how often it came to an outcome, what was inserted for it then,
    and how what is left of its row, its statistics and its webhook event agrees with that outcome. */
module Records {
  import opened Base
  import opened Tables
  import opened Protocol

  // ---- the log, told per job

  /** What the log tells of a job: how often it came to an outcome, how many statistics rows and webhook
      events were inserted for it, how often it was released, the attempt last released, and the row
      its outcome left. */
  datatype Tale = Tale(outcomes: nat, counted: nat, sent: nat, requeues: nat, last: nat, final: Option<Row>)

  const Untold := Tale(0, 0, 0, 0, 0, None)

  function Tell(tale: Tale, commit: Commit, j: string): Tale {
    if commit.job != j then tale
    else match commit
      case Outcome(_, _, row, inserted, event) =>
        tale.(outcomes := tale.outcomes + 1, counted := tale.counted + if inserted then 1 else 0,
          sent := tale.sent + if event.Some? then 1 else 0, final := Some(row))
      case Requeue(_, _, row) => tale.(requeues := tale.requeues + 1, last := row.attempt)
  }

  function TaleOf(log: seq<Commit>, j: string): Tale {
    if log == [] then Untold else Tell(TaleOf(log[..|log| - 1], j), log[|log| - 1], j)
  }

  lemma {:induction false} TaleSnoc(log: seq<Commit>, commit: Commit, j: string)
    ensures TaleOf(log + [commit], j) == Tell(TaleOf(log, j), commit, j)
  {
    assert (log + [commit])[..|log|] == log;
  }

  function Events(outbox: seq<Event>, j: string): seq<Event> {
    Filter((event: Event) => event.job == j, outbox)
  }

  // ---- the invariant

  /** The columns of one row agree with its status. */
  ghost predicate RowOk(row: Row) {
    && (row.status == Running <==> row.owner.Some?) && (row.status == Running <==> row.leaseEnd.Some?)
    && (row.failure.Some? <==> row.status == Failed || row.status == Cancelled)
    && (row.failure == Some(Cancellation) <==> row.status == Cancelled)
    && (row.result.Some? <==> row.status == Completed) && (row.error.Some? <==> row.status == Failed)
    && (row.cancelledAt.Some? <==> row.status == Cancelled)
    && (row.status == Completed ==> row.stage == Finalizing) && (row.status == Queued ==> row.stage == Waiting)
    && (row.status == Running || row.status == Completed || row.status == Failed ==> row.attempt > 0)
    && (row.attempt > 0 <==> row.started.Some?)
    && (row.retryAfter.Some? ==> row.status == Queued || row.status == Cancelled)
  }

  /** All that an outcome fixes of a row: every column but the path of the audio and the time of the
      last update, which a worker that just fetched the audio writes unguarded. */
  ghost predicate SameButAudio(a: Row, b: Row) {
    a == b.(audio := a.audio, updated := a.updated)
  }

  /** What the webhook of a terminal job carries besides its status. */
  function BodyOf(row: Row): Option<string> {
    if row.status == Completed then row.result else if row.status == Failed then row.error else None
  }

  /** A statistics row made of this terminal row. */
  ghost predicate Counts(stats: Stats, row: Row) {
    && stats.status == row.status && stats.attempts == row.attempt && stats.client == row.client
    && stats.created == row.created && stats.started == row.started
  }

  /** A webhook event made of this terminal row. */
  ghost predicate Tells(event: Event, row: Row) {
    event.status == row.status && row.webhook == Some(event.url) && event.body == BodyOf(row)
  }

  /** A job comes to an outcome at most once; that once a statistics row is inserted, and a webhook event
      if it has a URL. What is left of the two agrees with the outcome. */
  ghost predicate TaleOk(tale: Tale, stats: Option<Stats>, events: seq<Event>) {
    && tale.outcomes == tale.counted == (if tale.final.Some? then 1 else 0)
    && tale.sent == (if tale.final.Some? && tale.final.value.webhook.Some? then 1 else 0)
    && (tale.final.Some? ==> Terminal(tale.final.value))
    && (stats.Some? ==> tale.final.Some? && Counts(stats.value, tale.final.value))
    && |events| <= tale.sent && (forall e :: e in events ==> tale.final.Some? && Tells(e, tale.final.value))
  }

  /** A retained job is terminal exactly after its outcome, and is then as the outcome left it; it was
      never released for an attempt it still runs. */
  ghost predicate RetainedOk(row: Row, tale: Tale) {
    && RowOk(row)
    && (Terminal(row) <==> tale.final.Some?) && (tale.final.Some? ==> SameButAudio(row, tale.final.value))
    && tale.last <= row.attempt && (row.status == Running ==> tale.last < row.attempt)
  }

  /** Only a job that came to its outcome is ever gone, and its events with it. */
  ghost predicate GoneOk(events: seq<Event>, tale: Tale, wasBorn: bool) {
    events == [] && (tale.final.Some? <==> wasBorn)
  }

  function Lookup<V>(m: map<string, V>, j: string): Option<V> {
    if j in m then Some(m[j]) else None
  }

  ghost predicate JobOk(cfg: Config, db: Db, log: seq<Commit>, born: set<string>, j: string) {
    && TaleOk(TaleOf(log, j), Lookup(db.stats, j), Events(db.outbox, j))
    && (if j in db.jobs then j in born && RetainedOk(db.jobs[j], TaleOf(log, j))
        else GoneOk(Events(db.outbox, j), TaleOf(log, j), j in born))
    && TaleOf(log, j).requeues <= TaleOf(log, j).last
    && (TaleOf(log, j).last == 0 || TaleOf(log, j).last < cfg.oomMaxAttempts)
    && (j !in born ==> TaleOf(log, j).last == 0)
  }

  /** A commit made for a run hit the attempt the run had claimed; its statistics were new, and it sent its
      event exactly when the job has a URL. */
  ghost predicate Fenced(commit: Commit) {
    && (commit.run.Some? ==> commit.run.value == commit.row.attempt)
    && (commit.Outcome? ==>
      && commit.inserted && (commit.event.Some? <==> commit.row.webhook.Some?)
      && (commit.event.Some? ==> commit.event.value.job == commit.job && Tells(commit.event.value, commit.row)))
  }

  ghost predicate KeysOk(db: Db) {
    forall i, j :: i in db.jobs && j in db.jobs && i != j && db.jobs[i].client == db.jobs[j].client && db.jobs[i].key.Some?
      ==> db.jobs[i].key != db.jobs[j].key
  }

  ghost predicate CapsOk(cfg: Config, db: Db) {
    && (cfg.maxActive.Some? ==> |ActiveJobs(db)| <= cfg.maxActive.value)
    && (cfg.maxPerClient.Some? ==> forall client :: |ActiveJobsOf(db, client)| <= cfg.maxPerClient.value)
  }

  ghost predicate RecordsOk(cfg: Config, db: Db, log: seq<Commit>, born: set<string>) {
    && (forall j :: JobOk(cfg, db, log, born, j))
    && (forall c :: c in log ==> Fenced(c))
    && KeysOk(db) && CapsOk(cfg, db)
  }

  // ---- frames

  ghost predicate SameIdentity(a: Row, b: Row) {
    a.client == b.client && a.webhook == b.webhook && a.key == b.key && a.digest == b.digest && a.created == b.created
  }

  lemma {:induction false} SubsetIsSmaller(a: set<string>, b: set<string>)
    requires a <= b
    ensures |a| <= |b|
  {
    if a != {} {
      var x :| x in a;
      SubsetIsSmaller(a - {x}, b - {x});
    }
  }

  /** Whatever makes no row active and no row new keeps the caps. */
  lemma {:induction false} FewerActive(cfg: Config, db: Db, db': Db)
    requires CapsOk(cfg, db)
    requires forall j :: j in db'.jobs && Active(db'.jobs[j]) ==>
      j in db.jobs && Active(db.jobs[j]) && db'.jobs[j].client == db.jobs[j].client
    ensures CapsOk(cfg, db')
  {
    SubsetIsSmaller(ActiveJobs(db'), ActiveJobs(db));
    forall client ensures |ActiveJobsOf(db', client)| <= |ActiveJobsOf(db, client)| {
      SubsetIsSmaller(ActiveJobsOf(db', client), ActiveJobsOf(db, client));
    }
  }

  /** The events left of those before. */
  ghost predicate LeftOf(events: seq<Event>, before: seq<Event>) {
    |events| <= |before| && forall e :: e in events ==> e in before
  }

  /** A job stays consistent when its row and log are as they were, and its statistics and events are or
      are fewer. */
  lemma {:induction false} JobFrame(cfg: Config, db: Db, log: seq<Commit>, born: set<string>, db': Db, log': seq<Commit>, born': set<string>, j: string)
    requires JobOk(cfg, db, log, born, j) && (j in born <==> j in born')
    requires Lookup(db.jobs, j) == Lookup(db'.jobs, j) && (Lookup(db.stats, j) == Lookup(db'.stats, j) || j !in db'.stats)
    requires LeftOf(Events(db'.outbox, j), Events(db.outbox, j)) && TaleOf(log, j) == TaleOf(log', j)
    ensures JobOk(cfg, db', log', born', j)
  {
    hide Events, TaleOf, RetainedOk;
  }

  /** An update of one active row that leaves it active. */
  lemma {:induction false} UpdateKeepsRecords(cfg: Config, db: Db, log: seq<Commit>, born: set<string>, j: string, row: Row)
    requires RecordsOk(cfg, db, log, born) && j in db.jobs && Active(db.jobs[j])
    requires Active(row) && SameIdentity(row, db.jobs[j]) && RowOk(row) && row.attempt >= db.jobs[j].attempt
    requires row.status == Running ==> TaleOf(log, j).last < row.attempt
    ensures RecordsOk(cfg, Put(db, j, row), log, born)
  {
    hide Events, TaleOf, CapsOk;
    var db' := Put(db, j, row);
    forall k ensures JobOk(cfg, db', log, born, k) {
      assert JobOk(cfg, db, log, born, k);
      if k != j {
        JobFrame(cfg, db, log, born, db', log, born, k);
      }
    }
    FewerActive(cfg, db, db');
  }

  lemma {:induction false} ReleaseKeepsRecords(cfg: Config, db: Db, log: seq<Commit>, born: set<string>, j: string, row: Row)
    requires RecordsOk(cfg, db, log, born) && j in db.jobs && db.jobs[j].status == Running && db.jobs[j].attempt < cfg.oomMaxAttempts
    requires row.status == Queued && SameIdentity(row, db.jobs[j]) && RowOk(row) && row.attempt == db.jobs[j].attempt
    ensures RecordsOk(cfg, Put(db, j, row), log + [Requeue(j, Some(row.attempt), row)], born)
  {
    hide Events, TaleOf, CapsOk;
    var db' := Put(db, j, row);
    var log' := log + [Requeue(j, Some(row.attempt), row)];
    forall k ensures JobOk(cfg, db', log', born, k) {
      assert JobOk(cfg, db, log, born, k);
      TaleSnoc(log, Requeue(j, Some(row.attempt), row), k);
      if k != j {
        JobFrame(cfg, db, log, born, db', log', born, k);
      }
    }
    FewerActive(cfg, db, db');
  }

  /** A terminal update: the outcome, the statistics and the event come together. */
  lemma {:induction false} SettleKeepsRecords(cfg: Config, db: Db, log: seq<Commit>, born: set<string>, j: string, row: Row,
                             worker: Option<string>, now: real, run: Option<nat>)
    requires RecordsOk(cfg, db, log, born) && j in db.jobs && Active(db.jobs[j])
    requires Terminal(row) && SameIdentity(row, db.jobs[j]) && RowOk(row) && row.attempt == db.jobs[j].attempt
    requires run.Some? ==> run.value == row.attempt
    ensures RecordsOk(cfg, Settled(db, j, row, worker, row.webhook, BodyOf(row), now),
                      log + [Settlement(db, j, row, run, row.webhook, BodyOf(row))], born)
  {
    hide Events, TaleOf, CapsOk, JobOk;
    var db' := Settled(db, j, row, worker, row.webhook, BodyOf(row), now);
    var commit := Settlement(db, j, row, run, row.webhook, BodyOf(row));
    forall k ensures JobOk(cfg, db', log + [commit], born, k) {
      assert JobOk(cfg, db, log, born, k);
      if k == j {
        SettledJob(cfg, db, log, born, j, row, worker, now, run);
      } else {
        TaleSnoc(log, commit, k);
        if row.webhook.Some? {
          EventsSnoc(db.outbox, Event(j, row.webhook.value, row.status, BodyOf(row)), k);
        }
        JobFrame(cfg, db, log, born, db', log + [commit], born, k);
      }
    }
    FewerActive(cfg, db, db');
    NotYetCounted(cfg, db, log, born, j);
  }

  lemma {:induction false} NotYetCounted(cfg: Config, db: Db, log: seq<Commit>, born: set<string>, j: string)
    requires JobOk(cfg, db, log, born, j) && j in db.jobs && Active(db.jobs[j])
    ensures j !in db.stats && Events(db.outbox, j) == []
  {
    hide Events, TaleOf;
  }

  lemma {:induction false} SettledJob(cfg: Config, db: Db, log: seq<Commit>, born: set<string>, j: string, row: Row,
                             worker: Option<string>, now: real, run: Option<nat>)
    requires JobOk(cfg, db, log, born, j) && j in db.jobs && Active(db.jobs[j])
    requires Terminal(row) && SameIdentity(row, db.jobs[j]) && RowOk(row) && row.attempt == db.jobs[j].attempt
    ensures JobOk(cfg, Settled(db, j, row, worker, row.webhook, BodyOf(row), now),
                  log + [Settlement(db, j, row, run, row.webhook, BodyOf(row))], born, j)
  {
    hide Events, TaleOf;
    NotYetCounted(cfg, db, log, born, j);
    TaleSnoc(log, Settlement(db, j, row, run, row.webhook, BodyOf(row)), j);
    if row.webhook.Some? {
      EventsSnoc(db.outbox, Event(j, row.webhook.value, row.status, BodyOf(row)), j);
    }
  }

  lemma {:induction false} EventsSnoc(outbox: seq<Event>, event: Event, j: string)
    ensures Events(outbox + [event], j) == if event.job == j then Events(outbox, j) + [event] else Events(outbox, j)
  {
    FilterSnoc((e: Event) => e.job == j, outbox, event);
  }

  lemma {:induction false} CreateKeepsRecords(cfg: Config, db: Db, log: seq<Commit>, born: set<string>, j: string, client: string,
                             webhook: Option<string>, audio: Option<string>, key: Option<string>, digest: Option<string>, now: real)
    requires RecordsOk(cfg, db, log, born) && j !in born
    requires Admits(db, cfg.maxActive, cfg.maxPerClient, client, key)
    ensures RecordsOk(cfg, Put(db, j, NewRow(client, webhook, audio, key, digest, now)), log, born + {j})
  {
    hide Events, TaleOf, KeysOk, CapsOk, Admits;
    var row := NewRow(client, webhook, audio, key, digest, now);
    var db' := Put(db, j, row);
    assert JobOk(cfg, db, log, born, j);
    forall k ensures JobOk(cfg, db', log, born + {j}, k) {
      assert JobOk(cfg, db, log, born, k);
      if k != j {
        JobFrame(cfg, db, log, born, db', log, born + {j}, k);
      }
    }
    CreateKeepsKeys(cfg, db, j, row);
    CreateKeepsCaps(cfg, db, j, row);
  }

  lemma {:induction false} CreateKeepsKeys(cfg: Config, db: Db, j: string, row: Row)
    requires KeysOk(db) && j !in db.jobs && Admits(db, cfg.maxActive, cfg.maxPerClient, row.client, row.key)
    ensures KeysOk(Put(db, j, row))
  {
    hide ActiveJobs, ActiveJobsOf;
    forall i | i in db.jobs && row.key.Some? && db.jobs[i].client == row.client ensures db.jobs[i].key != row.key {
      assert !Keyed(db, row.client, row.key, i);
    }
  }

  lemma {:induction false} CreateKeepsCaps(cfg: Config, db: Db, j: string, row: Row)
    requires CapsOk(cfg, db) && j !in db.jobs && Admits(db, cfg.maxActive, cfg.maxPerClient, row.client, row.key)
    ensures CapsOk(cfg, Put(db, j, row))
  {
    var db' := Put(db, j, row);
    SubsetIsSmaller(ActiveJobs(db'), ActiveJobs(db) + {j});
    forall other ensures |ActiveJobsOf(db', other)| <= |ActiveJobsOf(db, other)| + if other == row.client then 1 else 0 {
      SubsetIsSmaller(ActiveJobsOf(db', other), ActiveJobsOf(db, other) + if other == row.client then {j} else {});
    }
  }

  lemma {:induction false} PurgeKeepsRecords(cfg: Config, db: Db, log: seq<Commit>, born: set<string>, cutoff: real)
    requires RecordsOk(cfg, db, log, born)
    ensures RecordsOk(cfg, Purged(db, cutoff), log, born)
  {
    hide Events, TaleOf, CapsOk;
    var db' := Purged(db, cutoff);
    forall j ensures JobOk(cfg, db', log, born, j) {
      assert JobOk(cfg, db, log, born, j);
      PurgedEvents(db, cutoff, j);
      if j in db'.jobs || j !in db.jobs {
        JobFrame(cfg, db, log, born, db', log, born, j);
      }
    }
    FewerActive(cfg, db, db');
  }

  /** Statistics may go before their job or after it: no outcome is counted again. */
  lemma {:induction false} PurgeStatsKeepsRecords(cfg: Config, db: Db, log: seq<Commit>, born: set<string>, cutoff: real)
    requires RecordsOk(cfg, db, log, born)
    ensures RecordsOk(cfg, StatsPurged(db, cutoff), log, born)
  {
    hide Events, TaleOf, CapsOk, JobOk;
    forall j ensures JobOk(cfg, StatsPurged(db, cutoff), log, born, j) {
      assert JobOk(cfg, db, log, born, j);
      JobFrame(cfg, db, log, born, StatsPurged(db, cutoff), log, born, j);
    }
    FewerActive(cfg, db, StatsPurged(db, cutoff));
  }

  lemma {:induction false} DeliveryKeepsRecords(cfg: Config, db: Db, log: seq<Commit>, born: set<string>, at: nat)
    requires RecordsOk(cfg, db, log, born)
    ensures RecordsOk(cfg, Delivered(db, at), log, born)
  {
    hide Events, TaleOf, CapsOk, JobOk;
    forall j ensures JobOk(cfg, Delivered(db, at), log, born, j) {
      assert JobOk(cfg, db, log, born, j);
      if at < |db.outbox| {
        FewerEvents(db.outbox, at, j);
      }
      JobFrame(cfg, db, log, born, Delivered(db, at), log, born, j);
    }
    FewerActive(cfg, db, Delivered(db, at));
  }

  lemma {:induction false} FewerEvents(outbox: seq<Event>, at: nat, j: string)
    requires at < |outbox|
    ensures LeftOf(Events(outbox[..at] + outbox[at + 1..], j), Events(outbox, j))
  {
    var mine := (event: Event) => event.job == j;
    var before, after := outbox[..at], outbox[at + 1..];
    FilterAppend(mine, before, after);
    FilterAppend(mine, before + [outbox[at]], after);
    FilterAppend(mine, before, [outbox[at]]);
    assert before + [outbox[at]] + after == outbox;
  }

  /** The path of the audio, written unguarded, changes nothing a record speaks of. */
  lemma {:induction false} AudioKeepsRecords(cfg: Config, db: Db, log: seq<Commit>, born: set<string>, j: string, path: string, now: real)
    requires RecordsOk(cfg, db, log, born)
    ensures RecordsOk(cfg, WithAudio(db, j, path, now), log, born)
  {
    hide Events, TaleOf, CapsOk, JobOk, KeysOk;
    var db' := WithAudio(db, j, path, now);
    forall k ensures JobOk(cfg, db', log, born, k) {
      assert JobOk(cfg, db, log, born, k);
      if k == j {
        AudioJob(cfg, db, log, born, j, path, now);
      } else {
        JobFrame(cfg, db, log, born, db', log, born, k);
      }
    }
    AudioKeepsKeys(db, j, path, now);
    FewerActive(cfg, db, db');
  }

  lemma {:induction false} AudioJob(cfg: Config, db: Db, log: seq<Commit>, born: set<string>, j: string, path: string, now: real)
    requires JobOk(cfg, db, log, born, j)
    ensures JobOk(cfg, WithAudio(db, j, path, now), log, born, j)
  {
    hide Events, TaleOf;
  }

  lemma {:induction false} AudioKeepsKeys(db: Db, j: string, path: string, now: real)
    requires KeysOk(db)
    ensures KeysOk(WithAudio(db, j, path, now))
  {
  }

  /** The events of the jobs that stay, stay; the others' go. */
  lemma {:induction false} PurgedEvents(db: Db, cutoff: real, j: string)
    requires j !in db.jobs ==> Events(db.outbox, j) == []
    ensures Events(Purged(db, cutoff).outbox, j) == if j in Purged(db, cutoff).jobs then Events(db.outbox, j) else []
  {
    var stays := (event: Event) => event.job in db.jobs && !Purgeable(db.jobs[event.job], cutoff);
    var mine := (event: Event) => event.job == j;
    FilterOfFilter(stays, mine, db.outbox, j in Purged(db, cutoff).jobs);
  }

  lemma {:induction false} FilterOfFilter<T(!new)>(p: T -> bool, q: T -> bool, xs: seq<T>, all: bool)
    requires forall x :: q(x) ==> (p(x) <==> all)
    ensures Filter(q, Filter(p, xs)) == if all then Filter(q, xs) else []
  {
    if xs != [] {
      FilterOfFilter(p, q, xs[1..], all);
      var rest := Filter(p, xs[1..]);
      assert Filter(p, xs) == if p(xs[0]) then [xs[0]] + rest else rest;
    }
  }
}
