/** Short runs of the lease protocol that show some of its conditions at work. */
module Scenarios {
  import opened Base
  import opened Tables
  import opened Protocol
  import opened History

  /** Room for one job and two runs. */
  predicate Roomy(cfg: Config) {
    cfg.maxActive != Some(0) && cfg.maxPerClient != Some(0) && cfg.concurrency >= 2 && cfg.lease >= 0.0
  }

  lemma {:induction false} InitIsReachable(cfg: Config)
    ensures Reachable(cfg, Init)
  {
    var trace: seq<State>, steps: seq<Step> := [Init], [];
    assert Path(cfg, trace, steps) && trace[0] == Init && trace[|steps|] == Init;
  }

  lemma {:induction false} Onward(cfg: Config, s: State, step: Step)
    requires Reachable(cfg, s) && Enabled(cfg, s, step)
    ensures Reachable(cfg, After(cfg, s, step))
  {
    OneStepOn(cfg, s, step);
    LeadsOn(cfg, Init, s, After(cfg, s, step));
  }

  // ---- one job and the worker that runs it

  const JOB := "job"
  const CLIENT := "client"
  const WORKER := "worker"

  function Fresh(audio: Option<string>): Row {
    NewRow(CLIENT, None, audio, None, None, 0.0)
  }

  ghost function Alone(cfg: Config, row: Row, run: Run, now: real): State
    requires cfg.concurrency >= 1
  {
    State(Db(map[JOB := row], map[], []), now, map[WORKER := Worker(cfg.concurrency - 1, map[JOB := 0], None)], map[0 := run], [], {JOB})
  }

  ghost function Waits(audio: Option<string>): State {
    State(Db(map[JOB := Fresh(audio)], map[], []), 0.0, map[], map[], [], {JOB})
  }

  lemma {:induction false} CanWait(cfg: Config, audio: Option<string>)
    requires Roomy(cfg)
    ensures Reachable(cfg, Waits(audio))
  {
    InitIsReachable(cfg);
    var step := Create(JOB, CLIENT, None, audio, None, None);
    assert ActiveJobs(Init.db) == {} && ActiveJobsOf(Init.db, CLIENT) == {};
    assert Admits(Init.db, cfg.maxActive, cfg.maxPerClient, CLIENT, None);
    hide Reachable;
    Onward(cfg, Init, step);
    assert After(cfg, Init, step) == Waits(audio);
  }

  ghost function Works(cfg: Config, audio: Option<string>, phase: Phase): State
    requires Roomy(cfg)
  {
    Alone(cfg, ClaimedRow(Fresh(audio), WORKER, 0.0, cfg.lease), Run(WORKER, JOB, 1, None, audio, Waiting, phase), 0.0)
  }

  ghost function Ticketed(cfg: Config, audio: Option<string>): State {
    var row := ClaimedRow(Fresh(audio), WORKER, 0.0, cfg.lease);
    State(Db(map[JOB := row], map[], []), 0.0, map[WORKER := Worker(cfg.concurrency, map[], Some(TicketOf(JOB, row)))], map[], [], {JOB})
  }

  lemma {:induction false} CanTicket(cfg: Config, audio: Option<string>)
    requires Roomy(cfg)
    ensures Reachable(cfg, Ticketed(cfg, audio))
  {
    hide Reachable;
    CanWait(cfg, audio);
    var s := Waits(audio);
    Onward(cfg, s, Join(WORKER));
    s := After(cfg, s, Join(WORKER));
    assert s.workers == map[WORKER := Worker(cfg.concurrency, map[], None)];
    assert Oldest(s.db, {}, s.now, JOB);
    Onward(cfg, s, Claim(WORKER, {}, JOB));
    assert After(cfg, s, Claim(WORKER, {}, JOB)) == Ticketed(cfg, audio);
  }

  lemma {:induction false} CanWork(cfg: Config, audio: Option<string>)
    requires Roomy(cfg)
    ensures Reachable(cfg, Works(cfg, audio, Working))
  {
    hide Reachable;
    CanTicket(cfg, audio);
    var s := Ticketed(cfg, audio);
    Onward(cfg, s, Start(WORKER, 0));
    s := After(cfg, s, Start(WORKER, 0));
    assert s == Works(cfg, audio, Opening);
    Onward(cfg, s, Open(0, None));
    s := After(cfg, s, Open(0, None));
    assert s == Works(cfg, audio, Working);
  }

  /** The run has written a stage, and its lease has lapsed. */
  ghost function Lapsed(cfg: Config, stage: Stage, phase: Phase): State
    requires Roomy(cfg)
  {
    Alone(cfg, ClaimedRow(Fresh(Some("audio")), WORKER, 0.0, cfg.lease).(stage := stage),
      Run(WORKER, JOB, 1, None, Some("audio"), stage, phase), cfg.lease + 1.0)
  }

  lemma {:induction false} ReportWrites(cfg: Config, stage: Stage)
    requires Roomy(cfg)
    ensures AfterReport(Works(cfg, Some("audio"), Working), 0, stage, None) == Lapsed(cfg, stage, Working).(now := 0.0)
  {
  }

  lemma {:induction false} FinalizeWrites(cfg: Config)
    requires Roomy(cfg)
    ensures AfterFinalize(Works(cfg, Some("audio"), Working), 0, None) == Lapsed(cfg, Finalizing, Closing).(now := 0.0)
  {
  }

  lemma {:induction false} CanLapse(cfg: Config, stage: Stage)
    requires Roomy(cfg)
    ensures Reachable(cfg, Lapsed(cfg, stage, Working)) && Reachable(cfg, Lapsed(cfg, Finalizing, Closing))
  {
    hide Reachable, AfterReport, AfterFinalize;
    CanWork(cfg, Some("audio"));
    var s := Works(cfg, Some("audio"), Working);
    Onward(cfg, s, Report(0, stage, None));
    ReportWrites(cfg, stage);
    Onward(cfg, AfterReport(s, 0, stage, None), Tick(cfg.lease + 1.0));
    Onward(cfg, s, Finalize(0, None));
    FinalizeWrites(cfg);
    Onward(cfg, AfterFinalize(s, 0, None), Tick(cfg.lease + 1.0));
  }

  // ---- a claim that hands out a stage

  /** The claim's run starts at a stage it never wrote. */
  ghost predicate HandsOut(cfg: Config, s: State, step: Step, stage: Stage) {
    && step.Claim? && Enabled(cfg, s, step)
    && After(cfg, s, step).workers[step.worker].pending.Some? && After(cfg, s, step).workers[step.worker].pending.value.stage == stage
  }

  lemma {:induction false} LapsedLeaseHandsOutItsStage(cfg: Config, stage: Stage)
    requires Roomy(cfg)
    ensures exists s, step :: Reachable(cfg, s) && HandsOut(cfg, s, step, stage)
  {
    hide Reachable;
    CanLapse(cfg, stage);
    var s := Lapsed(cfg, stage, Working);
    Onward(cfg, s, Join("another"));
    s := After(cfg, s, Join("another"));
    assert Oldest(s.db, {}, s.now, JOB);
    assert HandsOut(cfg, s, Claim("another", {}, JOB), stage);
  }

  // ---- a claim that only the exclusion forbids

  /** Run r is about to finish, and but for the exclusion its own worker would claim the job again. */
  ghost predicate OnlyExcluded(s: State, r: nat) {
    && In(s, r, Closing) && Held(s, s.runs[r]) && s.runs[r].worker in s.workers && s.runs[r].job in s.workers[s.runs[r].worker].active
    && s.workers[s.runs[r].worker].pending.None? && s.workers[s.runs[r].worker].slots > 0
    && Oldest(s.db, {}, s.now, s.runs[r].job)
  }

  lemma {:induction false} ExclusionIsNeeded(cfg: Config)
    requires Roomy(cfg)
    ensures exists s, r :: Reachable(cfg, s) && OnlyExcluded(s, r)
  {
    hide Reachable;
    CanLapse(cfg, Finalizing);
    assert OnlyExcluded(Lapsed(cfg, Finalizing, Closing), 0);
  }

  // ---- a late fetch

  /** The step changes a row that is already terminal. */
  ghost predicate Touches(cfg: Config, s: State, step: Step, j: string) {
    && Enabled(cfg, s, step) && j in s.db.jobs && Terminal(s.db.jobs[j])
    && j in After(cfg, s, step).db.jobs && After(cfg, s, step).db.jobs[j].updated > s.db.jobs[j].updated
  }

  ghost function CancelledMeanwhile(cfg: Config): State
    requires Roomy(cfg)
  {
    AfterCancel(Works(cfg, None, Working), JOB, CLIENT).(now := 1.0)
  }

  lemma {:induction false} CanCancel(cfg: Config)
    requires Roomy(cfg)
    ensures Reachable(cfg, CancelledMeanwhile(cfg))
  {
    hide Reachable, AfterCancel;
    CanWork(cfg, None);
    var s := Works(cfg, None, Working);
    Onward(cfg, s, Cancel(JOB, CLIENT));
    CancelKeepsTime(s);
    Onward(cfg, AfterCancel(s, JOB, CLIENT), Tick(1.0));
  }

  lemma {:induction false} CancelKeepsTime(s: State)
    ensures AfterCancel(s, JOB, CLIENT).now == s.now && AfterCancel(s, JOB, CLIENT).runs == s.runs
  {
  }

  lemma {:induction false} LateFetchTouchesATerminalRow(cfg: Config)
    requires Roomy(cfg)
    ensures exists s, step, j :: Reachable(cfg, s) && Touches(cfg, s, step, j)
  {
    hide Reachable;
    CanCancel(cfg);
    assert Touches(cfg, CancelledMeanwhile(cfg), SetAudio(0, "audio"), JOB);
  }
}
