# Vemsa: transcripts, speakers and leases

A Dafny model of the logic at the heart of Vemsa, a transcription service, with proofs of what its
documentation and tests promise. `dafny verify dfyconfig.toml` checks all of it.

- **The lease protocol** (`Tables`, `Store`, `Protocol`, `Records`, `Crew`, `Safety`, `History`, `Guarantees`, `Scenarios`,
  `Leases`, `Effects`, `Queue`). Jobs live in tables changed by guarded updates; any number of workers claim, run, renew, finish, fail and
  release them while clients create and cancel, audio is fetched, webhook events are delivered, and old jobs and old
  statistics are purged. `Store.PostgresJobStore` is the store, `Queue.JobQueue` one worker process; `Protocol` is the
  state machine of the whole system, one step per transaction or local change. Each method of the worker is proved to
  take exactly one step of it. Replies of the store may be lost after the update committed, runs may end at any moment,
  leases may lapse. There is no fencing token: that only the current attempt commits follows from the owner guards
  together with the active jobs every claim excludes. `Leases` says how long a lease and a cooldown keep others away,
  `Effects` what each kind of step writes.
- **Attribution** (`Labelling`, `Runs`, `Islands`, `SecondPass`, `Snapping`, `Lines`, `Orphans`, `Attribution`). Words are labelled by
  the diarizer's turns, islands smoothed, speaker changes snapped to sentence ends, lines grouped, orphans merged. Each
  loop is proved against a rule that mentions no loop, and the whole pipeline conserves the words. `WordRule`,
  `Stretches`, `Changes` and `Strays` tell what each stage does in terms of words, times and sentence marks alone.
- **Renaming clusters** (`Tallies`, `Renaming`, `Relabel`, `Agreement`) and **segments without words** (`Spans`,
  `SegmentSplit`, `SegmentLabels`, and on their results `Hearing`, `Cutting`, `Mixed`). Dicts of running sums are tied to
  plain sums over all turns.
- **Realignment and numbers** (`Text`, `Normalize`, `Words`, `Speller`, `ReadBack`, `Spelling`, `Letters`, `SpelledNumbers`,
  `Decimal`, `Windows`, `Padding`, `HandBack`, `Realign`). A corrected transcript is cut into
  windows, aligned by a foreign model, and the flat answer sliced back by token counts.
- **Overlap review** (`Overlaps`, `Review`, `Flags`). A sweep finds where several people speak at once; segments are
  flagged and split there.

Timestamps are exact reals. Texts are sequences of characters over a table of character classes (`Text.CharTable`);
what the code relies on about the table is `Text.Sane`. The aligner and the diarizer are inputs; `Realign.Answers`
states what a correct aligner answers. Python's `sorted` is `Base.StableSort`, a stable sort. Configuration values obey
the bounds checked in `src/vemsa/config.py:264-326`, and timestamps the admission check `0 <= start <= end`.

Speaker names are taken to be non-empty, as every diarizer's and every caller's labels are: filling a leading silence
the code skips an empty name as if nobody spoke.

Some things differ from what one may expect of the code; each has its exact condition and an input.

- Island smoothing is not idempotent: a second pass changes something exactly when three or more runs of the input have
  grown into one that may be absorbed itself (`SecondPass`).
- A claim after a lapsed lease keeps the stage of the previous attempt, so a running job may show a later stage than its
  run has reached; every other claim hands out the first stage (`Guarantees.StageHandedOut`).
- A terminal row is not quite frozen: a run that fetched its audio too late still writes the path and, with it, the update
  time from which retention is counted (`Guarantees.OnlyALateFetchTouches`).
- Leading zeros keep a number from being read as a figure only when they are the ASCII zero
  (`SpelledNumbers.SpellingReadsBack`, `ForeignZeroIsLost`).
- A digit run of more than 4300 digits that does not begin with the ASCII zero has no Swedish spelling: `int()` raises
  `ValueError` on it under Python's default limit, which nothing lifts. Such a text is counted as tokens, but the
  normalizer yields none (`SpelledNumbers.SwedishExpansionKeepsCount`, `OverlongRunFails`).

## Model

| member | source | states |
|---|---|---|
| Guarantees.OnlyTheCurrentAttemptCommits | src/vemsa/jobs/queue.py:252-266 | Fencing without a token: on every run of any number of workers, a finish, fail or release attempted for a run commits only while the row is still at the attempt the run claimed; otherwise no table and no commit record changes |
| Guarantees.EveryCommitWasFenced | src/vemsa/jobs/postgres_store.py:465-471 | Every outcome or release ever recorded for a run was made at the attempt the row had at that moment |
| Guarantees.NoDoubleRun | src/vemsa/jobs/queue.py:289-292 | No worker ever has two runs of one job in flight, even after its own lease lapsed |
| Guarantees.RunsFitTheSlots | src/vemsa/jobs/queue.py:252-269 | The runs a worker has in flight never outnumber its slots |
| Guarantees.WithoutExclusionAStaleRunCommits | src/vemsa/jobs/postgres_store.py:302-320 | Why the claim excludes the active jobs: were a worker to claim a job one of its runs is about to finish, that run would commit its result into the row of the next attempt, and the commit would not be fenced |
| Scenarios.ExclusionIsNeeded | src/vemsa/jobs/queue.py:252-266 | With room for one job and two runs such a moment is reached: a run about to finish after its lease lapsed, its worker with a free slot, its job the oldest claimable one but for the exclusion |
| Guarantees.DoneRunsHoldNothing | src/vemsa/jobs/queue.py:297-643 | A run that came to its end does not own its row any more |
| Guarantees.RowsFollowTheirRuns | src/vemsa/jobs/queue.py:356-386 | Until it fails, a run that owns its row has the row at the stage it last wrote or was handed by the claim |
| Guarantees.StageHandedOut | src/vemsa/jobs/postgres_store.py:302-320 | A claim hands out a stage other than the first exactly when it takes over a running row with a lapsed lease at which that stage was already written; a queued row is always at the first |
| Scenarios.LapsedLeaseHandsOutItsStage | src/vemsa/jobs/queue.py:301-303 | With that room there is for every stage a reachable moment at which a claim hands it out to a run that never wrote it |
| Guarantees.OneOutcomePerJob | src/vemsa/jobs/postgres_store.py:541-581 | At most one of finish, fail and cancel ever commits for a job; exactly one has when the job is terminal or gone; each inserted one statistics row, so ON CONFLICT never fires although statistics and jobs are deleted independently; a statistics row that is left, and the retained row but for its audio and update time, are as the outcome made them |
| Guarantees.OneEventIffAsked | src/vemsa/jobs/postgres_store.py:606-625 | Over all time exactly one webhook event is inserted for a job that came to its outcome iff it was asked for with a URL, whatever was delivered, purged or deleted since |
| Guarantees.TablesAgree | src/vemsa/jobs/postgres_store.py:392-539 | For every retained job at every moment: RUNNING iff it has a lease owner; a failure kind iff FAILED or CANCELLED; a result iff COMPLETED; an error iff FAILED; statistics, while kept, only of a terminal row and with its status, attempts, client and times; at most one webhook event, only of a terminal row with a URL, with that URL, the row's status and its result or error; COMPLETED only at stage FINALIZING, QUEUED only at the first stage |
| Guarantees.FrozenUntilPurged | src/vemsa/jobs/postgres_store.py:331-651 | Until it is purged a terminal row is the same in every later state in every column but the path of the audio and the update time, and a job that is gone never comes back |
| Guarantees.OnlyALateFetchTouches | src/vemsa/jobs/queue.py:439-447 | What one step makes of a terminal row that stays: a run of its job that has just fetched the audio writes the path and the time, every other step leaves it as it is |
| Scenarios.LateFetchTouchesATerminalRow | src/vemsa/jobs/queue.py:439-447 | With that room such a write is reached: a client cancels while the audio is fetched |
| Guarantees.AdmissionHolds | src/vemsa/jobs/postgres_store.py:251-262 | Active jobs never exceed the global cap, nor any client's its own, on every run |
| Guarantees.IdentityIsKept | src/vemsa/jobs/postgres_store.py:226-278 | Client, webhook URL, idempotency key, digest and creation time of a job never change |
| Guarantees.RepeatFindsTheOriginal | src/vemsa/jobs/postgres_store.py:237-250 | While a keyed job is retained, its client and key find that job and no other, with its first digest, whatever has happened since, and a repeat inserts nothing, full or not |
| Guarantees.RetriesAreBounded | src/vemsa/jobs/queue.py:576-608 | A job is released after running out of memory at most oom_max_attempts - 1 times, counting attempts taken over after lapsed leases |
| Leases.NoClaimWithinTheLease | src/vemsa/jobs/postgres_store.py:302-320 | After a claim, a run's first renewal or a heartbeat at time t nobody can claim the job in any later state up to t + lease, for as long as the worker holds it |
| Leases.LapsesAfterTheLease | src/vemsa/jobs/postgres_store.py:302-320 | Not renewed since, a worker with a free slot and nothing else left to claim can claim the job exactly when more than the lease has passed |
| Leases.NoClaimDuringTheCooldown | src/vemsa/jobs/postgres_store.py:331-349 | A job released for a retry is claimed by nobody before its cooldown is over, whatever happens meanwhile |
| Leases.ClaimedAfterTheCooldown | src/vemsa/jobs/postgres_store.py:289-320 | Once the cooldown is over and the job still waits, a worker with nothing else to claim can claim it |
| Leases.CreateStoresTheRequest | src/vemsa/jobs/postgres_store.py:262-278 | An admitted request leaves one new row with its client, URL, audio, key and digest, queued at the first stage at no attempt, which may be claimed at once; nothing else changes |
| Guarantees.RepeatFindsTheRequest | src/vemsa/jobs/postgres_store.py:237-250 | From the step that created a job with a key on, as long as the job is retained, its client and key find that job and no other, and a request with them inserts nothing |
| Effects.AdmittedExactlyWhen | src/vemsa/jobs/postgres_store.py:237-262 | In a reachable state a request is admitted exactly when no job of the client has its key and fewer jobs than each cap are queued or running; otherwise nothing changes |
| Effects.TheOldestIsClaimed | src/vemsa/jobs/postgres_store.py:302-320 | A worker can claim a job exactly when it has a free slot and no claim under way, the job waits past its cooldown or its lease has passed, and no other such job outside the excluded ones is older |
| Effects.ClaimStartsAnAttempt | src/vemsa/jobs/postgres_store.py:302-329 | A claim puts its worker and the next attempt into the row, keeps when the job first started, its stage and its audio, and hands exactly this out |
| Effects.FinishStoresTheResult | src/vemsa/jobs/postgres_store.py:444-491 | A result that commits is in the row, its statistics tell client, status, attempts, worker and times of that row, and one event with it goes to the URL, if any; no other job is touched |
| Effects.FailStoresTheError | src/vemsa/jobs/postgres_store.py:493-539 | The same of an error |
| Effects.CancelStopsTheJob | src/vemsa/jobs/postgres_store.py:392-430 | A cancellation settles exactly the client's own queued or running job, with its time, kind, statistics and event, and does nothing otherwise |
| Effects.ReleasePutsItBack | src/vemsa/jobs/postgres_store.py:331-349 | A release changes status, stage, owner, lease, cooldown and update time of its one row and keeps the attempts counted |
| Effects.ReportWritesTheStage | src/vemsa/jobs/queue.py:356-386 | A stage that is not current is written to the run's row exactly when the run owns it, and nothing else is |
| Effects.FetchWritesTheAudio | src/vemsa/jobs/queue.py:439-447 | The path of the audio goes into the run, and into the row if there still is one, owned or not |
| Effects.DeliveryTakesOne | src/vemsa/jobs/postgres_store.py:725-730 | A delivery takes out one event, and the others keep their order |
| Effects.WhatAFailureLeadsTo | src/vemsa/jobs/queue.py:576-632 | A failed run is released for a retry exactly when memory ran out, not by the provider's fault, with attempts left; else its failure is recorded |
| Effects.FailureTellsItsKind | src/vemsa/jobs/queue.py:609-632 | The kind a committed failure stores: provider before capacity before bad input before internal, and never a cancellation |
| Effects.PurgesTakeWhatIsOld | src/vemsa/jobs/postgres_store.py:593-651 | A purge removes exactly the jobs that are over and were last updated before the cutoff, with their events, the other exactly the statistics finished before its own |
| Safety.StepKeepsInv | src/vemsa/jobs/queue.py:297-643 | Every step of the protocol, taken from any consistent state, leaves the records and the crew consistent |
| Safety.AlwaysInv | src/vemsa/jobs/queue.py:245-295 | The invariant holds in every reachable state |
| Records.SettleKeepsRecords | src/vemsa/jobs/postgres_store.py:444-581 | A terminal update brings outcome, statistics row and webhook event together and leaves every other job as it was |
| Records.ReleaseKeepsRecords | src/vemsa/jobs/postgres_store.py:331-349 | A release is recorded at an attempt larger than every earlier release of the job and below the limit |
| Records.CreateKeepsRecords | src/vemsa/jobs/postgres_store.py:226-278 | Admitting a new job keeps both caps and the one-row-per-client-and-key rule |
| Records.PurgeKeepsRecords | src/vemsa/jobs/postgres_store.py:642-651 | Purging removes terminal jobs with their webhook events and keeps the statistics and everything of the other jobs |
| Records.PurgeStatsKeepsRecords | src/vemsa/jobs/postgres_store.py:593-604 | Old statistics may go before their job or after it, and no outcome is counted again |
| Records.DeliveryKeepsRecords | src/vemsa/jobs/postgres_store.py:725-730 | Whichever event is delivered and deleted, what is left of the outbox agrees with the outcomes |
| Records.AudioKeepsRecords | src/vemsa/jobs/postgres_store.py:351-357 | The path of the audio, written whoever owns the row and whatever its status, changes nothing the records speak of |
| Crew.ClaimKeepsCrew | src/vemsa/jobs/postgres_store.py:302-320 | A claim voids the fence of whoever held the row and gives the claimer a fence at the new attempt, since it runs no other copy of the job |
| Crew.StageKeepsCrew | src/vemsa/jobs/postgres_store.py:359-376 | A stage written by a run moves only its own row: every other run and every pending claim that owns its row still has it at its own stage, FINALIZING included |
| Crew.StartKeepsCrew | src/vemsa/jobs/queue.py:267-271 | Starting a claimed job takes one slot and keeps active map and runs in step |
| Crew.EndKeepsCrew | src/vemsa/jobs/queue.py:289-295 | Ending a run frees exactly its own slot and its own entry of the active map |
| Store.PostgresJobStore.Create | src/vemsa/jobs/postgres_store.py:226-278 | A known key answers with the original when the digest matches and with a conflict when not; else the job is inserted exactly when both caps allow it, and the refusing cap is named |
| Store.PostgresJobStore.ClaimNextQueued | src/vemsa/jobs/postgres_store.py:289-329 | Claims the oldest claimable row outside the excluded ids (queued past its cooldown, or running with a lapsed lease), at the next attempt, stage untouched; none only when none is claimable |
| Store.PostgresJobStore.ReleaseForRetry | src/vemsa/jobs/postgres_store.py:331-349 | Succeeds iff the worker owns the running row; the row goes back to QUEUED with a cooldown |
| Store.PostgresJobStore.SetStage | src/vemsa/jobs/postgres_store.py:359-376 | Writes the stage iff the worker owns the running row |
| Store.PostgresJobStore.RenewLease | src/vemsa/jobs/postgres_store.py:432-442 | Answers true iff the job is running under this worker; then the lease ends lease_for_s from now, and nothing but that and the update time is written |
| Store.PostgresJobStore.Finish | src/vemsa/jobs/postgres_store.py:444-491 | Commits iff the worker owns the running row: status, result, statistics and webhook event in one step |
| Store.PostgresJobStore.Fail | src/vemsa/jobs/postgres_store.py:493-539 | Commits iff the worker owns the running row: status, error, failure kind, statistics and webhook event in one step |
| Store.PostgresJobStore.Cancel | src/vemsa/jobs/postgres_store.py:392-430 | Cancels iff the job is the client's and active, whoever holds its lease |
| Store.PostgresJobStore.PurgeOlderThan | src/vemsa/jobs/postgres_store.py:642-651 | Removes exactly the terminal rows older than the cutoff, and their webhook events |
| Store.PostgresJobStore.PurgeStatsOlderThan | src/vemsa/jobs/postgres_store.py:593-604 | Removes exactly the statistics of jobs finished before the cutoff, whether the jobs are retained or not |
| Store.PostgresJobStore.SetAudioPath | src/vemsa/jobs/postgres_store.py:351-357 | Writes path and update time without any guard |
| Store.PostgresJobStore.MarkWebhookDelivered | src/vemsa/jobs/postgres_store.py:725-730 | Takes one event out of the outbox and touches nothing else |
| Queue.JobQueue.ClaimNext | src/vemsa/jobs/queue.py:252-266 | One turn of the claim loop is one claim step of the protocol that excludes the active jobs, or nothing when every slot is taken or nothing is claimable |
| Queue.JobQueue.StartJob | src/vemsa/jobs/queue.py:267-271 | The claimed job takes a slot and enters the active map: one step of the protocol |
| Queue.JobQueue.OpenRun | src/vemsa/jobs/queue.py:410-418 | The first renewal decides whether the run works or stops |
| Queue.JobQueue.KeepAudio | src/vemsa/jobs/queue.py:439-447 | After the fetch the run keeps the path and writes it to the row: one step of the protocol, even when the row is no longer the run's |
| Queue.JobQueue.ReportStage | src/vemsa/jobs/queue.py:356-386 | A stage that is already current is not written; a refused write stops the run |
| Queue.JobQueue.FinalizeRun | src/vemsa/jobs/queue.py:497-510 | FINALIZING is always written before a result is committed |
| Queue.JobQueue.CompleteRun | src/vemsa/jobs/queue.py:517-530 | The result is committed once, and a refusal ends the run |
| Queue.JobQueue.TryRelease | src/vemsa/jobs/queue.py:576-608 | An out-of-memory failure with attempts left goes back to the queue iff the worker still owns the job; else the failure is recorded |
| Queue.JobQueue.RecordFailure | src/vemsa/jobs/queue.py:609-632 | Every other failure is recorded with the kind of its exception |
| Queue.JobQueue.EndRun | src/vemsa/jobs/queue.py:289-295 | The finally of a run: the job leaves the active map and its slot is free |
| Queue.JobQueue.Heartbeat | src/vemsa/jobs/queue.py:678-692 | A heartbeat is one renewal by the worker's id |
| Queue.JobQueue.PurgeJobs | src/vemsa/jobs/queue.py:818-827 | The purge removes the terminal jobs past retention, one step of the protocol |
| Queue.JobQueue.PurgeOldStats | src/vemsa/jobs/queue.py:818-827 | Then, on its own retention, old statistics: another step |
| Queue.JobQueue.DeliverWebhook | src/vemsa/jobs/queue.py:760-808 | An answered delivery takes the event out of the outbox, any other leaves it there |
| Queue.OthersLeaveUsAlone | src/vemsa/jobs/queue.py:106-126 | No step of another worker, a client or the purge touches a worker's slots, active map, pending claim or runs |
| Labelling.LabelWords | src/vemsa/pipeline/diarize.py:127-164 | The scan whose candidate pointer only moves forward labels every word as the rule over all turns does: first turn of maximal positive overlap if it covers enough, else the previous label across a short gap, else the nearest turn |
| Labelling.BestTurn | src/vemsa/pipeline/diarize.py:146-154 | The inner scan finds the first best turn among those not yet passed |
| Labelling.RuleIsDeterministic | src/vemsa/pipeline/diarize.py:127-164 | The rule fixes every label: any two labellings that follow it are equal |
| WordRule.EveryWordIsRightlyNamed | src/vemsa/pipeline/diarize.py:118-164 | Told of times alone: a word is the first turn's that runs longest during it, if long enough; else it goes on with the word before across a short gap; else it is the turn's with the nearest middle |
| Islands.SmoothIslands | src/vemsa/pipeline/diarize.py:167-211 | The in-place pass equals the greedy rule on the input's maximal runs; the first and last labels never change |
| Islands.RelabelledInsideKept | src/vemsa/pipeline/diarize.py:167-211 | Every relabelled word lies in a stretch of one label between two words that keep a common other label, and the whole stretch takes that label |
| Stretches.OnlyIslandsChange | src/vemsa/pipeline/diarize.py:167-211 | Every word that changes its speaker lies in a stretch between two words of one other speaker that is quick (few words in little time, or very little time) and in the middle of a sentence |
| Stretches.IslandsChange | src/vemsa/pipeline/diarize.py:167-211 | Every such stretch whose left neighbour keeps its speaker is relabelled as a whole |
| SecondPass.NothingChangesIff | src/vemsa/pipeline/diarize.py:167-211 | A pass changes nothing iff no run may be absorbed: inner, short, mid-sentence, between two runs of one name |
| SecondPass.SecondPassChangesNothingIff | src/vemsa/pipeline/diarize.py:167-211 | A second pass changes nothing iff no three or more runs of the input have grown into one that is itself short, mid-sentence and between two runs of one name |
| SecondPass.SmoothingTwiceCanDiffer | src/vemsa/pipeline/diarize.py:167-211 | So the pass is not idempotent: five words on which whatever the first pass makes is changed by the second |
| Snapping.SnapBoundaries | src/vemsa/pipeline/diarize.py:214-262 | The in-place pass decides every speaker change between the already decided change before it and the original one after it, and keeps the sequence of runs |
| Snapping.SnappingKeepsSpeakers | src/vemsa/pipeline/diarize.py:214-262 | The i-th speaker change keeps its two speakers, moves by at most boundary_max_words words, and if it moved sits right after a sentence end |
| Changes.EveryChangeGoesRightly | src/vemsa/pipeline/diarize.py:214-262 | A change in the middle of a sentence with no long silence goes to the closest sentence end on one side, within reach and inside the two runs: the one with the larger silence, then the shorter way, then backwards; every other change stays |
| Snapping.SentenceEndBehind | src/vemsa/pipeline/diarize.py:265-276 | The backward search finds the closest sentence end inside the left run and within reach |
| Snapping.SentenceEndAhead | src/vemsa/pipeline/diarize.py:279-293 | The forward search finds the first sentence end inside the right run that the run goes on past |
| Snapping.MoveChange | src/vemsa/pipeline/diarize.py:258-261 | Relabelling in place moves one change and touches no other label |
| Lines.LineEnd | src/vemsa/pipeline/diarize.py:819-855 | Where one line ends: at the first stop, or backed up to the last sentence end when it is full |
| Lines.GroupLabelled | src/vemsa/pipeline/diarize.py:793-816 | Grouping terminates and partitions the words into lines; each segment's span, text and words are those of its line |
| Lines.CutsAreBreaks | src/vemsa/pipeline/diarize.py:819-855 | Unbounded lines are cut exactly where the pairwise break holds, and bounded lines refine them |
| Lines.BoundedLineKeepsCaps | src/vemsa/pipeline/diarize.py:819-855 | No bounded line has more than line_max_words words, none of two or more words lasts longer than line_max_s, none runs on past a sentence end reached at line_sentence_split_s or later |
| Lines.LinesEndWhereParted | src/vemsa/pipeline/diarize.py:819-855 | An unbounded line runs up to, and not past, a change of label, a very long silence, or a pause after a sentence |
| Lines.WhyABoundedLineEnds | src/vemsa/pipeline/diarize.py:819-855 | A bounded line ends at such a place, at a sentence end once it has run long, or where the next word is one too many or too late: there, or at the last sentence end before |
| Text.EndsSentenceIff | src/vemsa/pipeline/diarize.py:103-105 | A word ends a sentence exactly when a sentence mark stands in it with nothing but closing quotes and brackets behind |
| Text.ContinuesSentenceIff | src/vemsa/pipeline/diarize.py:108-115 | It continues one exactly when its first letter is lower-case |
| Orphans.MergeShortOrphans | src/vemsa/pipeline/diarize.py:858-898 | The pass that overwrites entries of the list it scans equals the function Merge of what is merged so far and what is left; Strays.MergedRightly says which lines that merges |
| Orphans.MergeStandsFor | src/vemsa/pipeline/diarize.py:858-925 | Every merged segment stands for consecutive input segments: their words, one of their speakers, only small ones besides it, every seam mid-sentence |
| Strays.MergedRightly | src/vemsa/pipeline/diarize.py:858-925 | Told of the lines alone: a line whose speaker is not its segment's is short, alone in its voice, and joined mid-sentence; and a short line alone in its voice after a line that is no orphan ends in one segment with the line its sentence goes on into, or with the one whose sentence it ends |
| Base.StableSortIsSorted | src/vemsa/pipeline/diarize.py:362-363 | The model of Python's sorted() is a rearrangement by increasing key that keeps the order of elements with equal keys |
| Base.FirstMaxIsFirst | src/vemsa/pipeline/diarize.py:423-424 | max(..., key=...) is the first of the largest |
| Base.CommonTimeIs | src/vemsa/pipeline/diarize.py:118-119 | The overlap of two spans is the length of the longest stretch inside both, 0 when they do not meet |
| Attribution.AssignSpeakers | src/vemsa/pipeline/diarize.py:353-391 | The words of the segments concatenate to the input words sorted stably by start; every segment's span and text are those of its words; every speaker is some turn's; every stage did what it promises, and the merged segments are rightly merged from the lines: only short lines alone in their voice lost it, and none that reads on into a neighbour was left apart |
| Attribution.SegmentsWithoutSpeakers | src/vemsa/pipeline/diarize.py:572-580 | Reader lines partition the sorted words and keep the caps, without speakers |
| Relabel.RelabelTurns | src/vemsa/pipeline/diarize.py:313-350 | Turn order and times are kept; every cluster is renamed by the mapping of the rule; without labelled reference or turns nothing changes |
| Relabel.SumUp | src/vemsa/pipeline/diarize.py:318-327 | The two nested dicts hold each cluster's speaking time and its overlap per label |
| Relabel.SharesAreSums | src/vemsa/pipeline/diarize.py:318-327 | A cluster's dict lists exactly the labels it overlaps, each with its whole overlap, and its values add up to the labelled time |
| Relabel.LabelFor | src/vemsa/pipeline/diarize.py:332-338 | A cluster takes a label iff its largest one meets min_share |
| Relabel.NameTheRest | src/vemsa/pipeline/diarize.py:339-345 | The search that never goes back gives the k-th waiting cluster the k-th free SPEAKER_NN, and terminates |
| Renaming.TakesALabelIff | src/vemsa/pipeline/diarize.py:332-338 | In the mapping a cluster carries a caller's label iff that label is its largest and meets min_share |
| Renaming.SharedNamesAreCallerLabels | src/vemsa/pipeline/diarize.py:313-350 | Two clusters share a name only when both took that same caller label |
| Renaming.NameOf | src/vemsa/pipeline/diarize.py:339-345 | A fresh name is no caller's label |
| Renaming.MappingIgnoresOrder | src/vemsa/pipeline/diarize.py:313-350 | In exact arithmetic the mapping depends neither on the order of the turns nor on that of the reference segments |
| Agreement.NamedAfterTheOneItAgreesWith | src/vemsa/pipeline/diarize.py:318-338 | Told of common time alone: a cluster is called by a caller's label exactly when it shares more time with it than with any other, of equals the one sorting last, and at least min_share of what it shares with all labels |
| Agreement.WaitingAreNumbered | src/vemsa/pipeline/diarize.py:339-350 | The other clusters are numbered in the order of their speaking time, then of their names; each gets the least SPEAKER_NN that neither the caller nor one before it has |
| Renaming.NextFree | src/vemsa/pipeline/diarize.py:340-345 | The least free number from a given one on exists |
| Spans.SpeakerShares | src/vemsa/pipeline/diarize.py:451-458 | The dict of a segment's speaker shares, in order of first overlap |
| Spans.SharesAreOverlaps | src/vemsa/pipeline/diarize.py:451-458 | A speaker has a share iff one of its turns touches the segment, and it is everything its turns cover of it |
| Spans.CoveringHaveShares | src/vemsa/pipeline/diarize.py:478-479 | Whoever covers an instant of the segment has a share: the lookup cannot miss |
| Spans.SpeakerSpans | src/vemsa/pipeline/diarize.py:461-491 | Cutting at the turn edges, filling silences and merging neighbours |
| Spans.SpansTile | src/vemsa/pipeline/diarize.py:461-491 | The spans tile the segment exactly, neighbours have different speakers, and every speaker is a turn's |
| Spans.SpansNameWhoIsHeard | src/vemsa/pipeline/diarize.py:461-491 | Away from turn edges, the span an instant falls in names the largest-share speaker among the turns covering it |
| Hearing.HeardAtIs | src/vemsa/pipeline/diarize.py:476-480 | Nobody is heard at an instant exactly when no turn runs; else one of those whose turn runs, of whom none is heard longer in the segment |
| Hearing.SpansGoTo | src/vemsa/pipeline/diarize.py:461-491 | Away from turn edges every instant of a span belongs to its speaker: the one last heard up to then, or, in a leading silence, the first one heard |
| SegmentSplit.SnapIsNearest | src/vemsa/pipeline/diarize.py:494-507 | A cut goes to the nearest sentence end if one is within the window, else to the nearest blank; there is none iff the text has no blank |
| SegmentSplit.DominantCoversMost | src/vemsa/pipeline/diarize.py:545-550 | The dominant speaker of a stretch is one of the spans', and nobody covers more of it |
| SegmentSplit.SplitSegment | src/vemsa/pipeline/diarize.py:510-542 | The loops over cuts and pieces compute the specified pieces |
| SegmentSplit.InnerCutsOnBlanks | src/vemsa/pipeline/diarize.py:522-528 | Cuts move forward in time and text, and every one falls on a whitespace character |
| SegmentSplit.SplitKeepsTokens | src/vemsa/pipeline/diarize.py:510-542 | The whitespace tokens of the pieces concatenate to the segment's; the pieces are time-ordered, disjoint, inside the segment, and change speaker from one to the next |
| Cutting.SplitIsRight | src/vemsa/pipeline/diarize.py:510-550 | A split segment is cut at the places of its speaker changes that lie beyond all earlier ones; a place is the closest sentence end within the window, else the closest blank, to the rounded share of the text; the text between two cuts goes to whoever holds most of its time, and each piece is a run of such text of one voice, stripped and joined by blanks |
| SegmentLabels.AssignSpeakersToSegments | src/vemsa/pipeline/diarize.py:394-448 | The loop returns the groups of LabelledGroups in order, over the turns sorted by start; without segments or turns nothing changes. Mixed.GroupsAreRight and GroupsAreFaithful say what those groups are |
| SegmentLabels.GroupsAreFaithful | src/vemsa/pipeline/diarize.py:394-448 | Every segment becomes itself under one turn's speaker, or two or more alternating pieces that hold its tokens inside its span |
| Mixed.GroupsAreRight | src/vemsa/pipeline/diarize.py:413-448 | A segment becomes two or more pieces exactly when some turn runs in it, the speakers other than the one heard longest hold more than split_threshold of the covered time, it has the minimal duration and words, and its cuts leave text of two different voices; else it goes whole to somebody nobody is heard longer than, or, where no turn runs, to whoever spoke last, and first of all to the nearest turn |
| Mixed.SplitExactlyWhen | src/vemsa/pipeline/diarize.py:424-444 | The same of one segment, over plain sums of the time its turns run in it |
| SegmentLabels.LabellingKeepsTokens | src/vemsa/pipeline/diarize.py:394-448 | Over the whole transcript no token is lost, broken, added or moved |
| SegmentLabels.MajorityCoversMost | src/vemsa/pipeline/diarize.py:424-429 | The majority speaker has a turn in the segment, and nobody's turns cover more of it |
| Realign.AlignmentSucceeds | src/vemsa/pipeline/realign.py:148-207 | If the aligner answers each padded window with one word per token, in order, starts non-decreasing inside the window, then align_transcript fails only when no text is alignable, and returns in stable time order every segment with one word for each token of its own text; speaker, text, attribution and overlap ids are the input's, a segment with words starts with its first and ends with its last word, one without keeps its times |
| Realign.EverySegmentGetsItsOwnWords | src/vemsa/pipeline/realign.py:148-207 | On such an answer sorting changes nothing, no count error is possible, and every segment receives exactly the words of its own tokens, from its own window |
| Windows.GroupWindows | src/vemsa/pipeline/realign.py:37-58 | The groups cut the time order of the segments with tokens into consecutive windows: within one the gaps do not exceed merge_gap_s, between two they do |
| Windows.GroupsAreDisjoint | src/vemsa/pipeline/realign.py:37-69 | The windows of the groups never meet |
| Padding.GroupsHoldWhatHasTokens | src/vemsa/pipeline/realign.py:46-52 | The groups hold exactly the segments with at least one token, each once, in the order of their starts |
| Padding.GroupsByNearness | src/vemsa/pipeline/realign.py:37-58 | Within a group every segment but the first starts at most merge_gap_s after the end of an earlier one; the first of a group starts farther than that from every segment of the group before |
| Padding.WindowIsUnion | src/vemsa/pipeline/realign.py:61-69 | A window is the least span around its members |
| Windows.WindowTokens | src/vemsa/pipeline/realign.py:61-69 | A window's tokens are its members' tokens, member after member: the counter adds up over the joined text |
| Windows.PadWindows | src/vemsa/pipeline/realign.py:72-93 | Each window is padded by what its neighbours, zero and the audio's end leave |
| Windows.PaddingKeepsDisjoint | src/vemsa/pipeline/realign.py:72-93 | Padding never shrinks a window, grows it by at most pad_s on either side, and keeps the windows disjoint even where two touch at a midpoint |
| Padding.PaddingIsWidest | src/vemsa/pipeline/realign.py:72-93 | Each side of a window grows as far as allowed: to pad_s, the ends of the audio, and the middle of the gap to the neighbour, but never inwards; the rest of the window is kept |
| Realign.DistributeWords | src/vemsa/pipeline/realign.py:96-122 | A single listed segment takes all the words; of several the cursor hands each as many as it has tokens, and fails iff the counts differ |
| Realign.RetimeSegments | src/vemsa/pipeline/realign.py:125-145 | Every segment comes back once with its words, in time order: from the start of the first to the end of the last, or with its own times when it has none; everything else is kept |
| Realign.SliceAnswer | src/vemsa/pipeline/realign.py:187-197 | Slicing by window and then by member equals slicing by member |
| Realign.AlignTranscript | src/vemsa/pipeline/realign.py:148-207 | The windows form a plan; it fails for no text, no words, or a count mismatch, exactly; else every segment comes back with its slice of the answer, from its first word's start to its last word's end, all else kept |
| Realign.AnswersAreSorted | src/vemsa/pipeline/realign.py:186-187 | Answers to disjoint windows form one sorted list, even where windows touch |
| Normalize.TokensJoined | src/vemsa/pipeline/normalize.py:185-196 | Tokens, and so their count, are additive over texts joined by a blank |
| Normalize.TokensOfJoin | src/vemsa/pipeline/realign.py:61-69 | The tokens of stripped texts joined by blanks are each text's own, in order |
| Words.TokensAreWords | src/vemsa/pipeline/normalize.py:185-196 | The tokens are non-empty, hold word characters only and all of the text's in order, and are as many as there are pieces with a word character: punctuation alone counts for nothing |
| Normalize.ExpandsIff | src/vemsa/pipeline/normalize.py:162-177 | A text is expanded exactly when the speller raises on none of its maximal digit runs, and then every run is replaced by its word |
| Normalize.ExpansionKeepsCount | src/vemsa/pipeline/normalize.py:153-182 | Spelling the numbers out never changes the token count, whatever the language: the aligner gets as many tokens as are counted, exactly unless the speller raises on a digit run of the text, and then none |
| Normalize.TokensByPiece | src/vemsa/pipeline/normalize.py:162-177 | Piece by piece, a text yields as many tokens after its digit runs were replaced by words as before |
| SpelledNumbers.SpellingReadsBack | src/vemsa/pipeline/normalize.py:79-133 | A string of Unicode digits is spelled exactly when it has at most 4300 digits, the limit of int(), or begins with the ASCII zero; its spelling reads back exactly unless, besides, a leading zero that is not the ASCII one is lost with a number read as a figure; ASCII digit strings that are spelled always come back |
| SpelledNumbers.OverlongRunFails | src/vemsa/pipeline/normalize.py:119-121 | 4301 ones lose no zero and are counted as one token, but int() raises and the aligner gets no tokens |
| SpelledNumbers.ForeignZeroIsLost | src/vemsa/pipeline/normalize.py:119-120 | The leading-zero test looks for the ASCII zero: an Arabic-Indic zero in front of a five is spelled as the five alone |
| SpelledNumbers.SpellingIsInjective | src/vemsa/pipeline/normalize.py:112-133 | No two digit strings that are spelled are spelled alike but for the script of their digits and lost foreign zeros: hundreds reading, collapsed ttt, en for ett, digit-by-digit runs and all |
| SpelledNumbers.SpellingIsOneWord | src/vemsa/pipeline/normalize.py:112-133 | Every spelling of Unicode digits, where there is one, is a non-empty run of Swedish letters without blanks |
| Spelling.FirstFigures | src/vemsa/pipeline/normalize.py:44-65 | The words for 0 to 19 |
| Spelling.Tens | src/vemsa/pipeline/normalize.py:66-83 | 20 to 99: the tens, then the ones if any |
| Spelling.Hundreds | src/vemsa/pipeline/normalize.py:86-94 | 100 to 999: no ett before hundra, then the rest if any |
| Spelling.Thousands | src/vemsa/pipeline/normalize.py:97-109 | No ett before the first tusen; 1100 to 1999 are read in hundreds; after a number ending in ett the t of tusen is written once less; then the rest if any |
| Spelling.Millions | src/vemsa/pipeline/normalize.py:122-133 | en before miljon, at the end of a larger number too, never ett; then the rest if any |
| Spelling.DigitsOneByOne | src/vemsa/pipeline/normalize.py:119-120 | A dictated run is the words of its digits in order |
| Spelling.NoThreeTs | src/vemsa/pipeline/normalize.py:106-109 | No number up to 999 999 999 is written with three t in a row |
| SpelledNumbers.SwedishExpansionKeepsCount | src/vemsa/pipeline/normalize.py:141-182 | With Swedish spelling the aligner sees exactly as many tokens as alignable_tokens counts, for every normalized text, digits of any script included, exactly unless a maximal digit run is longer than 4300 and does not begin with the ASCII zero; then the normalizer raises |
| Overlaps.DetectOverlaps | src/vemsa/pipeline/speaker_review.py:22-56 | The sweep is exact: a time t >= 0 lies in a listed half-open overlap iff two or more distinct speakers have a turn covering it; on each overlap the speakers are constant and as many as counted; touching overlaps have different speakers |
| Overlaps.SweepMeetsContract | src/vemsa/jobs/models.py:69-95 | The list is ordered, disjoint, of positive lengths, with unique ids: it passes the model's own validation |
| Overlaps.OverlapsAreNumbered | src/vemsa/pipeline/speaker_review.py:46-53 | The i-th overlap is called overlap_ and the number i in four digits, more only if it takes more |
| Review.ApplyReview | src/vemsa/pipeline/speaker_review.py:111-144 | Every segment is replaced in order by parts that are Reviewed against the whole list of overlaps, although only a bisected window of it is looked at; Flags.ReviewFlagsRightly says which overlaps those parts list |
| Review.SplitSegment | src/vemsa/pipeline/speaker_review.py:74-108 | An anchored segment is cut exactly where the ids change, each part carrying the ids of each of its words, spanning them, and beginning in the text with its first word; the text pieces before stripping concatenate to the text; an unanchored one stays whole with every id of its words |
| Flags.ReviewFlagsRightly | src/vemsa/pipeline/speaker_review.py:59-108 | Told of instants: a word during which some overlap is going on at any instant has that overlap listed in its part; in anchored segments nothing else is listed, in a segment without words exactly what its span meets, in an unanchored one what its span or one of its words meets; in list order, each once, and provisional exactly when anything is listed, else assigned exactly when there is a speaker |
| Review.GreedyAnchors | src/vemsa/pipeline/speaker_review.py:79-89 | Searching left to right finds the words in the text whenever any placement exists |
| Review.WindowKeepsIds | src/vemsa/pipeline/speaker_review.py:119-129 | The bisected candidates give every span of a segment the same ids as a scan of all overlaps |
| Review.WindowKeepsAffected | src/vemsa/pipeline/speaker_review.py:119-129 | So do they for the fallback of a segment that cannot be anchored |

## Left out

- Floating point: timestamps are reals, so a padded window cannot shrink by rounding; the check for finite values has no counterpart.
- NFKC and lower-casing: texts are taken to be NFKC-normalized and lower-cased; the Unicode classes are the parameter `CharTable`.
- The aligner, the diarizer, decoding and the models: inputs. Silent-word detection and the alignment floor are not modelled.
- `_sweep_orphans` and the deletion of audio files: a sweep that ignores job state; no property of it is stated.
- Guarantees.TablesAgree: a stage update that timed out on its caller, or one from a pipeline thread that outlives its cancelled run, may still reach the store later; such late stage writes are not steps of the model. Late lease renewals are.
- Guarantees.RowsFollowTheirRuns: for the same reason does not speak of stage writes that reach the store late.
- Store.PostgresJobStore.MarkWebhookDelivered: an event is named by its place in the outbox and may be delivered at any moment; claiming, leasing and rescheduling events, and with them the lease guard of the deletion, are not modelled.
- Store.PostgresJobStore.PurgeStatsOlderThan: worker samples and heartbeats, deleted in the same call, are not modelled.
- Realign.AlignmentSucceeds: its hypothesis asks for an answer to every window; an aligner that normalizes with the Swedish speller raises on a text holding a digit run that cannot be spelled, and cannot meet it there.
- The store variants without a worker id: the worker always passes its own.
- SQL, migrations and JSON: a statement is its guard and its effect; `SKIP LOCKED` is the atomic choice of the oldest claimable row, ties in any order.
- Event loops, threads, timeouts and shutdown: only the order of store calls, the slots and the active map. A claim and the start of its run are two steps, and a run may end at any step.
- Store.PostgresJobStore.Create: job ids are assumed fresh, as uuid4 makes them.
- Relabel.RelabelTurns: the overlap dicts are updated as values, one cluster at a time; that the code shares and mutates them in place is not modelled.
- Orphans.MergeStandsFor: stated for segments whose span and text are those of their own words, which is what grouping produces.
- `resolve_segments`, rendering, metrics, logging, the HTTP and MCP interfaces, authentication, fetching and settings: plumbing around what is modelled.
