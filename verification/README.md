# Verified model of the vacancy bot's protocols

The bot and the API of this repository share one SQLite file. Their hard logic is a set of small concurrent
protocols over its tables, and a few algorithms with real invariants. This project models them in Dafny and proves
what they are for. `dafny verify dfyconfig.toml` checks everything.

A committed statement or a `BEGIN IMMEDIATE ... COMMIT` block is one atomic step. Workers, requests and processes keep
their local variables between steps, and steps interleave freely. Where the source changes rows or objects in place, a
class does the same, and each of its methods is proved equal to a function from old state to new state; the theorems
are about those functions and about whole runs of them.

| files | what they model |
|---|---|
| `Broadcast.dfy` | job and target rows, backoff, and every transaction on them as a function |
| `BroadcastProtocol.dfy` | one job, any number of workers, both ways into the queue, admins, crashes and stale resets, as a step relation; what holds under no assumption |
| `BroadcastOwnership.dfy` | what needs the timing rule: exclusive claims, exact counters and attempts; with fresh reads: `done` meaning done |
| `BroadcastTheorems.dfy`, `BroadcastLimits.dfy` | the statements over whole runs, and for each guarantee that needs an assumption a run that breaks both |
| `BroadcastStore.dfy`, `BroadcastWorker.dfy` | the tables in place, and the worker's loop with others committing between its statements, proved to be a run of the protocol |
| `RateLimit.dfy` | token bucket and flood pause |
| `Vacancies.dfy`, `Dedup.dfy`, `VacancyTransactions.dfy` | vacancy rows, matching, duplicate groups, and the write transactions |
| `VacancyStore.dfy`, `IngestRunner.dfy`, `Rechecks.dfy`, `VacancyLimits.dfy` | the store in place, one adapter run, back-off and outage rules, and a store a detail answer breaks |
| `Listing.dfy`, `Openings.dfy` | keyset paging and the `openings` count |
| `Pool.dfy` | connection pool and leases |
| `Ledger.dfy` | wallet ledger, referral payouts, top-ups |
| `Migrations.dfy` | several processes migrating one database |
| `TagRepair.dfy`, `MemCache.dfy`, `Links.dfy` | HTML tag repair, the bounded cache, link tokens |
| `Numerals.dfy`, `Basics.dfy` | digits in any base, base64url (section 5 of RFC 4648), sums over tables |

**Two assumptions, both explicit.** `_write_results` does not look at a row's status again, so ownership of a claim
rests on a worker writing within `STALE_CLAIM_SECONDS`: `BroadcastProtocol.Timely`, which says nothing about sends. The
panel's queue route acts on an earlier read of the draft: `BroadcastProtocol.FreshRead`. Runs carry the set of rules they
keep. The status machine, the abort rule, the waits, the accounting of batches and the send limits need neither.
Exclusive claims, final verdicts, exact counters and the bound on recorded results need the timing rule alone, `total` needs fresh
reads alone, and `done` meaning done needs both; `BroadcastLimits` has a run from a new draft that breaks each of them
when its rule is dropped. The timing rule is enough but not necessary for a single write: one that comes late keeps the
counters exact if and only if no recipient it records has a verdict already (`BroadcastOwnership.WriteKeepsCountersIff`).

## What the proofs found

- The admin panel's queue route inserts targets before its conditional UPDATE and ignores that UPDATE's row count.
  `total` stays equal to the rows exactly when the draft it read is still a draft, or nobody new is addressed
  (`Broadcast.QueueFromPanelKeepsTotal`). Otherwise even a `done` job can get a pending recipient
  (`BroadcastLimits.StaleReadReopensADoneJob`).
- `apply_detail` does not regroup when it reopens a row. The groups stay consistent exactly when no closed row is
  reopened, or the row leaves its group, or it is the head of its group or the head is open
  (`VacancyTransactions.ReopeningByDetail`; `VacancyLimits.ReopeningLeavesNoHead` has a store where they do not). The
  runner never gets there, because it re-checks open rows only.
- For a known user `reset_user` raises, and resets nothing, exactly when the balance is beyond `MAX_AMOUNT`
  (`Ledger.ResetNeedsBoundedBalance`); two credits within the guard are enough (`Ledger.LargeBalanceCannotBeReset`).
- A referral payout whose ledger insert fails is still paid. A balance equals its rows exactly when the user got no such
  payout (`Ledger.RowsAddUpToTheBalance`, `Ledger.UnloggedPayoutBreaksTheSum`).
- A request cancelled while `open_connection` runs its PRAGMAs leaves an open connection that no pool counter knows.
  From then on an open pool can exceed its size, and never otherwise (`PoolProtocol.BoundNeedsCarefulOpenings`,
  `PoolProtocol.StrayExceedsThePool`).

## Model

| member | source | states |
|---|---|---|
| `Broadcast.BackoffDoublesUpToTheCap` | src/functions/broadcast_worker.py:543-546 | Backoff is 10, 20, 40, ... seconds up to 320, then 600, and never shrinks |
| `Broadcast.VerdictsFollowAnswers` | src/functions/broadcast_worker.py:549-583 | Which answer leads to which verdict: retries only for flood and network while tries are left, `blocked` only for recipients out of reach |
| `Broadcast.RetryWaitsLongEnough` | src/functions/broadcast_worker.py:566-575 | A retry waits exactly the later of its backoff and, when flooded, the first full second at which what Telegram asked for is over |
| `Broadcast.TriesAreSpreadOut` | src/functions/broadcast_worker.py:459-463 | Over the life of a row: at most six tries, the sixth at least 310 seconds after the first and never followed by a retry |
| `Broadcast.AdminActionsAreSafe` | src/functions/broadcast_control.py:18-50 | Resume undoes pause up to the queue; no action touches rows or counters or revives a finished job |
| `Broadcast.ActionTable` | src/functions/broadcast_control.py:18-50 | Every action on every status: pause stops a queued or running job and nothing else, resume queues a paused one, cancel ends all but finished ones, every other pair leaves the job as it is |
| `Broadcast.StatusTable` | src/functions/broadcast_worker.py:945-961 | The worker marks only a queued job running and finishes only an active one; a cancelled read and a discarded draft end as cancelled |
| `Broadcast.QueueFromPanelKeepsTotal` | webapp/routers/admin_broadcasts.py:535-560 | The panel route keeps `total` equal to the rows if and only if the job is still a draft or nobody is added |
| `Broadcast.RecordAllRows` | src/functions/broadcast_worker.py:819-832 | Writing results gives each named row its own new row and leaves every other row as it was |
| `Broadcast.WrittenRowFollowsTheAnswer` | src/functions/broadcast_worker.py:549-583 | What a row holds after its answer: sent, blocked, pending or failed by the kind of answer and the tries made, the error kind, the tries, no claim, the time of the try, the time sent, and when the retry is due |
| `Broadcast.WriteStoresTheRows` | src/functions/broadcast_worker.py:819-841 | Each answered recipient has that row, each released one is pending again with its tries kept, and every other row stays |
| `Broadcast.CountsFollowTheAnswers` | src/functions/broadcast_worker.py:804-812 | The four counts of a batch are the numbers of accepted, given-up, unreachable and content-refused answers |
| `Broadcast.WriteCountsTheAnswers` | src/functions/broadcast_worker.py:842-879 | A write adds these numbers to the counters, and aborts a job that may still send if and only if the batch had a content refusal, by now 200 recipients refused, and these are 95 percent of those who judged the content |
| `Broadcast.ClaimTakesTheSmallestDue` | src/functions/broadcast_worker.py:751-788 | A claim takes pending rows whose retry is due, the smallest ids first, as many as fit, and changes nothing else |
| `Broadcast.QueueingAddressesTheSegment` | src/handlers/admin.py:1008-1043 | A queued draft has one pending, never tried row for each recipient of the segment; otherwise nothing changes |
| `Broadcast.RecordAllMoves` | src/functions/broadcast_worker.py:819-857 | Writing results adds their new values to any column sum and takes the old values of their rows away |
| `BroadcastProtocol.SafeStep` | src/functions/broadcast_worker.py:975-1063 | One step of any worker, admin, crash, clock or reset keeps the job life cycle, the abort rule, well-formed batches, what workers know, attempt bounds and flood waits |
| `BroadcastOwnership.WriteCountsExactly` | src/functions/broadcast_worker.py:804-857 | A live batch moves every counter by exactly the change of the rows |
| `BroadcastOwnership.WriteCountsIff` | src/functions/broadcast_worker.py:819-857 | Under any timing a write moves a verdict's column by the counted outcomes if and only if no recorded recipient has that verdict already |
| `BroadcastOwnership.WriteKeepsCountersIff` | src/functions/broadcast_worker.py:823-825 | Under any timing a write keeps exact counters exact if and only if no recipient whose result it writes has a verdict already |
| `BroadcastOwnership.WriteUsesSlack` | src/functions/broadcast_worker.py:549-583 | Each recorded result uses up at least one of the sends its row had left |
| `BroadcastOwnership.TerminalRowStays` | src/functions/broadcast_worker.py:751-788 | Under the timing rule no step changes a row that has a verdict |
| `BroadcastOwnership.OwnedStep` | src/functions/broadcast_worker.py:751-879 | Under the timing rule one step keeps exclusive claims, exact counters, the work bound, and as many results per recipient as attempts |
| `BroadcastOwnership.DoneMeansDoneStep` | src/functions/broadcast_worker.py:953-972 | With fresh reads as well, `done`, and a worker about to commit it, mean that no recipient is open |
| `BroadcastProtocol.TotalIsRowsStep` | src/functions/broadcast_worker.py:226-243 | With fresh reads `total` stays the number of rows |
| `BroadcastTheorems.RunKeepsSafe` | src/functions/broadcast_worker.py:975-1063 | Every run, timed or not, keeps the rule-free invariants |
| `BroadcastTheorems.RunKeepsOwned` | src/functions/broadcast_worker.py:1066-1093 | Every run under the timing rule keeps the ownership invariants |
| `BroadcastTheorems.TimedRunsAreExact` | src/functions/broadcast_worker.py:751-879 | In every run under the timing rule, panel queueing included: no target with two workers, each counter is the number of its rows, and each recipient has as many recorded results as attempts, at most six |
| `BroadcastTheorems.FreshRunsKeepTotal` | src/functions/broadcast_worker.py:226-243 | In every run with fresh reads, under any timing, `total` is the number of rows |
| `BroadcastTheorems.OrderlyRunsAddUp` | src/functions/broadcast_worker.py:953-972 | In every run under both: pending + sending + sent + failed + blocked is `total`, and a `done` job has a verdict for everybody, although its check and its finish are two statements |
| `BroadcastTheorems.RowCounts` | src/functions/broadcast_worker.py:267-298 | The column sums are the numbers of rows per status |
| `BroadcastTheorems.StatusesPartition` | src/functions/broadcast_worker.py:246-264 | The five statuses partition the rows |
| `BroadcastTheorems.VerdictsAreFinal` | src/functions/broadcast_worker.py:751-788 | From a verdict on, the row never changes and is in no later claim |
| `BroadcastTheorems.ResultsUseUpSends` | src/functions/broadcast_worker.py:549-583 | Each write decreases the sum of remaining attempts by at least the number of its results |
| `BroadcastTheorems.FinishedIsAbsorbing` | src/functions/broadcast_worker.py:945-961 | `done`, `cancelled` and `failed` are never left, and a job enters the queue at most once, in every run |
| `BroadcastTheorems.AbortsAreExact` | src/functions/broadcast_worker.py:466-477 | No queued, running or paused job meets the abort condition, and an abort happens only on it |
| `BroadcastTheorems.ClaimsHonourWaits` | src/functions/broadcast_worker.py:751-769 | No row is claimed before `next_attempt_at`, nor a flooded one before its `retry_after` is over |
| `BroadcastTheorems.BatchesAreAccountedFor` | src/functions/broadcast_worker.py:1027-1062 | In every run the users a batch records followed by those it releases are exactly its claim, in order |
| `BroadcastTheorems.StopLimitsSends` | src/functions/broadcast_worker.py:996-1046 | While a job is stopped each worker sends at most the rest of the one batch it had loaded the job for |
| `BroadcastTheorems.FinishedStaysStopped` | src/functions/broadcast_control.py:18-22 | A finished job stays stopped in every continuation |
| `BroadcastTheorems.NoSendsAfterTheLastBatch` | src/functions/broadcast_worker.py:996-1046 | After cancel, abort or done, every worker sends at most that remainder, for ever |
| `BroadcastTheorems.PausedStaysStopped` | src/functions/broadcast_control.py:18-50 | Over every run without a resume a paused job stays paused or finished, and stopped |
| `BroadcastTheorems.PauseLimitsSends` | src/functions/broadcast_worker.py:996-1046 | From a pause of an active job until a resume, every worker sends at most the rest of the batch it had loaded the job for, at most 20 |
| `BroadcastTheorems.ResumeLetsWorkersGoOn` | src/functions/broadcast_worker.py:996-1016 | A resume puts a paused job back in the queue, where a worker that loads it goes on |
| `BroadcastLimits.LateWriteCountsTwice` | src/functions/broadcast_worker.py:823-825 | A run with one late write that ends with `sent` above `total` and above its rows |
| `BroadcastLimits.LateWritesExceedTheAttempts` | src/functions/broadcast_worker.py:823-825 | A run with late writes that records more than six results for a recipient, and for the job |
| `BroadcastLimits.LateWriteReopensADoneJob` | src/functions/broadcast_worker.py:823-825 | A run with a late write that ends with a `done` job and an open recipient |
| `BroadcastLimits.LateWriteUndoesAVerdict` | src/functions/broadcast_worker.py:823-825 | A run with a late write in which a recipient with a verdict is claimed again |
| `BroadcastLimits.LateWriteSharesAClaim` | src/functions/broadcast_worker.py:823-825 | A run with a late write after which two workers hold one recipient |
| `BroadcastLimits.StaleReadReopensADoneJob` | webapp/routers/admin_broadcasts.py:535-560 | A timely run in which the panel queues on a stale read: a `done` job gets a pending recipient, and `total` is not the number of rows |
| `BroadcastStore.CountOutcomes` | src/functions/broadcast_worker.py:804-812 | The loop counts the accepted, given-up, unreachable and content-refused answers |
| `BroadcastStore.BroadcastDb.QueueDraft` | src/handlers/admin.py:1008-1043 | A usable draft that is still one at the UPDATE is queued with its targets; a draft lost in between, and every other case, changes nothing and gets its own reply |
| `BroadcastStore.BroadcastDb.SetBroadcastState` | src/functions/broadcast_control.py:25-50 | Pause, resume and cancel set paused, queued and cancelled on the job as others leave it after the read, if both the read status and that one allow it, or change nothing; the reply names the status that was read and the new one |
| `BroadcastStore.BroadcastDb.QueueFromPanel` | webapp/routers/admin_broadcasts.py:535-560 | The panel route on a job that others may move between its read and its transaction |
| `BroadcastStore.BroadcastDb.NextBroadcastId` | src/functions/broadcast_worker.py:715-743 | The smallest id of an active job with a due row or with nothing left; none if and only if there is none |
| `BroadcastStore.BroadcastDb.ClaimWithAttempts` | src/functions/broadcast_worker.py:751-788 | Claims the smallest due user ids up to the limit, with their attempts, and nothing else |
| `BroadcastStore.BroadcastDb.WriteResults` | src/functions/broadcast_worker.py:792-879 | Rows, counters by the answers, the early abort, the blocked flag set for unreachable and cleared for reached recipients, and the first file id of one batch |
| `BroadcastStore.BroadcastDb.ResetStaleClaims` | src/functions/broadcast_worker.py:1076-1093 | Of all jobs exactly the claims older than the limit go back to `pending`, every other row stays, none is left, and their number is returned |
| `BroadcastOwnership.HeldRowStays` | src/functions/broadcast_worker.py:1066-1093 | No step, the stale reset included, touches a row that a live batch of another worker holds |
| `BroadcastWorker.Worker.Others` | src/functions/broadcast_worker.py:975-1063 | Whatever other workers and admins commit between two statements is part of the same run |
| `BroadcastWorker.Worker.Take` | src/functions/broadcast_worker.py:1008-1016 | Marks an active job running and claims its smallest due rows |
| `BroadcastWorker.Worker.FinishIfDrained` | src/functions/broadcast_worker.py:1017-1020 | After an empty claim finishes the job if and only if every row has a verdict |
| `BroadcastWorker.Worker.SendBatch` | src/functions/broadcast_worker.py:1031-1056 | Results and released users are the claim, in order; a result answers its turn; only a pause or an interruption releases, and a send cut off in flight is released too |
| `BroadcastWorker.Worker.Deliver` | src/functions/broadcast_worker.py:1026-1062 | Sends a batch and writes it, unless the write fails for good; an interruption is written too and ends the turn |
| `BroadcastWorker.Worker.OneRound` | src/functions/broadcast_worker.py:996-1062 | A round ends with a write unless that is lost; undisturbed, on a job the picker may return, it claims a row or finishes the job |
| `BroadcastWorker.Worker.RunBroadcast` | src/functions/broadcast_worker.py:975-1063 | The whole loop, with others committing between any two of its statements, is a run of the protocol; with an undisturbed start it makes progress on a job the picker returned |
| `BroadcastWorker.ProcessOnce` | src/functions/broadcast_worker.py:1096-1106 | A tick without work means nothing is due; a tick with work and an undisturbed start claims a row or finishes the job, so the loop never spins |
| `RateLimit.IntervalBound` | src/functions/broadcast_worker.py:337-346 | In every interval at most capacity + rate * length is granted |
| `RateLimit.DrainBound` | src/functions/broadcast_worker.py:328-335 | From a drain on at most rate * length is granted |
| `RateLimit.AcquiresAreBounded` | src/functions/broadcast_worker.py:306-346 | Both bounds for counted unit acquires |
| `RateLimit.TokenBucket.Acquire` | src/functions/broadcast_worker.py:337-346 | Nothing is granted before the amount asked for; one sleep is enough without a drain; more than the capacity is never granted |
| `RateLimit.TokenBucket.DrainBurst` | src/functions/broadcast_worker.py:328-335 | Drops the burst allowance |
| `RateLimit.SendPause.PauseFor` | src/functions/broadcast_worker.py:604-608 | The pause ends at the later of its old end and now plus the asked seconds, an hour at most; none is asked for by zero or less |
| `RateLimit.SendPause.Wait` | src/functions/broadcast_worker.py:613-619 | Returns with nothing remaining; true if and only if there was a pause when it was called |
| `Vacancies.BeforeIsAnOrder` | src/ingest/dedup.py:78-87 | The canonical rank orders rows totally, so a group has one best member |
| `Vacancies.CanonicalPrefers` | src/ingest/dedup.py:78-87 | The head is open when any member is, then of the best source (hh, osonish, vacancy_gov, others), quality, earliest publication and smallest uid |
| `Vacancies.MatchMeans` | src/ingest/dedup.py:107-125 | A match: the same named employer, at most fourteen days apart, no two different districts, and the same key or a similar title in the same region |
| `Dedup.FoundMatchIsJustified` | src/ingest/dedup.py:131-169 | A match is only ever the group of another, open, matching row |
| `Dedup.FoundMatchIsBest` | src/ingest/dedup.py:131-169 | Which match is taken: the first in scan order with the same key, else the most similar title, the first of equals, else none |
| `Dedup.NobodyIsMissed` | src/ingest/dedup.py:131-169 | When no match is found, no scanned open row of another group matches |
| `Dedup.AssembleWorks` | src/ingest/dedup.py:172-190 | Regrouping a set of rows that belong together restores everything about them and touches nothing else |
| `Dedup.RegroupWorks` | src/ingest/dedup.py:172-190 | The same for the rows `regroup` selects |
| `Dedup.DetachFromOther` | src/ingest/dedup.py:202-221 | Leaving another row's group keeps the invariant and makes the row its own group |
| `Dedup.DetachCanonical` | src/ingest/dedup.py:202-221 | So does leaving a group the row itself heads, whose rest gets a new head |
| `Dedup.JoinWorks` | src/ingest/dedup.py:240-252 | Merging a group into another keeps the invariant |
| `Dedup.AssignOneWorks` | src/ingest/dedup.py:224-252 | Assigning a row keeps the invariant whatever `is_match` says |
| `Dedup.AssignOneOutcome` | src/ingest/dedup.py:192-252 | A grouped row with a matching scanned fellow stays as it is; any other leaves its group, which stays together without it, and ends alone and visible, or with its own followers in the group of the match found then |
| `Dedup.AssignAllTurn` | src/ingest/dedup.py:224-252 | Each row of a list is assigned in its turn, on the table the ones before it have left |
| `Dedup.AssignAllWorks` | src/ingest/dedup.py:224-252 | So does assigning any list of rows, and each of them ends up grouped |
| `Dedup.RegroupForFixes` | src/ingest/repo.py:213-218 | Regrouping the groups of all rows whose status moved makes every group consistent again |
| `VacancyTransactions.UpsertChunkIsConsistent` | src/ingest/repo.py:160-196 | A list upsert leaves every group with an open row with exactly its open head |
| `VacancyTransactions.SightingStores` | src/ingest/repo.py:98-134 | What a list sighting stores of a new and of a known row: listed columns, region and district only if given, quality, and status and reason unless the row is gone |
| `VacancyTransactions.WhoIsAssigned` | src/ingest/repo.py:176-192 | A listed row is assigned again if and only if it is new, or its key or its given district changed |
| `VacancyTransactions.ChangedRowSplitsOut` | src/ingest/repo.py:160-196 | A listed open row whose key or district changed, with no matching fellow and no other match, ends alone and visible, and nobody stays behind it |
| `VacancyTransactions.UnchangedRowStays` | src/ingest/repo.py:160-196 | A listed open row with the same key and district keeps its group |
| `VacancyTransactions.ChunkTurn` | src/ingest/repo.py:160-196 | In a chunk of any size each row to assign gets its turn, on a table that is sound up to moved statuses |
| `VacancyTransactions.ApplyDetailIsConsistent` | src/ingest/repo.py:199-210 | So does every detail answer that does not reopen a closed row |
| `VacancyTransactions.DetailStores` | src/ingest/repo.py:136-152 | What a detail answer stores of a new and of a known row |
| `VacancyTransactions.ReopeningByDetail` | src/ingest/repo.py:199-210 | For every answer: the groups stay consistent if and only if it reopens no closed row, or the row leaves its group, or the row is the head or the head is open |
| `VacancyLimits.ReopeningLeavesNoHead` | src/ingest/repo.py:199-210 | From an empty store: two matching postings are listed and closed, and an answer that reopens the second leaves their group without an open head |
| `VacancyTransactions.CloseChunkIsConsistent` | src/ingest/repo.py:221-236 | So does closing rows |
| `VacancyTransactions.PurgeIsConsistent` | src/ingest/repo.py:255-262 | So does purging closed rows, group heads included |
| `VacancyTransactions.OneRepresentative` | src/ingest/dedup.py:172-190 | A group with an open row has exactly one row without `dup_of`: the open row that is the group id, named by all others |
| `VacancyStore.LastAnswerWins` | src/ingest/repo.py:160-171 | Of several answers for a uid the last is kept |
| `VacancyStore.Store.Best` | src/ingest/dedup.py:178-184 | Finds the first of a group in canonical order |
| `VacancyStore.Store.FindDuplicate` | src/ingest/dedup.py:131-169 | The scans as loops |
| `VacancyStore.Store.AssignRow` | src/ingest/dedup.py:224-252 | Detach, match and merge of one row in place |
| `VacancyStore.Store.DetachRow` | src/ingest/dedup.py:202-221 | The split in place |
| `VacancyStore.Store.UpsertBatch` | src/ingest/repo.py:160-196 | All chunks in place: consistent groups, no failure count invented, gone rows stay closed, nothing turns stale; returns the number of new rows |
| `VacancyStore.Store.StoreDetail` | src/ingest/repo.py:199-210 | A detail answer in place, for any row: exactly when the groups stay consistent, and when a gone row could come back; other rows keep their facts |
| `VacancyStore.Store.Close` | src/ingest/repo.py:221-236 | Named rows end up closed, with the reason when they were open; returns how many were open; groups stay consistent |
| `VacancyStore.Store.PurgeClosed` | src/ingest/repo.py:255-262 | Deletes rows closed before the limit and no others, up to its LIMIT, all of them below that; returns how many |
| `VacancyStore.Store.RecordDetailFailure` | src/ingest/repo.py:271-280 | Counts a failure and puts the next re-check off by an hour, doubled per earlier failure, at most a day |
| `VacancyStore.Store.MarkChecked` | src/ingest/repo.py:265-268 | Rotates one row and changes nothing else |
| `Openings.OpeningsAddUp` | src/ingest/repo.py:374-394 | The openings of all visible cards add up to the number of open vacancies |
| `Openings.AttachOpenings` | src/ingest/repo.py:374-394 | Each card of a page gets the open rows of its group, at least 1, and 1 without a group |
| `Rechecks.GiveUpTakes79Hours` | src/ingest/repo.py:30-33 | The back-offs before the eighth failure add up to 79 hours |
| `Rechecks.BackoffIsNextWait` | src/ingest/repo.py:271-280 | The back-off is 1, 2, 4, 8 and 16 hours, and from the sixth failure on a day |
| `Rechecks.FailureKeepsStreaks` | src/ingest/repo.py:271-280 | A streak of failures is at least as old as its back-offs; the give-up threshold comes no sooner than 79 hours after it began |
| `Rechecks.StaleOnlyAfterGivingUp` | src/ingest/repo.py:239-252 | A failing row is closed as stale no sooner than 79 hours into its streak |
| `Rechecks.OutageIsThreeInARow` | src/ingest/runner.py:107-145 | Re-checks stop exactly when the last three requests failed |
| `Rechecks.WhenStaleIsSkipped` | src/ingest/runner.py:146-150 | The stale rule is skipped if and only if the last three requests failed, or there were requests and at least half of them failed |
| `Rechecks.UpsertChunkKeeps` | src/ingest/repo.py:98-134 | A list sighting neither invents failures nor reopens a gone row |
| `Rechecks.UpsertChunkFresh` | src/ingest/repo.py:98-134 | Every row of a list result counts as just seen and is not stale; no other row gets stale or older |
| `Rechecks.ApplyDetailKeeps` | src/ingest/repo.py:136-152 | A detail answer decides and clears its own row and changes the facts of no other; a gone row can only come back by an answer for it |
| `IngestRunner.Runner.PickForRecheck` | src/ingest/repo.py:292-305 | The first rows, up to the limit, of the open and due ones of the source: never-checked first, then longest unchecked, then latest published |
| `IngestRunner.Runner.Recheck` | src/ingest/runner.py:107-145 | What each kind of answer makes of the whole row, its group aside, and that all other rows keep theirs |
| `IngestRunner.Runner.RecheckAll` | src/ingest/runner.py:107-145 | The k-th answer acts on the k-th row, until rows, answers or budget end or three requests in a row failed, and no row beyond is touched; returns the number of rows it closed |
| `IngestRunner.Runner.RecheckSome` | src/ingest/runner.py:107-145 | The rows asked for are the first `recheck_per_run` of the pick, and each answer acts on its row as one re-check does |
| `IngestRunner.Runner.CloseStale` | src/ingest/repo.py:239-252 | Closes stale candidates and nothing else, up to its limit, all of them below that; returns how many |
| `IngestRunner.Runner.StaleRule` | src/ingest/runner.py:146-155 | Exactly open rows of the source last seen too long ago, and not in the middle of a failing streak, are closed as stale; below the limit none is left; a failing one is at least 79 hours into its streak |
| `IngestRunner.Runner.Upserts` | src/ingest/runner.py:93-106 | After the list part every row of every page is stored and fresh; counts what was seen and what is new |
| `IngestRunner.Runner.RunAdapter` | src/ingest/runner.py:93-165 | A whole run: what it lists is stored and fresh; then the first `recheck_per_run` due rows get their answers, each acting on its row, until budget or an outage ends it; then, unless the failure ratio forbids it, the stale rows of the source and no others are closed, all of them below the limit and no failing one within 79 hours. Groups and streaks stay consistent, gone rows stay closed, nothing listed ends as stale, and the statistics are the numbers of rows that got new, closed and stale |
| `Listing.CursorRoundTrip` | src/ingest/repo.py:412-422 | A cursor decodes to the pair it encodes, and is not empty |
| `Listing.Search` | src/ingest/repo.py:474-533 | A page is shown rows by publication, newest or oldest first, or by UZS salary, best first, then by id; the first page lacks only rows that come later; in general it is the first rows behind the cursor or the offset, with a next cursor if and only if rows are left |
| `Listing.OffsetPageIsASlice` | src/ingest/repo.py:474-533 | Paging by number returns that slice of the sorted rows, and a next cursor if and only if the slice does not reach the end |
| `Listing.WalksNeverRepeat` | src/ingest/repo.py:474-533 | With any changes between pages, returned (key, id) pairs come in strict order, so none twice |
| `Listing.WalksMissNothing` | src/ingest/repo.py:474-533 | A row that is there throughout with one key is returned by every walk that ends |
| `Listing.StillTableIsListedOnce` | src/ingest/repo.py:463-533 | On an unchanging table a finished walk lists every shown row once, in the order of its columns |
| `Listing.StillWalksEnd` | src/ingest/repo.py:474-533 | On an unchanging table the walk ends |
| `Base64Url.DecodeInvertsEncode` | src/ingest/repo.py:412-422 | Decoding unpadded base64url gives back the bytes (section 5 of RFC 4648) |
| `PoolProtocol.InvStep` | webapp/core/database.py:87-124 | One step of any request, or closing the pool, keeps the pool invariant |
| `PoolProtocol.RunsKeepInv` | webapp/core/database.py:87-131 | So does every run, from any such state |
| `PoolProtocol.PoolIsSafe` | webapp/core/database.py:87-131 | In every run from a new pool: free and held slots are `size`, idle and used connections at most `size`, the count exact while open, each connection with at most one request, each slot given back once |
| `PoolProtocol.GoneIsFinal` | webapp/core/database.py:502-513 | A request that is through stays so, however often its lease is finished again |
| `PoolProtocol.BoundNeedsCarefulOpenings` | webapp/core/database.py:55-59 | Connections exceed `size` by at most the openings cancelled after their connection was up, and can exceed it if and only if there was one |
| `PoolProtocol.StrayExceedsThePool` | webapp/core/database.py:55-59 | A pool of one with two connections after such a cancellation |
| `ConnectionPools.ConnectionPool.Proceed` | webapp/core/database.py:99-104 | After the wait: refusal on a closed pool, the newest idle connection, or the decision to open one |
| `ConnectionPools.ConnectionPool.FailOpening` | webapp/core/database.py:105-107 | A failed opening gives the slot back |
| `ConnectionPools.ConnectionPool.Release` | webapp/core/database.py:110-116 | The connection becomes idle and the slot free, or it is closed with the pool |
| `ConnectionPools.ConnectionPool.Discard` | webapp/core/database.py:118-124 | The connection is dropped and the slot kept until it is closed |
| `ConnectionPools.ConnectionPool.Close` | webapp/core/database.py:126-131 | The idle connections leave the pool to be closed |
| `ConnectionPools.Lease.Finish` | webapp/core/database.py:502-513 | The first call starts the hand-back, every other call does nothing |
| `ConnectionPools.Lease.ReturnToPool` | webapp/core/database.py:515-527 | Release after a good rollback, discard otherwise |
| `Ledger.BalanceIsRowsPlusUnlogged` | webapp/core/ledger.py:12-16 | In every run the balance is the sum of the rows plus exactly what unlogged payouts paid |
| `Ledger.RowsAddUpToTheBalance` | webapp/core/ledger.py:12-16 | From a zero start balance and row sum agree if and only if no payout to the user went unlogged |
| `Ledger.UnloggedPayoutBreaksTheSum` | src/middleware/middlewares.py:189-213 | A run with one unlogged payout: balance 5, row sum 0 |
| `Ledger.RunsStayReconciled` | webapp/core/ledger.py:131-270 | With logged payouts every run keeps balances equal to row sums and each `balance_after` the prefix sum |
| `Ledger.RefusalsWriteNothing` | webapp/core/ledger.py:131-186 | When each refusal happens, and that it has written nothing even before the rollback; a success moves one balance by the amount, not below zero where funds are required, and appends exactly the row that says so |
| `Ledger.StoredIsAPrefix` | webapp/core/ledger.py:85-128 | References are stored up to their 200th character |
| `Ledger.ActivationCharges` | webapp/core/ledger.py:189-230 | Pro is bought if and only if user, price and balance allow it, with its price and its row; otherwise nothing is written |
| `Ledger.ResetNeedsBoundedBalance` | webapp/core/ledger.py:233-271 | A reset works if and only if the user exists and the balance is within the guard, and leaves zero, no pro and a row of what was taken; otherwise nothing changes |
| `Ledger.LargeBalanceCannotBeReset` | webapp/core/ledger.py:233-271 | Two allowed credits make a balance that a reset refuses and leaves |
| `Ledger.RowsAreFinal` | webapp/core/ledger.py:112-115 | Rows are only appended, and no two share a kind and a reference |
| `Ledger.PaymentsCreditOnce` | webapp/payments/service.py:245-290 | Settling a payment again, at any later time, changes nothing |
| `Ledger.TopUpAddsWhatTheOrderShows` | webapp/payments/service.py:245-290 | A settled payment adds its amount and exactly the bonus that its order then shows, with one row for each |
| `Ledger.BonusIsThePercentage` | webapp/payments/config.py:91-97 | The bonus is the whole part of its percentage, and none outside of 1 to 50 percent |
| `Ledger.BonusOncePerOrder` | webapp/payments/service.py:266-293 | A due bonus is left out if and only if the order has one already |
| `Ledger.InviteesPayOnce` | src/middleware/middlewares.py:146-186 | One invitee pays at most once in every run, and never once paid |
| `Ledger.ReferralPays` | src/middleware/middlewares.py:146-213 | A referral pays a known inviter a positive reward unless the invitee was paid for, and is remembered, with a row if one could be written |
| `Ledger.SwitchIsRecorded` | webapp/routers/admin_users.py:1365-1391 | The admin switch sets the flag, moves no money and leaves a row of zero |
| `Ledger.ProChargedOnce` | webapp/core/ledger.py:189-230 | Pro is charged at most once between two revocations |
| `LedgerStore.Wallet.ApplyBalanceChange` | webapp/core/ledger.py:131-186 | The conditional update and its row, statement by statement |
| `LedgerStore.Wallet.ActivatePro` | webapp/core/ledger.py:189-230 | The conditional purchase and its row |
| `LedgerStore.Wallet.ResetUser` | webapp/core/ledger.py:233-271 | With others committing in between: equal to one reset after them, or nothing after five misses, which cannot happen alone |
| `LedgerStore.Wallet.PayReferral` | src/middleware/middlewares.py:146-213 | Payout row, balance and ledger row |
| `LedgerStore.Wallet.CreditTopup` | webapp/payments/service.py:245-290 | Top-up, the bonus under a savepoint, and what the order remembers of it |
| `Migrations.RunsKeepInv` | src/db/migrate.py:57-84 | Every interleaving of processes, failures and crashes keeps one commit per migration, their order, and what each process reports |
| `Migrations.MigrationsCommitOnceInOrder` | src/db/migrate.py:57-84 | Each recorded migration committed exactly once, after all smaller ones its process discovered |
| `Migrations.FinishedMeansMigrated` | src/db/migrate.py:57-84 | A process that returns has all its ids recorded and reports exactly its own commits |
| `MigrationRunner.Database.RunMigrations` | src/db/migrate.py:57-84 | The loop with other processes in between: it returns exactly the migrations this process committed, in order; success means all recorded, failure names the first id that failed with all smaller ones recorded |
| `TagRepair.TagsConcat` | src/handlers/content.py:29 | No match of the tag pattern reaches across the end of a string whose angle brackets are closed |
| `TagRepair.ScanFindsTags` | src/handlers/content.py:29 | On a document the pattern finds exactly its tags, names in lower case |
| `TagRepair.StackIsNesting` | src/handlers/content.py:79-88 | On nested tags the stack holds exactly the open elements |
| `TagRepair.PrefixesAreRepaired` | src/handlers/content.py:74-89 | Any prefix of a well-nested document becomes a well-nested document that extends it less its half-cut tag |
| `TagRepair.WellNestedIsKept` | src/handlers/content.py:74-89 | A well-nested document is returned unchanged |
| `TagRepair.PopThrough` | src/handlers/content.py:86-88 | The inner loop drops everything from the last such name on |
| `TagRepair.CloseOpenTags` | src/handlers/content.py:74-89 | The loop computes the repair |
| `MemCache.GetIsFresh` | src/functions/cache.py:34-45 | A hit is the last value set for the key, not past its expiry, and there is one exactly when that entry is still held; it counts as a use, and no other entry is dropped |
| `MemCache.SetIsBounded` | src/functions/cache.py:48-53 | After a set the size is within the bound, and what was set with time left is there |
| `MemCache.EvictionDropsTheLeastRecent` | src/functions/cache.py:56-66 | Eviction drops a live entry only to reach the target, and only one used longer ago than all it keeps |
| `MemCache.WriteDropsTheLeastRecent` | src/functions/cache.py:48-66 | A write drops another entry only from a full cache without the key: one past its expiry, or, down to nine tenths of the bound, one used longer ago than all it keeps |
| `MemCache.EntriesStandByUse` | src/functions/cache.py:34-53 | After any calls the entries stand in the order of the last write or hit of their keys |
| `MemCache.CacheRefinesUnboundedMap` | src/functions/cache.py:34-66 | After any calls every hit is what an unbounded map with expiry would answer, and the entries stand by their last use |
| `MemCache.RecentEntriesSurvive` | src/functions/cache.py:48-66 | A value just set is still a hit after fewer than the target number of calls on other keys |
| `MemCacheStore.Cache.Get` | src/functions/cache.py:34-45 | The lookup in place |
| `MemCacheStore.Cache.Set` | src/functions/cache.py:48-53 | The insertion in place |
| `MemCacheStore.Cache.Evict` | src/functions/cache.py:56-66 | Both loops of the eviction |
| `Numerals.ToBaseReadsBack` | src/functions/vacancy_token.py:29-34 | Digits read back to the number, without a leading zero |
| `Numerals.FromBaseWritesBack` | src/functions/vacancy_token.py:45-53 | Digits without a leading zero are the only spelling of their value |
| `VacancyToken.ToBase36` | src/functions/vacancy_token.py:29-34 | The loop spells the number in base 36 |
| `VacancyToken.IdFits` | src/functions/vacancy_token.py:23-24 | Every id fits the 14 digits a token may have |
| `VacancyToken.UidForms` | src/functions/vacancy_token.py:23-25 | A uid is one of the three sources, an underscore and one to eighteen digits without a leading zero |
| `VacancyToken.TokenLetters` | src/functions/vacancy_token.py:18-20 | The letter of each source |
| `VacancyToken.TokenRoundTrip` | src/functions/vacancy_token.py:37-53 | Every well-formed uid survives its token |
| `VacancyToken.LinksParseBack` | src/functions/vacancy_token.py:56-67 | Both link forms of a well-formed uid parse back to it |
| `VacancyToken.DecodedTokens` | src/functions/vacancy_token.py:45-53 | What decodes is a well-formed uid, and the token is its own spelling if and only if it has no leading zero |
| `BotLink.SignedLinksVerify` | src/functions/webapp_link.py:117-170 | A signed link verifies to its user and dates if and only if it is no more than 60 seconds early and less than 7 days old |
| `BotLink.SignedLayout` | src/functions/webapp_link.py:117-128 | Which users and dates can be signed, and the 29 bytes of a link: version, user, date and MAC |
| `BotLink.AcceptedTokensAreSigned` | src/functions/webapp_link.py:138-170 | An accepted token is the one spelling of its payload: what signing gives |
| `BotLink.KeyCache.DeriveKey` | src/functions/webapp_link.py:73-81 | The cached key is the derived key of the asked secret |

## Left out

- BroadcastProtocol.Step: one job at a time, because no statement but the row-wise stale reset touches two; `now` is read in the step it stamps, although the code reads it before it waits for the write lock.
- BroadcastTheorems.AbortsAreExact: the ratio 0.95 is the exact fraction 19/20 instead of the nearest double.
- BroadcastStore.BroadcastDb.WriteResults: the `error` texts of rows and jobs and `started_at` are not modelled.
- BroadcastWorker.Worker.RunBroadcast: the loop has a bound on its batches, for which `max_batches=None` is any bound large enough; the batch size is the default, and a job row that was deleted is left out.
- BroadcastStore.BroadcastDb.QueueDraft: the segment query is an arbitrary set of users.
- RateLimit.TokenBucket.Acquire: looks a bounded number of times, any bound; rates are reals, so rounding of doubles is not modelled, and negative amounts are left out.
- Dedup.FoundMatchIsBest: title ratio, title match, dedup keys and the rows an index scan visits are parameters, so nothing is said about how similar titles are.
- VacancyStore.Store.PurgeClosed: which rows a LIMIT without an order takes is left open; so it is in `IngestRunner.Runner.CloseStale`.
- Openings.OpeningsAddUp: assumes that no row has an empty uid, which no adapter produces; without it the card of such a row counts 1.
- Listing.Search: the WHERE clause is a flag per row and request.
- Listing.CursorRoundTrip: the decoder accepts the URL-safe alphabet and ASCII digits only, while Python's also skips foreign characters and takes other decimal digits; on cursors the API made, both agree.
- IngestRunner.Runner.RunAdapter: the request budget and every answer are inputs; saved cursors, the counts of checked and unusable rows, and cancellation between two transactions are left out.
- BotLink.SignedLinksVerify: HMAC and HKDF are an uninterpreted function of secret and payload; nothing is said about forging; revocation (`is_revoked`) is one comparison.
- PoolProtocol.Step: connections are fresh numbers and a rollback is only its result; the registry of pools per event loop is left out.
- Ledger.TopUpAddsWhatTheOrderShows: of a payment order only its bonus is modelled; the reference alone guards against a second credit. `pro_until` and the texts of notes are left out.
- LedgerStore.Wallet.ResetUser: what other connections commit between its read and its update is an arbitrary list of ledger operations.
- Migrations.MigrationsCommitOnceInOrder: a migration module is only its name's place in name order, and its effect one entry of a log; a migration that commits by itself is left out, as is the busy timeout.
- TagRepair.PrefixesAreRepaired: every character beyond ASCII counts as a word character, so attributes start with an ASCII one; `Lower` is ASCII, which is all the tag pattern matches.
- MemCache.SetIsBounded: `int(bound * 0.9)` is the exact floor of nine tenths; Redis and its back-off are left out.
- Classifying exceptions, HTTP, Telegram, Click, hh and osonish calls: a send or a request is any of its possible answers.
- Retention of finished broadcasts, translations, keyboards, charts, region tables and settings: data, or deliberately outside these invariants.
