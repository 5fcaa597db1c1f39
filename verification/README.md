# CheckPulse: a verified model of the check pipeline, plan limits and bulk add

CheckPulse monitors web sites from several regions. This project models the parts of its server whose
correctness depends on arithmetic, interleavings and long histories, and proves what they promise:

- **Votes and verdicts.** `Regions` and `Checks` model the strict-majority verdict over each voting
  region's latest fresh check, and when the retention job may delete checks without changing a verdict.
- **Finalizing.** `FinalizeProtocol` is a small-step machine of `finalize_check_result` tasks: lock,
  read the monitor, read one region's vote at a time, write and unlock, with new checks, edits,
  deletions, crashes, retries and other tasks between any two steps. `FinalizeSafety`, `FinalizeReads`
  and `FinalizeTheorems` prove that every run ends in the tables of its committed tasks replayed one by
  one in commit order; `FinalizeEffects` says what single steps read and write; `FinalizeSnapshots` proves exactly when the votes of a task are those of one
  moment, and `MixedReads` shows runs in which they are not; `Incidents`, `IncidentHistory` and
  `AlertHistory` prove what a replay makes of the incident and delivery tables. `FinalizeTask` is the
  task's own code over mutable tables.
- **The queue.** `PendingChecks` is the `pending_checks` table under the scheduler, the regional claim,
  the result post, the blocked-target branch, the reaper, cleanup, check-now and monitor changes.
  `QueueEffects` says what each transaction does to every row, with the source's numbers written out;
  `LeaseSafety` and `LeaseTheorems` prove its invariants over all runs, `LateBlocks` says when the
  blocked-target branch can come too late, `QueueTable` is the code over a mutable table, and
  `WorkerLoop` adds the worker's batch and its hard timeouts.
- **Plans and trials.** `Plans` and `PlanFitting` model which monitors a plan runs and the refit that
  applies it; `Trial` is the state machine of trial and billing events, `Accounts` the same as code
  assigning user and monitor fields; `MonitorLimits` covers create, bulk add, pause, resume and delete.
- **Bulk add.** `MonitorNames`, `BulkAdd` and `BulkAddTheorems`: parsing a paste, planning, cutting to the
  plan limit, and naming the created monitors.
- **Alert deliveries.** `DeliveryTask`: one delivery under retries, duplicated enqueues and crashes.

Functions are committed transactions on values; classes are the Python code on fields, and each method's
contract equates its new state with the corresponding function of the old state. Times are integers in
seconds. Monitor, region and worker identifiers are abstract. Dafny 4.11: `dafny verify dfyconfig.toml`.

## Where the code differs from its documentation

- `app/workers/tasks.py:255-258` calls the task serialized per monitor. Its writes are, and no incident is
  written twice (`OneOpenIncidentWhileDown`). But the result post takes no lock, and the task reads its
  votes one region at a time, so a finalize can decide on votes that were never in the table together:
  `MixedReadsMatchNoMoment` is a run in which it reports a monitor down that no table, at any time, had
  down. The votes are those of one moment exactly if no read was overtaken (`OneMomentIffNotOvertaken`),
  and a whole run is one of atomic finalizes exactly if none of its finalizes was
  (`AtomicIffNoneOvertaken`).
- Two checks of one region with the same timestamp leave the vote to the database: exactly then does the
  query have two answers (`Checks.TwoAnswersIffTied`). A verdict can be reversed that way with no check in
  between (`TiedRowsReverse`), over one table exactly if a strict majority can vote down and a strict
  majority can vote up (`ReversibleIffBothMajorities`); the reversal theorem reads accordingly.
- The docstring of `reap_dead_pending_checks` promises to retire rows whose lease expired under the
  attempt cap. The code does so for no such row: a row left alone is ever reaped exactly if it was never
  leased or has reached the cap (`SilentRowDiesIff`), and `SilentRowOutlivesEveryReap` is a reachable row
  that no reap kills. It stays claimable, so the slot is wedged only until a worker polls again: every live
  row is leased, claimable or about to be reaped exactly when the reap cap is at most the claim cap
  (`NeverWedgedIffCapsAgree`).
- The delete after a blocked target does not check the lease owner, unlike the delete after a post, so it
  can drop another worker's live lease (`LateBlockDropsAnotherLease`) and have a check recorded twice
  although every batch fits its leases (`LateBlockBreaksExactlyOnce`). It is safe exactly if nobody can
  lease the row again before it comes (`BlockSafeIffUnleasable`).
- A checker that would raise Python's `TimeoutError` early would be reported as a hard timeout, because
  `concurrent.futures.TimeoutError` is that same class since Python 3.11 (`ExecuteCheck`). The HTTP and SSL
  checkers catch theirs.
- `app/services/trial.py` says a paid plan clears the trial so that cancelling drops to Free. Trial limits
  never return after a paid plan if and only if the trial had been used before
  (`TrialNeverReturnsIffUsed`): an account that paid first can cancel and start its trial.
- A delivery's message can go out twice when the commit after a successful send is lost
  (`LostRecordSendsTwice`).
- `app/workers/tasks.py:186-187` says raising lets Celery retry and the row is marked failed after the last
  retry. A delivery can instead stay pending with no run queued: by a crash (`CrashLeavesItPending`), or
  with no crash by an outage through the retries (`OutageLeavesItPending`). It does exactly if nothing
  settles it and every enqueue ends in a run that strands it (`StrandedIffEveryEnqueueStrands`).

## Model

| member | source | states |
|---|---|---|
| Regions.Quorum | app/services/regions.py:114-116 | the quorum is the least number that is a strict majority |
| Regions.ConsensusIsStrictMajority | app/services/regions.py:125-143 | the verdict is down (up) exactly when more than half of all voting regions, reporting or not, are down (up) voters; the counts returned are those of the voters |
| Regions.NeedIsLeastMajority | app/services/regions.py:132-133 | the number of votes reported as needed is the least strict majority of the voting regions |
| Regions.ShadowRegionsNeverCount | app/services/regions.py:125-130 | votes of regions outside the voting list never change the result |
| Regions.VerdictStableUnderMoreVotes | app/services/regions.py:125-143 | once there is a verdict on partial votes, no further votes of other regions change it |
| Regions.FullReportIncompleteIffTie | app/services/regions.py:125-143 | with everybody reporting there is no verdict exactly on an even split, so never with an odd number of voters |
| Regions.ReversalNeedsAChangedVote | app/services/regions.py:125-143 | between a down and an up verdict over the same voters some region voted down before and votes up now |
| Checks.QueryLatest | app/workers/tasks.py:297-305 | the row found is fresh and no fresh row of the region is newer, and none is found only if none is fresh |
| Checks.FreshIffRecent | app/services/regions.py:119-122 | a check of a voting region counts exactly while it is at most three intervals old, or at most 15 minutes |
| Checks.RecentMajorityDecides | app/workers/tasks.py:289-316 | at every interval: if a strict majority of the voting regions last reported down (up) at most 15 minutes ago, the verdict is down (up), however the votes are read |
| Checks.FlipNeedsANewRow | app/workers/tasks.py:297-305 | a region whose latest fresh vote went from down to up has a newer row, whatever expired meanwhile, unless two rows share a timestamp |
| Checks.CleanupNeutralWhenWindowFits | app/workers/tasks.py:384-427 | a cleanup at any earlier time leaves every later finalize the same possible verdicts when the freshness window fits in the retention window |
| Checks.PossibleIffAbleMajority | app/workers/tasks.py:294-316 | a table allows a verdict, for some way of breaking ties, if and only if a strict majority of the voting regions have a latest fresh row of that status |
| Checks.ReversibleIffBothMajorities | app/workers/tasks.py:294-316 | one table allows down and, at the same or a later cutoff, up if and only if a strict majority can vote down at the first and one up at the second; then some region has tied rows of both statuses |
| Checks.RetentionSafeIffWindowFits | app/workers/tasks.py:375-427 | cleanup never changes a verdict, even one running between a finalize's cutoff and its last read, if and only if the freshness window plus that lag fits in the plan's retention; for Free that is three intervals plus the lag in 7 days, which is safe on every plan |
| Checks.ExpiredByPlan | app/workers/tasks.py:384-427 | cleanup removes exactly checks older than 7 days on Free, 90 on Starter, 365 on Pro and 7 on any other stored plan |
| Incidents.EnqueueAll | app/services/alerts.py:95-110 | a transition not alerted before inserts exactly one row per active channel: the conflict clause swallows nothing |
| Incidents.LatestOpen | app/workers/tasks.py:327-335 | the incident to resolve is an unresolved one of the monitor with no later start, and there is none only if all are resolved |
| Incidents.DownRunsSnoc | app/workers/tasks.py:320-337 | the maximal down runs of a verdict history grow by opening a run, closing the last or not at all, as the status machine does |
| Incidents.DownRunsOrdered | app/workers/tasks.py:320-337 | down runs of a history in time order are ordered, do not overlap, and only the last can be open |
| IncidentHistory.IncidentsAreDownRuns | app/workers/tasks.py:289-339 | for every serial log the incidents of a monitor are exactly the maximal down runs of its verdicts without the incomplete ones, and its status is the last verdict |
| IncidentHistory.LogConsistent | app/workers/tasks.py:320-341 | over every serial log incident ids increase, every incident has its monitor and every delivery its incident, no delivery occurs twice, and an open incident has no resolved alert |
| IncidentHistory.OpenIncidentIffDown | deploy/sanity.sql:35-43 | a monitor has exactly one unresolved incident while it is down and none otherwise |
| AlertHistory.AlertsTellTheStory | app/services/alerts.py:72-110 | for a channel active throughout, the deliveries of a monitor are, in order, a down alert per incident and a resolved alert per resolved incident, nothing else |
| AlertHistory.AlertsAlternate | app/workers/tasks.py:320-341 | those deliveries alternate down, resolved, down, ..., each resolved sharing the incident of the down before it |
| FinalizeSafety.SerialStep | app/workers/tasks.py:266-341 | every step of the interleaving keeps: at most one task per lock key is active, the old status a task read is still the stored one, and the tables are the replay of the committed log |
| FinalizeSafety.SerialRun | app/workers/tasks.py:266-341 | that invariant holds in every reachable state |
| FinalizeEffects.ReadMonitorSetsTheWindow | app/workers/tasks.py:276-295 | a task goes by the status stored when it reads the monitor, and will count checks of at most three of the intervals stored then, or 15 minutes, before that moment |
| FinalizeEffects.CommitLogsNow | app/workers/tasks.py:315-344 | a commit writes at the clock of the commit, for the channels active then and the votes read before |
| FinalizeEffects.IntervalSetLast | app/api/routes/dashboard.py:2102 | in every run the interval a monitor is read with is the one set last, at its creation or by an edit |
| FinalizeEffects.SiteChecksAreNeverFinalized | app/workers/tasks.py:279-282 | in no run is a throwaway site-check monitor finalized, so it never gets an incident or an alert |
| FinalizeReads.OrderlyRun | app/workers/tasks.py:271-316 | in every reachable state each recorded vote is the latest fresh one among the checks committed when it was read, tasks read after their lock, and rounds of one monitor follow one another in time |
| FinalizeReads.CoveredRun | app/api/routes/internal.py:242-249 | in every reachable state each committed check of a monitor that lost no task is waiting for dispatch, queued, in flight in a task that sees it, or was seen by a committed finalize |
| FinalizeTheorems.InterleavingIsSerial | app/workers/tasks.py:266-341 | any interleaving, with checks landing between the reads, reaches the tables of its finalizes writing one by one in commit order; each verdict is the consensus of votes that were latest and fresh at their own read, and of one moment exactly if no read was overtaken |
| FinalizeTheorems.AtomicIffNoneOvertaken | app/workers/tasks.py:266-341 | an interleaving is one of atomic finalizes, each reading the whole of one table with its own cutoff and, for each monitor, in lock order, if and only if none of its finalizes was overtaken between two of its reads |
| FinalizeSnapshots.OneMomentIffNotOvertaken | app/workers/tasks.py:296-305 | the votes a task read one by one are those of one table between its lock and the end if and only if none was overtaken: no check made an answer old and landed before the row that a later read answered with |
| FinalizeSnapshots.OneReportingRegionIsOneMoment | app/workers/tasks.py:296-305 | if between the lock and the last read only one voting region got new checks, the votes are those of one moment: it takes two regions to mix |
| MixedReads.MixedReadsMatchNoMoment | app/workers/tasks.py:296-316 | a run in which two regions report between two reads, and the finalize writes down and opens an incident although no table of the run, before, during or after, has the verdict down |
| FinalizeTheorems.OneOpenIncidentWhileDown | deploy/sanity.sql:35-43 | in every reachable state the number of open incidents of a monitor is 1 if it is down and 0 if not |
| FinalizeTheorems.CollisionsChangeNothing | app/workers/tasks.py:267-274 | every run under a colliding lock key is a run under one lock per monitor, so collisions add no behaviour |
| FinalizeTheorems.IncidentTableIsHistory | app/workers/tasks.py:289-339 | in every reachable state the incident table of a monitor is the ordered list of down runs of its verdict history |
| FinalizeTheorems.AlertsOfRunAlternate | app/workers/tasks.py:320-344 | the same for the delivery table: it tells the incidents' story for every channel that stayed active, and alternates |
| FinalizeTheorems.QuiescentAgreement | app/api/routes/internal.py:242-249 | once every dispatched finalize is done, the last one committed voted with the whole check table at its cutoff, and the status is that verdict, or the status before it if that verdict is incomplete |
| FinalizeTheorems.ReversalNeedsANewUpCheck | app/workers/tasks.py:294-316 | in any run, between a down and a later up verdict over the same voters a region that had voted down has an up check that the down verdict had not read, or one at the same instant as its down check |
| MixedReads.TiedRowsReverse | app/workers/tasks.py:297-316 | a run in which a down verdict is reversed by an up verdict of the same voters over the same table, because two rows share a timestamp |
| FinalizeTask.Database.EnqueueAlerts | app/services/alerts.py:95-110 | inserting in a loop under the unique key gives the rows of one enqueue and their number |
| FinalizeTask.Database.ReadVotes | app/workers/tasks.py:296-305 | the loop fills in each voting region's latest fresh row |
| FinalizeTask.Database.FinalizeCheckResult | app/workers/tasks.py:251-351 | the outcome is missing, site check, no quorum or decided exactly in its case; the first three change nothing and decided is one serial finalize transaction whose verdict is the consensus of the latest fresh votes; at every interval a strict majority of voters that last reported down (up) at most 15 minutes ago makes it decide so |
| FinalizeTask.Database.CleanupOldChecks | app/workers/tasks.py:384-427 | the deletes per plan and the catch-all keep exactly the checks inside their owner's retention |
| FinalizeTask.AllPlansDeleted | app/workers/tasks.py:384-427 | deleting plan by plan, in any order and with repeats, comes to one retention rule |
| QueueEffects.EveryDueMonitorIsServed | app/workers/tasks.py:54-95 | after a scheduling round every active monitor whose next check had come has a row waiting in every scheduled region and is next due one interval later; new rows are untouched, of such a monitor and region and scheduled now, and nothing else changed |
| QueueEffects.CheckNowServesEveryRegion | app/api/routes/monitors.py:340-347 | after check-now a row waits in every scheduled region, the rows added are untouched, and the schedule is as before |
| QueueEffects.EligibleIff | app/api/routes/internal.py:72-74 | a live row can be leased exactly if it was leased less than three times and its last lease, if any, has run out |
| QueueEffects.ClaimKeepsOthersOut | app/api/routes/internal.py:65-88 | a leased row can be leased again exactly once the monitor's timeout and 30 seconds have passed and it was leased less than three times; other rows are as before |
| QueueEffects.ReapedIff | app/workers/tasks.py:124-149 | a reap kills a live row exactly if its third lease has run out or it was never leased and is older than ten minutes, and changes nothing else |
| QueueEffects.CleanedUpIff | app/workers/tasks.py:429-443 | cleanup removes exactly the dead rows scheduled more than seven days ago |
| QueueEffects.DeletedWithMonitor | app/models/models.py:272 | deleting a monitor removes exactly its rows |
| QueueEffects.PostedIff | app/api/routes/internal.py:205-231 | a post removes a row exactly if the poster holds it and handed in a claim on it whose monitor exists, and records the surviving claims |
| QueueEffects.SurvivorsInOrder | app/api/routes/internal.py:182-197 | the results kept are exactly those of existing monitors, in the order posted |
| QueueEffects.BlockedIff | app/api/routes/internal.py:153-161 | the blocked branch records every blocked claim and removes exactly their rows |
| LeaseSafety.InvStep | app/api/routes/internal.py:65-88 | every scheduler, claim, post, block, reap, cleanup, check-now and monitor step keeps the queue invariant: attempts count leases, live rows are unique, leases of a row are disjoint, rows show their last lease, results are handed in once, rounds are spaced |
| LeaseSafety.InvReachable | app/api/routes/internal.py:65-88 | the invariant holds in every reachable queue |
| LeaseTheorems.LeaseDiscipline | app/api/routes/internal.py:65-88 | over every run leases of one row never overlap in time (so concurrent pollers get different rows), a row is leased at most as often as the cap, and has at most that many checks recorded, each lease once |
| LeaseTheorems.UnexpiredClaimHolds | app/api/routes/internal.py:71-83 | while a lease lasts it is the last of its row, and the row, if still there, carries it |
| LeaseTheorems.PostRemovesOnlyOwnLeases | app/api/routes/internal.py:220-231 | a post removes a leased row exactly when the poster is the current holder and handed in a claim on that row; a late post never removes another worker's lease |
| LeaseTheorems.NeverWedgedIffCapsAgree | app/workers/tasks.py:34-36 | in every reachable queue each live row is leased, claimable or about to be reaped, if and only if the reap cap is at most the claim cap |
| LeaseTheorems.LateBlockDropsAnotherLease | app/api/routes/internal.py:154-161 | a reachable queue in which the blocked branch, coming after its lease ended, deletes a row that another worker holds, where a post would not |
| LateBlocks.BlockSafeIffUnleasable | app/api/routes/internal.py:153-161 | in every run until a deadline the blocked branch of a claim deletes at most the row under that very claim if and only if the row is gone, or the claim is its last and the row is dead, out of attempts or leased until the deadline |
| LateBlocks.SilentRowDiesIff | app/workers/tasks.py:115-149 | a live row left alone is killed by some reap if and only if it was never leased or its attempts reached the cap, and then by every later reap |
| LateBlocks.SilentRowOutlivesEveryReap | app/workers/tasks.py:115-149 | a reachable row, leased once and expired, that no reap at any time kills |
| LeaseTheorems.BacklogBounded | alembic/versions/c5d6e7f8a9b0_leaseify_pending_checks.py:44-50 | live rows are unique per monitor and region in every reachable queue, so there are at most monitors times regions of them |
| LeaseTheorems.SchedulerSpacing | app/workers/tasks.py:54-95 | between edits, k scheduling rounds of a monitor, none overlapping another, span at least (k - 1) intervals, however late the scheduler runs |
| QueueTable.Table.SchedulePendingChecks | app/workers/tasks.py:54-95 | the nested loops perform one scheduling transaction over exactly the due monitors and count the rows created |
| QueueTable.Table.EnqueueCheckNow | app/api/routes/monitors.py:340-347 | check-now adds a row for each scheduled region without a live one |
| QueueTable.Table.ReapDeadPendingChecks | app/workers/tasks.py:124-149 | the two updates together kill exactly the cap-exhausted expired and the never-leased old rows; the counters are the numbers of the first kind and of the others |
| QueueTable.ReapInTwoUpdates | app/workers/tasks.py:125-149 | the exhausted and the orphaned rows are disjoint, and marking one after the other kills exactly the rows either rule names |
| QueueTable.Table.Candidates | app/api/routes/internal.py:67-78 | the claim query gives distinct claimable rows of the region, oldest first; it skips rows locked by another poll, and leaves another one out only when the limit is full of rows no younger |
| QueueTable.Table.GetJobs | app/api/routes/internal.py:53-151 | the first transaction leases, oldest first, every eligible row of the region that no other poll has locked, up to the limit, and leaves one out only for rows no younger; the loop hands out exactly the unblocked ones and lists the blocked ones |
| QueueTable.Table.RecordBlocked | app/api/routes/internal.py:153-166 | the second transaction records and deletes exactly the blocked rows, whatever was committed in between, and stores nothing if one of their monitors was deleted |
| QueueTable.Table.PostResults | app/api/routes/internal.py:169-251 | a post drops results of deleted monitors, refuses the batch and changes nothing if a remaining region is not scheduled, and otherwise stores exactly the remaining results in order and performs the recording transaction |
| WorkerLoop.Worker.ExecuteCheck | worker/run.py:56-89 | a check ends within its ceiling and is up exactly when the checker answered up in time; the note says hard timeout exactly when the ceiling was reached or the checker raised a TimeoutError, and tells other errors and unknown types apart |
| WorkerLoop.Worker.RunBatch | worker/run.py:127-131 | a batch gives one result per job in order, each reporting its own run, within the sum of the ceilings |
| WorkerLoop.BatchSafeIffLeasesLast | app/api/routes/internal.py:71-83 | monitor deletions and posts under the worker's own name aside, nobody else can take, retire or delete a batch's rows before the deadline if and only if its leases last until then and, where blocked branches may come after their lease, no earlier lease of a row can still bring one |
| WorkerLoop.ClaimLeases | app/api/routes/internal.py:79-83 | the leases of a claimed batch last until its results are posted exactly when the sum of 2t + 10 over its jobs plus the delay is at most each t + 30 |
| WorkerLoop.SingleJobFits | worker/run.py:63 | for a batch of one posted at once that means a timeout of at most 20 seconds |
| WorkerLoop.BatchExactlyOnce | app/api/routes/internal.py:205-231 | if the batch fits its leases and no late blocked branch is to come, then whatever the rest of the world does no row is leased again before the post, and the post deletes every row and records exactly one check for each |
| WorkerLoop.LateBlockBreaksExactlyOnce | app/api/routes/internal.py:153-161 | a run in which a batch fits its lease and yet the blocked branch of an earlier lease deletes the row under it, so that both record a check |
| Plans.SortIsGrouping | app/services/trial.py:113-114 | the stable sort by project rank is the concatenation of the projects' monitors, oldest project first, by age within each |
| Plans.UpgradesNeverPause | app/services/trial.py:98-117 | with larger limits the run list starts with the whole run list of the smaller limits |
| Plans.RunListTakesTheFirst | app/services/trial.py:98-117 | the run list holds min(limit, candidates in allowed projects) monitors, and all of them come before every eligible one left out in (project age, monitor age) order |
| Plans.FitPartitions | app/services/trial.py:111-117 | run and pause lists are disjoint and together are the candidates |
| PlanFitting.RefitPathIndependent | app/services/trial.py:132-162 | refitting to one plan and then to another leaves the same monitors running as fitting straight to the second |
| PlanFitting.RefitIdempotent | app/services/trial.py:132-162 | a second refit to the same limits changes nothing, at any time and with either reason |
| PlanFitting.RefitPreserves | app/services/trial.py:132-138 | no monitor is removed or moved, those paused by the user are untouched, intervals only go up, and running ones meet the plan minimum |
| PlanFitting.RefitWithinLimit | app/services/trial.py:132-138 | after a refit exactly as many monitors run as the run list has, at most the limit |
| PlanFitting.RefitRowExactly | app/services/trial.py:148-161 | what a refit makes of each row: on the run list active, at its own interval or exactly the minimum, with the schedule of a running one untouched; off it paused with the given reason if it ran; otherwise as before |
| PlanFitting.RefitRunsTheRunList | app/services/trial.py:149-161 | after a refit exactly the run list is running |
| PlanFitting.ResumesAreStaggered | app/services/trial.py:149-157 | resumed monitors get their first checks in run-list order within two minutes, no two at one moment before the cap |
| PlanFitting.ResumedAtItsTurn | app/services/trial.py:153-157 | the k-th monitor resumed is first checked 2(k - 1) seconds from now, or two minutes if that is less |
| Trial.StartGivesFourteenDays | app/services/trial.py:57-84 | a start gives a verified Free account that never had a trial fourteen days, changes no other account, and gives the first reason that applies: paid, unverified, used |
| Trial.EndedTrialIsExpired | app/services/trial.py:204-216 | the next housekeeping after its end takes a Free account's trial to one project, three monitors and 300 seconds, pausing the rest as trial_ended, and changes no other account |
| Trial.RemindedInTheLastThreeDays | app/services/trial.py:261-285 | a reminder is recorded exactly when one is delivered for a running trial in its last three days that has none yet |
| Trial.PaidPlanHasNoTrialEnd | app/services/trial.py:184-199 | after any sequence of events a paid account has no trial end date, and a trial date or expiry mark means the one trial is used |
| Trial.TrialTimeBound | app/services/trial.py:70-84 | over every sequence of events an account spends at most fourteen days under trial limits in total |
| Trial.FourteenDaysAreReached | app/services/trial.py:70-84 | the bound is exact: verify, start, and wait |
| Trial.OneTrialEver | app/services/trial.py:57-59 | over every sequence of events at most one start succeeds, and the used mark records it |
| Trial.OneExpiryEver | app/services/trial.py:204-216 | over every sequence of events housekeeping refits an account for an ended trial at most once |
| Trial.OneReminderEver | app/services/trial.py:261-285 | over every sequence of events at most one reminder is delivered, and none once one is recorded |
| Trial.OfferNeverReturns | app/services/trial.py:78-80 | over every sequence of events an offer of the trial that was dismissed, or taken by starting one, is never made again |
| Trial.SpentTrialStaysSpent | app/services/trial.py:10-12 | once the trial is used and its end date cleared, trial limits never apply again |
| Trial.TrialNeverReturnsIffUsed | app/services/trial.py:10-12 | on a paid account trial limits never return in any continuation if and only if the trial was used |
| Trial.ExpiryFitsFree | app/services/trial.py:13-17 | expiry leaves running exactly the Free run list: at most three monitors, all in the oldest project |
| Trial.UpgradeBeforeOrAfterExpiry | app/services/trial.py:18-20 | upgrading before or after the expiry leaves the same monitors running, those that fit the bought plan |
| Trial.UpgradeStopsNothing | app/services/trial.py:18-20 | every monitor that kept running on Free after the expiry keeps running after an upgrade |
| Trial.LimitsFollowTheSubscription | app/api/routes/billing.py:122-155 | an active subscription of a known price puts its plan's limits in force and an ended one takes a paid account to Free limits, at every later time and whatever trial there was |
| Trial.WebhookSetsThePlan | app/api/routes/billing.py:122-155 | for every status and price: active or trialing buys the plan of a known price, canceled, unpaid or incomplete_expired ends the plan, and no status, past due, incomplete or an unknown price keeps it |
| Trial.WebhookSetsTheColumns | app/api/routes/billing.py:122-155 | the status is that of the event unless a late incomplete meets an active or trialing one; id and period are the event's; only a paid plan ends the trial and its offer |
| Trial.KeptPlanKeepsItsLimits | app/api/routes/billing.py:146-149 | a paid account keeps its plan's limits, at every later time, through every event that keeps the plan |
| Trial.PaidWebhookFits | app/services/trial.py:184-199 | buying a plan during or after a trial, or with any monitor paused by the limits before, leaves running exactly the run list of the bought plan, and what it stops is paused as plan_limit |
| Trial.DeletionEndsThePlan | app/api/routes/billing.py:265-287 | a deleted subscription puts a paid account on Free limits at every later time and a failed payment changes no limit; neither touches a monitor or a trial |
| Trial.WebhookRedeliveryIsHarmless | app/api/routes/billing.py:122-155 | a webhook delivered a second time, at any later time, changes neither the account nor a monitor |
| Accounts.Account.Start | app/services/trial.py:70-84 | a start succeeds exactly for an eligible account and otherwise changes nothing and reports the first reason |
| Accounts.Account.FitMonitors | app/services/trial.py:132-162 | the two loops perform the refit, and the counters are the numbers of monitors that started, that stopped, and that run but were checked too often before |
| Accounts.CountersMeasureTheRefit | app/services/trial.py:148-162 | counting inside the loops measures the difference between the running sets before and after |
| Accounts.Account.ClearTrial | app/services/trial.py:184-199 | performs the paid-plan transition, and reports nothing only if nothing changed |
| Accounts.Account.ApplySubscription | app/api/routes/billing.py:122-155 | performs the webhook event, with stale incomplete events ignored over an active status |
| Accounts.Account.OnSubscriptionDeleted | app/api/routes/billing.py:265-277 | performs the deletion event: Free plan, no refit |
| Accounts.Account.OnPaymentFailed | app/api/routes/billing.py:279-287 | performs the failed-payment event: status only |
| Accounts.ExpireDue | app/services/trial.py:204-216 | every account that no other session holds is expired exactly if it was due, the others are unchanged, and the number expired is returned |
| MonitorLimits.CreatedIff | app/services/plans.py:67-90 | a monitor is created exactly if the account has fewer monitors, running or not, than the plan allows and the interval is no less than its minimum; it then runs at that interval from now |
| MonitorLimits.ResumedIff | app/services/plans.py:93-120 | a paused monitor resumes exactly if its project is among those the plan covers and fewer monitors run than it allows, at its own interval or the minimum if that is more |
| MonitorLimits.BulkAddsWhatFits | app/api/routes/dashboard.py:1492-1556 | the i-th planned monitor is created exactly if the interval is allowed and there is room for i + 1 more; HTTP at the interval asked for, SSL at no less than 3600 seconds |
| MonitorLimits.EditPauseDelete | app/services/plans.py:84-90 | an edit changes the interval exactly if it is no less than the plan minimum; a pause records no reason, and a delete removes exactly the monitors named |
| MonitorLimits.RequestKeepsCount | app/services/plans.py:93-120 | each create, bulk add, pause, resume, edit, delete, new project and refit keeps the number of running monitors within the plan, whatever their intervals and whatever other plan they were created on |
| MonitorLimits.LimitsHoldOverRuns | app/services/plans.py:93-120 | under constant limits, from any state within the number of running monitors, no sequence of requests exceeds it |
| MonitorLimits.IntervalsHoldOverRuns | app/services/plans.py:84-90 | under constant limits, from any state whose running monitors meet the plan minimum and carry no pause reason, so do those after any sequence of requests |
| MonitorLimits.UserPauseOutlivesRefits | app/api/routes/dashboard.py:1978-1979 | a monitor its user paused stays exactly as it is through any number of refits |
| MonitorLimits.MonitorTable.Create | app/api/routes/dashboard.py:1390-1419 | a monitor is added exactly when no validator or name check objects first and the count of all monitors and the interval allow it; any refusal changes nothing |
| MonitorLimits.MonitorTable.Pause | app/api/routes/dashboard.py:1967-1981 | pauses one monitor without a reason and changes no other |
| MonitorLimits.MonitorTable.Resume | app/api/routes/dashboard.py:1984-2006 | a paused monitor is resumed exactly when its project is covered and a running slot is free, at no less than the plan minimum; a running one is not checked again |
| MonitorNames.DecimalInjective | app/api/routes/dashboard.py:1500 | different counters print as different numerals |
| MonitorNames.DecimalReadsBack | app/api/routes/dashboard.py:1500 | the numeral of a counter reads back as that counter, in base ten |
| MonitorNames.CandidateShape | app/api/routes/dashboard.py:1497-1501 | the first name tried is the base itself, the k-th ends in the decimal numeral of k in brackets, each cut to 100 characters |
| MonitorNames.CandidatesDiffer | app/api/routes/dashboard.py:1498-1501 | numbered candidates for different counters differ, cut or not |
| MonitorNames.TakenCandidatesBound | app/api/routes/dashboard.py:1497-1503 | pigeonhole: the first k candidates can all be taken only if there are at least k - 1 names |
| MonitorNames.UniqueName | app/api/routes/dashboard.py:1497-1503 | the search ends with the first candidate not in use, and adds it to the names in use |
| MonitorNames.ChosenNameFits | app/api/routes/dashboard.py:1497-1503 | that name has at most 100 characters, as long as the number of names has at most 97 digits |
| BulkAdd.Parse | app/services/bulk_add.py:55-68 | the loop keeps the first site of every key among the nonblank tokens, in order |
| BulkAdd.ParseKeepsOnePerKey | app/services/bulk_add.py:55-68 | the parsed sites have the keys of the paste, each exactly once |
| BulkAddTheorems.ParsedAreFirst | app/services/bulk_add.py:55-68 | the parsed sites are those of exactly the first nonblank token of each key, in the order of the paste |
| BulkAdd.SlashesDoNotMatter | app/services/bulk_add.py:71-73 | trailing slashes on either side never change whether two addresses are the same |
| BulkAdd.SameUrlIff | app/services/bulk_add.py:71-73 | two addresses are the same exactly if they differ in trailing slashes and letter case only |
| BulkAdd.PlanHttp | app/api/routes/dashboard.py:1509-1522 | the loop over a growing address list plans the first usable site of every address not taken, and gives each other site its reason |
| BulkAdd.PlanSsl | app/api/routes/dashboard.py:1523-1535 | the loop plans an SSL monitor for the first usable https site of every host without one |
| BulkAdd.Plan | app/api/routes/dashboard.py:1507-1541 | the plan is HTTP first, then SSL, cut to the room; the skips are those of validation and of the cut |
| BulkAdd.Create | app/api/routes/dashboard.py:1543-1560 | one row per planned monitor, in order, each under the first free name at its turn |
| BulkAddTheorems.RowsFollowThePlan | app/api/routes/dashboard.py:1543-1560 | an HTTP row has the site's address and exactly the interval asked for; an SSL row has port 443 of its host and that interval or 3600 seconds if that is more; names start from the site's, with SSL added; the i-th row starts after 2i seconds, at most two minutes |
| BulkAddTheorems.HttpPlanIsFirst | app/api/routes/dashboard.py:1509-1522 | HTTP monitors are planned for exactly the first usable site of every free address, in paste order |
| BulkAddTheorems.SslPlanIsFirst | app/api/routes/dashboard.py:1523-1535 | SSL monitors are planned for exactly the first usable https site of every free host, in order |
| BulkAddTheorems.SkipsSayWhy | app/api/routes/dashboard.py:1509-1520 | exactly the other sites are skipped, in order, each for its own reason: not parsed, else already monitored, else the validator's objection |
| BulkAddTheorems.SslSkipsSayWhy | app/api/routes/dashboard.py:1523-1533 | every SSL skip is the validator's objection to an https site whose host was still free at its turn |
| BulkAddTheorems.CutSaysOverLimit | app/api/routes/dashboard.py:1537-1541 | what was planned beyond the room is reported in order as over the limit |
| BulkAddTheorems.EverySiteAccountedOnce | app/api/routes/dashboard.py:1505-1541 | every parsed site is created or reported skipped, exactly once, and so is every SSL monitor asked for |
| BulkAddTheorems.PlannedAddressesDiffer | app/api/routes/dashboard.py:1513-1522 | no two planned HTTP monitors have the same address |
| BulkAddTheorems.EveryUsableAddressIsPlanned | app/api/routes/dashboard.py:1509-1522 | before the cut, exactly the addresses taken before or asked for by a usable site are covered |
| BulkAddTheorems.SslHostsDiffer | app/api/routes/dashboard.py:1524-1535 | planned SSL monitors have distinct hosts, none with an SSL monitor already |
| BulkAddTheorems.HttpBeforeSsl | app/api/routes/dashboard.py:1505-1541 | as many monitors are created as there is room for, and if any HTTP monitor is cut no SSL monitor is created |
| BulkAddTheorems.PlanIsGood | app/api/routes/dashboard.py:1543-1560 | everything planned, HTTP or SSL, is a site that parsed, so creating it needs no further check |
| BulkAddTheorems.NamesAreFresh | app/api/routes/dashboard.py:1543-1560 | created monitors have distinct names, none in use before |
| BulkAddTheorems.CreatedAddressesAreNew | app/api/routes/dashboard.py:1513-1560 | no created HTTP monitor is the same address as an existing or another created one |
| DeliveryTask.Worker.SendAlertDelivery | app/workers/tasks.py:171-240 | the task's branches do to the row what one run of the model does, in each way a run can end |
| DeliveryTask.TerminalIsForever | app/workers/tasks.py:181-183 | once a delivery is sent, failed or deleted no later run sends or changes it, whatever is enqueued |
| DeliveryTask.DeliveryLedger | app/workers/tasks.py:171-240 | over every run there are at most five sends per enqueue, attempts counts the sends and the crashes before them, and at most one message gets out unless the record of one is lost |
| DeliveryTask.FailsExactlyAtTheFifthSend | app/workers/tasks.py:171-240 | a delivery enqueued once and undisturbed is sent exactly if its last send succeeded, fails exactly at its fifth failed send, and until then another run is queued |
| DeliveryTask.RunOfPending | app/workers/tasks.py:171-240 | one run of a pending delivery settles it, strands it, or is queued again with the next retry number, each exactly under its condition |
| DeliveryTask.WhatARunWrites | app/workers/tasks.py:171-240 | every column one run of a pending delivery writes: the attempt, the state, the time of a send, and which of channel, incident, monitor or send error it failed for |
| DeliveryTask.StrandedIffEveryEnqueueStrands | app/workers/tasks.py:171-240 | over every run of a new delivery, it is left pending with nothing queued if and only if nothing deleted or settled it and each enqueue ended in a run that died after counting its attempt or whose last retry failed without storing it |
| DeliveryTask.OneEnqueueStrandedIff | app/workers/tasks.py:171-240 | a single queued run and its retries leave it so if and only if the last of them is of that kind at its retry number |
| DeliveryTask.LostRecordSendsTwice | app/workers/tasks.py:236-240 | a lost commit after a send can send the same message twice |
| DeliveryTask.CrashLeavesItPending | app/workers/tasks.py:219-220 | a run in which a crash after the attempt is counted leaves a delivery pending with no run queued |
| DeliveryTask.OutageLeavesItPending | app/workers/tasks.py:171-189 | a run without any crash that does the same: five loads fail, and the row stays as it was created |

## Left out

- Postgres, SQLAlchemy, Celery and Redis are abstracted to atomic transactions, unique-key inserts, a mutex per lock key and tasks that may be retried or lost; isolation is read committed.
- HTTP, DNS and TLS checkers, the address guards and the redirect loop: a check's answer and a blocked target are arbitrary inputs.
- URL normalization, `str.lower` and the form validators are arbitrary functions; the pasted text arrives split into tokens.
- The 60 second region cache, authentication, rate limits, e-mail texts, templates, status pages and counters.
- The site-check run record and its sweep; throwaway site-check monitors appear only as monitors that finalize skips.
- Cleanup of old checks is not a step of the finalize machine: `RetentionSafeIffWindowFits` says when it cannot matter, for a task whose reads end within the lag. In that machine rows of a deleted monitor stay in the check table and are never read, and deleting an alert channel is not a step.
- A commit whose tasks are never dispatched, and a delivery whose task is never enqueued, are allowed: the alert theorems speak of rows, not of messages received.
- Paid-to-Free and Pro-to-Starter changes do not refit monitors in the code, so the limit theorem is about constant limits.
- Two concurrent requests of one user are not interleaved in `MonitorLimits`.
- LeaseSafety.InvStep: a poll may lease any set of eligible rows of its region, since rows locked by another poll are skipped; the oldest-first choice without skipping is in `QueueTable.Table.Candidates`.
- QueueTable.Table.PostResults: `recorded` lists leases, so a stored result whose row id was never leased is only in the returned list; a result that answers a lease names that row's monitor, as the worker's do.
- LeaseTheorems.SchedulerSpacing: scheduling transactions are assumed not to overlap; the code reads the due monitors without a lock, so two overlapping runs could both take one.
- FinalizeTheorems.AtomicIffNoneOvertaken: moments are in order for each monitor, not across monitors, whose finalizes read and write different rows.
- MonitorLimits.MonitorTable.Create: what the field validators and the duplicate-name check object is an input.
- LeaseTheorems.LeaseDiscipline: bounds recorded checks assuming each claim's result is handed in at most once, as the worker does.
- WorkerLoop.BatchExactlyOnce, WorkerLoop.BatchSafeIffLeasesLast: before the post nobody posts one of the batch's rows under its worker name, no blocked branch comes for the batch's own leases, and its monitors are not deleted. Blocked branches of other leases are allowed, late ones when `late` is set. A poll that also leases blocked rows is two claims at one time.
- FinalizeTheorems.QuiescentAgreement: speaks of monitors that lost no dispatch and no task to a crash or to exhausted retries.
- DeliveryTask.DeliveryLedger: runs of one delivery's task follow one another; two workers inside it at once are not modelled.
- MonitorNames.ChosenNameFits: with a numeral of 98 digits or more the suffix alone exceeds the column, so the bound on the number of names is needed.
- BulkAdd.Plan: the refusals of the whole request (bad numbers, an empty paste, more than 100 sites) come before it and are not modelled.
