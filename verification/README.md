# WebProbe: verified models of the scan platform's protocols and algorithms

WebProbe scans web sites for agencies. Its workers and its web application share one PostgreSQL
database and talk to each other through tables: an outbox of scans to dispatch, outboxes of mails, a
journal of screenshot files, leases for long scans. This project models those protocols as state
machines, models the platform's few self-contained algorithms as the loops they are, and proves what
the design relies on.

How the protocols are modelled. A database transaction is one step of a state machine; a step whose
guard fails, or that would have to wait for a row lock, changes nothing. A transaction that works on
files while it holds row locks is one step per file operation, and a crash may end it between any two
of them: its table changes are undone, its locks are released, its file changes stay. Work outside the
database (sending a mail, asking DNS or the job queue) lies between two steps. What the outside world
answers is carried by the steps or passed as a parameter, so every theorem holds for all answers, all
interleavings and all runs. The classes drive the same machines the way the code does: each method
performs the code's statements on its fields, lets other processes take arbitrary steps in between,
and keeps a ghost log of all steps, so that the object is always where its log leads.

| file | what it models |
|---|---|
| `ArtifactJournal.dfy`, `ArtifactStore.dfy` | the screenshot journal: intent, file write, metadata commit, cleanup, retention |
| `ScanLifecycle.dfy`, `ScanStore.dfy`, `ScanWorker.dfy`, `StaleSweep.dfy` | scans, their dispatch outbox and attempts; the coordinator, the worker and the stale sweep |
| `LeaseQueue.dfy`, `DispatchQueue.dfy` | the claim and settle protocol that three outboxes share |
| `Notifications.dfy`, `NotificationStore.dfy` | degradation and recovery mails and the incidents behind them |
| `ReportDelivery.dfy` | report mails and the revocation of their links |
| `NvdSync.dfy` | the windowed import of the NVD catalogue |
| `Csv.dfy`, `SiteImport.dfy` | the CSV reader of the site import |
| `Crawl.dfy` | the bounded breadth-first crawl |
| `Comparison.dfy` | comparing the findings of two scans, for the report and for the alerts |
| `VersionMatch.dfy` | which versions a vulnerability rule affects |
| `Installer.dfy` | installing and rolling back the operations helper |
| `DeepGrants.dfy` | authorizations for Deep audits and the fencing of running attempts |
| `Quotas.dfy` | sliding-window quotas and the cooldown of public audits |
| `Common.dfy` | the optional value and the counting that several models share |

## What turned out differently

Some promises hold only under a condition. Each is proved together with the condition.

- A row's digest stops matching its file when a writer dies after its rename has replaced the bytes of
  an existing row, and only then (`DigestsAgreeUntilTorn`, `TornRun`).
- The NVD sync accepts ranges of up to 119 days and coordinator intervals of up to seven days, but twenty
  requests cover exactly the ranges of at most four days and four milliseconds (`BudgetCovers`). Once the
  backlog is longer, every automatic run fails and the cursor never moves again (`Ticks`).
- A final CSV record that is only `""` is lost unless a line break follows it
  (`UnterminatedEmptyRecordIsLost`).
- A completion reads the active incidents and the outstanding recoveries in two statements. If a
  recovery is recorded as sent in between and closes an incident that the completion reports too, the
  recipient can be told twice in a row that the same finding has recovered (`RaceRepeatsRecovery`).
  Exactly such completions leave a recovery about a closed incident behind (`StepActiveIff`,
  `TimelyIffNoRepeat`), and a whole run of mails is right exactly if every recovery that was sent closed
  only active incidents (`OpenIffJustified`, `AlternatingIffJustified`).
- The stale sweep counts a scan that is not Deep, has used up its attempts and has lost its job as
  failed even if it has meanwhile stopped running; this is the only miscount (`CountsWhatHappens`,
  `MiscountHappens`).
- An installed file of more than 64 KiB, or an old file with special mode bits, cannot be rolled back,
  although the installation accepts both (`InstallThenRollBack`).
- An interval the wrong way round goes unnoticed exactly if one of its including bounds is an empty text
  (`DisorderVerdict`); then it excludes every version.
- Quotas and cooldown count the rows in the table. They bound everything ever accepted exactly as far as
  no scan that would have counted was removed (`UsageIsCompleteIff`, `HistoryWithinQuotaIff`,
  `CooldownIff`). Deleting sites gives quotas and cooldown back (`DeletionDefeatsDailyQuota`,
  `DeletionDefeatsAuditLimits`). Retention never gives a quota back (`RetentionSparesQuotaIff`), but it cuts
  the cooldown short exactly if the cooldown is configured longer than audits are kept
  (`RetentionSparesCooldownIff`, `RetentionDefeatsCooldown`).
- A public audit looks for scans of its host name without a final dot, while stored addresses lose only
  one dot. A host name entered with two final dots, if the URL parser lets it through, is stored with one
  and escapes the cooldown (`AsksForOwnHost`, `DotDefeatsCooldown`).

## Model

| member | source | states |
|---|---|---|
| `ArtifactJournal.StepKeepsInv` | apps/worker/src/scan-artifacts.ts:185-354 | every step of writers, cleaners, retention, site deletion and scan changes, crashes included, keeps the invariant of rows, tasks, files and locks |
| `ArtifactJournal.Safety` | apps/worker/src/scan-artifacts.ts:162-356 | in every run each key with a final or temporary file has an artifact row or a journal task, and each artifact row has its final file |
| `ArtifactJournal.NothingLeaks` | apps/worker/src/artifact-cleanup.ts:133-270 | whenever the journal is empty, the final files are exactly those of the rows and no temporary file is left elsewhere |
| `ArtifactJournal.ReferencedFileSurvives` | apps/worker/src/artifact-cleanup.ts:151-260 | no step removes the file of a key with a row, and only a writer's rename of that key changes its bytes |
| `ArtifactJournal.WriterIsolated` | apps/worker/src/scan-artifacts.ts:272-355 | while a write transaction holds its locks, no other step changes its key, its scan or its progress |
| `ArtifactJournal.CleanerIsolated` | apps/worker/src/artifact-cleanup.ts:151-165 | while a cleanup transaction holds a task, no other step changes anything about its key |
| `ArtifactJournal.DigestsAgreeUntilTorn` | apps/worker/src/scan-artifacts.ts:324-347 | a step keeps every row's digest equal to its file, up to open writers, if and only if it does not kill a writer that has renamed other bytes over the file of an existing row |
| `ArtifactJournal.TornRun` | apps/worker/src/scan-artifacts.ts:131 | a concrete run after which a row's digest differs from its file |
| `ArtifactStore.Store.ReserveIntent` | apps/worker/src/scan-artifacts.ts:185-270 | the reservation transaction is the journal's reserve step; it answers yes exactly if the scan is completed, nobody holds its site or task and its files are not condemned, and then a write intent for the key is there; otherwise nothing changes |
| `ArtifactStore.Store.WriteScreenshotFile` | apps/worker/src/scan-artifacts.ts:100-160 | whatever error hits it and whatever others do, the intent is still there, and past the rename the final file holds the new bytes |
| `ArtifactStore.Store.PersistPrimaryScreenshot` | apps/worker/src/scan-artifacts.ts:162-356 | success leaves a row and a file with the new bytes and no task, and is certain for storable data, a reservable key, no fault and nobody in between the two transactions; an error after the reservation leaves the intent; data that is not storable changes nothing |
| `ArtifactStore.Store.WriteReserved` | apps/worker/src/scan-artifacts.ts:272-355 | the second transaction: whoever runs beside it, with an intent in place and no fault it stores, and an error leaves the intent |
| `ArtifactStore.Store.Judge` | apps/worker/src/artifact-cleanup.ts:169-226 | releases, retries, defers or condemns the current task as the journal's verdict says, recording exactly that edit |
| `ArtifactStore.Store.RemoveArtifact` | apps/worker/src/artifact-cleanup.ts:90-121 | a removal that reports success leaves no final and no temporary file of its key, and in any case touches no other key |
| `ArtifactStore.Store.PurgePendingArtifacts` | apps/worker/src/artifact-cleanup.ts:133-270 | with others running in between, each due task meets a fitting fate: gone without files, released with its row, or due again later; the counters tally the fates |
| `ArtifactStore.Store.RetainOne` | apps/worker/src/public-audit-retention.ts:138-324 | a purged scan is gone and whatever row or intent it had is now a delete task due at once; every other outcome is the one its reason demands and changes nothing |
| `ArtifactStore.Store.PurgeExpiredPublicAudits` | apps/worker/src/public-audit-retention.ts:102-345 | each candidate is dealt with in a step of its own, for the reasons and with the effects there are at that step, whatever its share and the other steps are; the counters tally the outcomes |
| `ArtifactStore.SharesRespected` | apps/worker/src/public-audit-retention.ts:182-194 | a candidate with an active share at its turn is left as it is, and none is kept for a share it does not have |
| `ArtifactStore.PurgedForGood` | apps/worker/src/public-audit-retention.ts:308-323 | a purged scan stays gone while its identifier is not given out again: no row refers to it, and any file it still has is left to a journal task |
| `ScanLifecycle.StepKeepsInv` | apps/worker/src/scan-scheduler.ts:262-678 | every writer of scans, dispatches and attempts keeps the invariant of the three tables, including one active scan per site |
| `ScanLifecycle.OutboxSafety` | apps/worker/src/scan-dispatch.ts:181-278 | in every reachable state a queued scan has a pending, dispatching or dispatched row, a dispatch has a lease exactly when it is dispatching, and a site has at most one active scan |
| `ScanLifecycle.NeverLost` | apps/worker/src/scan-dispatch.ts:383-434 | from every reachable state the coordinator alone can hand a queued scan to the queue again, as soon as its dispatch is due |
| `ScanLifecycle.CountersOnlyGrow` | apps/worker/src/scan-dispatch.ts:256-278 | over any run the number of attempts and the claim count of a scan never shrink and its dispatch row never disappears |
| `ScanLifecycle.OldClaimIsPowerless` | apps/worker/src/scan-dispatch.ts:284-335 | after a later claim, however the run goes on, the earlier claimant's success or retry changes nothing |
| `ScanLifecycle.OldAttemptIsPowerless` | apps/worker/src/scan-engine/deep-lease.ts:61-162 | once a later Deep attempt exists, the earlier one can never again renew, release or fail its lease nor store results |
| `ScanLifecycle.FinalForever` | apps/worker/src/scan-persistence.ts:229-372 | completed and cancelled scans, and failed Deep scans, keep their status, findings and start time in every run |
| `ScanLifecycle.FailedRunsAgainIff` | apps/worker/src/scan-persistence.ts:229-288 | a failed scan leaves that status if and only if an attempt of a scan that is not Deep makes its one start while no other scan of the site is active |
| `ScanLifecycle.FindingsOfTheOneCompletion` | apps/worker/src/scan-persistence.ts:306-372 | the findings of a completed scan that is not Deep are those of one completing call, the only step of the whole run that completed it |
| `ScanLifecycle.RequeuedAtMostFourTimes` | apps/worker/src/scan-scheduler.ts:592-661 | in any run a scan is requeued at most four times, and a Deep scan never |
| `ScanLifecycle.RequeuesConsumeAttempts` | apps/worker/src/scan-retry.ts:90-160 | every requeue, and the present run, was started by a different attempt |
| `ScanStore.First` | apps/worker/src/scan-dispatch.ts:170-180 | an ordered, limited query: the rows come in order, and every row left out comes after all of them |
| `ScanStore.Store.ClaimRow` | apps/worker/src/scan-dispatch.ts:181-276 | one due dispatch is claimed, put off, skipped or cancelled with its scan, as scan and context demand, and nothing else changes |
| `ScanStore.Store.ClaimDueScanDispatches` | apps/worker/src/scan-dispatch.ts:119-282 | exactly the earliest due dispatches are processed, no other scan changes, and the returned claims are those of the rows that won, each once and each still held |
| `ScanStore.Store.SettleClaim` | apps/worker/src/scan-dispatch.ts:284-335 | settles a claim exactly if it is still held, and otherwise changes nothing |
| `ScanStore.Store.DispatchDueScanJobs` | apps/worker/src/scan-dispatch.ts:337-381 | a claim nobody interferes with ends dispatched or put off as its job was taken or not; the counters agree with the answers of the queue |
| `ScanStore.Store.ReconcileQueuedScanDispatches` | apps/worker/src/scan-dispatch.ts:383-434 | listed scans nobody interferes with are put back exactly if their job is gone; the counters agree with the answers of the queue |
| `ScanWorker.BeginScanAttempt` | apps/worker/src/scan-retry.ts:90-160 | the next attempt exists, running and not yet started, exactly if the scan exists and is not Deep |
| `ScanWorker.MarkScanRunning` | apps/worker/src/scan-persistence.ts:229-288 | succeeds exactly if the scan may start without a second active scan on its site, and otherwise changes nothing |
| `ScanWorker.PersistScanCompletion` | apps/worker/src/scan-persistence.ts:306-372 | completes the scan with these findings exactly if it is running |
| `ScanWorker.PersistScanFailureForJob` | apps/worker/src/scan-persistence.ts:780-806 | afterwards the scan, if it is not Deep, is no longer active |
| `ScanWorker.ProcessScanJob` | apps/worker/src/index.ts:119-215 | whatever others do: a finished job's scan keeps the job's findings, a scan whose job gave up is not active, and a job is retried only after a passing error with retries left |
| `StaleSweep.SweepOne` | apps/worker/src/scan-scheduler.ts:561-663 | one listed scan is repaired as the lifecycle's sweep step says, counted as recovered exactly if it went back to the queue, and as failed exactly if it became failed or is miscounted |
| `StaleSweep.CountsWhatHappens` | apps/worker/src/scan-scheduler.ts:592-661 | a scan is counted as failed without becoming failed if and only if it is not Deep, its job is missing, its attempts are used up and it no longer runs; then, and whenever nothing or an uninspected job is counted, nothing changes |
| `StaleSweep.MiscountHappens` | apps/worker/src/scan-scheduler.ts:592-621 | a reachable state in which a scan that was stale and running when listed has completed and is counted as failed |
| `StaleSweep.AccountedMeans` | apps/worker/src/scan-scheduler.ts:562-663 | what each inspected scan was counted as fits what the step of its own turn did to it |
| `StaleSweep.PageCovers` | apps/worker/src/scan-scheduler.ts:535-559 | every scan ahead of the cursor is listed, left ahead by a full page, or not a stale running scan at that moment |
| `StaleSweep.RecoverOrphanedRunningScans` | apps/worker/src/scan-scheduler.ts:515-678 | the sweep terminates, inspects no scan twice, and inspects every scan that was stale and running when it began unless it stopped being so in between; the counters tally what each scan was counted as in the step of its turn; an invalid batch size changes nothing |
| `LeaseQueue.CountOnlyGrows` | apps/worker/src/notification-delivery.ts:181-193 | over any operations the attempt count of a row never shrinks, and it stays leased exactly while it is held |
| `LeaseQueue.OnlyLatestClaimantHolds` | apps/worker/src/notification-delivery.ts:227-250 | a held row is in the hands of its last claimant, and nothing has happened to it since that claim |
| `LeaseQueue.SettledForever` | apps/worker/src/report-delivery.ts:263-314 | a settled row that is neither reopened nor abandoned never changes again |
| `LeaseQueue.SucceedsOnce` | apps/worker/src/report-delivery.ts:263-286 | such a row succeeds at most once |
| `DispatchQueue.RunRefines` | apps/worker/src/scan-dispatch.ts:181-335 | over any run of the scan lifecycle a dispatch row goes through exactly the lease operations that the steps of the run stand for |
| `DispatchQueue.HolderClaimedLast` | apps/worker/src/scan-dispatch.ts:256-278 | in any run a dispatch that is being dispatched was claimed with its present count by one step of the run, and has not changed since |
| `Notifications.StepKeepsInv` | apps/worker/src/scan-persistence.ts:613-763 | every step, whatever races with whatever, keeps the unconditional invariant of deliveries, incidents, reads and mails |
| `Notifications.RecoveryFollowsDegradation` | apps/worker/src/notification-delivery.ts:227-327 | while completions report no incident closed since they read it, every recovery mail follows a degradation mail about each fingerprint it lists, with no other mail about it in between |
| `Notifications.DegradationBetweenRecoveries` | apps/worker/src/notification-delivery.ts:227-327 | under the same condition two sent recovery mails about the same recipient, site and fingerprint have a degradation mail about it between them |
| `Notifications.SentOnceAndApart` | apps/worker/src/scan-persistence.ts:650-763 | in every run each delivery is recorded as sent at most once, and no fingerprint is in two outstanding recoveries of one recipient and site |
| `Notifications.IncidentsMirrorMails` | apps/worker/src/notification-delivery.ts:227-327 | in every run an incident of an existing site is active exactly if the last mail recorded as sent about it is a degradation |
| `Notifications.OpenIffJustified` | apps/worker/src/notification-delivery.ts:297-322 | in any run every recovery mail directly follows a degradation mail about each of its fingerprints if and only if each recovery, when recorded as sent, closed only active incidents |
| `Notifications.AlternatingIffJustified` | apps/worker/src/notification-delivery.ts:227-327 | in any run there is a degradation mail between any two recovery mails about an incident if and only if each recovery, when recorded as sent, closed only active incidents |
| `Notifications.StepActiveIff` | apps/worker/src/scan-persistence.ts:613-763 | of all steps, exactly a completion that reports an incident closed since it was read leaves an outstanding recovery about a closed incident |
| `Notifications.TimelyIffNoRepeat` | apps/worker/src/scan-persistence.ts:613-763 | if the mails were right so far, a completion reports no incident closed since it was read if and only if none of its recoveries would repeat a recovery when sent next |
| `Notifications.RaceRepeatsRecovery` | apps/worker/src/scan-persistence.ts:613-671 | whenever a recovery is recorded as sent between the two reads of a completion that reports it too, the completion is not timely and the recipient can be sent a second recovery right after the first |
| `Notifications.ClosedBySending` | apps/worker/src/notification-delivery.ts:297-322 | while a completion is open, an incident of its site is closed only by recording a recovery about it as sent |
| `Notifications.SentStays` | apps/worker/src/notification-delivery.ts:227-250 | in any run, races and deletions included, a delivery recorded as sent never changes while its site exists, and goes only with it |
| `Notifications.DeliveryRefines` | apps/worker/src/notification-delivery.ts:124-358 | in any run a delivery goes through exactly the claims, retries and successes of the steps of the run, and goes only with its site |
| `Notifications.OldClaimIsPowerless` | apps/worker/src/notification-delivery.ts:227-250 | after a later claim, however the run goes on, the earlier claimant's success or retry changes nothing |
| `Notifications.HolderClaimedLast` | apps/worker/src/notification-delivery.ts:181-193 | in any run a delivery that is being sent was claimed with its present count by one step of the run, and has not changed since |
| `NotificationStore.ResolvedByRecipient` | apps/worker/src/scan-persistence.ts:677-729 | groups by recipient exactly the incidents that are absent from the scan, clearable by it and in no outstanding recovery |
| `NotificationStore.DegradationDeliveries` | apps/worker/src/scan-persistence.ts:582-611 | one delivery for exactly the recipients with something above their threshold |
| `NotificationStore.Store.OutstandingRecoveries` | apps/worker/src/scan-persistence.ts:650-675 | collects exactly the keys that some outstanding recovery of the site lists |
| `NotificationStore.Store.CompleteScan` | apps/worker/src/scan-persistence.ts:583-763 | the loops of the completion add exactly the deliveries of the completion step and replace none that exists |
| `NotificationStore.Store.QueueAlerts` | apps/worker/src/scan-persistence.ts:613-763 | the two reads and the inserts with any steps of others in between: outstanding recoveries stay about active incidents exactly if the completion is timely, and if it is not, the sending that overtook it is named |
| `NotificationStore.Store.MarkNotificationSent` | apps/worker/src/notification-delivery.ts:227-327 | only the holder records a mail as sent, and then exactly its incidents are opened or closed |
| `ReportDelivery.NothingSentAfterRevoke` | apps/web/src/lib/report-share-service.ts:385-430 | after a revocation no later step of any run claims a delivery of the link or records one as sent |
| `ReportDelivery.RevokeWithdraws` | apps/web/src/lib/report-share-service.ts:412-426 | revoking withdraws exactly the unsettled deliveries of the link |
| `ReportDelivery.SettledStays` | apps/worker/src/report-delivery.ts:263-314 | sent and cancelled deliveries never change in any run |
| `ReportDelivery.DeliveryRefines` | apps/worker/src/report-delivery.ts:180-314 | a delivery goes through exactly the lease operations that the steps of the run stand for, none of which reopens it |
| `ReportDelivery.OldClaimIsPowerless` | apps/worker/src/report-delivery.ts:263-314 | after a later claim, however the run goes on, the earlier claimant's success or retry changes nothing |
| `ReportDelivery.HolderClaimedLast` | apps/worker/src/report-delivery.ts:220-261 | in any run a delivery that is being sent was claimed with its present count by one step of the run, and has not changed since |
| `ReportDelivery.Store.ClaimDueReportDeliveries` | apps/worker/src/report-delivery.ts:132-261 | each due delivery is claimed if its link is usable and its scan completed, and cancelled otherwise; every other delivery stays |
| `ReportDelivery.Store.RevokeReportShare` | apps/web/src/lib/report-share-service.ts:385-430 | true exactly if this call revoked the link, and then all its deliveries are settled |
| `NvdSync.BudgetCovers` | apps/worker/src/vulnerability-sync.ts:365-366 | twenty requests suffice for a range if and only if it is at most sixteen windows and four milliseconds |
| `NvdSync.TilesJoin` | apps/worker/src/vulnerability-sync.ts:482-499 | the windows of two adjoining ranges together tile the joint range |
| `NvdSync.Run.FetchPage` | apps/worker/src/vulnerability-sync.ts:426-465 | a returned page is the feed's consistent answer to the last request, and no more than twenty requests are ever made |
| `NvdSync.Run.ImportPage` | apps/worker/src/vulnerability-sync.ts:467-480 | submits only advisories of the page, none twice, skips none that was not seen before, and fails exactly if the database refused one |
| `NvdSync.Run.SplitWindow` | apps/worker/src/vulnerability-sync.ts:482-499 | success means that the leaf windows of both halves tile the range and everything modified in it was imported |
| `NvdSync.Run.ProcessWindow` | apps/worker/src/vulnerability-sync.ts:501-532 | terminates for every feed; success means that windows of at most six hours tile the range within the budget and, against a fixed catalogue, exactly the advisories modified in it were imported |
| `NvdSync.SyncStore.SyncNvdCatalog` | apps/worker/src/vulnerability-sync.ts:387-558 | the cursor moves exactly when the run succeeds, success is possible only within the covered range and certain there for a smooth feed, and no identifier is submitted twice |
| `NvdSync.SyncStore.Ticks` | apps/worker/src/vulnerability-sync.ts:333-359 | with a backlog beyond the covered range every automatic run fails for ever; with ticks close enough and a smooth feed every run succeeds |
| `NvdSync.NoHoles` | apps/worker/src/vulnerability-sync.ts:333-348 | no instant between the first covered one and the cursor was skipped by automatic runs |
| `Csv.ParseCsv` | apps/web/src/lib/site-csv-import.ts:24-69 | the character loop accepts and rejects what the reader's automaton does, with the same rows and errors |
| `Csv.ReadsEveryDocument` | apps/web/src/lib/site-csv-import.ts:24-69 | every well-formed document of up to 501 records is read back record by record, and a longer one is rejected |
| `Csv.AcceptedIffDocument` | apps/web/src/lib/site-csv-import.ts:24-69 | a text is read as certain rows if and only if it is the text of a well-formed document of at most 501 records with those contents |
| `Csv.RfcRoundTrip` | apps/web/src/lib/site-csv-import.ts:24-69 | whatever the fields contain, records printed as section 2 of RFC 4180 says, each ended by LF or CRLF, are read back exactly |
| `Csv.PrintingNormalises` | apps/web/src/lib/site-csv-import.ts:24-69 | printing what was read and reading it again gives the same rows |
| `Csv.UnterminatedEmptyRecordIsLost` | apps/web/src/lib/site-csv-import.ts:64-68 | a final record that is one empty quoted field is kept exactly with a line break after it |
| `SiteImport.ParseSiteImportCsv` | apps/web/src/lib/site-csv-import.ts:71-138 | every record is classified, in order, by its own content and the addresses accepted before it |
| `SiteImport.EachUrlReadyOnce` | apps/web/src/lib/site-csv-import.ts:118-135 | no canonical address is ready for import twice |
| `Crawl.FollowLinks` | apps/worker/src/browser-scan.ts:844-901 | afterwards every link of the page is seen, queued or over budget, and queue and visits stay within the budget |
| `Crawl.RunBrowserScan` | apps/worker/src/browser-scan.ts:631-906 | the crawl ends with nothing pending, visits no address twice, keeps the budget, goes breadth first, has seen exactly what it visited and was redirected to, and has seen every link of every followed page that was not over budget |
| `Crawl.DepthsGrow` | apps/worker/src/browser-scan.ts:696-702 | pages are visited in the order of their depth |
| `Crawl.VisitedIsReachable` | apps/worker/src/browser-scan.ts:853-901 | every visited page is reachable by links in as many steps as its depth |
| `Crawl.ReachableIsVisited` | apps/worker/src/browser-scan.ts:631-906 | with nothing over budget and no redirect, every reachable page was visited, at no greater depth than any path to it |
| `Comparison.CompareScanFindings` | apps/web/src/lib/scan-comparison.ts:42-136 | changes, resolved findings and counts are those of the classification of each finding |
| `Comparison.ChangesAt` | apps/web/src/lib/scan-comparison.ts:68-118 | with unique fingerprints a change is recorded for exactly the classified findings |
| `Comparison.CountsPartition` | apps/web/src/lib/scan-comparison.ts:68-132 | the four counts partition the recorded changes |
| `Comparison.SelfDual` | apps/web/src/lib/scan-comparison.ts:42-136 | with unique fingerprints that determine codes: new one way is resolved the other way, worsened is improved, and the rest is symmetric, for fingerprints and counts |
| `Comparison.CompareMissingSymmetric` | packages/contracts/src/scan-completeness.ts:69-86 | whether a missing finding can be compared does not depend on which scan is the current one |
| `Comparison.DetectScanDegradations` | apps/worker/src/scan-alerts.ts:33-76 | the loop collects the degradation of each finding that amounts to one, in order |
| `Comparison.SameVerdict` | apps/worker/src/scan-persistence.ts:540-560 | for each finding, detection and filter keep it exactly if the report shows it as new or worsened from medium upwards |
| `Comparison.AlertsMatchReport` | apps/worker/src/scan-persistence.ts:540-560 | the alerts are exactly the new and worsened findings that the report shows against the same previous scan, from medium upwards and in the same order |
| `Comparison.ThresholdMatchesReport` | apps/worker/src/scan-alerts.ts:78-85 | a recipient's threshold keeps exactly the shown findings from that severity upwards |
| `Comparison.Deduplicate` | apps/worker/src/scan-processor.ts:99-113 | fingerprints become unique and each keeps its last finding |
| `VersionMatch.ParsesIffPrinted` | packages/contracts/src/vulnerability-matching.ts:41-49 | a text parses to a version if and only if it is that version's own text with white space around it and no part exceeds the limit |
| `VersionMatch.RoundTrip` | packages/contracts/src/vulnerability-matching.ts:41-49 | a printed version parses to itself |
| `VersionMatch.OrderIsTotal` | packages/contracts/src/vulnerability-matching.ts:51-61 | the comparison is a total order whose zero is equality |
| `VersionMatch.CompareVersions` | packages/contracts/src/vulnerability-matching.ts:51-61 | the loop over the parts computes that order, and nothing if one text is not a version |
| `VersionMatch.MatchIsMembership` | packages/contracts/src/vulnerability-matching.ts:87-202 | with certain evidence and a matching product the verdict is certain if and only if the rule is well-formed, and then confirmed if and only if the rule denotes the version |
| `VersionMatch.UnsureIsPotential` | packages/contracts/src/vulnerability-matching.ts:100-112 | without such evidence a matching product is neither confirmed nor excluded |
| `VersionMatch.DisorderVerdict` | packages/contracts/src/vulnerability-matching.ts:161-177 | a clear rule whose two bounds are versions the wrong way round, or equal with one excluded, leaves the verdict open if and only if neither including bound is an empty text; otherwise it excludes every version |
| `VersionMatch.DisorderedDenotesNothing` | packages/contracts/src/vulnerability-matching.ts:161-177 | no version lies in such an interval |
| `VersionMatch.OrderedVerdict` | packages/contracts/src/vulnerability-matching.ts:161-202 | a clear rule with two bounds in order gets the certain verdict of its interval, empty texts or not |
| `VersionMatch.EmptyBoundHidesDisorder` | packages/contracts/src/vulnerability-matching.ts:161-177 | for any two versions: the wrong way round they are noticed, but not behind an empty text on either side |
| `VersionMatch.MatchRulesMeans` | packages/contracts/src/vulnerability-matching.ts:208-223 | a list confirms if and only if one rule does, and excludes if and only if there are rules and all do |
| `VersionMatch.OrderDoesNotMatter` | packages/contracts/src/vulnerability-matching.ts:208-223 | the status of a list does not depend on the order of its rules or on repetitions |
| `Installer.Host.Put` | infra/ops/webprobe_ops.py:146-187 | one file is replaced or removed completely or not at all, never over an unreadable file |
| `Installer.Host.TakeSnapshot` | infra/ops/install_webprobe_ops.py:144-161 | a complete snapshot holds the present files, and is taken only if all can be read |
| `Installer.Host.RestoreSnapshot` | infra/ops/install_webprobe_ops.py:164-205 | once it changes anything the sudo entry is absent; completion means the saved files are back; without faults it completes exactly under the stated conditions |
| `Installer.Host.Install` | infra/ops/install_webprobe_ops.py:208-243 | at every instant, whatever fails, the sudo entry is there only beside the complete old or the complete new set; each outcome fixes the state of the disk |
| `Installer.InstallThenRollBack` | infra/ops/install_webprobe_ops.py:144-243 | installation and rollback restore every other file, bytes and modes, and leave no sudo entry; without faults the rollback completes if and only if all installed files are within the replace limit and all old modes are plain |
| `DeepGrants.NoGrantWithChallenge` | apps/web/src/lib/deep-audit-grants.ts:138-303 | an unrevoked grant and a pending challenge of a site never coexist |
| `DeepGrants.GrantIsLatest` | apps/web/src/lib/deep-audit-grants.ts:185-277 | an unrevoked grant carries the generation of the last issue of its site, with no issue or revocation since, and DNS had answered with the token of that generation |
| `DeepGrants.LiveAuthorization` | apps/web/src/lib/deep-audit-grants.ts:110-277 | an authorization that counts carries the generation of the last issue or revocation of its site, never stands beside a pending challenge, and was proved in DNS less than its term ago |
| `DeepGrants.ResetFences` | apps/web/src/lib/deep-audit-grants.ts:110-135 | every issue and revocation leaves no running Deep attempt of the site with a lease beyond that instant |
| `DeepGrants.FencedAttemptIsPowerless` | apps/worker/src/scan-engine/check-persistence.ts:115-131 | from then on, while the clock does not go back, such an attempt can neither renew its lease nor store results |
| `DeepGrants.Store.IssueDeepAuditChallenge` | apps/web/src/lib/deep-audit-grants.ts:138-182 | after an issue no grant of the site is unrevoked |
| `DeepGrants.Store.VerifyDeepAuditChallenge` | apps/web/src/lib/deep-audit-grants.ts:185-277 | with others running during the DNS lookup, a grant is made exactly if the challenge that was read is proved and still current, and then for that challenge |
| `DeepGrants.Store.RevokeDeepAuditGrant` | apps/web/src/lib/deep-audit-grants.ts:280-303 | afterwards the site has neither an unrevoked grant nor a challenge |
| `Quotas.WindowsHold` | apps/web/src/lib/manual-scan.ts:98-163 | whatever the order of commits and the timestamps, every closed window of the table holds at most three manual scans of a site per hour, thirty of an organization per day, and the configured number of public audits of a user per hour |
| `Quotas.CooldownHolds` | apps/web/src/lib/public-audit.ts:104-138 | of the rows in the table, a public audit is always more than the cooldown after every earlier scan of the host name it asked for |
| `Quotas.CooldownIff` | apps/web/src/lib/public-audit.ts:104-138 | of all public audits ever accepted, each came more than the cooldown after every earlier scan of its host if and only if no acceptance overlooked a recent scan, that is, one since removed or, behind a final dot, any |
| `Quotas.AsksForOwnHost` | apps/web/src/lib/public-audit.ts:31-33 | an audit asks for the stored host name of its own site if and only if that has no final dot, that is, if the entered one did not end with two |
| `Quotas.AcceptedWithinQuota` | apps/web/src/lib/manual-scan.ts:106-141 | of everything ever accepted, a window holds at most the quota and the removed scans of its own scope and time; so the quota bounds the history of every scope that lost no such scan |
| `Quotas.UsageIsCompleteIff` | apps/web/src/lib/manual-scan.ts:109-136 | the count over the table is the count over everything accepted if and only if no scan that would count has been removed |
| `Quotas.HistoryWithinQuotaIff` | apps/web/src/lib/manual-scan.ts:98-163 | every scan ever accepted was within its quota, counted against all accepted before it, if and only if at each acceptance the removed scans that would have counted left room |
| `Quotas.RetentionSparesQuotaIff` | apps/worker/src/public-audit-retention.ts:61-70 | while timestamps do not go back, retention removes no scan that a quota would count if and only if it keeps audits at least as long as the window of the quota, which is at most the day it always keeps them |
| `Quotas.RetentionSparesCooldownIff` | apps/web/src/lib/public-audit-policy.ts:11-34 | in the same way it removes no scan the cooldown looks at if and only if it keeps audits at least as long as the cooldown, which may be configured longer |
| `Quotas.RetentionDefeatsCooldown` | apps/worker/src/public-audit-retention.ts:108-128 | for every cooldown longer than audits are kept, a run in which retention makes two audits of a host possible within the cooldown |
| `Quotas.DeletionDefeatsDailyQuota` | apps/web/src/lib/manual-scan.ts:124-141 | for every number of deletions a run reaches the bound: that many scans of an organization on top of the full quota at one instant |
| `Quotas.DeletionDefeatsAuditLimits` | apps/web/src/lib/public-audit.ts:68-138 | with deletions a user can start any number of public audits of one host at one instant |
| `Quotas.DotDefeatsCooldown` | apps/web/src/lib/public-audit.ts:104-138 | two audits of one site at one instant, both in the table, behind a stored host name with a final dot |
| `Quotas.Table.CreateManualScan` | apps/web/src/lib/manual-scan.ts:98-163 | a scan is created exactly if both quotas and the unique index admit it |
| `Quotas.Table.CreatePublicAudit` | apps/web/src/lib/public-audit.ts:60-155 | a public audit is created exactly if every limit admits it, and otherwise rejected for the first limit that does not |

## Left out

- Job queue, mail, browser, DNS and HTTP: their answers are parameters or parts of the steps.
- SHA-256 is taken to be injective and identifiers to be fresh; encryption of share tokens is not modelled.
- A writer whose database transaction is lost is taken to stop touching files; the journal relies on its row locks.
- Transaction isolation: apart from the two reads of a completion, each transaction is atomic.
- Scan claims: the stale sweep counts the attempts of a scan and resets it in one step; with two sweeps at once the bound of four requeues could be exceeded.
- Single UPDATE statements over many rows (cancelling invalid scheduled scans, fencing) are one step on values, without a loop.
- StaleSweep.RecoverOrphanedRunningScans: assumes that while a sweep runs a scan is stale under one start time only, so a scan started meanwhile has a later start time or the one it had before.
- ArtifactStore.Store.PurgeExpiredPublicAudits: the cleanup pass that the code runs after each purged scan is among the steps others take, and a transaction that needs a held lock is reported as still waiting.
- ScanStore.Store.ReconcileQueuedScanDispatches: identifiers stand for the order in which scans were queued and dispatches were created.
- ScanLifecycle.FailedRunsAgainIff: the code's call that sets a scan running does not name an attempt; the model names the one whose job makes the call, which each job does once.
- Quotas.CooldownIff: a manual or scheduled scan does not take the lock on the host name, so it may be inserted between the check and the insert of a public audit, which are one step here; audits among themselves are serialized by that lock.
- URL parsing: host names are taken as the parser returns them, in lower case.
- Sets stand for the lists of fingerprints in mails and for payload texts; the order of items in a mail is not modelled.
- A mail can physically go out twice if a sender dies between sending and recording; the mail theorems are about mails recorded as sent.
- The limit of twenty active share links per scan, which only the creation of a link checks and the mailing of a report does not, and the quotas of report mails.
- Remediation follow-up, technology and third-party observations written by a completion.
- Texts: affected ranges, reasons of a match, titles, remediation advice, error codes and log lines.
- Claiming due schedules: the schedule table and the weekly arithmetic of the next run; only the insertion of the scan and its dispatch is modelled.
- Deep persistence and Deep leases: their repeated checks of the site, its owner and the identity of the grant; only the lease fence is modelled.
- Site verification and the Deep audit pipeline itself.
- Permissions: the role checks in front of the web operations.
