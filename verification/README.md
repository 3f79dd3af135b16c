# Energy monitoring backend: a verified model

A Dafny 4.11 model of the parts of this NestJS backend whose correctness depends on interleaving or on
exact arithmetic, with proofs of what they promise. `dafny verify dfyconfig.toml` checks all of it.

## What is modelled

Each protocol is a state machine with a total step function `Next`, one step for each awaited database,
queue or storage call, and events that are not enabled change nothing. `Run` applies a list of events, so
a theorem about `Run` holds of every interleaving of every number of workers, requests, jobs and users. Beside it
stands a class with the source's own methods, whose contracts say which steps of the machine they take.

| file | what it models |
|---|---|
| `ReportTable`, `ReportLifecycle`, `ReportTheorems` | the reports table, and workers, stalled-report crons, cancellations and the self-extending series over it; the 30-minute lease is a hypothesis on runs, not built into the steps |
| `ReportJobs`, `ReportSettling` | one compute job with its three attempts, as the imperative handler and among everything else that may happen, for every call that may throw; and what becomes of a report that is left without attempts |
| `Sessions` | concurrent refreshes and logouts of a session: read, check, compare-and-swap |
| `Installers` | row-locked assignment and suspension transactions with buffered writes, and plain updates |
| `ShareLinks` | the database row and the remote file of a shared report, uploads that replace it and deletions that may be stale |
| `TeamAccess`, `TeamRaces` | invitations, acceptance, roles, revocation, and the guard read against the history; and the same with other operations between an acceptance's check and its write |
| `Calendar`, `PeriodRanges` | JavaScript date arithmetic and the day, week and month ranges of two services |
| `EnergyBuckets`, `Savings` | SQL grouping, and the savings computed from it with their accumulated rounding |
| `QuietHours`, `AlertDetection`, `Depletion` | the alert pipeline: quiet hours across zones, deferral, duplicate suppression, severity |
| `Digits`, `Rounding`, `Diagnostics` | decimal text, toFixed, and the text the mock inverter prints and the adapters parse |
| `Poller` | the four lists of tracked inverters and the failure counts |
| `TokenStream` | accumulation of streamed text and of usage events |
| `Wrappers` | `Option` and `Result` |

Instants are integer milliseconds in a zone with a fixed offset. Floating-point numbers are exact reals, with every
rounding written out. Hashes are taken to be injective and new tokens, files and jobs to be new.

## Where the code does not do what it or its documentation says

- `ReportTheorems.LeaseIsNeeded`: a computation that outlasts the lease can turn a delivered report back to PENDING; `ResetTakesHolderIff` says exactly when the row is lost.
- `Sessions.ExpiryIsCapped`: the login write ignores the 30-day cap. The two writes of a login follow one another in one request, so this bounds a delay of more than 23 days between them, which nobody has to expect; it is not a defect that shows.
- `ReportSettling.CatchWriteStrands`: when the catch block's own write throws, or the read that follows the claim, the report stays in PROCESSING; the retries then find a conflict, the cron puts it back to PENDING, and no job is left to compute it (`OnlyCatchWriteStrands`, `StrandedForever`), although the cron is documented to let it be retried (src/modules/reports/reports.cron.ts:15-20).
- `ShareLinks.LateFailureDangles`: an upload that cannot add or record its delete job deletes the file that its committed row names; `LateFailureRun` is such a run.
- `TeamRaces.GuardSurvivesIff`: an acceptance overtaken by a revocation activates the row all the same, and the guard admits the user; `RevokedUserAdmitted` is such a run.
- `PeriodRanges.RangeContainsIffSupported`: the Date constructor reads the years 0 to 99 as 1900 to 1999.
- `Savings.DashboardIsZero`: the overview divides integers in SQL (lines 180 and 203 of the metrics service), so the savings of today and of this month are always 0 (the same division at lines 114 and 304 does this to the solar energy there); the other queries write `.0` and are right.
- `Savings.PriceIsNumberIff`: a user without a settings row gets a fuel price that is not a number.
- `QuietHours.LocalTestAgreesIff`: the sentinel 00:00 to 00:00, documented as always quiet, is converted to UTC before it is tested, and is lost at every offset but zero; another empty window can become always quiet (`SentinelIsLost`).
- `QuietHours.EverQuietIff`: a zone not written as digits with a colon, such as one given by name, never has quiet hours.
- `AlertDetection.OverlapJustifiedIff`: of two evaluations that both check before either saves, the second alert is out of order unless it is strictly worse.
- `Depletion.CapacityMonotoneIff`: a capacity below 0.02 kWh silences an alert that was firing.

## Model

| member | source | states |
|---|---|---|
| `ReportTable.ReportModelAction.UpdateReportStatus` | src/modules/reports/action/report.action.ts:105-119 | compare-and-set: moves a row out of PENDING and reports whether it did; any other row stays as it is |
| `ReportTable.ReportModelAction.UpdateReportStatusUnconditional` | src/modules/reports/action/report.action.ts:98-103 | no other row changes, nor the report itself but for its status; it can be claimed afterwards exactly if put back to PENDING, is out of reach exactly if finished, and stalled exactly if PROCESSING and older than the threshold |
| `ReportTable.ReportModelAction.UpdateReport` | src/modules/reports/action/report.action.ts:79-96 | no other row changes; the delivery date stays unless one is given; no claim, cancellation or cron changes the row again exactly if it is finished |
| `ReportTable.ReportModelAction.ResetStalledProcessingReports` | src/modules/reports/action/report.action.ts:121-138 | the count is that of the rows changed; every PROCESSING row older than the threshold can be claimed again, none is left stalled, and all others are untouched |
| `ReportTable.ResetReopens` | src/modules/reports/action/report.action.ts:121-138 | a reset changes exactly the stalled rows, makes them claimable, and leaves none stalled |
| `ReportTable.OutOfReachIff` | src/modules/reports/action/report.action.ts:105-138 | the compare-and-set and the reset leave a row alone, whatever their arguments, exactly when it is finished |
| `ReportLifecycle.InitInv` | src/modules/reports/reports.service.ts:84-162 | a generated report starts in the invariant, with its job due when its range has ended, or at once |
| `ReportLifecycle.DeliverInv` | src/modules/reports/reports.processor.ts:49-57 | delivering a job keeps the invariant: a job is never due before its report's range has ended |
| `ReportLifecycle.ClaimInv` | src/modules/reports/reports.processor.ts:61-75 | the claim keeps mutual exclusion and records its time in the row |
| `ReportLifecycle.ComputeInv` | src/modules/reports/reports.processor.ts:77-81 | a computation, successful or not, keeps its worker the only holder |
| `ReportLifecycle.WriteInv` | src/modules/reports/reports.processor.ts:83-135 | the unconditional READY, FAILED and PENDING writes only ever hit the writer's own PROCESSING row |
| `ReportLifecycle.WriteErrorInv` | src/modules/reports/reports.processor.ts:114-137 | a closing write that throws keeps the invariant |
| `ReportLifecycle.ProcessingIsLast` | src/modules/reports/reports.service.ts:164-203 | only the newest occurrence of a series can be PROCESSING |
| `ReportLifecycle.Succeeds` | src/modules/reports/reports.service.ts:164-186 | a delivered report of a recurring series gets exactly one successor: the next occurrence, for the delivery date, PENDING; a failed insert leaves the table as it is |
| `ReportLifecycle.CreateNextInv` | src/modules/reports/reports.service.ts:164-203 | inserting the next occurrence keeps the invariant |
| `ReportLifecycle.EnqueueInv` | src/modules/reports/reports.service.ts:671-693 | the job is due exactly when its range has ended, or at once if it has, late by the time since the delay was read; it keeps the invariant |
| `ReportLifecycle.CronResetInv` | src/modules/reports/action/report.action.ts:121-138 | within the lease the stalled reset never takes a live holder's row |
| `ReportLifecycle.CancelInv` | src/modules/reports/reports.service.ts:435-446 | cancelling keeps the invariant |
| `ReportLifecycle.NextInv` | src/modules/reports/reports.processor.ts:49-138 | every step, by any worker, cron or user, keeps the invariant while the lease is respected |
| `ReportTheorems.RunInv` | src/modules/reports/reports.processor.ts:49-138 | every state of every run within the lease satisfies the invariant |
| `ReportTheorems.OneLiveHolder` | src/modules/reports/action/report.action.ts:105-119 | over every run within the lease, at most one live worker holds a report; its row is PROCESSING and stamped with the claim |
| `ReportTheorems.StatusMoves` | src/modules/reports/action/report.action.ts:79-138 | the complete list of status changes one step can make, and which step makes each |
| `ReportTheorems.TerminalForever` | src/modules/reports/action/report.action.ts:98-103 | READY, FAILED and CANCELLED rows never change again, although the closing writes are unconditional |
| `ReportTheorems.ResetTakesHolderIff` | src/modules/reports/reports.cron.ts:7-29 | the cron takes a live holder's row if and only if the holder has outlasted 30 minutes |
| `ReportTheorems.LeaseIsNeeded` | src/modules/reports/action/report.action.ts:98-138 | a run past the lease in which a delivered report turns back from READY to PENDING |
| `ReportTheorems.NextPeriod` | src/modules/reports/reports.service.ts:164-203 | one occurrence's period ends no later than the next one's begins, and is not empty |
| `ReportTheorems.PeriodsIncrease` | src/modules/reports/reports.service.ts:164-203 | the periods of any two occurrences are disjoint and in order |
| `ReportTheorems.SeriesIsConsecutive` | src/modules/reports/reports.service.ts:164-203 | over every run within the lease the occurrences are 1..n, all but the last READY, each for the delivery date of the one before, with non-empty, increasing, disjoint periods |
| `ReportTheorems.NeverEarly` | src/modules/reports/reports.service.ts:671-693 | no report is claimed before its own end date, or the end of its week or month |
| `ReportTheorems.ParkedRun` | src/modules/reports/reports.service.ts:164-203 | until it has its job, a new occurrence can only be cancelled, whatever others do |
| `ReportTheorems.SeriesContinues` | src/modules/reports/reports.processor.ts:83-104 | whatever others do in between, a READY write of a recurring series followed by a successful insert and enqueue leaves a last occurrence for that delivery date, PENDING unless cancelled, with a job due exactly at the end of its range |
| `ReportJobs.ReportProcessor.GenerateNewSeriesReport` | src/modules/reports/reports.service.ts:164-203 | adds exactly one row (occurrence one higher, the delivery date as reference, PENDING) if the insert succeeds, and its job, due at the later of now and the end of its range, if the queue does too; these are the protocol's steps |
| `ReportJobs.ReportProcessor.ComputeAndWrite` | src/modules/reports/reports.processor.ts:77-137 | the try and catch blocks, however their calls come out: the row READY and delivered now with its successor and job, or FAILED on the third attempt, PENDING, or left as it is |
| `ReportJobs.ReportProcessor.HandleComputeReport` | src/modules/reports/reports.processor.ts:49-138 | one undisturbed attempt performs the protocol's steps in order, on every branch and for every call that throws, and ends well exactly when the report was PENDING and claimed, computed and saved; the rows and jobs it leaves are written out |
| `ReportJobs.EnvironmentRun` | src/modules/reports/reports.service.ts:435-446 | cancels, crons and time do nothing to a held or finished report, cancel a PENDING one exactly if asked, and touch a stranded one only by a reset |
| `ReportJobs.Claiming` | src/modules/reports/reports.processor.ts:61-75 | after the claim the worker holds the report, or a user had cancelled it, or the claim threw before or after taking effect |
| `ReportJobs.SavedOutcome` | src/modules/reports/reports.processor.ts:77-89 | a held report is saved READY, or stays held by a worker in its catch block |
| `ReportJobs.ClosedOutcome` | src/modules/reports/reports.processor.ts:77-137 | a held report ends READY, FAILED on the last attempt, PENDING, or PROCESSING when the catch block's own write throws |
| `ReportJobs.AttemptOutcome` | src/modules/reports/reports.processor.ts:49-138 | the status an attempt leaves, as a function of how its calls came out; a report left PENDING means the job threw |
| `ReportSettling.JobFollowsCalls` | src/modules/reports/reports.processor.ts:49-138 | with no crash and one delivery at a time the outcomes of the calls fix what becomes of the report |
| `ReportSettling.JobSettlesIff` | src/modules/reports/reports.processor.ts:114-137 | a job settles its report exactly when some attempt decides it and none before that strands it |
| `ReportSettling.OnlyCatchWriteStrands` | src/modules/reports/reports.processor.ts:114-137 | when reads and claims answer, a job settles exactly when no attempt that runs has its catch block's write throw; a READY write that throws settles all the same |
| `ReportSettling.WhySettled` | src/modules/reports/reports.processor.ts:49-138 | CANCELLED only if a user asked, READY only if an attempt saved it, FAILED only if none did |
| `ReportSettling.JobSettles` | src/modules/reports/reports.processor.ts:114-137 | when only computations and READY writes may throw, a job ends within three attempts with its report finished |
| `ReportSettling.CatchWriteStrands` | src/modules/reports/reports.processor.ts:114-137 | a run whose three attempts end with the report in PROCESSING and nobody holding it |
| `ReportSettling.StrandedForever` | src/modules/reports/reports.cron.ts:21-29 | a report with no worker and no delivery left is never computed, whatever crons do: it stays unfinished exactly unless a user cancels it while PENDING |
| `ReportSettling.CronReopensIff` | src/modules/reports/action/report.action.ts:121-138 | the cron puts a stranded report back to PENDING exactly past the lease, and adds no job for it |
| `Sessions.SessionModelAction.Create` | src/modules/users/users.service.ts:105-121 | a new session is valid until its expiry and cannot be refreshed; the login write makes it the protocol's first state |
| `Sessions.SessionModelAction.CompareAndSwapRefreshTokenHash` | src/modules/users/actions/sessions.action.ts:24-63 | swaps only if the stored hash is the expected one on a live session, with the sliding expiry capped |
| `Sessions.SessionModelAction.AtomicallySwapFid` | src/modules/users/actions/sessions.action.ts:65-92 | succeeds on a live session only, and no refresh or validation can tell whether it did |
| `Sessions.SessionModelAction.SetRefreshTokenHash` | src/modules/users/users.service.ts:257-280 | afterwards exactly the given token refreshes the session, within the sliding and absolute windows; without a token nothing does |
| `Sessions.SessionModelAction.DeactivateSession` | src/modules/users/users.service.ts:296-307 | afterwards nothing validates or refreshes the session |
| `Sessions.SessionModelAction.ValidateSession` | src/modules/users/users.service.ts:130-159 | tells inactive, expired and valid apart, and deactivates an expired session |
| `Sessions.SwapInv` | src/modules/users/actions/sessions.action.ts:24-63 | a swap extends the chain of rotations by one link |
| `Sessions.NextInv` | src/modules/auth/auth.service.ts:443-492 | every step of any number of refreshes and logouts keeps the invariant |
| `Sessions.RunInv` | src/modules/auth/auth.service.ts:443-492 | every reachable state of a session satisfies the invariant |
| `Sessions.RotationsFormOneChain` | src/modules/users/actions/sessions.action.ts:24-63 | in every interleaving the successful rotations form one chain from the login token, and no token is redeemed twice |
| `Sessions.RefreshSucceedsIff` | src/modules/auth/auth.service.ts:443-492 | in every reachable state a refresh read, checked and swapped without interruption adds a rotation exactly when the session is active, the token is the last one issued, less than 7 days ago, and the session is younger than 30 days |
| `Sessions.RacingRefreshes` | src/modules/auth/auth.service.ts:443-492 | of two refreshes that both pass the check with the token in force, the first to swap wins and the other fails |
| `Sessions.StaysActive` | src/modules/users/users.service.ts:130-159 | only a logout or the deactivation of an expired session ends a session |
| `Sessions.DeactivationIsFinal` | src/modules/users/users.service.ts:296-307 | after deactivation no refresh succeeds, whatever is in flight |
| `Sessions.LogoutIsFinal` | src/modules/auth/auth.service.ts:506-520 | after a logout no refresh succeeds, whatever is in flight |
| `Sessions.RefreshesAreBounded` | src/modules/users/actions/sessions.action.ts:30-60 | successive refreshes are less than 7 days apart and all within 30 days of creation |
| `Sessions.ExpiryIsCapped` | src/modules/users/actions/sessions.action.ts:30-60 | expiry is within 30 days of creation exactly when a rotation has happened or the login write came within 23 days; then no step shortens it |
| `Sessions.AuthService.Refresh` | src/modules/auth/auth.service.ts:443-492 | succeeds exactly when the presented token is the stored one of an active session before its expiry and within 30 days of its creation, and then stores the new token with the capped expiry; one refresh takes the protocol's steps on every branch |
| `Sessions.AuthService.Logout` | src/modules/auth/auth.service.ts:506-520 | is the protocol's logout step: afterwards the session is inactive and nothing refreshes it |
| `Installers.CommitCreateInv` | src/modules/installers/installers.service.ts:286-359 | committing an assignment adds the only active one of its pair, on an ACTIVE profile |
| `Installers.CommitSuspendInv` | src/modules/installers/installers.service.ts:219-284 | committing a suspension leaves no active assignment on the profile |
| `Installers.LockInv` | src/modules/installers/installers.service.ts:219-359 | what a transaction reads under the row lock stays true while it holds it |
| `Installers.NextInv` | src/modules/installers/installers.service.ts:219-400 | every step of every transaction keeps the invariant |
| `Installers.RunInv` | src/modules/installers/installers.service.ts:219-400 | every reachable state satisfies the invariant |
| `Installers.CommittedStatesAreSound` | src/modules/installers/installers.service.ts:219-400 | in every interleaving no active assignment is on a SUSPENDED profile and none repeats its (inverter, profile), from the row lock alone |
| `Installers.RevokedForever` | src/modules/installers/installers.service.ts:361-402 | a revoked assignment never becomes active again, and no assignment changes its pair |
| `Installers.SuspensionRevokesAll` | src/modules/installers/installers.service.ts:219-284 | at the commit of a suspension the profile is SUSPENDED, unlocked and without active assignments |
| `Installers.RacingCreates` | src/modules/installers/installers.service.ts:286-359 | of two interleaved requests for one assignment exactly one is granted, whatever else is in flight: the second waits for the row lock and is then refused |
| `Installers.NoneBeforeApproval` | src/modules/installers/installers.service.ts:219-359 | a new profile is not ACTIVE, and until someone sets it ACTIVE no assignment is made to it, in any interleaving |
| `Installers.SuspendedTables` | src/modules/installers/installers.service.ts:219-284 | the steps of a suspension alone come to revoking exactly the profile's active assignments |
| `Installers.RevokedTables` | src/modules/installers/installers.service.ts:361-402 | the steps of a revocation alone come to changing one status |
| `Installers.InstallersService.UpdateStatus` | src/modules/installers/installers.service.ts:219-284 | stores the status given; a suspension revokes exactly the profile's active assignments, and nothing else changes: the protocol's transaction or plain update |
| `Installers.InstallersService.CreateAssignment` | src/modules/installers/installers.service.ts:286-359 | performs the protocol's transaction, with every error case, and succeeds exactly on an ACTIVE profile without that assignment |
| `Installers.InstallersService.RevokeAssignment` | src/modules/installers/installers.service.ts:361-402 | succeeds exactly for the owner of an active assignment on the expected inverter |
| `ShareLinks.UpsertInv` | src/modules/reports/action/uploaded-report.action.ts:34-89 | the locked upsert keeps the invariant: the replaced file is left to its upload to delete |
| `ShareLinks.NextInv` | src/modules/reports/reports.service.ts:517-631 | every step of uploads, jobs and accesses keeps the invariant |
| `ShareLinks.RunInv` | src/modules/reports/reports.service.ts:517-631 | every reachable state satisfies the invariant, late failures and retries included |
| `ShareLinks.FilesMatchRow` | src/modules/reports/reports.service.ts:517-631 | without late failures, once nothing is in flight the remote files are exactly the file the row names |
| `ShareLinks.StaleDeletionIsHarmless` | src/modules/reports/reports.service.ts:787-807 | no step of a deletion touches a row naming another file, or that row's file |
| `ShareLinks.RetiredForever` | src/modules/reports/reports.service.ts:787-807 | a superseded file is never named again, so its deletions stay harmless |
| `ShareLinks.CurrentJobIsKept` | src/modules/reports/reports.service.ts:575-581 | cancelling the replaced upload's delete job never cancels the current file's |
| `ShareLinks.LateFailureDangles` | src/modules/reports/reports.service.ts:593-630 | over every run, failures included, when nothing is in flight no file leaks, and the files are the row's exactly when no late failure removed the row's own file |
| `ShareLinks.LateFailureRun` | src/modules/reports/reports.service.ts:593-630 | a run in which the delete job cannot be added, and the row is left naming a file that is gone |
| `ShareLinks.FailLateInv` | src/modules/reports/reports.service.ts:619-630 | an upload that fails after its commit keeps the invariant |
| `ShareLinks.UploadedState` | src/modules/reports/reports.service.ts:517-631 | the six steps of an upload alone: new row, old file gone, one delete job |
| `ShareLinks.RacingUploads` | src/modules/reports/reports.service.ts:517-631 | of two uploads at once the row keeps the one that wrote it last, with that one's job, and of the files only its file is left |
| `ShareLinks.DueJobDeletes` | src/modules/reports/reports.service.ts:787-807 | a queued job that runs deletes the file it was queued for, and the row too while the row names it |
| `ShareLinks.ShareService.UpsertUploadedReport` | src/modules/reports/action/uploaded-report.action.ts:34-89 | updates or inserts the row, keeping job id and downloads, and returns the row it replaced |
| `ShareLinks.ShareService.ReplaceRow` | src/modules/reports/reports.service.ts:569-586 | the row takes over the new file, for 7 days, and the old row's job and file go: the protocol's steps |
| `ShareLinks.ShareService.UploadReportToCloudinary` | src/modules/reports/reports.service.ts:517-631 | performs the protocol's upload, or its early or late failure, or nothing, as storage, transaction, queue and last write come out |
| `ShareLinks.DeletedState` | src/modules/reports/reports.service.ts:787-807 | what a deletion comes to: nothing for another file or a failed destroy, a dangling row, or neither row nor file |
| `ShareLinks.ShareService.DeleteRemoteReport` | src/modules/reports/reports.service.ts:787-807 | performs the protocol's deletion however it goes, and succeeds exactly when the row named that file and both calls did |
| `ShareLinks.ShareService.AccessShareableLink` | src/modules/reports/reports.service.ts:474-499 | a link works exactly while its upload is current and unexpired, each use counted; the first use after expiry performs the protocol's deletion |
| `TeamAccess.FirstFrom` | src/modules/team-access/action/inverter-member.action.ts:20-42 | the lookup returns the first row that satisfies the predicate, or none does |
| `TeamAccess.StandingMeaning` | src/modules/team-access/team-access.service.ts:33-270 | the life of a pair, step by step, agrees with the declarative reading of its history |
| `TeamAccess.JoinedIffAccepted` | src/modules/team-access/team-access.service.ts:132-170 | a pair has joined exactly when its latest invitation was accepted with its token in time and not revoked since |
| `TeamAccess.InviteInv` | src/modules/team-access/team-access.service.ts:272-308 | inviting and re-inviting keep table and history in agreement |
| `TeamAccess.RefreshInv` | src/modules/team-access/team-access.service.ts:84-130 | renewing an invite keeps them in agreement |
| `TeamAccess.SetRoleInv` | src/modules/team-access/team-access.service.ts:242-258 | changing a role keeps them in agreement |
| `TeamAccess.RevokeInv` | src/modules/team-access/team-access.service.ts:260-270 | revoking keeps them in agreement, and mends a row that was not |
| `TeamAccess.ActivateInv` | src/modules/team-access/team-access.service.ts:154-170 | the activating write leaves its row in agreement exactly when the history then counts the pair as joined |
| `TeamAccess.ApplyInv` | src/modules/team-access/team-access.service.ts:33-308 | every operation keeps the rows that agree with the history in agreement |
| `TeamAccess.RunInv` | src/modules/team-access/team-access.service.ts:33-308 | every state reached by whole operations is in agreement with its history |
| `TeamAccess.AtMostOneRow` | src/modules/team-access/action/inverter-member.action.ts:68-101 | over every sequence of operations there is at most one row per (inverter, email) |
| `TeamAccess.RanksAdmit` | src/common/enums/inverter-role.enum.ts:14-19 | ranking at least one of the required roles is being in one of their sets: OWNER; OWNER, ADMIN; those and TECHNICIAN; all four |
| `TeamAccess.GuardByRole` | src/common/guards/inverter-role.guard.ts:60-70 | the guard's answer to an active member, role by role: required OWNER admits OWNER alone, ADMIN also ADMIN, TECHNICIAN all but VIEWER, VIEWER everyone; an empty list admits no one and no list everyone |
| `TeamAccess.GuardAt` | src/common/guards/inverter-role.guard.ts:29-70 | the guard gives a non-owner the answer the history calls for exactly when the pair's row agrees with it |
| `TeamAccess.GuardFollowsHistory` | src/common/guards/inverter-role.guard.ts:29-70 | the owner is admitted; anyone else exactly when the latest invitation was accepted with its unexpired token, was not revoked since, and the last role is among those that a required role admits; otherwise forbidden or refused |
| `TeamAccess.TeamAccessService.InviteMember` | src/modules/team-access/team-access.service.ts:33-82 | invites a new address, re-invites a revoked one, and refuses the others; the invite holds the role given and 7 days |
| `TeamAccess.TeamAccessService.RefreshUserInvite` | src/modules/team-access/team-access.service.ts:84-130 | renews exactly a pending invite of that inverter, with a new token and 7 days, or changes nothing |
| `TeamAccess.TeamAccessService.FindInviteByTokenAndEmail` | src/modules/team-access/team-access.service.ts:132-152 | finds a pending, unexpired invite by token and email, and nothing else |
| `TeamAccess.TeamAccessService.ActivateMembership` | src/modules/team-access/team-access.service.ts:154-170 | is the protocol's unconditional write; from then on the guard admits the user, whoever owns the inverter |
| `TeamAccess.TeamAccessService.AcceptInvite` | src/modules/auth/auth.service.ts:94-170 | succeeds exactly on a pending, unexpired invite with that token and address, and makes its user an active member |
| `TeamAccess.TeamAccessService.UpdateMemberRole` | src/modules/team-access/team-access.service.ts:242-258 | changes the role of a row of that inverter only |
| `TeamAccess.TeamAccessService.RevokeMemberAccess` | src/modules/team-access/team-access.service.ts:260-270 | deactivates a row of that inverter only |
| `TeamRaces.CheckStays` | src/modules/auth/auth.service.ts:144-157 | after any operation, a checked invite that was not overtaken still fits the pair's standing, and an overtaken one never does |
| `TeamRaces.NextInv` | src/modules/auth/auth.service.ts:94-170 | every step of interleaved acceptances and operations keeps the invariant |
| `TeamRaces.GuardSurvivesIff` | src/modules/auth/auth.service.ts:144-157 | over every interleaving the guard follows the history exactly when the pair's row was not activated by an overtaken acceptance |
| `TeamRaces.WriteSpoilsIff` | src/modules/team-access/team-access.service.ts:154-170 | the unconditional write spoils its row exactly when the pair was invited anew, renewed or revoked since the check and has not joined otherwise |
| `TeamRaces.RevokedUserAdmitted` | src/modules/auth/auth.service.ts:144-157 | a run in which access is revoked between check and write and the guard then admits the user |
| `Calendar.YearOf` | src/modules/inverters-metrics/inverters-metrics.service.ts:1340-1403 | the year of a day number (section 15.9.1.3 of ECMA-262, edition 5.1) |
| `Calendar.MakeDayInverts` | src/modules/inverters-metrics/inverters-metrics.service.ts:1357-1380 | setDate moves by whole days, across months and years |
| `Calendar.DayNumbersCountDates` | src/modules/inverters-metrics/inverters-metrics.service.ts:1340-1403 | day numbers follow the Gregorian calendar counted date by date, leap years included |
| `PeriodRanges.JsDate.SetDate` | src/modules/reports/reports.service.ts:710-717 | Date.setDate moves the instant by whole days |
| `PeriodRanges.JsDate.SetMidnight` | src/modules/reports/reports.service.ts:711-714 | moves back to the latest local midnight, less than a day, on the same local day |
| `PeriodRanges.ReportPeriodRange` | src/modules/reports/reports.service.ts:695-731 | the reports service computes the specified range, and fails for other periods |
| `PeriodRanges.MetricsPeriodRange` | src/modules/inverters-metrics/inverters-metrics.service.ts:1340-1403 | the metrics service computes the same specified range |
| `PeriodRanges.RangeIsUnit` | src/modules/inverters-metrics/inverters-metrics.service.ts:1340-1403 | a range holds exactly the instants of the same local day, Monday-to-Sunday week or month, its own date included |
| `PeriodRanges.RangeContainsIffSupported` | src/modules/inverters-metrics/inverters-metrics.service.ts:1379-1384 | the range contains its date except for months of the years 0 to 99, and nowhere else fails |
| `PeriodRanges.RangesTile` | src/modules/inverters-metrics/inverters-metrics.service.ts:1340-1403 | two ranges of one kind are equal or disjoint |
| `PeriodRanges.EndIsNextStart` | src/modules/inverters-metrics/inverters-metrics.service.ts:1340-1403 | each end is the next start, across years |
| `PeriodRanges.LaterRange` | src/modules/reports/reports.service.ts:695-731 | a date past a range's end has a wholly later range |
| `PeriodRanges.RangeShape` | src/modules/reports/reports.service.ts:695-731 | weeks are seven days from a Monday midnight, days run from midnight to midnight, months from the 1st to the 1st with the right length, and the hourly range is the 24 hours that end at the date |
| `PeriodRanges.DaysOfMonth` | src/modules/reports/reports.service.ts:720-724 | the days between two firsts are exactly those of the month |
| `EnergyBuckets.GroupByMeaning` | src/modules/inverters-metrics/inverters-metrics.service.ts:894-919 | GROUP BY: ascending buckets, one row for each bucket with readings, with their sums |
| `EnergyBuckets.TotalsAreOfReadings` | src/modules/inverters-metrics/inverters-metrics.service.ts:921-930 | summing the buckets gives the readings' totals, at any bucket size |
| `EnergyBuckets.HourDeterminesBucket` | src/modules/inverters-metrics/inverters-metrics.service.ts:905-908 | no hour straddles two days, weeks or months |
| `EnergyBuckets.ActiveHoursConserved` | src/modules/inverters-metrics/inverters-metrics.service.ts:942-945 | the buckets' distinct hours add up to the period's, each counted once |
| `Savings.ReadingSpansPollInterval` | src/modules/inverters-metrics/inverters-metrics.service.ts:63-69 | a reading stands for exactly the poll interval of the brand: its energy is power times that time |
| `Savings.PriceIsNumberIff` | src/modules/inverters-metrics/inverters-metrics.service.ts:876-881 | the fuel price is a number exactly when a settings row exists; the user's own rated power and price are used where set, and 2.5 kW and the latest price elsewhere |
| `Savings.GeneratorRun` | src/modules/inverters-metrics/inverters-metrics.service.ts:947-957 | litres, naira and emissions saved are those of running the generator, at its rated power, for the hours that would supply the energy; without a rated power nothing is saved |
| `Savings.SomeHours` | src/modules/inverters-metrics/inverters-metrics.service.ts:950-953 | for every energy and tariff there is exactly one such number of hours |
| `Savings.TenKilowattHours` | src/modules/inverters-metrics/inverters-metrics.service.ts:950-956 | 10 kWh on a 2.5 kW generator at 1.5 litres an hour and 1000 naira a litre save 6 litres and 6000 naira |
| `Savings.CoverageLaw` | src/modules/inverters-metrics/inverters-metrics.service.ts:932-940 | the percentage is the solar share of the energy used, and 100 when the sun gave as much or more |
| `Savings.TotalsIgnoreGranularity` | src/modules/inverters-metrics/inverters-metrics.service.ts:921-957 | all totals are those of the readings and of a generator run for their energy, whichever bucket size is used |
| `Savings.BreakdownSums` | src/modules/inverters-metrics/inverters-metrics.service.ts:1082-1108 | rounded entries add up to within half a unit per row of the energy and of the generator run for it |
| `Savings.SumsOnGrid` | src/modules/inverters-metrics/inverters-metrics.service.ts:1098-1108 | sums of rounded entries need no further rounding |
| `Savings.EntriesMatchTotals` | src/modules/inverters-metrics/inverters-metrics.service.ts:963-1003 | breakdown sums and period totals differ by at most (n+1) half units: 0.005 naira, 0.0005 kWh, 0.0005 litre |
| `Savings.SummaryError` | src/modules/inverters-metrics/inverters-metrics.service.ts:932-1004 | emissions are those of the generator run to within 0.0005, solar coverage is the share of the energy used to within 0.05 percent or exactly 100, and active hours are exact |
| `Savings.AverageError` | src/modules/inverters-metrics/inverters-metrics.service.ts:959-999 | the mean saving times the number of buckets in which energy was used, or one, is what the generator run costs, to within 0.005 each |
| `Savings.UsedMeaning` | src/modules/inverters-metrics/inverters-metrics.service.ts:959-961 | a bucket counts in that mean exactly when its readings come to more than no energy |
| `Savings.EntryIsItsBucket` | src/modules/inverters-metrics/inverters-metrics.service.ts:963-980 | a breakdown entry covers the hour, day, Monday week or month that begins with its bucket: it has readings there and shows exactly theirs, and the generator run for them |
| `Savings.PeriodEntries` | src/modules/inverters-metrics/inverters-metrics.service.ts:1340-1403 | the breakdown of an hourly or daily period is by hours, of a week or a month by days |
| `Savings.CustomEntries` | src/modules/inverters-metrics/inverters-metrics.service.ts:1152-1275 | a custom range must not be empty, and its breakdown is by the bucket size of its length |
| `Savings.BucketIsSpan` | src/modules/inverters-metrics/inverters-metrics.service.ts:1340-1403 | instants share a bucket exactly when they are in the same span; days begin at midnight and weeks on Mondays |
| `Savings.GranularityByLength` | src/modules/inverters-metrics/inverters-metrics.service.ts:1195-1219 | the bucket size by the exact length of the range: hours up to 2 days, days up to 20, weeks up to 90 |
| `Savings.LifetimeError` | src/modules/inverters-metrics/inverters-metrics.service.ts:1082-1131 | over n months lifetime savings are within n*0.005 naira of what the generator run costs, energy and fuel within n*0.0005 of what it takes |
| `Savings.LifetimeCo2Error` | src/modules/inverters-metrics/inverters-metrics.service.ts:1109-1128 | the emissions avoided, from rounded litres, are those of the generator run within n*0.0005 times the factor plus 0.0005 |
| `Savings.LifetimeAverageError` | src/modules/inverters-metrics/inverters-metrics.service.ts:1117-1120 | the monthly average times the months is within 0.01 naira a month of what the generator run costs |
| `Savings.MonthWindow` | src/modules/inverters-metrics/inverters-metrics.service.ts:1379-1384 | the monthly range of a database month holds exactly that month's readings |
| `Savings.MonthTotals` | src/modules/inverters-metrics/inverters-metrics.service.ts:1060-1096 | the period report of a month has the totals of that month's row of the lifetime query |
| `Savings.LifetimeIsSumOfMonths` | src/modules/inverters-metrics/inverters-metrics.service.ts:1105-1108 | lifetime savings are exactly the sum of what the period report says for each month |
| `Savings.WithinSplits` | src/modules/inverters-metrics/inverters-metrics.service.ts:1236-1240 | no reading is lost or counted twice when a range is cut |
| `Savings.CustomRangesAdd` | src/modules/inverters-metrics/inverters-metrics.service.ts:1152-1275 | cutting a custom range in two changes the savings by at most 0.015 naira, though bucket sizes differ |
| `Savings.DashboardIsZero` | src/modules/inverters-metrics/inverters-metrics.service.ts:177-217 | the overview's integer division makes its savings 0 for every brand and all readings; it agrees with the period report exactly below half a kobo |
| `QuietHours.WrapDayInRange` | src/modules/alerts/helpers/quiet-hours.ts:21-22 | the wrapped total is the minute of the day, for either sign |
| `QuietHours.ClockReadsBack` | src/modules/alerts/helpers/quiet-hours.ts:23-25 | a printed time reads back as the same minute |
| `QuietHours.OffsetReadsBack` | src/modules/alerts/helpers/quiet-hours.ts:17-18 | an offset is minutes east of UTC, and west with a minus sign |
| `QuietHours.TestOnClockTexts` | src/modules/alerts/helpers/quiet-hours.ts:42-67 | the case analysis is membership in an arc of the day, plus the sentinel |
| `QuietHours.WindowMovesWithOffset` | src/modules/alerts/helpers/quiet-hours.ts:15-67 | testing UTC against the converted window is testing local time against the window, at every offset and around midnight |
| `QuietHours.LocalTestAgreesIff` | src/modules/alerts/helpers/quiet-hours.ts:55-58 | UTC and local test agree exactly when the ends differ, or midnight and the offset coincide for the start or for neither: the sentinel is lost at other offsets |
| `QuietHours.UnreadableIsNeverQuiet` | src/modules/alerts/helpers/quiet-hours.ts:16-25 | a time or zone that does not read as a number is never quiet |
| `QuietHours.ReadableIff` | src/modules/alerts/helpers/quiet-hours.ts:16-18 | a time is readable exactly when it has digits, a colon, and digits up to the end or another colon |
| `QuietHours.ZoneReadableIff` | src/modules/alerts/helpers/quiet-hours.ts:17-18 | a zone is readable exactly when the rest of it after the sign is so shaped |
| `QuietHours.NamedZoneIsUnreadable` | src/modules/alerts/helpers/quiet-hours.ts:17-18 | a zone with no colon after its first character, such as any given by name, is unreadable |
| `QuietHours.EverQuietIff` | src/modules/alerts/helpers/quiet-hours.ts:15-67 | a user is quiet at some time exactly when times and zone are so shaped and the window's ends differ or coincide at the offset |
| `QuietHours.SentinelIsLost` | src/modules/alerts/helpers/quiet-hours.ts:55-58 | an hour ahead of UTC, 00:00 to 00:00 is never quiet and 01:00 to 01:00 always is |
| `QuietHours.DeferredToNextEnd` | src/modules/alerts/jobs/alert-detection.job.ts:334-344 | the scheduled instant is the first at which the clock shows the end, within 24 hours |
| `QuietHours.DeferredPastWindow` | src/modules/alerts/jobs/alert-detection.job.ts:334-344 | from inside a window it is the first later instant outside, in under 24 hours |
| `QuietHours.DeferredToFirstOutside` | src/modules/alerts/jobs/alert-detection.job.ts:294-344 | the same for stored texts and zone; a window without an outside still delivers within a day |
| `AlertDetection.LatestEndsHistory` | src/modules/alerts/helpers/duplicate-suppression.ts:45-51 | the latest alert by creation time is the last of the key's history |
| `AlertDetection.CheckPassesIff` | src/modules/alerts/helpers/duplicate-suppression.ts:41-104 | a check passes exactly when the key has no alert yet, or the severity is strictly worse than the last alert's, or that alert is resolved and at least a cooldown old |
| `AlertDetection.UpgradeIsWorse` | src/modules/alerts/helpers/duplicate-suppression.ts:89-104 | the severity order, written out: LOW < MEDIUM < HIGH < WARNING < CRITICAL, anything else as LOW |
| `AlertDetection.CheckedInv` | src/modules/alerts/helpers/duplicate-suppression.ts:41-87 | after a passed check the history allows the pending alert |
| `AlertDetection.ResolveEach` | src/modules/alerts/helpers/duplicate-suppression.ts:77-83 | resolving marks exactly the alert with that id |
| `AlertDetection.HistoryOrdered` | src/modules/alerts/helpers/duplicate-suppression.ts:45-51 | the history of a key is exactly its alerts, in order of creation |
| `AlertDetection.SavedInv` | src/modules/alerts/jobs/alert-detection.job.ts:308-323 | saving extends the history by a justified alert |
| `AlertDetection.ResolvedInv` | src/modules/alerts/helpers/duplicate-suppression.ts:77-83 | resolving an alert keeps the history justified |
| `AlertDetection.RunInv` | src/modules/alerts/helpers/duplicate-suppression.ts:41-87 | every reachable state of a sequential run satisfies the invariant |
| `AlertDetection.ConsecutiveAlerts` | src/modules/alerts/helpers/duplicate-suppression.ts:41-104 | of two consecutive alerts the later is strictly worse, or the earlier is resolved and a cooldown older |
| `AlertDetection.OnePerRankInWindow` | src/modules/alerts/helpers/duplicate-suppression.ts:41-104 | within less than a cooldown severity ranks strictly climb, so no rank repeats |
| `AlertDetection.OverlapJustifiedIff` | src/modules/alerts/jobs/alert-detection.job.ts:285-323 | when two checks precede both saves, the two alerts are justified exactly when the second is strictly worse |
| `AlertDetection.OverlappingChecksRepeat` | src/modules/alerts/jobs/alert-detection.job.ts:285-323 | such a run, with two equal alerts a millisecond apart |
| `AlertDetection.AlertDetectionJob.SaveAndDispatchAlert` | src/modules/alerts/jobs/alert-detection.job.ts:264-369 | an alert is saved exactly when the key's history allows it, with a cooldown of 15 minutes by default; its job is a dispatch, or, inside the user's quiet hours and not CRITICAL, a delivery at the first instant outside; these are the check and save steps |
| `Depletion.ReportedMinutes` | src/modules/alerts/helpers/depletion-engine.ts:38-121 | an estimate is made exactly for a discharging, believable battery, and is the exact time rounded to a hundredth |
| `Depletion.FiredWithin` | src/modules/alerts/helpers/alert-thresholds.ts:27-62 | CRITICAL exactly under 29.995 exact minutes, WARNING exactly under 60.005 |
| `Depletion.FiresIff` | src/modules/alerts/helpers/depletion-engine.ts:38-121 | from the readings themselves: an alert fires exactly when the load exceeds the sun, the capacity is not in (0, 0.02) kWh, and the energy above the threshold lasts under 60.005 minutes; CRITICAL under 29.995 |
| `Depletion.OutOfRangeIsClamped` | src/modules/alerts/helpers/depletion-engine.ts:38-121 | a reading out of range counts as the nearest one in range |
| `Depletion.WorseNeverLowersSeverity` | src/modules/alerts/helpers/depletion-engine.ts:38-121 | at fixed capacity less charge or sun, or more load or threshold, never lowers the severity |
| `Depletion.CapacityMonotoneIff` | src/modules/alerts/helpers/depletion-engine.ts:69-80 | lowering capacity never lowers the severity, except exactly into (0, 0.02) kWh from 0.02 or more |
| `Depletion.EmptyIsNoSooner` | src/modules/alerts/jobs/alert-detection.job.ts:138-140 | time to empty is never shorter than time to the threshold |
| `Depletion.MinutesMatchEnergy` | src/modules/alerts/helpers/depletion-engine.ts:110-116 | reported minutes at the net load draw the usable energy, give or take 0.005 minute |
| `Depletion.MinutesDraw` | src/modules/alerts/helpers/depletion-engine.ts:110-116 | from the readings themselves: at the load that the sun does not carry, the reported minutes draw the energy above the threshold, give or take 0.005 minute |
| `Diagnostics.ToFixedReadsBack` | src/modules/inverters/adapters/sandbox.adapter.ts:98-103 | a printed value with any unit free of numeric characters reads back as the value rounded to its decimals |
| `Diagnostics.CodesDistinct` | mock-inverter-server/src/routes/victron.ts:147-159 | the eleven codes are distinct |
| `Diagnostics.FindCode` | src/modules/inverters/adapters/sandbox.adapter.ts:98-101 | each code finds its own record |
| `Diagnostics.ReadField` | src/modules/inverters/adapters/victron.adapters.ts:93-98 | each numeric field reads back rounded |
| `Diagnostics.AdapterReadsBack` | mock-inverter-server/src/routes/victron.ts:147-159 | either adapter recovers every field of every device state, rounded to its printed decimals, and the status unchanged |
| `Rounding.FixedError` | src/modules/inverters/adapters/sandbox.adapter.ts:98-103 | toFixed is within half a unit of the last decimal (section 15.7.4.5 of ECMA-262, edition 5.1) |
| `Rounding.FixedExact` | src/modules/inverters-metrics/inverters-metrics.service.ts:1098-1128 | a value that already has those decimals is not changed |
| `Digits.DecimalValue` | src/modules/alerts/helpers/quiet-hours.ts:25-25 | a number printed in decimal reads back |
| `Poller.FindIndex` | src/modules/metrics-stream/poller/metrics-poller.service.ts:165-165 | the first position of an id, or none holds it |
| `Poller.SplicedHolds` | src/modules/metrics-stream/poller/metrics-poller.service.ts:164-168 | one splice untracks an inverter and keeps the rest once each |
| `Poller.PushedHolds` | src/modules/metrics-stream/poller/metrics-poller.service.ts:156-156 | a push after a failed lookup tracks an inverter once |
| `Poller.TrackedIff` | src/modules/metrics-stream/poller/metrics-poller.service.ts:133-178 | tracked means loaded, or registered with a brand that is polled, and not deregistered since |
| `Poller.RunGrows` | src/modules/metrics-stream/poller/metrics-poller.service.ts:247-284 | what each event does to the run of failures of an inverter |
| `Poller.MetricsPollerService.constructor` | src/modules/metrics-stream/poller/metrics-poller.service.ts:227-245 | the loaded lists start tracked and with no failures |
| `Poller.MetricsPollerService.HandleInverterRegistered` | src/modules/metrics-stream/poller/metrics-poller.service.ts:133-160 | tracks an inverter in its own brand's list unless it is there already |
| `Poller.MetricsPollerService.HandleInverterDeregistered` | src/modules/metrics-stream/poller/metrics-poller.service.ts:162-178 | finds and untracks an inverter in whichever list it is, and forgets its failures |
| `Poller.MetricsPollerService.Push` | src/modules/metrics-stream/poller/metrics-poller.service.ts:180-193 | a push reaches its brand's list only; for DEYE it is lost |
| `Poller.MetricsPollerService.OnePlace` | src/modules/metrics-stream/poller/metrics-poller.service.ts:180-193 | after every run a tracked inverter is in exactly one place of the four lists, that of its brand, and an untracked one in none |
| `Poller.MetricsPollerService.FetchSucceeded` | src/modules/metrics-stream/poller/metrics-poller.service.ts:260-267 | a fetch that came back ends the run of failures |
| `Poller.MetricsPollerService.PollFailed` | src/modules/metrics-stream/poller/metrics-poller.service.ts:268-281 | the count is the trailing run of failures, and the inverter is marked offline exactly when that reaches three |
| `Poller.MetricsPollerService.PollOne` | src/modules/metrics-stream/poller/metrics-poller.service.ts:247-284 | one poll: a rejected markOnline counts as the first failure and never marks |
| `TokenStream.SegmentsAreMaximalRuns` | src/modules/chatbot/agent.service.ts:203-219 | the segments are the maximal runs of model chunks: with their separators they make up the stream |
| `TokenStream.EventsAreLogged` | src/modules/chatbot/agent.service.ts:203-258 | chunk by chunk of the stream: exactly the last usage of each run of model chunks is logged, in order, if its total is positive, and on a failure only of runs that were over |
| `TokenStream.ChunkArrives` | src/modules/chatbot/agent.service.ts:203-239 | what one chunk adds to the shown texts and to the runs |
| `TokenStream.NothingShown` | src/modules/chatbot/agent.service.ts:254-258 | an empty text means that no token was emitted |
| `TokenStream.InvokeWithHistoryStream` | src/modules/chatbot/agent.service.ts:156-262 | the text returned is the concatenation of the emitted tokens, also on errors; the logged events are exactly the last usages of the runs, or of the finished runs on a failure, with a positive total, in order |

## Left out

- ReportTheorems.OneLiveHolder: is stated for runs in which no live computation outlasts the lease; without that it fails, as LeaseIsNeeded shows.
- ReportSettling.JobSettles: supposes that reads, claims and catch-block writes answer; JobSettlesIff and OnlyCatchWriteStrands say exactly what happens when they do not. All of them take one delivery at a time and no crash, and suppose that no cron reopens a stranded report between two attempts of its job; the interleavings of several deliveries are in ReportLifecycle.
- ReportJobs.AttemptOutcome: a call that throws has not taken effect, except for the claim, whose two calls are told apart.
- ReportJobs.ReportProcessor.HandleComputeReport: the clock does not move during this one undisturbed attempt; AttemptOutcome lets it.
- Sessions.AuthService.Refresh: signing tokens and reading the user are left out; a failure there is the step Abort.
- Installers.NextInv: a lock request that finds the row locked is retried as a later event; deadlock detection and the waiting of assignment-row updates are not modelled.
- ShareLinks.FilesMatchRow: supposes that uploads fail only before their row commits and deletions do not stop half way; LateFailureDangles treats those failures. That an old file is really gone after it was deleted is supposed in both, since the source ignores the answer.
- ShareLinks.DueJobDeletes: the delay after which the queue runs a delete job is not modelled; a job may run at any time.
- ReportTheorems.SeriesContinues: the pause between the retries of a job is not modelled, nor what becomes of a series whose insert or enqueue throws; the source gives that series up.
- TeamAccess.GuardFollowsHistory: is about sequences of whole operations, with an email address standing for its user; TeamRaces.GuardSurvivesIff takes acceptances apart. Two invitations of one address at the same moment are not taken apart: the unique index decides between them.
- PeriodRanges.RangeIsUnit: excludes the months of the years 0 to 99, where RangeContainsIffSupported shows that it fails.
- Savings.LifetimeIsSumOfMonths: supposes that the server's zone is the database's, Africa/Lagos, and excludes the years 0 to 99.
- Savings.LifetimeError: the sums are exact, so the last toFixed changes nothing; floating-point addition is not modelled.
- QuietHours.WindowMovesWithOffset: times and offsets are digits with a colon; what JavaScript's Number makes of signs, spaces, points, exponents or hexadecimal in them is not modelled.
- AlertDetection.ConsecutiveAlerts: gives every alert its own creation time, since the order of equal times in the database is not fixed.
- Diagnostics.AdapterReadsBack: readings are below 10^21 in magnitude, past which toFixed prints an exponent; NaN and infinities are not modelled.
- Poller.MetricsPollerService.PollFailed: the database write of markOffline and the offline alert are left out.
- TokenStream.InvokeWithHistoryStream: exceptions of the token callback, and the history text given to the agent, are left out.
- Daylight saving, offsets that change, and the limits of JavaScript dates.
- The fuel consumption table, fuel prices and emission factors are parameters; generator hours avoided and averages of averages are left out.
- Solar and load alerts: thresholds on one ratio, an easy member beside the depletion estimate.
- Alert reports and their other windows, report deletion by users, and the contents of reports, PDFs, emails and messages.
- Controllers, validation, configuration, Redis channels, cryptography and foreign services.
