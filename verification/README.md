# Swarm control plane: verified model

A Dafny model of the parts of the swarm runtime whose correctness spans many calls:

- the **lease protocol** over missions, tasks, worker registrations, attempts, leases, results and the
  transactional outbox, with graph commits and worker registration as interfering steps
  (`LeaseRows`, `LeaseProtocol`, `LeaseInvariant`, `LeaseSteps`, `LeaseHistory`, `LeaseRuns`, `LeaseLaws`,
  `LeaseAcceptance`, `LeaseTheorems`, `LeaseOutbox`, `LeaseRevocation`, `LeaseCancellation`, `LeaseRequeue`,
  `LeaseReturn`, `LeaseProgress`, `LeaseService`);
- the **quota ledger** and the **broker's ticket machine** on top of it (`Ledger`, `LedgerAmounts`,
  `LedgerService`, `LedgerTheorems`, `LedgerLaws`, `Broker`, `BrokerTheorems`, `BrokerReservations`, `BrokerLaws`);
- **task-graph validation** with its depth-first cycle search, and the **mission controller**
  (`TaskGraph`, `MissionControl`, `ControlTheorems`, `ControlLaws`);
- **qualification statistics**: the Wilson bound and the profile store (`Wilson`, `Profiles`, `ProfileLaws`);
- the **event log** with deduplication and cursor paging (`Events`, `EventPaging`).

`Common` and `Ordering` hold shared vocabulary: the text order, decimal rendering, least elements and
sorted enumerations.

## How it is built

Each stateful component has a specification, a total function from one state to the next, and a class
whose methods update fields row by row, with the loops of the source. Every method is proved to make
exactly the step of its specification (`ensures Snapshot() == Step(old(Snapshot()))`). The theorems are
about the specification and speak of whole runs: sequences of states linked by arbitrary steps with
arbitrary arguments. The modules named `Laws` say, in terms of rows and fields alone, exactly when a call goes
through and what it writes. Clocks, generated ids, rows skipped because another transaction holds them, adapter
outcomes and the square root are arguments.

A run of the lease protocol starts from a database where nothing is leased and no task is ahead of its
mission. Any step may follow any other. `LeaseProtocol.Admissible` is all that is assumed of the
environment: an expiry scan answers its query; a graph proposal names only tasks of its own mission; no
outside writer changes the status of a cancelled mission. Worker generations are not assumed to grow, and a
failing acceptance may keep its rejection mark or be rolled back. Exactly-once acceptance assumes less: commits
may name any task, as long as they reopen no accepted revision (`LeaseAcceptance`).

## What turned out not to hold

- A graph commit does not check that the tasks it overwrites belong to its mission, so it can reopen an accepted
  revision, which is then accepted a second time (`LeaseProgress.StrayProposalAcceptsTwice`).
  `LeaseAcceptance.CommitSettledIff` says exactly which commits reopen nothing, and
  `LeaseAcceptance.AcceptedOnceUnlessReopened` rests one acceptance per revision on that alone.
- The acceptance fence never compares the task with the mission's revision. A result whose mission has moved on
  without naming its task is accepted exactly when the mission has an explicit source
  (`LeaseProgress.OvertakenResultIff`), although its lease can no longer be renewed.
- A revocation that notifies the workers puts their tasks back to ready, but a task whose row carries a cancellation
  generation of its own can never be claimed again at that revision (`LeaseReturn.RevokedTaskIsReclaimableIff`).
- A fixed window that is looked at more than a period late is over again at once, so what a reservation has just taken
  is forgotten by the next look at the bucket (`LedgerLaws.RollsAgainIff`).
- A ticket invoked after its deadline is refused exactly while it is in the phase it was issued in: once a receipt for
  its call is reconciled it is sent however late (`BrokerLaws.InvokedLateIff`, `BrokerLaws.ReconciledIsSentLate`).
- `invoke` sends a ticket again when the adapter's exception escapes every handler, which its own
  ambiguous-send error does (`BrokerTheorems.ResendIff` gives the exact condition).
- The ledger and the broker's tickets part company on four routes, and `BrokerReservations.StepInStepIff` gives
  the exact condition for every step: expiring an unsent ticket twice; invoking an overdue unsent ticket twice;
  reconciling a second receipt under another key; and invoking a ticket that was expired before its deadline, which
  is still sent, with no reservation behind it (`BrokerReservations.ExpiredTicketIsStillSent`).
- Settling one grant twice can drain the planning reserve (`LedgerTheorems.DoubleSettlementDrainsFloor`,
  `LedgerTheorems.SettleKeepsFloorIff`).
- Registering a mission again with a smaller node limit than its graph is the one way to exceed the limit
  (`ControlTheorems.StepKeepsBoundIff`).
- Two settings share a profile key when a part contains the separator, and only then (`ProfileLaws.KeyIsItsOwnIff`).
- Two events that share an id make a repeated append return the wrong event (`Events.RepeatReturnsOriginalIff`).
  They also send a reader back, and so does an event with the empty id (`EventPaging.SharedIdGoesAstray`,
  `EventPaging.EmptyIdGoesAstray`). `EventPaging.FollowingCursorsIsFilteringIff` says exactly when following cursors
  agrees with filtering. A limit below one acts as one.

## Model

| member | source | states |
|---|---|---|
| LeaseService.LeaseLifecycleService.ClaimEligibleAttempt | src/swarm/db/lease_fencing.py:653-706 | the keyset-paged scan ends for every page size and every set of skipped rows, and has exactly the outcome of the unpaged claim |
| LeaseService.LeaseLifecycleService.LockReadyCandidates | src/swarm/db/lease_fencing.py:811-834 | a page is the first rows, in (priority, age, id) order, of the visible ready tasks of the project beyond the cursor |
| LeaseRequeue.ClaimTakesLeastEligible | src/swarm/db/lease_fencing.py:653-706 | a claim is idle and changes nothing exactly when no visible task is claimable; otherwise it leases the least one in (priority, age, id) order |
| LeaseLaws.ClaimRefusedIff | src/swarm/db/lease_fencing.py:797-809 | a claim is refused exactly to a worker that is unknown, revoked, not online or of another token, or that has no project, and then changes nothing |
| LeaseLaws.ClaimIff | src/swarm/db/lease_fencing.py:653-706 | any other worker finds nothing exactly when no visible ready task of its project has all its dependencies accepted or completed at the same revision, no lease in flight, a workable mission with current stamps, and only capabilities and privacy the worker has; otherwise it gets the first such task by priority, age and id |
| LeaseService.LeaseLifecycleService.BindClaimRows | src/swarm/db/lease_fencing.py:1042-1123 | attempt, lease, task status and outbox row are written as the claim step says, expiry capped by the renewable horizon |
| LeaseRequeue.ClaimStampsLease | src/swarm/db/lease_fencing.py:1042-1123 | a successful claim took a claimable task and stamped the lease with that task's revision |
| LeaseLaws.ClaimWrites | src/swarm/db/lease_fencing.py:1042-1123 | the whole new state after a claim: every stamp on lease and attempt, the expiry at the time asked or the horizon, the task leased, one outbox row |
| LeaseService.LeaseLifecycleService.RenewLease | src/swarm/db/lease_fencing.py:708-745 | renewal makes the renewal step, with the same first failing check in every refusal |
| LeaseRevocation.OnlyRenewExtends | src/swarm/db/lease_fencing.py:708-745 | only a successful renewal of that very lease moves its expiry or marks it renewed |
| LeaseLaws.RenewIff | src/swarm/db/lease_fencing.py:708-745 | a renewal goes through exactly when worker, generation, lease, task and mission are all current and the lease is unexpired and short of its horizon; it then reaches the time asked or the horizon and never moves back |
| LeaseTheorems.ExpiryIsBounded | src/swarm/db/lease_fencing.py:910-932 | over any run a lease's expiry never decreases and never passes issue time plus horizon |
| LeaseTheorems.AcceptanceBeforeHorizon | src/swarm/db/lease_fencing.py:1429-1498 | every acceptance happens strictly before the horizon of its lease |
| LeaseService.LeaseLifecycleService.SelectDue | src/swarm/db/lease_fencing.py:747-786 | the batch holds the earliest due, unhidden live leases, each once, up to the limit |
| LeaseService.LeaseLifecycleService.ExpireRow | src/swarm/db/lease_fencing.py:774-784 | one due lease, its attempt and its task change as the expiry step says |
| LeaseService.LeaseLifecycleService.ExpireLeases | src/swarm/db/lease_fencing.py:747-786 | the loop expires exactly the selected batch |
| LeaseReturn.ScanEndsIff | src/swarm/db/lease_fencing.py:747-786 | a scan ends only leases in flight past their expiry, of the project asked for; all of them when they are fewer than its limit, and otherwise the earliest |
| LeaseRequeue.ExpiryRequeues | src/swarm/db/lease_fencing.py:934-991 | a leased task that a scan puts back to ready was leased at its current revision, and its authority is current, it has no live lease and its dependencies are done |
| LeaseRequeue.ExpiredTaskIsReclaimable | src/swarm/db/lease_fencing.py:934-1008 | after expiry puts a claimed task back to ready, every worker of the project at least as capable as the one that lost it can claim it at once |
| LeaseReturn.ExpiryStatusIff | src/swarm/db/lease_fencing.py:747-786 | for every lease of a scan: lease and attempt expire, and a leased task ends cancelled exactly when its mission is not workable, ready exactly when revision, source and cancellation generation of mission, task and lease agree, superseded otherwise |
| LeaseReturn.UndisturbedTaskIsReclaimable | src/swarm/db/lease_fencing.py:934-1008 | over any run, a claimed task whose mission is not touched before the expiry is ready after it, and every worker of the project at least as capable may claim it |
| LeaseService.LeaseLifecycleService.SubmitResult | src/swarm/db/lease_fencing.py:1125-1197 | submission makes the submission step: the result copies the lease's stamps and is announced |
| LeaseLaws.SubmitIff | src/swarm/db/lease_fencing.py:1125-1197 | a submission goes through exactly for a known, unrevoked, unquarantined worker that owns the lease under that token, project and generation, however late; the new state in full |
| LeaseService.LeaseLifecycleService.AcceptResult | src/swarm/db/lease_fencing.py:1199-1282 | acceptance makes the acceptance step: idempotent when accepted, refused when disposed, marked rejected when the fence fails |
| LeaseLaws.AcceptIff | src/swarm/db/lease_fencing.py:1429-1523 | a submitted result is accepted exactly when its lease is in flight and in time, its worker present, unrevoked and of the same generation and project, task and mission at the stamps of the lease, the review favourable and every reservation reconciled; a refusal leaves at most its mark |
| LeaseLaws.AcceptWrites | src/swarm/db/lease_fencing.py:1238-1282 | acceptance ends result, attempt, lease and task together and announces it once |
| LeaseService.LeaseLifecycleService.MarkRejected | src/swarm/db/lease_fencing.py:1526-1532 | the rejection mark is written, or not when the caller rolls back |
| LeaseTheorems.OnlyAcceptAccepts | src/swarm/db/lease_fencing.py:1429-1498 | a result becomes accepted only by its own acceptance call with the whole fence passed |
| LeaseAcceptance.CommitSettledIff | src/swarm/db/repositories.py:61-112 | a commit keeps every acceptance settled exactly when no accepted result of a named task is at or above the new revision, unless its last spec leaves the task accepted with nothing in flight |
| LeaseAcceptance.HomeReopensNothing | src/swarm/db/repositories.py:61-112 | a proposal that stays in its own mission reopens no accepted revision |
| LeaseAcceptance.AcceptedOnceUnlessReopened | src/swarm/db/lease_fencing.py:1199-1282 | over every run at all whose commits reopen nothing, each (task, graph revision) and each attempt has at most one accepted result |
| LeaseTheorems.AcceptedAtMostOnce | src/swarm/db/lease_fencing.py:1199-1282 | hence the same over every run whose proposals stay in their own mission |
| LeaseTheorems.DispositionIsFinal | src/swarm/db/lease_fencing.py:1199-1282 | an accepted or rejected result never changes again, and accepting an accepted one changes nothing |
| LeaseTheorems.NeverTwoLiveLeases | src/swarm/db/lease_fencing.py:1031-1040 | no task ever has two live leases, although graph commits rewrite task status under them |
| LeaseTheorems.AttemptsPairWithLeases | src/swarm/db/lease_fencing.py:1042-1123 | attempts and leases correspond one to one with equal stamps, and a lease is live exactly while its attempt is leased |
| LeaseService.LeaseLifecycleService.CancelActiveLease | src/swarm/db/lease_fencing.py:1370-1406 | cancelling a live lease makes the cancellation step on lease, attempt, task and outbox |
| LeaseLaws.CancelLeaseWrites | src/swarm/db/lease_fencing.py:1370-1406 | exactly a lease in flight is cancelled; its attempt ends and a task leased under it is cancelled for the reason "cancelled" and ready again for any other |
| LeaseService.LeaseLifecycleService.NotifyLeases | src/swarm/db/lease_fencing.py:1325-1331 | the loop cancels exactly the given live leases, in order |
| LeaseService.LeaseLifecycleService.RevokeMissionWork | src/swarm/db/lease_fencing.py:1284-1338 | revocation bumps the generation and, when notifying, cancels the mission's live leases in id order |
| LeaseRevocation.RevokedWorkNeverReturns | src/swarm/db/lease_fencing.py:1284-1338 | after a revocation, in every continuation, no lease of the mission that existed then is renewed and no result under it is newly accepted |
| LeaseRevocation.RevokedLeaseRefusesRenewal | src/swarm/db/lease_fencing.py:862-907 | every later renewal of such a lease is refused |
| LeaseRevocation.FencedRunIsBarren | src/swarm/db/lease_fencing.py:1485-1486 | a lease behind its mission's cancellation generation stays behind for good, with nothing extended or accepted |
| LeaseReturn.RevokedTaskIsReclaimableIff | src/swarm/db/lease_fencing.py:1284-1338 | after a notifying revocation a task under a current lease may be claimed again exactly when its row carries no cancellation generation |
| LeaseService.LeaseLifecycleService.CancelMissionWork | src/swarm/db/lease_fencing.py:1340-1368 | mission cancellation is a notifying revocation and then the cancelled status, and reports the leases it notified |
| LeaseCancellation.CancelMissionCloses | src/swarm/db/lease_fencing.py:1340-1406 | cancelling a mission ends all its live leases, and each task leased under one ends cancelled |
| LeaseCancellation.CancelledMissionStaysQuiet | src/swarm/db/lease_fencing.py:836-860 | in every continuation the mission never again has a live lease and no step accepts a result of it |
| LeaseCancellation.OnlyClaimOpens | src/swarm/db/lease_fencing.py:836-860 | a new live lease arises only on a runnable mission |
| LeaseOutbox.OutboxNeverRepeats | src/swarm/db/lease_fencing.py:1095-1110 | no two outbox rows ever share a stable workflow id, no lease is announced as cancelled twice even in different seconds, and rows are only appended |
| LeaseOutbox.OutboxTellsAll | src/swarm/db/lease_fencing.py:1179-1195 | claims, submissions, acceptances and lease cancellations correspond one to one with their rows |
| LeaseOutbox.BumpsAreAnnounced | src/swarm/db/lease_fencing.py:1307-1323 | from any point of a run on, exactly the cancellation generations that a mission gains are announced |
| LeaseOutbox.InsertedMissionBumps | src/swarm/db/lease_fencing.py:1307-1323 | for a mission inserted during the run: every generation above the inserted one, and no other |
| LeaseRows.WorkflowTextInjective | src/swarm/db/lease_fencing.py:1307-1323 | different outbox entries render to different unique-constrained texts, whatever colons the ids hold |
| LeaseTheorems.RevokedWorkerIsPowerless | src/swarm/db/lease_fencing.py:1408-1427 | after a worker is revoked, and however it is registered again, it never claims, renews or submits and no pending result of it is accepted |
| LeaseSteps.WorkerStepTouchesOneRow | src/swarm/db/lease_fencing.py:101-343 | registration, rotation, revocation, drain, heartbeat and capability changes touch one worker row and never clear a revocation |
| LeaseLaws.WorkerCallIff | src/swarm/db/lease_fencing.py:101-343 | which registration calls go through: known token, matching generation, no quarantine, and only fewer capabilities |
| LeaseLaws.RegistrationWrites | src/swarm/db/lease_fencing.py:101-182 | a registration writes the whole row, with privacy "local" if none is named, and keeps an earlier revocation |
| LeaseLaws.HeartbeatMoves | src/swarm/db/lease_fencing.py:249-301 | a heartbeat moves a worker exactly one step around online, draining, offline, and only to the status it reports |
| LeaseLaws.WorkerCallsNarrow | src/swarm/db/lease_fencing.py:191-343 | no call but a registration widens capabilities or privacy or moves a worker to another project |
| LeaseLaws.WorkerCallsRestrain | src/swarm/db/lease_fencing.py:220-301 | nor lifts a quarantine, and only the worker itself comes back online, after an absence |
| LeaseLaws.WorkerCallsFence | src/swarm/db/lease_fencing.py:191-233 | the generation rises, by one, exactly when the token is replaced or withdrawn |
| LeaseSteps.StepKeepsInv | src/swarm/db/lease_fencing.py:627-1532 | every admissible step keeps the whole protocol invariant |
| LeaseHistory.StepIsLater | src/swarm/db/lease_fencing.py:627-1532 | every step fixes identities and stamps, only raises revisions, generations and expiries, and keeps ended things ended |
| LeaseProgress.UninterruptedWorkIsAccepted | src/swarm/db/lease_fencing.py:1199-1282 | a claim, a passing submission and a review in time, uninterrupted, end in acceptance at the claimed revision with the lease closed |
| LeaseProgress.StrayProposalAcceptsTwice | src/swarm/db/repositories.py:86-112 | a concrete proposal of another mission that names the task makes one task revision accepted twice |
| LeaseProgress.OvertakenResultIff | src/swarm/db/lease_fencing.py:1429-1498 | after a commit of the mission that does not name the task, a submitted result is accepted exactly when the mission has an explicit source, and otherwise refused as stale |
| LeaseProgress.OvertakenLeaseIsStale | src/swarm/db/lease_fencing.py:862-907 | in both cases the lease can no longer be renewed |
| LeaseService.MissionRepository.CommitGraphRevision | src/swarm/db/repositories.py:61-84 | the commit checks the base revision, bumps it and writes every spec at the new one |
| LeaseLaws.CommitIff | src/swarm/db/repositories.py:61-84 | a commit is carried out exactly when it is based on the mission's revision, which becomes the next one; no other row but tasks changes |
| LeaseTheorems.OneCommitPerBase | src/swarm/db/repositories.py:61-84 | over any run, once a commit based on a revision is carried out every other one of the mission based on it is refused as a conflict |
| LeaseService.MissionRepository.UpsertTaskRow | src/swarm/db/repositories.py:86-112 | a new row is inserted; an existing one keeps its project, mission and age and has the rest overwritten |
| LeaseLaws.CommitContent | src/swarm/db/repositories.py:86-112 | the last spec of a task decides its content, at the new revision and with its old stamps cleared |
| LeaseLaws.CommitOrigin | src/swarm/db/repositories.py:86-112 | project, mission and age are those of the row there was, or of the first spec and the time of the commit |
| LeaseLaws.CommitSpares | src/swarm/db/repositories.py:61-84 | a task that no spec names stays as it was |
| LedgerAmounts.MergeByBucket | src/swarm/broker/ledger.py:177-190 | the merged map has exactly the named buckets, each with the sum of its amounts |
| LedgerAmounts.MergeAmounts | src/swarm/broker/ledger.py:177-190 | the merged amounts come out one per bucket in strictly increasing id order |
| LedgerService.QuotaLedger.EstimateAmounts | src/swarm/broker/ledger.py:101-163 | the loop computes one amount per distinct known bucket in first-named order, plus the benchmark bucket |
| LedgerTheorems.EstimateIsSane | src/swarm/broker/ledger.py:101-163 | an estimate names each known bucket of the route exactly once and asks at least one unit, or the configured amount if less |
| LedgerLaws.EstimateAsksRight | src/swarm/broker/ledger.py:101-163 | each amount is in the bucket's own dimension and asks what that dimension counts: requests, tokens with margin, or one |
| LedgerLaws.EstimateCovers | src/swarm/broker/ledger.py:101-163 | so token usage within the request's own counts is never cut off by what was reserved |
| LedgerService.QuotaLedger.ReserveAmounts | src/swarm/broker/ledger.py:165-256 | the preflight, admission and hold loops make the reservation step, with the same first fault |
| LedgerService.QuotaLedger.AdmitInOrder | src/swarm/broker/ledger.py:213-246 | buckets are rolled over and checked in order up to the first fault |
| Ledger.GrantedMeans | src/swarm/broker/ledger.py:165-256 | granted exactly when every named bucket exists and admits its whole sum; then each holds exactly that sum more and no lock is needed twice |
| LedgerLaws.GrantedIff | src/swarm/broker/ledger.py:165-256 | a request is granted exactly when it names something and each bucket has the whole sum free, beyond the planning floor for mission work, or is of unknown quota and asked by a probe on a route verified to be free |
| LedgerLaws.DenialNamesFirst | src/swarm/broker/ledger.py:192-246 | a denial names the first missing bucket in id order, and if none is missing the first that may not give, with the exact reason |
| Ledger.DeniedOnlyRolls | src/swarm/broker/ledger.py:213-256 | a denied request changes nothing but windows that were due |
| LedgerLaws.RolloverRestores | src/swarm/broker/ledger.py:75-99 | a window that is over restores the limit, forgets what was held and ends again one period, a day or an hour later; any other window stays |
| LedgerLaws.RollsAgainIff | src/swarm/broker/ledger.py:75-99 | exactly when an amount taken after a rollover is still held at a second look at the same time |
| LedgerService.QuotaLedger.ReleaseAmounts | src/swarm/broker/ledger.py:258-277 | the loop takes every amount off its bucket, clamped at zero, skipping unknown buckets |
| LedgerService.QuotaLedger.SettleAmounts | src/swarm/broker/ledger.py:279-319 | a key settles once; the loop charges the observed usage up to the reserved amount and frees the rest |
| LedgerLaws.SettleTakesCost | src/swarm/broker/ledger.py:301-316 | settling a held amount moves the reported usage from remaining to settled, at most the amount and at least nothing, and the whole amount when the dimension is not reported |
| LedgerLaws.SettledIsCost | src/swarm/broker/ledger.py:279-319 | over any run of the ledger, what a bucket has settled is the sum of those figures over its settlements |
| LedgerService.QuotaLedger.FindBottleneck | src/swarm/broker/ledger.py:321-353 | the first bucket that is missing or unknown, or else the first amount with the least slack below two; windows roll over up to there |
| LedgerLaws.InspectRollsIff | src/swarm/broker/ledger.py:321-353 | the search rolls a bucket's window over, if due, exactly when every amount before it has a known bucket and quota |
| LedgerLaws.InspectSpares | src/swarm/broker/ledger.py:321-353 | and leaves buckets it was not asked about alone |
| LedgerTheorems.RunsStaySolvent | src/swarm/broker/ledger.py:68-319 | every run of non-negative amounts, with rollovers and stale or repeated releases and settlements, keeps reserved between zero and remaining, and at zero for unknown quotas |
| LedgerTheorems.RunsConserve | src/swarm/broker/ledger.py:165-319 | with each grant returned at most once, and requests only before the end of its window, a known bucket keeps remaining plus settled constant and reserved equal to the open grants |
| LedgerTheorems.ReleaseBalances | src/swarm/broker/ledger.py:270-274 | releasing what is held takes exactly that off: the clamp has no effect |
| LedgerTheorems.SettleBalances | src/swarm/broker/ledger.py:301-315 | settling what is held moves exactly its charge from remaining to settled: neither clamp has an effect |
| LedgerTheorems.ChargesWithinQuota | src/swarm/broker/ledger.py:301-316 | the total charge of such a run never exceeds the initial quota |
| LedgerTheorems.SettleConservesIff | src/swarm/broker/ledger.py:305-313 | a settlement keeps remaining plus settled exactly when its charge is still there |
| LedgerTheorems.RunsKeepFloor | src/swarm/broker/ledger.py:237-253 | mission work with disciplined returns never takes the control bucket below the planning floor within its window |
| LedgerTheorems.PlanningAlwaysAdmitted | src/swarm/broker/ledger.py:237-253 | so a planning, review or control request of up to the floor is granted at every point of the run |
| LedgerTheorems.SettleKeepsFloorIff | src/swarm/broker/ledger.py:301-316 | exactly when a settlement keeps the bucket at or above the floor |
| LedgerTheorems.DoubleSettlementDrainsFloor | src/swarm/broker/ledger.py:279-319 | a concrete grant whose two settlements under different keys empty the planning reserve |
| Broker.SharedInferenceBroker.ReserveTicket | src/swarm/broker/broker.py:145-210 | estimate, reservation, ticket and bottleneck search make the issuing step |
| BrokerLaws.IssuedIff | src/swarm/broker/broker.py:145-210 | a ticket is issued exactly when the policy allows it and every bucket of its estimate may give the sum; otherwise no ticket, and by policy no change at all |
| Broker.SharedInferenceBroker.InvokeTicket | src/swarm/broker/broker.py:212-229 | retained receipt, expiry of unsent tickets, or send and record |
| BrokerLaws.UntilInvoked | src/swarm/broker/broker.py:145-229 | over any run, until its first invoke a ticket stays unsent, without receipt, and keeps call, amounts and the deadline of its issue time plus the time to live |
| BrokerLaws.InvokedInTime | src/swarm/broker/broker.py:212-229 | a first invoke by the deadline sends it, whatever happened in between |
| BrokerLaws.InvokedLateIff | src/swarm/broker/broker.py:220-224 | a first invoke after the deadline is refused, sends nothing and gives every amount back, exactly while the ticket is in its first phase |
| BrokerLaws.DeadlineIff | src/swarm/broker/broker.py:220-224 | so without a receipt for its call the first invoke is refused exactly after the deadline |
| BrokerLaws.ReconciledIsSentLate | src/swarm/broker/broker.py:212-229 | from every sound state, reconciling a receipt for the call first makes even a late invoke send |
| Broker.SharedInferenceBroker.HandleOutcome | src/swarm/broker/broker.py:231-281 | partial, unknown, successful, raised and escaped outcomes move the ticket as the delivery step says |
| BrokerLaws.UnansweredSend | src/swarm/broker/broker.py:231-278 | an escaped, raised, partial or unknown outcome leaves the ledger as it was and the ticket open or unresolved, with the receipt to match |
| BrokerLaws.AnsweredSend | src/swarm/broker/broker.py:244-281 | a conclusive answer under a new key settles the ticket's amounts at the reported usage and commits it; under a used key the amounts are given back and the ticket released |
| Broker.SharedInferenceBroker.FindCall | src/swarm/broker/broker.py:288-292 | the loop finds the first ticket of the logical call |
| Broker.SharedInferenceBroker.ReconcileReceipt | src/swarm/broker/broker.py:283-324 | one settlement per key; the ticket of the call is settled and committed |
| BrokerLaws.ReconcileSettles | src/swarm/broker/broker.py:283-324 | a receipt is turned away exactly when its key was settled; otherwise exactly the ticket of its call is settled and committed |
| BrokerLaws.SettledOnce | src/swarm/broker/broker.py:283-287 | over any run, after a reconciliation every later receipt with that idempotency key, or without one for that call and network attempt, is turned away |
| Broker.SharedInferenceBroker.ExpireTicket | src/swarm/broker/broker.py:370-375 | an unsent ticket's amounts are released and it is marked expired |
| BrokerLaws.ExpiryIff | src/swarm/broker/broker.py:370-375 | over any run, a ticket once sent is never touched by expiry, and one unsent has every amount given back |
| BrokerTheorems.SentAtMostOnce | src/swarm/broker/broker.py:212-281 | in every run whose outcomes are all handled, each ticket reaches the adapter at most once, and the counter counts exactly those sends |
| BrokerTheorems.ResendIff | src/swarm/broker/broker.py:255-278 | after a send the next invoke sends again exactly when the outcome escaped every handler; otherwise it returns the receipt and changes nothing |
| BrokerTheorems.ReceiptIsRetained | src/swarm/broker/broker.py:216-218 | over any run a receipt stays, and every later invoke returns it and changes nothing |
| BrokerTheorems.UnresolvedUntilReconciled | src/swarm/broker/broker.py:236-278 | a ticket of unknown outcome stays as it is until a receipt for its logical call is reconciled |
| BrokerReservations.UnresolvedKeepsReservation | src/swarm/broker/broker.py:260-278 | while every step is harmless the ledger keeps its reservation until then |
| BrokerReservations.StepInStepIff | src/swarm/broker/broker.py:145-375 | for every step, the exact condition under which a bucket within its window goes on holding just what the open and unresolved tickets hold, with remaining plus settled constant |
| BrokerReservations.RunsStayInStep | src/swarm/broker/broker.py:145-375 | so it does over every run of such steps |
| BrokerReservations.FirstHarmParts | src/swarm/broker/broker.py:145-375 | and the first step of a run outside the condition is where ledger and tickets part |
| BrokerReservations.OrderlyIsHarmless | src/swarm/broker/broker.py:212-375 | expiring, sending and settling only tickets that still hold their amounts is enough |
| BrokerReservations.StrayExpiryIff | src/swarm/broker/broker.py:370-375 | expiring a ticket that holds nothing keeps that exactly when it asked nothing of the bucket or nothing is held |
| BrokerReservations.StrayInvokeIff | src/swarm/broker/broker.py:220-281 | the exact condition for invoking a ticket whose reservation is gone, overdue or still sent, outcome by outcome |
| BrokerReservations.ExpiredTicketIsStillSent | src/swarm/broker/broker.py:212-229 | from every state in step, a ticket expired before its deadline is sent all the same, and an exception then leaves it holding what the ledger gave back |
| BrokerReservations.RepeatedExpiryExample | src/swarm/broker/broker.py:370-375 | two tickets for which expiring the first twice gives away what the second holds |
| BrokerReservations.StrayReceiptIff | src/swarm/broker/broker.py:283-317 | the exact condition under which a second receipt with another key does no harm to a bucket |
| TaskGraph.CycleSearch.Dfs | src/swarm/controller/graph.py:26-37 | the recursive visit ends, reports only real cycles and otherwise leaves the node visited and the path restored |
| TaskGraph.FindCycle | src/swarm/controller/graph.py:18-39 | true exactly when the graph has a directed cycle, self-loops included, unknown ids being leaves |
| MissionControl.WouldCycle | src/swarm/controller/graph.py:18-39 | true exactly when the merged dependency graph has a cycle |
| MissionControl.CheckScopes | src/swarm/controller/graph.py:42-100 | the first scope fault, spec by spec |
| MissionControl.ValidateSpawn | src/swarm/controller/graph.py:42-100 | duplicate, node limit and cycle tests on the projected graph; a duplicate names the task it merges into |
| MissionControl.ValidateProposal | src/swarm/controller/graph.py:42-100 | the verdict of every operation, with the cycle test read as "the merged graph has a cycle" |
| ControlLaws.TakenIff | src/swarm/controller/graph.py:42-100 | a proposal is taken exactly when it is based on the current revision and, unless it stops the mission, meets the scopes of mission and dependencies, spawns nothing a live task already pursues, fits the node limit and leaves no cycle |
| ControlLaws.MergedIff | src/swarm/controller/graph.py:72-86 | it is merged instead of refused exactly when it is current, in scope and spawns something already pursued |
| MissionControl.MissionController.SubmitMission | src/swarm/controller/mission.py:33-37 | the mission is planning, and keeps tasks it already had |
| ControlLaws.RegistrationWrites | src/swarm/controller/mission.py:33-37 | the charter is set, planning, and no mission loses a task |
| MissionControl.MissionController.CommitValidatedRevision | src/swarm/controller/mission.py:43-85 | the new state and the outcome of every verdict |
| ControlLaws.RefusedChangesNothing | src/swarm/controller/mission.py:43-65 | a proposal not taken changes no mission and no task |
| ControlLaws.TakenWrites | src/swarm/controller/mission.py:67-85 | a taken one raises the revision by one and sets the mission running, or cancels it, and touches no other mission |
| ControlLaws.SpawnWrites | src/swarm/controller/mission.py:67-70 | a taken spawn writes the last spec under each id as a ready task and keeps every other task |
| ControlLaws.RevisionCounts | src/swarm/controller/mission.py:43-85 | over any run, between registrations the revision counts the proposals taken |
| ControlLaws.OneTakenPerRevision | src/swarm/controller/mission.py:43-85 | over any run, once a proposal based on a revision is taken every other one based on it is refused as stale and changes nothing |
| MissionControl.ResolveReady | src/swarm/controller/mission.py:90-115 | whatever the visiting order, the list holds exactly the waiting tasks whose dependencies are met, each once and ready |
| MissionControl.MissionController.ChooseReadyWork | src/swarm/controller/mission.py:87-115 | exactly those tasks are promoted and offered; an unknown mission is an error |
| ControlLaws.ChoosingWrites | src/swarm/controller/mission.py:87-115 | exactly the proposed tasks whose dependencies are all accepted or verifying become ready, and choosing again changes nothing |
| MissionControl.MissionController.RecordVerification | src/swarm/controller/mission.py:127-140 | the receipt is filed; a known attempt gets it, and the loop over the missions accepts its task wherever it occurs; an unknown attempt changes nothing else |
| ControlTheorems.VerificationUnlocks | src/swarm/controller/mission.py:127-140 | verifying a task withdraws it, keeps every other choosable task choosable, and makes a waiting one choosable exactly when it waited for nothing else |
| ControlTheorems.RunsStaySound | src/swarm/controller/mission.py:43-85 | every mission's task graph is acyclic at every point of every run |
| ControlTheorems.StepKeepsBoundIff | src/swarm/controller/graph.py:42-100 | a step keeps every graph within its node limit exactly when it does not register a mission with less room than its graph needs |
| ControlTheorems.RunsStayBounded | src/swarm/controller/graph.py:42-100 | so runs stay within the limits |
| ControlTheorems.NoDeadlock | src/swarm/controller/mission.py:87-115 | in an acyclic graph with all dependencies present and nothing stuck, some waiting task can be chosen |
| ControlTheorems.RunsNeverDeadlock | src/swarm/controller/mission.py:43-115 | hence in every reachable state of such a mission the ready list is not empty |
| Wilson.BoundIsStrictIff | src/swarm/evals/wilson.py:14-19 | positive exactly when something succeeded, and strictly below the observed proportion exactly when, besides, z is positive |
| Wilson.BoundInRange | src/swarm/evals/wilson.py:8-19 | the bound lies between zero and the observed proportion |
| Wilson.BoundIsMonotone | src/swarm/evals/wilson.py:8-19 | more successes never lower the bound |
| Wilson.BoundSolvesScore | src/swarm/evals/wilson.py:14-19 | the bound solves the score equation n(p-x)^2 = z^2 x(1-x) |
| Wilson.BoundIsLeastScoreRoot | src/swarm/evals/wilson.py:14-19 | and is its least solution |
| Wilson.MeetsThresholdIff | src/swarm/evals/wilson.py:8-19 | the bound meets a threshold exactly when that is below one and the observed proportion exceeds it by z standard errors of the threshold, a test without a square root |
| Profiles.ProfileStore.RecordResult | src/swarm/evals/profiles.py:65-139 | a live result gives the key the standing its whole history earns; a simulated one enters no table |
| Profiles.ProfileStore.Tally | src/swarm/evals/profiles.py:104-113 | distinct cases, repeats, passes and violations are counted as the tally step says |
| Profiles.TallyIsRight | src/swarm/evals/profiles.py:104-113 | the counters stay what the recorded history amounts to, so distinct plus repeated is the number of results under the key |
| ProfileLaws.CasesMean | src/swarm/evals/profiles.py:104-113 | the cases and passes counted are those of some record under the key |
| ProfileLaws.FingerprintIsLatest | src/swarm/evals/profiles.py:115-137 | the fingerprint kept is that of the latest record under the key |
| ProfileLaws.KeyIsItsOwnIff | src/swarm/evals/profiles.py:40-63 | a key belongs to one setting alone exactly when no part of it contains the separator |
| Profiles.ProfileStore.Assess | src/swarm/evals/profiles.py:115-137 | the profile computed from the counters is the one the history earns; the range error is unreachable |
| Profiles.SampleIsPossible | src/swarm/evals/profiles.py:104-118 | in every history passes are among the distinct cases, and those are no more than the results |
| Profiles.QualifiedIsEarned | src/swarm/evals/profiles.py:141-166 | a qualified standing has no violation and an observed pass rate of at least its threshold over enough distinct cases |
| ProfileLaws.StandingIff | src/swarm/evals/profiles.py:115-166 | quarantined exactly on a recorded violation, unassessed exactly below the least number of cases, qualified exactly when allowed and one tier's cases and threshold are met at 1.96 standard errors, provisional otherwise |
| ProfileLaws.CleanSweepIff | src/swarm/evals/profiles.py:141-166 | a route that passes every case meets a tier exactly when n(1-x) is at least 1.96^2 x |
| Profiles.ProfileStore.StoredQualifiedIsEarned | src/swarm/evals/profiles.py:115-139 | at any time the same holds of every profile stored as qualified, over all results recorded so far |
| Profiles.PassingMoreKeepsQualified | src/swarm/evals/profiles.py:141-166 | over equally many cases, passing more of them never costs a qualification |
| Profiles.QuarantineIsForGood | src/swarm/evals/profiles.py:144-145 | after a violation every later standing of the key is quarantine |
| Profiles.ProfileStore.MarkAliasStale | src/swarm/evals/profiles.py:168-175 | exactly the profiles of the fingerprint become stale, and their keys come back in insertion order |
| ProfileLaws.StaleIff | src/swarm/evals/profiles.py:168-175 | a profile is stale afterwards exactly when it was before or is of the fingerprint; nothing else changes |
| ProfileLaws.AliasKeysMean | src/swarm/evals/profiles.py:168-175 | the keys returned are exactly those of the fingerprint, in the order of the store |
| Events.EventLog.Append | src/swarm/api/events.py:19-30 | a known dedupe key changes nothing; otherwise the event is appended and indexed; both indexes stay in agreement with the log |
| Events.AppendKeepsConsistent | src/swarm/api/events.py:19-30 | every append keeps at most one event per dedupe key and both indexes equal to what the log says |
| Events.AppendedIff | src/swarm/api/events.py:19-30 | an event is appended and indexed exactly when it has no dedupe key or no event of the log carries that key; otherwise nothing changes |
| Events.RepeatReturnsOriginalIff | src/swarm/api/events.py:20-23 | a repeated append returns the event of its key exactly when no later event reused that id |
| Events.SharedIdReturnsAnother | src/swarm/api/events.py:20-23 | a concrete log on which it returns another event |
| Events.EventLog.ListAfter | src/swarm/api/events.py:32-60 | the scanning loop returns the first matching events behind the cursor, up to the limit, and the next cursor |
| EventPaging.FilteredMeans | src/swarm/api/events.py:50-56 | filtering keeps exactly the events of the project and the mission asked for, each once and in log order |
| EventPaging.ResumeIff | src/swarm/api/events.py:40-49 | reading resumes right behind an event exactly when its id is not empty and no earlier event has it |
| EventPaging.UnknownCursorRestarts | src/swarm/api/events.py:40-49 | a cursor that no event has, and no cursor, read from the start |
| EventPaging.PageAdvancesIff | src/swarm/api/events.py:40-60 | a page advances the reader by exactly itself when the id of its last event is so usable, and by less otherwise |
| EventPaging.FollowingCursorsIsFilteringIff | src/swarm/api/events.py:32-60 | following cursors from the start to an empty page yields the plain filter of the log, with appends between pages, exactly when every page leaves a usable cursor |
| EventPaging.FollowingCursorsIsFiltering | src/swarm/api/events.py:32-60 | so with unique, non-empty ids it does, at any limits |
| EventPaging.StillLogIsFinished | src/swarm/api/events.py:32-60 | on a log that stands still an empty page comes within one page more than there are matching events |
| EventPaging.SharedIdGoesAstray | src/swarm/api/events.py:41-46 | a session from the start over two events with one id that gets the same page again |
| EventPaging.EmptyIdGoesAstray | src/swarm/api/events.py:41-49 | a session from the start over one event with the empty id that starts over |

## Left out

- SQL sessions, row locks and transactions: each call is one atomic step; skipped locked rows are an arbitrary set. Graph commits read the mission row without a lock, which the atomic step does not show.
- Membership tokens: a token stands for its digest; hashing and the scans for raw token fields are not modelled.
- WorkerRegistrationRepository: its calls are steps on values, not methods of a class, because they only interfere; `LeaseSteps.WorkerStepTouchesOneRow` states what the protocol needs of them.
- Legacy rows: leases always carry a renewable horizon and attempts a mission, as every claim writes them.
- Exception texts are datatypes, with the order of checks kept.
- The graph_revisions table, and task columns no check reads (objective, family, parent in the database).
- Lock acquisition inside the ledger: `ReleaseAmounts` and `SettleAmounts` require each bucket at most once, since a second lock request would wait for itself; reservations return such lists. Sorting before merging, releasing and settling only orders locks.
- Broker routing policy, circuit breaker, fairness weights, decision records and `explain`: admission is one boolean of the request, and the bottleneck found is not stored.
- Overlapping invokes of one ticket: each invoke is one step with its adapter outcome. The settlement state of a receipt is not a field of the model.
- BrokerTheorems.SentAtMostOnce: for runs without escaped outcomes, because `BrokerTheorems.ResendIff` shows that such an outcome resends.
- The scheduler's choice among ready tasks, `try_complete`, capacity changes and stored explanations of the controller.
- Floating-point rounding in the Wilson bound: arithmetic is over the reals, with any exact square root.
- Profile query and summary, which only read the stored profiles and decide nothing, and profile fields that echo arguments.
- HTTP, CLI, console, deployment, workers' sandboxes and inference adapters.
