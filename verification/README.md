# A verified model of the SkillSifter backend

SkillSifter is a multi-tenant recruitment service. A control database holds tenants, subscriptions, platform accounts
and the registration registry; every tenant has a PostgreSQL database of its own for users, candidates and the
recruitment pipeline. The backend runs several protocols over these databases by hand, with advisory locks, guarded
updates, compensating writes and retries. This project models those protocols and proves what they keep.

Each SQL statement or transaction is a function on the tables it touches. A protocol is a transition system over those
functions: any number of requests are in flight, any request may stop after any statement, and any other actor may move
between two statements. The main results hold for every run. Beside them, classes carry the handlers as the code writes
them, statement by statement, and each method's postcondition equates its effect with the functions the runs are made of. What
a statement or a request leaves in the tables is also stated outright, from the rows before it and without those functions
(the lemmas named `...Outcome` and their neighbours).

| Files | Contents |
|---|---|
| `recruitment.dfy`, `recruitment_outcomes.dfy`, `recruitment_store.dfy` | screening, submission, feedback, interview, decision, offer, joining, billing |
| `subscriptions.dfy`, `subscriptions_outcomes.dfy` | subscription rows, the expiry sweep, access resolution, the provider webhook |
| `retirement.dfy`, `lifecycle.dfy`, `lifecycle_outcomes.dfy`, `lifecycle_runs.dfy`, `lifecycle_store.dfy`, `login.dfy` | trial expiry, the retirement ledger, tenant deletion, the login gate on retired users |
| `provisioning.dfy`, `provisioning_store.dfy` | tenant provisioning and its recovery |
| `registration.dfy`, `registration_store.dfy` | sign-up and one-time codes |
| `users.dfy`, `users_store.dfy`, `seats.dfy` | user management over two databases, the seat limit |
| `schema.dfy`, `schema_store.dfy` | the schema initializer |
| `pools.dfy` | the cache of tenant connection pools |
| `normalization.dfy`, `matching.dfy`, `skills.dfy`, `resume.dfy`, `resume_tables.dfy`, `resume_store.dfy`, `pagination.dfy` | evidence matching, resume normalisation and persistence, pagination |
| `base.dfy`, `text.dfy` | options and results; the Go string functions, over ASCII |

## Where the code does less than it says

Each of these is proved, with a run or an input that shows it and the exact condition under which the code keeps its
promise.

- A deletion documents that a terminated tenant stays out (`backend/db/database.go:295-297`). The expiry sweep does not
  exclude terminated tenants (`backend/handlers/subscription_handlers.go:405`), so deletion is safe exactly when the
  tenant holds no provider-backed subscription that a sweep may still find lapsed (`LifecycleRuns.RetirementIsSafeIff`);
  otherwise a reopened tenant can lose a user (`LifecycleRuns.ReopenedTenantsLoseUsers`).
- A deletion is documented as retryable. The ledger's user name column holds 100 characters and an address up to 255
  stands in for an unknown name, so retrying ends exactly when every address without a known name is short enough, both
  before and after the tenant's own users are gone (`Lifecycle.RetryingFinishesIff`); with an address of 101 characters no
  pass ever ends it (`Lifecycle.SomeDeletionsNeverEnd`). One such address also ends the
  cleanup pass for every tenant behind it.
- The ledger's comment says it keeps expired accounts from signing in (`backend/db/retirement.go:36-39`); the login gate
  lets an expired trial through (`Login.TrialUsersAreNotLockedOut`). A pass whose sweep fails goes on
  (`backend/handlers/subscription_handlers.go:404-405`), and two such passes can record an expired trial as a deleted
  account, whose address is then locked out (`Login.MissedSweepsLockOut`). The recorded reason survives every sequence of
  passes with any faults exactly when the tenant row is gone, the trial row is already marked expired, the ledger is not
  empty and the tenant row closed or its own expiry date within the retention window, or an over-long address keeps
  anything from being recorded (`Lifecycle.TrialLedgerIsStableIff`, `Login.TrialUsersAreNotLockedOutIff`).
- Recovery of a half-provisioned tenant converges exactly when no other tenant's account holds the administrator's
  address (`Provisioning.RecoveryConvergesIff`); where one took it first, a recovery without any fault leaves him without
  an account (`Provisioning.HeldAddressStaysUnregistered`).
- A failed user deletion puts its row back without the seat lock, and the limit can then be exceeded
  (`Seats.RestoreCanExceedTheLimit`). A creation that has counted stays within the limit whatever happens exactly when the
  users and the rows of deletions in progress are together below it (`Seats.SeatLimitIff`).
- The e-mail path of a verification does not look at the attempts again when it consumes a code. A code without attempts
  left can still be spent exactly while it has not expired and a sign-up that compared it before is under way
  (`Registration.UsedUpCodeIsSpentIff`); five wrong guesses overtaking the right one do it (`Registration.UsedUpCodeIsSpent`).
- With a page size of 1 the page bound wraps around and every page is rejected (`Pagination.ParsePagination`).
- `Normalize` is not idempotent: "c-sharp" takes two applications (`Normalization.NormalizeIsNotIdempotent`). It is
  stable exactly on texts that spell neither "c sharp" nor "c plus plus" with a gap other than one blank
  (`Normalization.NormalizeStableIff`).
- Evidence counts as similar when one normal form contains the other, and the empty form is in every text: an entry
  without any letter, digit, plus, sharp or full stop supports every requirement of its list
  (`Matching.WordlessEntrySupportsAll`, with "-" in `Matching.HyphenIsWordless`). Which entries these are is
  `Normalization.EmptyFormIff`, and what supports a requirement otherwise is `Matching.EvidencedIff`.
- A billed pair may no longer be joined, nor its offer accepted (`Recruitment.BillingOutlivesJoining`), which is why
  the pipeline result speaks of history. The steps that break either are `Recruitment.StepUnjoinsIff` and
  `Recruitment.StepUnacceptsIff`.
- A schema definition whose number fits a machine word but not the INTEGER column of its record is rolled back at every
  start (`SchemaStore.OverlongVersionFile`); a start without faults gets through exactly when every missing definition fits
  (`SchemaStore.LeadingIff`).

## Model

| member | source | states |
|---|---|---|
| `Recruitment.BillingHasCausalHistory` | `backend/domain/billing/service.go:107-153` | in every interleaving of all pipeline handlers, a billing event is preceded for its pair, in this order, by a completed screening, a submission, feedback, a completed interview, a positive decision, an accepted offer and a joining with joined = true |
| `Recruitment.RunKeepsBacked` | `backend/handlers/interview_handlers.go:125-190` | the row of every stage, whether or not it is still true today, has the history its gate asks for, in every run, with interview requests overtaken between their gate checks |
| `Recruitment.TrackKeepsBacked` | `backend/domain/joining/service.go:73-101` | each transaction from submission to billing writes its row only on top of the history of the stage before |
| `Recruitment.InterviewKeepsBacked` | `backend/handlers/interview_handlers.go:125-150` | an interview written after its two unlocked gate reads still has submission and feedback behind it |
| `Recruitment.GatesMatchStages` | `backend/domain/offer/service.go:67-95` | the gate of every pipeline transaction is exactly the stage of the event it appends |
| `Recruitment.DepthMeansPositions` | `backend/domain/submission/service.go:111-139` | counting milestones in order yields increasing positions in the log, one per stage |
| `Recruitment.ScreeningCapacityConserved` | `backend/handlers/candidate_recruitment_handlers.go:132-174` | in every run `screening_count` is the number of the candidate's active screenings, stays within 0 and the limit, and the "inconsistent" answer is unreachable |
| `Recruitment.ScreeningLeavesActiveOnce` | `backend/handlers/candidate_recruitment_handlers.go:259-284` | a screening that has left `active` never becomes active again and keeps its pair |
| `Recruitment.OneActiveInterviewPerPair` | `backend/handlers/interview_handlers.go:160-190` | no pair ever has two scheduled or rescheduled interviews |
| `Recruitment.WorklistIsTotal` | `backend/domain/billing/repository.go:86-178` | in every reachable state each joined pair survives the joins of the worklist and has its date |
| `Recruitment.WorklistCounts` | `backend/domain/billing/repository.go:86-178` | billed plus pending items are the joined pairs, each counted once |
| `Recruitment.BillingOutlivesJoining` | `backend/domain/joining/service.go:109-133` | a run in which a pair is billed and afterwards neither joined nor its offer accepted |
| `Recruitment.StepUnjoinsIff` | `backend/domain/joining/service.go:109-133` | while every billed pair is joined, a step changes that exactly when it sets the joining of a billed pair back to joined = false |
| `Recruitment.StepUnacceptsIff` | `backend/domain/offer/service.go:103-124` | while every billed pair's offer is accepted, a step changes that exactly when it takes a billed pair's offer back, or bills a joined pair whose offer was taken back before |
| `Recruitment.BillingStaysJoinedIff` | `backend/domain/billing/service.go:107-153` | over a whole run every billed pair is joined throughout exactly when no step of the run takes the joining of a billed pair back |
| `Recruitment.BillingStaysAcceptedIff` | `backend/domain/billing/service.go:107-153` | the same over a whole run for the offers of billed pairs |
| `RecruitmentOutcomes.ScreeningOutcome` | `backend/handlers/candidate_recruitment_handlers.go:132-174` | a screening is entered exactly when all three parties exist and the candidate has a place left; it is then active under its own id, one place is taken, and nothing else changes |
| `RecruitmentOutcomes.NewCandidateHasThreePlaces` | `backend/database/tenant-plane/001_baseline.sql:97` | a new candidate is screened for three requirements at once, and no fourth |
| `RecruitmentOutcomes.BillingOutcome` | `backend/domain/billing/service.go:36-154` | a billing row is written exactly where the pair is joined today with a date and is not billed; it has the client given and the joining's own date |
| `RecruitmentOutcomes.RowsAreFinal` | `backend/domain/billing/service.go:107-153` | in every run submissions, feedback, decisions and billings stay as they are once written, and no offer or joining goes |
| `RecruitmentOutcomes.BillingIsFinal` | `backend/domain/billing/service.go:107-153` | a billing row of a reachable state is the same in every continuation, and its client, candidate and requirement still exist there |
| `RecruitmentStore.Store.CreateCandidateScreening` | `backend/handlers/candidate_recruitment_handlers.go:85-188` | the handler's new tables are those of the capacity-checked transaction, and each refusal leaves them alone |
| `RecruitmentStore.Store.UpdateCandidateScreening` | `backend/handlers/candidate_recruitment_handlers.go:227-306` | the same for leaving `active` and giving the slot back |
| `RecruitmentStore.Store.SubmitCandidate` | `backend/domain/submission/service.go:27-142` | the same for the completed-screening gate |
| `RecruitmentStore.Store.CreateFeedback` | `backend/domain/feedback/service.go:27-98` | the same for feedback on a submission |
| `RecruitmentStore.Store.ScheduleInterview` | `backend/handlers/interview_handlers.go:94-192` | the same for the submission and feedback gates; a conflict exactly where the pair has an active interview, whatever the status of the new one |
| `RecruitmentStore.Store.ReviseInterview` | `backend/handlers/interview_handlers.go:194-291` | the same for an interview's change of status |
| `RecruitmentStore.Store.CreateSelection` | `backend/handlers/selection_handlers.go:83-188` | the same for the completed-interview gate and one decision per pair |
| `RecruitmentStore.Store.CreateOffer` | `backend/domain/offer/service.go:27-97` | the same for the positive-decision gate |
| `RecruitmentStore.Store.UpdateOffer` | `backend/domain/offer/service.go:103-124` | the same for accepting and un-accepting an offer |
| `RecruitmentStore.Store.CreateJoiningRecord` | `backend/domain/joining/service.go:28-103` | the same for the accepted-offer gate and the date a joined record needs |
| `RecruitmentStore.Store.UpdateJoiningRecord` | `backend/domain/joining/service.go:109-133` | the same for changing a joining |
| `RecruitmentStore.Store.CreateBilling` | `backend/domain/billing/service.go:36-154` | the same for the joined gate, re-checked under the lock; a created row has the requirement's client and the joining's date, and no other row of the pair changes |
| `RecruitmentStore.Store.ListWorklist` | `backend/domain/billing/repository.go:86-178` | the scan fails exactly where some joined row that survives the joins has no date; otherwise it lists each surviving pair once, with the date of its joining, marked billed exactly when it has a billing row and then with that row's date |
| `RecruitmentStore.ReachableWorklistIsExact` | `backend/domain/billing/repository.go:86-178` | in every reachable state the scan succeeds and lists exactly the joined pairs |
| `Subscriptions.ComputedExpiryEqualsSweptExpiry` | `backend/domain/platformaccess/login.go:24-45` | sweeping at any earlier times, any number of times, never changes the status or plan access resolution computes later |
| `Subscriptions.SeatLimitReadsTheAccessRow` | `backend/handlers/user_management_handlers.go:83-101` | where the computed status is TRIAL or ACTIVE, the seat-limit query picks the very row access was decided on |
| `Subscriptions.SweepClosesAccessIff` | `backend/handlers/subscription_handlers.go:403-406` | the sweep's second statement changes an access decision exactly for an open account it finds lapsed |
| `Subscriptions.TerminatedAdmitsNothing` | `backend/auth/auth.go:120-160` | no route, not even provisioning recovery, admits a terminated tenant |
| `Subscriptions.OnlyActiveAccountsAreServed` | `backend/auth/auth.go:120-160` | beside provisioning recovery only tenants whose account is active are served |
| `Subscriptions.WebhookAppliesEachEventOnce` | `backend/handlers/subscription_handlers.go:258-401` | from any store on, with any deliveries already in flight and for any interleaving of deliveries, duplicates, failures, terminations and the two statements of the sweep, subscriptions and accounts are what the committed events give when each distinct reference is applied once, in commit order |
| `Subscriptions.WebhookDecidesAccess` | `backend/handlers/subscription_handlers.go:325-390` | after a committed delivery the account is open exactly for the paying events, and the provider's row has the delivered status and period |
| `Subscriptions.UpsertShape` | `backend/handlers/subscription_handlers.go:376-386` | the upsert rewrites the one row of its reference in place or appends one, and touches no other row |
| `Subscriptions.CommitKeepsOwners` | `backend/handlers/subscription_handlers.go:297-311` | committing a delivery keeps one row per reference and never changes whose a reference is |
| `Subscriptions.ReawakenableIffLapsesSometime` | `backend/handlers/subscription_handlers.go:404-405` | the condition on today's rows holds exactly when some future sweep finds the tenant lapsed |
| `Subscriptions.TerminationIsFinalIff` | `backend/handlers/subscription_handlers.go:313-398` | a terminated account stays terminated in every continuation exactly when no sweep can lapse it and no delivery of its own is past its reads with a commit ahead |
| `Subscriptions.TerminatedTenantsIgnoreDeliveries` | `backend/handlers/subscription_handlers.go:313-321` | a delivery that starts after termination changes nothing |
| `SubscriptionOutcomes.DeliveryIsAppliedIff` | `backend/handlers/subscription_handlers.go:258-321` | a delivery changes anything exactly when its reference belongs to an account that is not terminated, of a known plan, its kind says something, its event is new and its period does not end before it starts |
| `SubscriptionOutcomes.DeliveryOutcome` | `backend/handlers/subscription_handlers.go:322-398` | after it the row of the reference and the owner's account have the two statuses of the event kind and the row the delivered period, from now where no start and open where no end is delivered; a known row keeps its id, plan and limit, a new one takes those of the plan, and nothing else changes |
| `SubscriptionOutcomes.CancelledIsDiscontinued` | `backend/db/retirement.go:16-28` | a tenant whose newest subscription was last cancelled by the provider is retired as discontinued, whatever its account |
| `SubscriptionOutcomes.AdmissionIff` | `backend/auth/auth.go:120-160` | who passes each kind of route: tenant routes ask for a ready tenant, an active account and an unexpired subscription, account routes allow an expired one, provisioning an unready tenant, and recovery all but a terminated account |
| `SubscriptionOutcomes.ExpiryClosesTenantRoutes` | `backend/auth/auth.go:120-160` | once the newest trial or subscription has run out, tenant routes refuse and account routes serve the tenant, whatever sweeps have run |
| `SubscriptionStore.ControlTables.RazorpaySubscriptionWebhook` | `backend/handlers/subscription_handlers.go:258-401` | one delivery, start to end, has the effect of its reads followed by its transaction, answers "processed" exactly when it recorded its event, and leaves everything alone on a fault |
| `SubscriptionStore.ControlTables.ExpireDueSubscriptions` | `backend/handlers/subscription_handlers.go:403-406` | the two statements expire exactly the due rows and close exactly the lapsed accounts |
| `Retirement.SweepKeepsReason` | `backend/db/retirement.go:16-28` | the recorded reason does not depend on whether a sweep has already expired the latest row |
| `Retirement.ReasonsAsPromised` | `backend/db/retirement_test.go:9-37` | a cancelled subscription is always recorded as discontinued, a paid one never as an expired trial, a terminated account only as deleted or discontinued; an expired trial is recorded exactly for other accounts whose newest row is neither the provider's nor cancelled and is marked expired, or whose trial date has passed |
| `Retirement.UserMerge.AddUser` | `backend/db/retirement.go:110-138` | adding a source row keeps, per address, the first known id and the first name that is not the address |
| `Retirement.FirstOfMore` | `backend/db/retirement.go:128-138` | one more source fills in an id or a name only where none was known |
| `Retirement.MoreSourcesKeep` | `backend/db/retirement.go:140-242` | further sources never lose an address, an id or a real name |
| `Retirement.NameIsFirstReal` | `backend/db/retirement.go:110-138` | the first row of an address whose trimmed name is neither blank nor the address again gives its name |
| `Retirement.NameIsAddressIff` | `backend/db/retirement.go:117-119` | the address stands in for the name exactly where no row has such a name |
| `Retirement.IdIsFirst` | `backend/db/retirement.go:121-133` | the first row of an address with an id gives its id |
| `Retirement.IdIsMissingIff` | `backend/db/retirement.go:121-133` | the id is missing exactly where no row of the address has one |
| `Retirement.WriteLedger` | `backend/db/retirement.go:248-282` | the upsert loop, in any order, gives the merged ledger, or nothing when one name is too wide |
| `Retirement.ArchivingAgainKeeps` | `backend/db/retirement.go:258-273` | archiving again for the same reason keeps every row's reason, first date, id and real name, however little the sources still know |
| `Retirement.ArchivedRow` | `backend/db/retirement.go:258-273` | every column of a ledger row after an archive: a new row has what the archive knows, dated now; an old one keeps the id and the name the archive does not know, and its date unless the reason is new |
| `Retirement.ArchiveCovers` | `backend/db/retirement.go:253-277` | an archive enters exactly the merged addresses, with what is known of them, and leaves other rows alone |
| `Retirement.FitsIff` | `backend/database/control-plane/002_retired_users.sql:3-16` | an archive fails exactly when some address is too long for a user name and no source knows a real name for it |
| `Lifecycle.RetryingFinishesIff` | `backend/db/database.go:271-274` | once retention is over, an unfaulted pass ends the deletion after any number of faulted passes exactly when all names fit with and without the tenant's own users |
| `Lifecycle.SomeDeletionsNeverEnd` | `backend/database/control-plane/002_retired_users.sql:3-16` | a tenant due for deletion whose registered address no name is known for and which no sequence of passes removes |
| `Lifecycle.UnfaultedPassFinishes` | `backend/db/database.go:298-446` | an unfaulted pass from any partial state of such a deletion leaves no database, tenant row, subscription, account or pending registration |
| `LifecycleOutcomes.DeletionOutcome` | `backend/db/database.go:275-450` | a due deletion whose names fit leaves, after every fault, exactly what its statements up to there take: without one no database, row, subscription, account or pending registration, with every registry row as it was |
| `LifecycleOutcomes.TooWideDeletionOnlyCloses` | `backend/db/database.go:354-363` | where a name does not fit, the tenant is closed and nothing else changes |
| `LifecycleOutcomes.RetriedDeletionLeavesRegistry` | `backend/db/database.go:271-274` | after any faulted passes, a pass without a fault leaves nothing of the tenant but its registry and its ledger |
| `LifecycleOutcomes.FirstReason` | `backend/db/database.go:337-351` | a deletion without an earlier record takes discontinued exactly from a cancelled newest row; expired trial exactly where the account was not terminated, the newest row is not the provider's, and it is marked expired or the trial date has passed; and account deleted otherwise |
| `LifecycleOutcomes.RecordDueIff` | `backend/db/retirement.go:40-60` | expired-trial users are recorded exactly for a tenant without an active or overdue subscription whose newest row is an expired trial |
| `LifecycleOutcomes.LocalNameIsRecorded` | `backend/db/retirement.go:140-242` | a user of the tenant's own database enters the ledger under his real name, unless an earlier source or row of his address has one |
| `LifecycleOutcomes.AccountIdIsRecorded` | `backend/db/retirement.go:140-242` | the recorded user id is that of the first platform account with the address |
| `Lifecycle.TrialLedgerIsStable` | `backend/handlers/subscription_handlers.go:403-434` | for a tenant that never subscribed, whatever archives, drops and removals fail and whatever its users do between passes, every ledger row keeps TRIAL_EXPIRED, its first date, and an id and a real name once learnt; a missed sweep matters only in a pass that may delete the tenant and finds no other evidence of the reason |
| `Lifecycle.AnchoredIsSteady` | `backend/db/database.go:329-351` | once the trial row is marked expired, or the ledger holds the reason and the tenant row is closed or past its own expiry date, no missed sweep matters any more |
| `Lifecycle.TrialLedgerIsStableIff` | `backend/db/database.go:329-351` | every sequence of passes with any faults and missed sweeps keeps TRIAL_EXPIRED exactly when the tenant row is gone, it is anchored in that sense, or an over-long address keeps everything from being recorded |
| `Lifecycle.RegisteredTrialIsStableIff` | `backend/handlers/verification_handlers.go:346-397` | with the tenant's expiry date as registration sets it: exactly when the row is gone, the trial row is marked expired, the ledger is not empty, or nothing can be recorded |
| `Lifecycle.MissedSweepsLoseTheReason` | `backend/db/database.go:335-351` | two passes whose sweep fails, the first with a failed archive, record an expired trial as a deleted account |
| `LifecycleRuns.RetirementIsSafe` | `backend/db/database.go:275-450` | in every run in which each deletion starts with no subscription a sweep may revive, a database is dropped only while its tenant is terminated and once all its users are in the ledger, and the row goes only after the database |
| `LifecycleRuns.RetirementIsSafeIff` | `backend/db/database.go:295-360` | once access is closed, the rest of a deletion is safe in every continuation exactly under that condition |
| `LifecycleRuns.ReopenedTenantsLoseUsers` | `backend/handlers/subscription_handlers.go:404-405` | otherwise some run in which the provider renews the subscription and the tenant, active again, creates a user drops that user, who is in no ledger |
| `LifecycleRuns.RegistryIsPermanent` | `backend/db/database.go:405-446` | no step of any run takes an address from the registry or a user from the ledger |
| `LifecycleRuns.DeletionIsItsSteps` | `backend/db/database.go:275-450` | the deletion procedure with a fault anywhere is its steps run without interruption up to that fault |
| `LifecycleStore.CollectUsers` | `backend/db/retirement.go:140-242` | the four reading loops merge to what is known over all four sources in order |
| `LifecycleStore.Planes.ArchiveTenantUsers` | `backend/db/retirement.go:107-283` | the archive writes the merged users or leaves the ledger as it was |
| `LifecycleStore.Planes.CloseTenant` | `backend/db/database.go:298-363` | phase 1 closes exactly the deletable tenants and settles the reason, keeping a recorded one |
| `LifecycleStore.Planes.DeleteTenantDatabase` | `backend/db/database.go:275-450` | the procedure, with its fault, has the effect of the deletion function on its tenant and none on others |
| `LifecycleStore.Planes.RecordExpiredTrialUsers` | `backend/db/retirement.go:40-102` | tenants are recorded in order up to the first whose names do not fit |
| `LifecycleStore.Planes.CleanupExpiredTrials` | `backend/handlers/subscription_handlers.go:408-434` | a pass over all tenants is, for each, one of its own passes; a recording failure ends the pass for those behind it |
| `Login.TrialUsersAreNotLockedOut` | `backend/handlers/phase9_auth_handlers.go:23-46` | under the same hypothesis the retired users of a tenant that only had its trial refuse no login, whatever the other tenants' ledgers and payments |
| `Login.TrialUsersAreNotLockedOutIff` | `backend/handlers/phase9_auth_handlers.go:23-46` | over any passes and any other tenants they refuse nobody exactly under the condition of the ledger's stability |
| `Login.MissedSweepsLockOut` | `backend/handlers/phase9_auth_handlers.go:23-46` | two missed sweeps refuse someone on account of such a tenant alone |
| `Login.DeletedUsersAreLockedOut` | `backend/handlers/phase9_auth_handlers.go:23-46` | after any other deletion an archived address is refused at all times exactly where no other tenant with an account for it pays |
| `Login.GateIff` | `backend/handlers/phase9_auth_handlers.go:23-46` | the gate in full: a ledger row of the address, in any case, for another reason than an expired trial, and no tenant with an account of the address that pays now |
| `Provisioning.RunKeepsSound` | `backend/db/database.go:144-264` | in every interleaving of attempts with faults and crashes and of user management, READY means the database is there and complete, nobody but the one administrator has the admin role or the registrant's address, nobody can sign in before he can, and his id and account are never lost |
| `Provisioning.ManageKeepsSound` | `backend/handlers/user_management_handlers.go:38-287` | each statement of user management, and each of its compensations, leaves the administrator's row, id and account alone |
| `Provisioning.EditOutcome` | `backend/handlers/user_management_handlers.go:203-230` | an edit gives one user who is no administrator the new name, address and role exactly where the address is free, and keeps his id and password |
| `Provisioning.FaultOutcome` | `backend/db/database.go:144-205` | an attempt that fails gives the lock back, marks the tenant FAILED only between its own mark and its return, and moves no other attempt |
| `Provisioning.RecoveryConvergesIff` | `backend/handlers/phase9_auth_handlers.go:182-231` | after any such run one undisturbed recovery reaches READY, complete, with exactly one row of the admin role and the registrant's address, under his old id, every other user and account kept; his account matches exactly when no other tenant holds his address |
| `Provisioning.HeldAddressStaysUnregistered` | `backend/handlers/phase9_auth_handlers.go:219-231` | a run in which another tenant takes the address first, and recovery ends READY without the administrator's account |
| `Provisioning.RefusedOnlyWhenRegistered` | `backend/handlers/phase9_auth_handlers.go:195-208` | a recovery is refused for want of a registration only when its result is already there |
| `Provisioning.ApplyingCompletes` | `backend/db/database.go:206-208` | applying the missing definitions one by one completes the schema from wherever it stopped |
| `Provisioning.RegisteredTenantIsSound` | `backend/handlers/verification_handlers.go:346-397` | what the registration transaction leaves behind meets the invariant |
| `Provisioning.SyncOutcome` | `backend/db/database.go:246-251` | after the sequence is set, the next id is right above the highest of any user's |
| `Provisioning.SyncedIdIsFree` | `backend/db/database.go:246-251` | so the next user is entered wherever his address is free |
| `ProvisioningStore.Tenancy.ProvisionCurrentTenant` | `backend/handlers/phase9_auth_handlers.go:170-244` | recovery with a fault at any statement is its steps up to that statement and the failure's own update |
| `ProvisioningStore.Tenancy.InitializeTenantSchema` | `backend/db/database.go:206-208` | the loop of definitions ends complete, or at the fault with the progress made |
| `ProvisioningStore.Tenancy.SeedAdministrator` | `backend/db/database.go:210-262` | the administrator's upsert, the id sequence and READY, each of which may fail |
| `ProvisioningStore.Tenancy.FinalizeAccount` | `backend/handlers/phase9_auth_handlers.go:219-231` | the account upsert, refused where the address is taken, and the end of the registration |
| `Registration.SignUpsAreAtomicAndUnique` | `backend/handlers/verification_handlers.go:312-397` | in every interleaving no code counts more than five attempts, none is consumed twice, no registration, address or tenant id signs up twice, and tenants, trials and registry rows are exactly those of the committed sign-ups, each with its code consumed |
| `Registration.RightCodeSignsUpIff` | `backend/handlers/verification_handlers.go:291-397` | an undisturbed verifier with the right code signs up exactly when company, address and tenant id are unused and the plan is offered |
| `Registration.UsedUpCodeIsSpentIff` | `backend/handlers/verification_handlers.go:312-397` | from a given time on, a code without attempts left is consumed in some continuation exactly when it has not expired and a sign-up that compared it successfully is still under way with its company and address unused |
| `Registration.UsedUpCodeIsSpent` | `backend/handlers/verification_handlers.go:312-397` | a run from the empty tables in which five wrong guesses overtake a right one after its comparison, and the code is consumed all the same |
| `Registration.SignUpKeepsSound` | `backend/handlers/verification_handlers.go:336-397` | the sign-up transaction keeps the tables and the sign-ups in step |
| `Registration.PhoneKeepsSound` | `backend/handlers/verification_handlers.go:527-561` | consuming a phone code keeps codes single-use |
| `Registration.StartOutcome` | `backend/handlers/verification_handlers.go:213-264` | a registration is entered under the next id with its trimmed, lower-cased address, trimmed company and plan, stale rows of the address go, and every other row stays |
| `Registration.SignUpOutcome` | `backend/handlers/verification_handlers.go:336-397` | the sign-up enters company, trial, registry row and consumed code exactly where company, tenant id, address and code are unused, the code has not expired and the plan is offered |
| `Registration.EachCompanyOnce` | `backend/handlers/verification_handlers.go:336-397` | in every run no two tenants have the same company name |
| `RegistrationStore.Tables.StartRegistration` | `backend/handlers/verification_handlers.go:213-264` | a registration is entered exactly when its address is free once stale rows are gone |
| `RegistrationStore.Tables.VerifyRegistrationEmail` | `backend/handlers/verification_handlers.go:291-397` | one verification counts a wrong attempt or signs up, on the newest usable code, and otherwise changes nothing |
| `RegistrationStore.Tables.VerifyPhoneVerificationCode` | `backend/handlers/verification_handlers.go:482-564` | the same for a phone code |
| `RegistrationStore.Tables.SendPhoneVerificationCode` | `backend/handlers/verification_handlers.go:438-480` | older unused codes go, and a code that could not be delivered is taken back |
| `Users.DatabasesAgree` | `backend/handlers/user_management_handlers.go:103-147` | requests handled one at a time, with a fault at any statement and successful compensation, leave users and platform accounts agreeing on id, address and role, and both administrators untouched |
| `Users.CreateThenDelete` | `backend/handlers/user_management_handlers.go:242-287` | deleting a user just created restores both databases, apart from the used-up id |
| `Users.UpdateCanBeUndone` | `backend/handlers/user_management_handlers.go:189-237` | updating a user and then giving the old name, address and role back restores both databases |
| `Users.FailureLeavesNothing` | `backend/handlers/user_management_handlers.go:203-237` | a failed request leaves at most a used-up id |
| `Users.UncompensatedCreateDisagrees` | `backend/handlers/user_management_handlers.go:129-142` | without its compensation a failed creation makes the databases disagree about exactly that user |
| `Users.CreationOutcome` | `backend/handlers/user_management_handlers.go:103-147` | a creation with room left and a free address enters the trimmed name, the trimmed lower-cased address and the role under the next id in both planes, and changes nobody else |
| `Users.UpdateOutcome` | `backend/handlers/user_management_handlers.go:189-237` | an update leaves the trimmed name, the trimmed lower-cased address and the role wherever they are not blank and the old values elsewhere, with address and role on the account too; everybody else is unchanged |
| `Users.RemovalOutcome` | `backend/handlers/user_management_handlers.go:242-287` | a removal takes a user who is not the administrator out of both planes, and nobody else |
| `UserStore.TwoDatabases.CreateUser` | `backend/handlers/user_management_handlers.go:38-158` | the handler, statement by statement, has the effect of the creation function |
| `UserStore.TwoDatabases.UpdateUser` | `backend/handlers/user_management_handlers.go:160-240` | the same for an update and its compensation |
| `UserStore.TwoDatabases.DeleteUser` | `backend/handlers/user_management_handlers.go:242-287` | the same for a deletion and its re-insertion |
| `Seats.SeatLimit` | `backend/handlers/user_management_handlers.go:72-147` | in every interleaving no creation raises the user count above the limit it read by more than the rows that were dropped when it counted and have been put back since |
| `Seats.SeatLimitIff` | `backend/handlers/user_management_handlers.go:72-147` | once it has counted, a creation stays within the limit in every continuation exactly when the users and the rows that deletions in progress may put back are together below the limit |
| `Seats.RestoreCanExceedTheLimit` | `backend/handlers/user_management_handlers.go:263-283` | a run, with an administrator, another user and two seats, in which a row put back exceeds the limit |
| `Seats.CountingOutcome` | `backend/handlers/user_management_handlers.go:72-101` | with the lock free, a creation passes its count exactly when the users are below the limit, and otherwise leaves everything, the lock included, as it was |
| `Seats.CompensationOutcome` | `backend/handlers/user_management_handlers.go:129-147` | a creation whose account or commit fails takes exactly its own user back and frees the lock |
| `Schema.EachDefinitionOnce` | `backend/db/migrations.go:204-234` | for any number of starters, crashes and even a lost lock each definition takes effect at most once and is recorded exactly when it did |
| `Schema.RecordedIsPrefix` | `backend/db/migrations.go:153-202` | with append-only directories the records are always an initial stretch of the definitions, applied in version order |
| `Schema.SuccessCoversDirectory` | `backend/db/migrations.go:153-202` | whoever succeeds has its whole directory recorded, in every run |
| `Schema.SuccessMeansDirectory` | `backend/db/migrations.go:134-151` | while the lock is kept, success leaves exactly the directory recorded |
| `Schema.UnfitNeverSucceeds` | `backend/db/migrations.go:204-234` | no starter of a directory with a definition whose record does not fit ever succeeds, in any run |
| `Schema.TamperedAppliesNothing` | `backend/db/migrations.go:174-190` | a starter that finds a recorded definition missing, renamed or altered applies nothing, ever |
| `Schema.SecondRunIsNoOp` | `backend/db/migrations.go:192-195` | against its own records a directory has nothing to apply |
| `Schema.OpeningOutcome` | `backend/db/migrations.go:134-190` | an undisturbed starter goes on to apply what is missing exactly when its directory matches the records, and is otherwise refused with the lock free and nothing applied |
| `Schema.ApplyingOutcome` | `backend/db/migrations.go:192-234` | where every missing definition is new and fits, all of them take effect in order, each is recorded as it is beside the old records and nothing else is, and the lock is free again |
| `SchemaStore.DiscoverSchemaDefinitions` | `backend/db/migrations.go:52-85` | a directory is readable exactly when every definition is numbered and no number occurs twice; then the result is its definitions in version order |
| `SchemaStore.VersionIff` | `backend/db/migrations.go:97-103` | a name is numbered exactly when it is digits of a machine word, an underscore and anything |
| `SchemaStore.MatchesIffUnaltered` | `backend/db/migrations.go:169-190` | a directory matches the records exactly when for every recorded number some file has that number, the recorded name and the recorded content |
| `SchemaStore.SortFacts` | `backend/db/migrations.go:83` | sorting by version orders the definitions and keeps exactly them |
| `SchemaStore.SchemaDb.Verify` | `backend/db/migrations.go:169-190` | it passes exactly when every record matches the directory |
| `SchemaStore.SchemaDb.ApplyMissing` | `backend/db/migrations.go:192-234` | the missing definitions are applied and recorded in order up to the fault or the first whose record does not fit its columns |
| `SchemaStore.LeadingIff` | `backend/db/migrations.go:97-103` | a start without a fault gets through exactly when the record of every missing definition fits |
| `SchemaStore.OverlongVersionStops` | `backend/db/migrations.go:52-103` | a readable directory whose one number is a machine word but no INTEGER applies nothing at any start |
| `SchemaStore.OverlongVersionFile` | `backend/db/migrations.go:52-103` | the smallest such file |
| `SchemaStore.SchemaDb.InitializeSchema` | `backend/db/migrations.go:153-202` | an unreadable or mismatched directory applies nothing; otherwise what is missing is applied, and success means all of it. Told from the files: it answers false and applies nothing where a recorded file is missing, renamed or altered; success leaves every definition file recorded with its number, name and own checksum; no old record changes; and without a fault it succeeds whenever all files fit their columns |
| `SchemaStore.ResumingCompletes` | `backend/db/migrations.go:192-200` | applying what is missing after any interrupted start ends with exactly the directory, each definition once |
| `Pools.CallersShareOnePool` | `backend/db/database.go:42-71` | in every interleaving all callers of a tenant get the same open pool on its database, and tenants with different database names never share one |
| `Pools.LosersAreClosed` | `backend/db/database.go:65-70` | with no call in flight, the open pools are exactly the cached ones |
| `Pools.AttemptOutcome` | `backend/db/database.go:42-64` | a call that misses the cache opens a pool on the tenant's own database exactly when the tenant is ready, has one and it can be reached; else it is refused and nothing is opened |
| `Pools.StoreOutcome` | `backend/db/database.go:65-70` | the first of several callers keeps its pool for the tenant; each later one gets that pool and closes its own |
| `PoolStore.TenantPools.TenantDB` | `backend/db/database.go:42-71` | a call that runs alone answers from the cache, or opens and caches a pool for a READY tenant |
| `Matching.SplitRequirements` | `backend/domain/matching/matching.go:69-87` | the loop returns the first of each normal form among the trimmed parts |
| `Matching.SplitRoundTrip` | `backend/domain/matching/matching.go:69-87` | splitting the result joined by commas returns the result |
| `Matching.SplitKeepsEveryRequirement` | `backend/domain/matching/matching.go:69-87` | every part with a normal form is represented by an item of that form |
| `Normalization.NormalizeStableIff` | `backend/domain/matching/matching.go:61-67` | a second normalisation changes nothing exactly when the lower-case text has neither a "c" and a "sharp" with a gap other than one blank between them, nor a "c", a "plus" and a "plus" whose gaps are not both one blank |
| `Normalization.AfterSomeCIff` | `backend/domain/matching/matching.go:61-67` | the scan for such spellings finds exactly those after some "c" |
| `Normalization.NormalizeIsNotIdempotent` | `backend/domain/matching/matching.go:61-67` | "c-sharp" takes two applications |
| `Normalization.EmptyFormIff` | `backend/domain/matching/matching.go:61-67` | the normal form is empty exactly for texts without a letter, digit, plus, sharp or full stop |
| `Matching.ContainsNormalized` | `backend/domain/matching/matching.go:89-101` | evidence is found exactly when some value is similar, and what is returned is such a value |
| `Matching.EvidencedIff` | `backend/domain/matching/matching.go:89-101` | a requirement is supported exactly when it has a normal form and, of that and some entry's, one is a stretch of the other |
| `Matching.WordlessEntrySupportsAll` | `backend/domain/matching/matching.go:89-101` | one entry without a word supports every requirement that has one |
| `Matching.MatchList` | `backend/domain/matching/matching.go:103-177` | an item is reported missing exactly when no value supports it, matched with a value that does, both in order |
| `Matching.Evaluate` | `backend/domain/matching/matching.go:230-257` | the verdict is the maximum of the criteria in matched, unknown, missing |
| `Matching.VerdictIgnoresOrder` | `backend/domain/matching/matching.go:241-251` | the verdict does not depend on the order of the criteria |
| `Matching.AddingEvidenceNeverWorsens` | `backend/domain/matching/matching.go:230-257` | adding skills, languages or certifications never worsens the verdict |
| `Matching.OwnTextMatches` | `backend/domain/matching/matching.go:204-218` | a candidate text equal to the required one matches |
| `Matching.MoreYearsNeverWorsen` | `backend/domain/matching/matching.go:188-202` | more years never worsen the experience criterion |
| `Matching.ExperienceOutcome` | `backend/domain/matching/matching.go:188-202` | with a requirement given: missing exactly when both texts name years and the candidate's are fewer, matched when they are as many, unknown when either names none |
| `Matching.YearsAreFirstReading` | `backend/domain/matching/matching.go:59` | the years of a text are the whole or decimal number in the first place where the pattern has any reading at all: reading digits greedily misses none |
| `Matching.LeadingYearsAreRead` | `backend/domain/matching/matching.go:179-186` | a text that opens with a whole number of years is read as that number |
| `Matching.LeadingDecimalIsRead` | `backend/domain/matching/matching.go:179-186` | a text that opens with a decimal number of years is read as the number of all its digits, scaled down by those after the point |
| `Skills.NormalizeTechnicalSkills` | `backend/handlers/resume_ai_intelligence.go:85-112` | the loop returns the canonical names, first of each spelling |
| `Skills.SkillsAreDistinct` | `backend/handlers/resume_ai_intelligence.go:106-110` | no two results differ in case alone |
| `Skills.SkillsAreComplete` | `backend/handlers/resume_ai_intelligence.go:85-112` | every skill that is neither blank nor a human language is represented, and nothing is invented |
| `Skills.AliasesAreClosed` | `backend/handlers/resume_ai_intelligence.go:61-73` | the alias table leads every canonical name back to itself |
| `Skills.NormalizeSkillsTwice` | `backend/handlers/resume_ai_intelligence.go:85-112` | normalising twice is normalising once |
| `Skills.SkillsKeepOrder` | `backend/handlers/resume_ai_intelligence.go:85-112` | the results stand in the order in which their spellings first occur |
| `Resume.NormalizedTwice` | `backend/handlers/resume_ai_intelligence.go:114-155` | normalising an extraction again changes nothing and comes to the same verdict |
| `Resume.StoredYearsInRange` | `backend/handlers/resume_ai_intelligence.go:246-258` | the stored year is null or within 1900 and 2200 |
| `Resume.YearOfFullDate` | `backend/handlers/resume_ai_intelligence.go:217-258` | a full date's year column is its own year |
| `Resume.DateOutcome` | `backend/handlers/resume_ai_intelligence.go:217-237` | the date column takes exactly the days of the calendar, is null for a blank text, a year or a year and month, and every other text is refused |
| `Resume.LeapYearsOf` | `backend/handlers/resume_ai_intelligence.go:233-236` | the calendar of those dates: from year 1 to y there are y/4 - y/100 + y/400 leap years |
| `Resume.YearOutcome` | `backend/handlers/resume_ai_intelligence.go:246-258` | the year column is the explicit year where there is one, and otherwise a year from 1900 to 2200 exactly where the text starts with it |
| `ResumeTables.PersistingTwice` | `backend/handlers/resume_ai_intelligence.go:260-428` | persisting the same extraction of the same resume twice leaves the tables as once does |
| `ResumeTables.OtherResumesUntouched` | `backend/handlers/resume_ai_intelligence.go:274-283` | rows of every other resume stay in the four replaced tables, in order, and none is added |
| `ResumeTables.RowsKeepPositions` | `backend/handlers/resume_ai_intelligence.go:330-425` | the stored entries keep the order of the extraction, their positions those of the entries they come from |
| `ResumeTables.PersistedOutcome` | `backend/handlers/resume_ai_intelligence.go:260-428` | for an accepted extraction: the candidate's profile, his skills and named languages beside everybody's old ones, and in each history exactly the new rows in place of those of this resume; otherwise nothing |
| `ResumeTables.ProfileOutcome` | `backend/handlers/resume_ai_intelligence.go:285-305` | a text of the new extraction replaces the stored one unless it is blank |
| `ResumeTables.ExplicitYearsStayOrdered` | `backend/handlers/resume_ai_intelligence.go:157-215` | explicit years that passed validation are stored start before end |
| `ResumeTables.StoredYearsStayInRange` | `backend/handlers/resume_ai_intelligence.go:330-425` | persisting keeps every year column null or in range |
| `ResumeStore.ResumeResult.Normalize` | `backend/handlers/resume_ai_intelligence.go:114-155` | the in-place normalisation, with what it leaves behind on an error |
| `ResumeStore.ResumeDb.InsertRows` | `backend/handlers/resume_ai_intelligence.go:330-425` | an insertion loop writes the titled entries in order, or fails on the first text that is no date |
| `ResumeStore.ResumeDb.PersistResumeIntelligence` | `backend/handlers/resume_ai_intelligence.go:260-428` | the transaction stores the whole extraction or nothing |
| `Pagination.ParsePagination` | `backend/handlers/api_contract.go:31-57` | a page is accepted exactly when page and limit are numbers in range, the limit is not 1 and the offset fits a word |
| `Pagination.OffsetFits` | `backend/handlers/api_contract.go:59-61` | the offset of an accepted page does not overflow |
| `Pagination.PagesAreTheList` | `backend/handlers/client_handlers.go:47-57` | pages 1 to ceil(total/limit) over a fixed ordering are the whole list, no row lost or repeated |

## Left out

- The React frontend, HTTP routing, JSON and response codes beyond "done" or "refused, and why" where a handler tells them apart.
- Cryptography and outside services (JWT, HMAC, SHA-256, bcrypt, SMTP, SMS, Razorpay, Ollama): their results are inputs. A schema checksum and a code hash stand for the content they were made of; distinct database names per tenant are a premise of `Pools.CallersShareOnePool`.
- Reports, plain CRUD of clients and candidates beyond what the pipeline's foreign keys need, `UploadResumes`, `upsertResumeCandidate` and the E2E reset.
- `backend/domain/screening/service.go`: no route reaches it, and it would break the capacity count.
- `RoleMiddleware`: a membership test in a loop.
- Free-text columns, snapshots and audit metadata, row ids and timestamps of the resume tables, the ordering of the worklist, and the pattern checks of billing amounts and currencies, which are boolean inputs.
- The webhook's upsert lists eight columns and seven values, and its conflict target is a partial index (`backend/handlers/subscription_handlers.go:376-386`); the intended statement is modelled.
- A commit whose outcome the client cannot learn counts as failed or done, not as both.
- Unicode: text is ASCII, where the first-byte upper-casing of skills is sensible.
- Tables keyed by candidate and requirement are one record per pair in `Recruitment`; the pipeline handlers run on values of those tables held in the fields of a class.
- Tenant deletion, provisioning and user management are modelled for one tenant's slice of both planes; other tenants enter as accounts and addresses they hold, and `LifecycleStore` runs the cleanup over all slices. Requests of a tenant are atomic with respect to its deletion, and none of its provisioning attempts is in flight when deletion starts, as the two take different locks.
- LifecycleRuns.RetirementIsSafe: one deletion of a tenant at a time, as its lock ensures.
- Provisioning.RunKeepsSound: user management is its single statements, in any order; that its requests keep users and accounts in agreement is `Users.DatabasesAgree`.
- Users.DatabasesAgree: one request at a time, and no recovery of the tenant's provisioning beside it.
- Pools.CallersShareOnePool: no deletion or shutdown is running.
- Matching.YearsAreFirstReading: years are exact decimals, without the rounding and the range of 64-bit floats.
