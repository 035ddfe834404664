# Agent service: verified protocol models

This project models, in Dafny, the in-process protocols of the agent service and
proves what they promise over every run. Each protocol keeps all its state in
maps, sequences and counters behind one lock, so a locked operation is one step
of a transition system, and a property proved of every sequence of steps holds of
every interleaving of callers and of every crash between two of their steps.

`dafny verify dfyconfig.toml` checks everything.

## How it is laid out

| part | modules |
|---|---|
| Fenced dispatch: logical tasks, numbered physical attempts, one registered result | `Dispatch`, `DispatchRecord`, `DispatchRuns`, `DispatchHistory`, `DispatchCompleteness`, `DispatchRepository` |
| Admission: a round-robin ring over per-workspace queues | `Admission`, `AdmissionRuns`, `AdmissionFairness`, `AdmissionManager` |
| Budget: reservations, usage, fences, compare-and-set settlement, recovery sweeps | `Budget`, `BudgetRuns`, `BudgetSettlement`, `BudgetHistory`, `BudgetLedger`, `BudgetController` |
| Artifact custody: lifecycle, legal hold, grants, claim-then-destroy | `Artifacts`, `ArtifactCustody`, `ArtifactRuns`, `ArtifactLifecycles`, `ArtifactHistory`, `ArtifactService` |
| Domain commit: one operation record and one run record, written one at a time | `DomainCommit`, `DomainCommitRuns`, `DomainCommitStarts`, `DomainCommitHistory`, `DomainCommitResumes`, `DomainCommitCoordinator` |
| Issuing and redeeming one authorization for one operation | `ExactlyOnce`, `ExactlyOnceRuns`, `ExactlyOnceAnswers`, `ExactlyOnceStores` |
| Release documents: an order-preserving JSON tree, its printer, parser and edits | `ReleaseDocument`, `ReleaseDocumentRoundTrip`, `ReleaseDocumentGrammar`, `ReleaseDocumentStrings`, `ReleaseDocumentLayout`, `ReleaseDocumentEdits`, `ReleaseDocumentCodec` |
| Context compilation: ordering, redaction, budgets, truncation | `Utf8`, `Utf8Encoding`, `ContextCompiler`, `ContextCompilerGrants`, `ContextCompilerEvidence`, `ContextCompilerRun` |
| Shared | `Wrappers`, `MapSums` |

Every part has the same shape. A state is a datatype; what an operation makes of
it is a pure function. A `…Runs` module folds operations into runs and proves
invariants and laws over all of them. A `…History` module tells every row of a
reachable state by the operations that were asked for, in the callers' own words,
so that nothing on record is of the model's own making. A class holds the fields
the service holds, and each of its methods is proved equal to the operation it
performs, so the laws carry over to it; what it answers, and when, is stated
beside that outright. Where callers interleave between a read and a later write
(the custody, commit and issuing protocols), a process is a value that advances
one read or one write at a time and may stop anywhere; the controller's loops and
the executor's walk take what others do between their calls as a parameter.

Times are integers in nanoseconds, with 0 for the unset time. Keys that the
service joins with a NUL byte are tuples, and identities it derives by hashing are
constructors, which makes them injective. Amounts in the budget are a 64-bit
type, so every arithmetic step there is also checked not to overflow. Whatever
comes from outside (clocks, tokens, current authority, signature checks, the
active generation, what other callers do) is a parameter.

## What was found

- A task can be expired while its newer attempt is still running: a late result
  for a lapsed earlier attempt expires the task at `internal/dispatch/memory.go:233`
  without touching the newer attempt. `DispatchRuns.OpenAttemptOutlivesTaskIff`
  says exactly when, and `DispatchRuns.ExpiredTaskWithAnOpenAttempt` gives the run.
- Round robin does not bound an eligible workspace's wait by the ring alone. Every
  workspace that joins while the cursor is past it adds one completion to the bound
  (`AdmissionFairness.WaitIsBounded`), and the bound is met: one appended when the
  cursor stands at the end of the ring is served first, and as many fresh runs of a
  second workspace as there are can all be started so before the one that waits
  (`AdmissionFairness.StarvationFromEmpty`).
- Reconciling may settle above observed usage, as `BudgetRuns.SettledAboveUsageRun`
  does from the empty ledger. `BudgetRuns.SettlementIsExactIff` says exactly which
  settlements keep observed usage equal to the recorded sum.
- Concluding a cancelled run is refused if an identity it records finality under
  was used for something else (`BudgetSettlement.TakenConclusionRun` is such a run);
  `BudgetController.Controller.ConcludeCancelledRun` states the exact condition.
- A transition may be asked straight for the tombstone and then neither claims the
  artifact nor removes its content, even under legal hold
  (`ArtifactRuns.HeldTombstoneRun`); `ArtifactRuns.DirectTombstoneIsSoundIff` says
  exactly when that is sound. The runs of the custody protocol assume, as its one
  caller does, that transitions never ask for it.
- Two starts of one run that both read "no active operation" can leave a recorded
  operation beside a run that already has its outcome
  (`DomainCommitStarts.TwoStartsPart`). A run of the protocol ends with coupled
  records if and only if every recording met its run at approval
  (`DomainCommitStarts.CoupledIffRecordingsMeetApproval`), and it always does when a
  run has one fresh starter at a time, which its callers can see to
  (`DomainCommitStarts.OneStarterMeetsApproval`).
- An owner's event for an operation not yet marked issued parts the two records
  exactly when the run is committing
  (`DomainCommitStarts.EarlyEventBreaksCoupling`; `DomainCommitStarts.EarlyEventRun`
  reaches it from the empty records). In any company it parts them exactly when
  nobody has marked the operation by its last turn
  (`DomainCommitStarts.LastTurnPartsIff`), and for good exactly when nobody is about
  to (`DomainCommitStarts.MendableIff`).
- A registered secret that is not valid UTF-8 can break the text it is redacted
  from, and what is disclosed then is not text (`ContextCompiler.HalfRuneIsDisclosed`);
  `Utf8.RedactionStaysValidIff` is the exact condition.
- Setting a release document's string to what is read there rewrites a `null`,
  which reads as the empty string (`ReleaseDocumentEdits.SettingTheSameIsNothing`).

## Model

| member | source | states |
|---|---|---|
| `Dispatch.Evaluate` | internal/dispatch/dispatch.go:414-478 | a result gets the empty disposition exactly when nothing is registered, task and attempt are current, all eleven predicate fields agree and neither deadline has passed; it is a duplicate exactly when the registered statement is the same one |
| `Dispatch.TableAgreesExactly` | internal/dispatch/dispatch.go:437-467 | the comparison table leaves no predicate field out: it has no mismatch if and only if every field agrees |
| `Dispatch.VerdictSaysWhy` | internal/dispatch/dispatch.go:414-478 | each disposition that changes nothing is given exactly in its own case, told of the registered result, the two statuses, the eleven fields and the two deadlines; the reason given is the case |
| `DispatchRecord.SameWorkExactly` | internal/dispatch/memory.go:59-84 | a repeated creation is the same work exactly when eight fields agree, and otherwise one that differs is named |
| `DispatchRuns.EveryRunKeepsInv` | internal/dispatch/memory.go:38-314 | in every reachable record attempts are numbered 1..n with number = lease epoch = position, the task's counters are n, only the last attempt is ever open, a task is registered if and only if it succeeded, and a succeeded or canceled task has no open attempt |
| `DispatchRuns.EveryRunEvolves` | internal/dispatch/memory.go:86-314 | over any run identities, fences and registrations never change, ended attempts never change at all, terminal tasks keep their status, and evidence only grows |
| `DispatchRuns.OnlyTheCurrentAttemptCommits` | internal/dispatch/memory.go:196-240 | whatever commits names the last attempt of an open task, by identity, number, epoch and fence |
| `DispatchRuns.OpeningSupersedes` | internal/dispatch/memory.go:86-139 | an opened attempt carries the next number and epoch and the offered fence, and every earlier attempt of the task has ended |
| `DispatchRuns.Fencing` | internal/dispatch/memory.go:86-279 | once an attempt has been followed by another, no interleaving of operations lets a result naming it, or carrying its number or epoch, commit, and its row never changes again |
| `DispatchRuns.CommittedAttemptEnds` | internal/dispatch/memory.go:241-279 | committing an attempt, successfully or not, ends it |
| `DispatchRuns.EndedAttemptsStayUncommitted` | internal/dispatch/memory.go:196-279 | an attempt that has ended, by whatever means, is never committed afterwards |
| `DispatchRuns.AtMostOneCommitPerAttempt` | internal/dispatch/memory.go:196-279 | no attempt is committed twice in any run |
| `DispatchRuns.SettlementAccounting` | internal/dispatch/memory.go:196-279 | every settlement of a known task either commits exactly one open attempt and adds no evidence, or adds exactly one line of evidence and moves nothing but the named attempt, and its task, from open to expired |
| `DispatchRuns.SettlementTouchesOneTask` | internal/dispatch/memory.go:196-279 | a settlement leaves every other task, its attempts and its registration as they were |
| `DispatchRuns.SingleRegisteredResult` | internal/dispatch/memory.go:259-279 | a run registers a result for a task exactly as often as it commits a success of it, which is at most once; the registration never changes and stands if and only if the task succeeded |
| `DispatchRuns.RegistrationMatchesLastAttempt` | internal/dispatch/memory.go:259-279 | what is registered carries the number, lease epoch, identity, statement digest and generation of the succeeded task's last attempt |
| `DispatchHistory.RegistrationIsOfOneResult` | internal/dispatch/memory.go:259-279 | a registration that stands after a run is of exactly one result offered in it, the one that committed the task, with that result's statement, status, reason code, digest, key and time; no run registers twice for a task |
| `DispatchHistory.EveryRowIsTold` | internal/dispatch/memory.go:38-314 | the whole record is told by the operations that made it: each attempt is what one opening asked for and stands superseded, expired, closed, canceled or settled with the words and times of an operation that did so; each task is what was ensured; each line of evidence is a result that changed nothing |
| `DispatchCompleteness.EveryTaskIsWhole` | internal/dispatch/dispatch.go:106-125 | every task of every reachable record has its scope, identities, generation, capability and runtime binding, and five SHA-256 digests |
| `DispatchCompleteness.OnlyPresentedResultsCommit` | internal/dispatch/dispatch.go:179-195 | after any run only a result that presents every field of its fence is committed, whether or not the coordinator checked it: a missing field never equals one on the record |
| `DispatchRuns.RedeliveryIsIdempotent` | internal/dispatch/dispatch.go:414-419 | redelivering the committed statement at any later time is a duplicate and changes no task, attempt or result |
| `DispatchRuns.OpenAttemptOutlivesTaskIff` | internal/dispatch/memory.go:229-240 | a settlement of an open task leaves a terminal task with an open attempt if and only if the task has one, the result is for an earlier attempt that had lapsed, and it was observed after the task's deadline |
| `DispatchRuns.TerminalTasksWithOpenAttemptsExpired` | internal/dispatch/memory.go:86-314 | in every reachable record a terminal task with an open attempt is an expired one |
| `DispatchRuns.LateResultExpiresTheTask` | internal/dispatch/memory.go:229-240 | a result for a lapsed earlier attempt, later than the task's deadline, expires the task and leaves the newer attempt as it is |
| `DispatchRuns.ExpiredTaskWithAnOpenAttempt` | internal/dispatch/memory.go:106-113 | for every task a coordinator may offer, and any one lease, there is such a run, so "a terminal task has no open attempt" is false of expired tasks |
| `DispatchRepository.MemoryRepository.EnsureTask` | internal/dispatch/memory.go:38-53 | a replay converges on the stored task, a reused identity is refused under a field that differs, and the invariant is kept |
| `DispatchRepository.MemoryRepository.ReplaceOpenSlots` | internal/dispatch/memory.go:99-116 | the in-place loop ends exactly the open slots, as expired past their deadline and as superseded otherwise |
| `DispatchRepository.MemoryRepository.OpenAttempt` | internal/dispatch/memory.go:86-139 | one opening: refused exactly without a reason code, a task, or an open one; otherwise the new attempt carries what was asked for, and the rest is the record operation |
| `DispatchRepository.MemoryRepository.Find` | internal/dispatch/memory.go:141-194 | the scan over all tasks and attempts finds the attempt exactly where its derived identity says it is |
| `DispatchRepository.MemoryRepository.MarkDispatched` | internal/dispatch/memory.go:141-168 | one dispatch mark: refused exactly for no such attempt; it moves an accepted attempt, and an accepted task, to running |
| `DispatchRepository.MemoryRepository.CloseAttempt` | internal/dispatch/memory.go:170-194 | one close: refused exactly without a reason code or such an attempt; an open attempt fails for that reason and an ended one is left alone |
| `DispatchRepository.MemoryRepository.Commit` | internal/dispatch/memory.go:196-279 | one fenced conditional commit: refused exactly for no such task, unbound exactly for no such attempt, and a registration it makes carries the result's own statement, status, reason code, digest, key and time; the rest is the record operation |
| `DispatchRepository.MemoryRepository.CancelRun` | internal/dispatch/memory.go:288-314 | the walk over all tasks cancels exactly the open tasks of the run and their open attempts, and reports how many attempts were open |
| `DispatchRepository.Coordinator.Open` | internal/dispatch/coordinator.go:160-206 | ensuring and opening in sequence: it succeeds exactly when the task is valid and not in conflict, there is a token and the opening is not refused; a refusal leaves the ensured task, if it got that far, and nothing else |
| `DispatchRepository.Coordinator.Settle` | internal/dispatch/coordinator.go:238-249 | an ill-formed settlement is refused and changes nothing; any other is the commit |
| `DispatchRepository.IsReasonCode` | internal/dispatch/dispatch.go:371-388 | the loop accepts exactly three to 64 capitals, digits and underscores, the first a capital |
| `AdmissionRuns.EveryRunKeepsInv` | internal/admission/admission.go:67-145 | work conservation and representation: in every reachable state the counters are the sums and set sizes they stand for, the ring lists exactly the non-empty queues once each, records match queues and are counted once each, all limits hold, and every waiting workspace is blocked by the global bound or its own |
| `AdmissionRuns.DirectAdmissionOvertakesNobody` | internal/admission/admission.go:80-86 | a run admitted directly finds its own workspace's queue empty |
| `AdmissionRuns.FirstInFirstOut` | internal/admission/admission.go:67-145 | over every run a workspace's accepted runs start in the order they were accepted; none is lost, repeated or overtaken |
| `AdmissionRuns.NextConservesWork` | internal/admission/admission.go:115-145 | promoting at most one run per completion is enough: afterwards nothing that could run is left waiting, and a scan that promotes nobody proves nobody was eligible |
| `AdmissionFairness.PromotionBringsNearer` | internal/admission/admission.go:125-136 | promoting another workspace brings a waiting eligible one strictly nearer to the cursor |
| `AdmissionFairness.WaitIsBounded` | internal/admission/admission.go:115-145 | over every run, whatever arrives in it, the slots that come back while an eligible workspace is not started are at most its cyclic distance from the cursor and one more for each workspace that joined the ring while the cursor was past it |
| `AdmissionFairness.DrainFairness` | internal/admission/admission.go:115-145 | so while nobody joins the ring an eligible workspace is started within its cyclic distance, which is less than the ring's length |
| `AdmissionFairness.JoiningDelaysThePassed` | internal/admission/admission.go:90-92 | a workspace that joins the ring delays exactly those the cursor has already passed, by one place |
| `AdmissionFairness.ArrivalOvertakes` | internal/admission/admission.go:90-92 | a run of another workspace that arrives while the cursor is past the waiting one takes the next slot, and the position recurs with that run in place of the one that completed |
| `AdmissionFairness.ArrivalsStarve` | internal/admission/admission.go:86-136 | however many fresh runs of another workspace arrive in turn with completions, all of them are started and none of the eligible workspace is; the bound on the wait is met exactly |
| `AdmissionFairness.StarvationFromEmpty` | internal/admission/admission.go:67-145 | the empty scheduler, under any limits that let two runs wait and whichever distinct runs of other workspaces fill its slots within each workspace's bound, reaches that position, so the starvation is of real runs |
| `AdmissionManager.Manager.Admit` | internal/admission/admission.go:67-98 | one admission: over limit exactly for an ill-formed identity or a demand outside its axis; duplicate or in conflict exactly for a run on record, the same or another; a new run takes a free slot, waits last of its workspace, or is turned away from a full queue and changes nothing |
| `AdmissionManager.Manager.IsIdentity` | internal/admission/admission.go:150-160 | the loop accepts exactly one to 128 letters, digits and, after the first, four marks |
| `AdmissionManager.Manager.Complete` | internal/admission/admission.go:99-114 | one completion and the promotion it makes, proved against the scheduler operation |
| `AdmissionManager.Manager.Scan` | internal/admission/admission.go:119-124 | the modular scan leaves the cursor at the first eligible place of the ring, or back where it wraps when there is none |
| `AdmissionManager.Manager.Take` | internal/admission/admission.go:125-144 | moving a queue head to running: queue, ring, cursor, counters and record change together |
| `BudgetRuns.EveryRunKeepsInv` | internal/budget/budget.go:927-1121 | in every reachable ledger, hold by hold, recorded cost ≤ observed usage ≤ upper bound, released means final and closed, every fence is on the record, and observations name existing holds |
| `BudgetRuns.ReservingStaysWithin` | internal/budget/budget.go:927-978 | a reservation raises only its own root's held total, and only up to the bound it was made under |
| `BudgetRuns.OthersNeverRaiseHeld` | internal/budget/budget.go:988-1121 | fencing, usage and settlement never raise any root's held total |
| `BudgetRuns.HeadroomSafety` | internal/budget/budget.go:927-978 | under a fixed bound no tenant's root run ever holds more than it, however operations interleave |
| `BudgetRuns.HeldNeverOverflows` | internal/budget/budget.go:829-834 | the held total fits 64 bits in every reachable ledger, whatever bounds were used |
| `BudgetRuns.TotalIsAlwaysValid` | internal/budget/budget.go:961-971 | so the refusal for an unsummable held total is never given |
| `BudgetRuns.EveryRunIsLater` | internal/budget/budget.go:927-1121 | a hold's binding, generation and expiry never change, fences and finality are only added, the bound only falls, usage only rises, a released hold never changes, and no observation ever changes |
| `BudgetRuns.FencesArePermanent` | internal/budget/budget.go:285-309 | after any fence or release no later sequence of ledger operations lets the hold dispatch, whatever the active generation becomes, and no replay of its reservation is answered with it |
| `BudgetRuns.ReplayAnswer` | internal/budget/budget.go:944-960 | a replay is answered with the recorded hold exactly when the binding is the same, nothing has fenced it and its lifetime has not elapsed; the held total does not move |
| `BudgetRuns.RedeliveryIsIdempotent` | internal/budget/budget.go:1053-1068 | an accepted observation delivered again at any later moment is accepted and changes nothing |
| `BudgetRuns.IdentitiesAreNeverReused` | internal/budget/budget.go:1059-1065 | an observation identity never takes another content |
| `BudgetRuns.EveryRunIsExact` | internal/budget/budget.go:1053-1121 | while every settlement takes the usage it read as final cost, observed usage is exactly the recorded sum |
| `BudgetRuns.SettlementIsExactIff` | internal/budget/budget.go:1099-1121 | a settlement keeps that equality if and only if it is not one whose checks all pass with a final cost above the usage it read, whatever it was asked |
| `BudgetRuns.SettledAboveUsageRun` | internal/budget/budget.go:392-407 | from the empty ledger, whatever is reserved and used first, a settlement above that usage counts cost nobody recorded |
| `BudgetRuns.SettledForEver` | internal/budget/budget.go:1085-1121 | once bound and usage have met, neither ever moves again |
| `BudgetHistory.EveryHoldIsTold` | internal/budget/budget.go:927-1121 | from the empty ledger on every hold is on terms somebody asked for and comes down only to a cost somebody settled it at; it is expired only if an operation on its root saw the clock at or past its expiry, cancelled only if asked to be, final only if so reported, released only by a settlement that released it at that cost |
| `BudgetHistory.EveryRecordIsTold` | internal/budget/budget.go:988-1084 | every record is a report just as it was made, or the one a fence left of itself on a hold so fenced: no cost, no finality, the hold's own run and generation |
| `BudgetHistory.ReplayAnswers` | internal/budget/budget.go:944-960 | each answer to a reservation already on the ledger, and exactly when it is given: conflict for other terms, fenced for one that is expired, cancelled, released or lapsed by now, and otherwise the hold as it stands |
| `BudgetHistory.NewHoldAnswers` | internal/budget/budget.go:927-978 | each answer to a new reservation, and exactly when: no headroom exactly when what the root holds and this worst case exceed the bound; the hold it makes is on the terms asked for, unused and unfenced |
| `BudgetHistory.ReportAnswers` | internal/budget/budget.go:1053-1084 | each answer to a usage report, exactly when it is given, and what an accepted one adds |
| `BudgetHistory.SettlementAnswers` | internal/budget/budget.go:1085-1121 | each refusal of a settlement, exactly when it is given, and the amounts after one that succeeds |
| `BudgetHistory.SettlementFreesHeadroom` | internal/budget/budget.go:1085-1121 | a settlement that succeeds gives its root back the whole worst case if it releases the hold, and what exceeds the cost if not; no other root's held total moves |
| `BudgetHistory.ReportIsCharged` | internal/budget/budget.go:780-801 | a usage report changes its own root's charge only: by its cost once the attempt is final, from the worst case to the usage when it makes it final, and not before |
| `BudgetHistory.NewHoldIsCharged` | internal/budget/budget.go:780-801 | a new hold is charged to its own root at its worst case, and to no other |
| `BudgetSettlement.SettleFromRead` | internal/budget/budget.go:1085-1121 | one compare-and-set from an earlier read either closes the hold exactly as it now stands or changes nothing; it conflicts only if usage has risen since |
| `BudgetSettlement.NoCostIsLost` | internal/budget/budget.go:744-762 | with any operations of others before each ledger call, a successful settlement leaves bound = observed = the usage the others made durable and alters nothing else, a failed one leaves exactly what the others did, and it fails only if somebody released the hold or usage rose in every round |
| `BudgetSettlement.SettlementIsARun` | internal/budget/budget.go:744-762 | a settlement with all that interferes is one run of ledger operations, none of them above the usage it read unless an interfering one is, and closes the hold if it succeeds |
| `BudgetSettlement.EveryAcceptedCostIsIncluded` | internal/budget/budget.go:744-762 | while all settle at observed usage, the settled amount is the sum of every cost recorded for the hold |
| `BudgetSettlement.SweepReachesExactly` | internal/budget/budget.go:507-557 | a sweep changes exactly the final unreleased holds of the root it describes — of an earlier generation and above their usage, or cancelled — leaves none outstanding, takes only the excess bound, and moves no fence |
| `BudgetSettlement.SweepConverges` | internal/budget/budget.go:485-557 | sweeping twice equals sweeping once |
| `BudgetSettlement.SweepResumes` | internal/budget/budget.go:507-557 | a sweep cut short after any of its holds and run again reaches what one uninterrupted sweep would have |
| `BudgetSettlement.SweepKeepsCharges` | internal/budget/budget.go:780-801 | a sweep never raises a held total and leaves every root total unchanged |
| `BudgetSettlement.ConclusionReachesTheRun` | internal/budget/budget.go:657-688 | concluding a cancelled run releases every cancelled hold of it at observed usage, changes exactly the cancelled unreleased holds of the run or already final, and keeps every final hold's charge |
| `BudgetHistory.ConclusionIsRecorded` | internal/budget/budget.go:672-686 | concluding leaves under the hold's own identity a final report of no cost, with the hold's run, root and generation |
| `BudgetSettlement.ConclusionConverges` | internal/budget/budget.go:657-736 | concluding twice equals concluding once, and the second time is never refused |
| `BudgetSettlement.ConclusionResumes` | internal/budget/budget.go:657-688 | a conclusion cut short among its records of finality and run again is not refused and reaches the same ledger |
| `BudgetSettlement.SettlingConclusionResumes` | internal/budget/budget.go:657-736 | so does one cut short among its settlements |
| `BudgetSettlement.TakenConclusionRun` | internal/budget/budget.go:672-686 | from the empty ledger, a usage report under the identity a conclusion records finality under leaves the later conclusion refused |
| `BudgetSettlement.ConclusionNeverRaisesHeld` | internal/budget/budget.go:657-736 | concluding never raises a held total |
| `BudgetSettlement.ReviewIsExact` | internal/budget/budget.go:774-779 | review is due exactly when held × 10000 ≥ bound × basis points, although the product is never formed |
| `BudgetLedger.MemoryLedger.FenceExpiredLocked` | internal/budget/budget.go:988-1007 | the in-place loop fences exactly the elapsed unreleased holds of one root and records each fence once |
| `BudgetLedger.MemoryLedger.HeldTotal` | internal/budget/budget.go:961-971 | the 64-bit sum is refused exactly when it does not fit, and is the held total otherwise |
| `BudgetLedger.MemoryLedger.Reserve` | internal/budget/budget.go:927-978 | fence, replay, headroom and insertion as one step, proved against the ledger operation |
| `BudgetLedger.MemoryLedger.FenceExpired` | internal/budget/budget.go:1012-1019 | the guarded form of expiry fencing, and the holds it reports |
| `BudgetLedger.MemoryLedger.FenceCancelled` | internal/budget/budget.go:1027-1051 | one cancellation fence, proved against the ledger operation |
| `BudgetLedger.MemoryLedger.Observe` | internal/budget/budget.go:1053-1084 | one deduplicated observation, proved against the ledger operation without overflow |
| `BudgetLedger.MemoryLedger.Settle` | internal/budget/budget.go:1085-1121 | one compare-and-set settlement, proved against the ledger operation |
| `BudgetController.Controller.Reserve` | internal/budget/budget.go:231-266 | a reservation succeeds exactly when the estimate is complete, the generation is the active one, and it either replays its own open hold or fits the headroom; it keeps the controller's bound |
| `BudgetController.Controller.Dispatch` | internal/budget/budget.go:285-309 | a dispatch is admitted exactly when the hold exists in scope, is unfenced, unexpired and of the active generation |
| `BudgetController.Controller.Settle` | internal/budget/budget.go:744-762 | the eight-round re-read-and-settle loop, proved against its specification |
| `BudgetController.Controller.SweepHolds` | internal/budget/budget.go:507-529 | with any operations of others during and between its settlements, the sweep is a run of ledger operations, reports exactly the holds outstanding when listed, and has closed each of them when it succeeds; undisturbed it is the swept ledger |
| `BudgetController.Controller.RecoverSuperseded` | internal/budget/budget.go:485-500 | recovery of superseded finality among other callers, exactly when it runs, and how it is refused |
| `BudgetController.Controller.RecoverCancelled` | internal/budget/budget.go:710-736 | recovery of cancelled finality among other callers, and exactly when it runs |
| `BudgetController.Controller.Reconcile` | internal/budget/budget.go:351-417 | with any operations of others between its read and its settlement it succeeds only for an authorized caller, a final hold of this generation, and a cost the active generation may set or a superseded one has used, closes the hold no lower than the usage it read, and is a run of ledger operations; undisturbed it succeeds exactly then, never releases a superseded hold, and a refusal changes nothing |
| `BudgetController.Controller.ReconcileActive` | internal/budget/budget.go:386-413 | reconciling under the active generation closes the hold as asked whatever others do, and undisturbed succeeds exactly when the cost lies between observed usage and bound and nothing released is reopened |
| `BudgetController.Controller.ConcludeCancelledRun` | internal/budget/budget.go:657-688 | with any operations of others in between, success means every hold of the run cancelled at the start is released at its observed usage; undisturbed it succeeds exactly when authorized and the finality identities are unused, and is the concluded ledger |
| `BudgetController.Controller.RootTotal` | internal/budget/budget.go:780-801 | the root's charge, refused exactly when it does not fit 64 bits |
| `ArtifactCustody.EveryRunKeepsInv` | internal/artifacts/artifacts.go:560-832 | over every interleaving of read-then-write steps by holders, deleters, the reconciler and crashes: a claimed record is never held nor live, a tombstone has no content, claims stand until buried, and content, claims and security generations evolve only forward |
| `ArtifactRuns.ClaimedIsNeverHeld` | internal/artifacts/store.go:73-105 | once claimed, a record is claimed by the same decision for ever, unheld, and in quarantine, expiry or the tombstone |
| `ArtifactRuns.RemovalIsOwned` | internal/artifacts/artifacts.go:812-814 | the object about to be removed belongs to a claimed record and to no other |
| `ArtifactRuns.RemovedIsNeverHeld` | internal/artifacts/artifacts.go:656-832 | an object this service removes is of a record that is not held and never will be |
| `ArtifactRuns.UnclaimedContentSurvives` | internal/artifacts/artifacts.go:656-832 | the content of a record that ends a run held or unclaimed was never removed by this service |
| `ArtifactRuns.OwnerAdvances` | internal/artifacts/artifacts.go:794-832 | every step after the claim succeeds, whatever happened since the last one |
| `ArtifactRuns.OwnedDestructionCompletes` | internal/artifacts/artifacts.go:794-832 | four turns, however interleaved, complete a destruction its decision owns |
| `ArtifactRuns.DestructionResumes` | internal/artifacts/artifacts.go:857-894 | from every crash point a successor adopting the owning decision reaches the tombstone, content gone and every grant stale |
| `ArtifactRuns.DoneMeansDestroyed` | internal/artifacts/artifacts.go:794-832 | a finished destruction left the tombstone, no content and no grant of the current generation |
| `ArtifactRuns.OneTombstone` | internal/artifacts/artifacts.go:824-831 | two processes that finish destroying an artifact report the same tombstone |
| `ArtifactRuns.OnlyTheOwnerDestroys` | internal/artifacts/store.go:84-105 | once a decision owns an artifact, every process that carries its destruction at any later moment, and its tombstone, is under that decision |
| `ArtifactRuns.RivalsNeverDestroy` | internal/artifacts/store.go:84-89 | a process with any other decision, in any company, stands before the claim until it takes a turn and is gone from then on |
| `ArtifactRuns.EveryRunKeepsGrants` | internal/artifacts/artifacts.go:588-615 | no grant, issued or about to be, is ahead of its record, and each is strictly behind once access was withdrawn |
| `ArtifactRuns.StaleGrantsDie` | internal/artifacts/artifacts.go:623-644 | a grant computed from a read before access was withdrawn is never admitted afterwards, even if it was signed after the revoke ran |
| `ArtifactRuns.AdmittedGrantIsCurrent` | internal/artifacts/artifacts.go:623-644 | an admitted grant speaks of a live, unclaimed record whose access was never withdrawn since |
| `ArtifactLifecycles.NoStageIsSkipped` | internal/artifacts/artifacts.go:1062-1081 | in every run from the empty store an artifact that is valid went from pending to scanning and from scanning to valid in that run, a finalized one went on from valid, and a committed one from finalized |
| `ArtifactLifecycles.AdmittedContentWasScanned` | internal/artifacts/artifacts.go:623-644 | so in every run a grant to read, review or approve is admitted only for an artifact that went through scanning to valid in it, one to finalize only for a valid one, one to commit only for a finalized one |
| `ArtifactHistory.EveryRecordIsTold` | internal/artifacts/artifacts.go:511-832 | from the empty store on a hold was placed by a request, a claim is the decision and time of one deletion or orphan sweep, and a tombstone carries the reason and time of the request that destroyed the artifact or took that over |
| `ArtifactHistory.ExpiryBegins` | internal/artifacts/artifacts.go:967-985 | a sweep expires a record exactly when it is live and its object gone, or it has been pending too long and is not held |
| `ArtifactHistory.DeletionBegins` | internal/artifacts/artifacts.go:725-760 | a deletion begins exactly for what is not destroyed, claimed or held, at the version it expects |
| `ArtifactHistory.DeletionClaims` | internal/artifacts/store.go:73-105 | a deletion left alone claims exactly the version it read: what was quarantined stays so, anything else expires, one version and one security generation on |
| `ArtifactHistory.OrphanIsTaken` | internal/artifacts/artifacts.go:977-1000 | the sweep of an orphan takes up exactly what is quarantined or expired, under the decision that owns it already if one does |
| `ArtifactRuns.DirectTombstoneIsSoundIff` | internal/artifacts/artifacts.go:1074-1077 | after a transition straight to the tombstone the records are sound if and only if the artifact was claimed before and its object already gone |
| `ArtifactRuns.HeldTombstoneRun` | internal/artifacts/artifacts.go:560-587 | from the empty store, a quarantined artifact under legal hold is buried so, unclaimed and with its content in place |
| `ArtifactService.MemoryStore.Update` | internal/artifacts/store.go:58-71 | the version compare-and-set |
| `ArtifactService.MemoryStore.ClaimDeletion` | internal/artifacts/store.go:73-105 | the claim, its resumption by the same decision, and its refusals |
| `ArtifactService.Service.Create` | internal/artifacts/artifacts.go:511-549 | recording is once for ever: a replay gets the first record, and another content is refused; custody stays sound exactly when no other record has the new one's object |
| `ArtifactService.Service.Transition` | internal/artifacts/artifacts.go:560-587 | one uninterrupted transition to any state is a run of the protocol; the generation rises exactly when access is withdrawn; custody stays sound exactly unless it buries what was not claimed or still has its content; a refusal changes nothing |
| `ArtifactService.Service.SetLegalHold` | internal/artifacts/artifacts.go:656-711 | a hold ends one version on with exactly the hold asked for, is recognised when already applied, and is refused once the artifact is claimed |
| `ArtifactService.Service.Destroy` | internal/artifacts/artifacts.go:794-832 | claim, revoke, remove and bury are four turns of the protocol; it succeeds exactly when owned by this decision, or unowned and unheld |
| `ArtifactService.Service.Delete` | internal/artifacts/artifacts.go:725-774 | it succeeds exactly when the artifact is already destroyed, already owned, or unheld at the expected version, and then the artifact is gone under the owning decision |
| `ArtifactService.Service.Converge` | internal/artifacts/artifacts.go:857-894 | an owned destruction is finished under the decision that owns it |
| `ArtifactService.Service.Grant` | internal/artifacts/artifacts.go:588-615 | a grant is signed exactly when the purpose may see the record's state, each purpose's states named, and it is not older than the artifact; it carries the record's digest and generation |
| `ArtifactService.Service.UseGrant` | internal/artifacts/artifacts.go:623-644 | an access is admitted exactly when every axis of the current record agrees with the grant: producing and scanning only before validity, reading, review and approval only from it on, finalizing only a valid and committing only a finalized artifact |
| `ArtifactService.Port.Advance` | internal/execution/artifacts.go:210-241 | with any calls of others before each of its own, the walk ends with the record at or past the target, or off the forward lifecycle; undisturbed it touches no other record |
| `ArtifactService.Port.Ensure` | internal/execution/artifacts.go:143-168 | with any calls of others before each of its writes, a candidate short of finalization under an operation that may not finalize its kind is refused exactly then and untouched; success leaves it at or past the target; undisturbed it succeeds otherwise exactly from the forward lifecycle and touches no other artifact |
| `DomainCommitStarts.EveryRunKeepsInv` | internal/domaincommit/commit.go:115-308 | wherever Start, resume, confirmation and events are cut, replayed or run side by side, as long as every new operation meets its run at approval, operation status and run state stay coupled, a run has at most one operation, and a run past approval has one; also with early events, when the coupling allows for them |
| `DomainCommitStarts.OneStarterMeetsApproval` | internal/domaincommit/commit.go:122-156 | every new operation meets its run at approval in every run in which fresh starts of one run do not overlap |
| `DomainCommitStarts.EveryRunMoves` | internal/domaincommit/commit.go:354-383 | over any run at all statuses and run states only advance, and no operation is lost, bound anew or undecided |
| `DomainCommitStarts.ReplayKeepsTheOperation` | internal/domaincommit/commit.go:122-129 | under the same condition, once an operation is stored for a run every later operation of that run is that one, with the same authorization and binding |
| `DomainCommitStarts.DecidedForEver` | internal/domaincommit/commit.go:293-304 | over any run at all, a decided operation goes on agreeing with its run's outcome, and neither is ever decided again |
| `DomainCommitHistory.RunsEndAsTheOwnerSaid` | internal/domaincommit/commit.go:253-304 | in every run from the empty records, however starts, replays and events interleave, a run is completed only if the owner reported its operation applied, in conflict only if it reported a conflict, failed only if it reported a rejection |
| `DomainCommitHistory.OperationsEndAsTheOwnerSaid` | internal/domaincommit/commit.go:253-304 | and an operation is applied, conflicted or rejected only on that report for it; its binding is what one start asked and the issuer answered |
| `DomainCommitHistory.DecidedAgrees` | internal/domaincommit/commit.go:253-304 | wherever the records are coupled an applied operation's run is completed, a conflicted one's in conflict, a rejected one's failed |
| `DomainCommitHistory.ResumesItsOwnRequest` | internal/domaincommit/commit.go:122-129 | a start takes up an active operation of its run exactly when that is for the same revision, idempotency key and request digest |
| `DomainCommitHistory.VersionsCountPhases` | internal/domaincommit/commit.go:174-184 | each step along the commit boundary is one version of the run |
| `DomainCommitResumes.ResumingFinishes` | internal/domaincommit/commit.go:159-212 | a start that resumes, left alone, finishes with the operation awaiting its owner exactly when it can be carried on, and otherwise has changed nothing |
| `DomainCommitResumes.StartingFinishes` | internal/domaincommit/commit.go:131-212 | a first start, left alone, ends with a new operation awaiting its owner exactly when the run is at approval at the version it expects and the issuer saw the revision it expects, and otherwise has changed nothing |
| `DomainCommitStarts.OutcomeHasItsOperation` | internal/domaincommit/commit.go:253-304 | a run with an outcome has an operation, issued unless the owner spoke early, that can only be decided the same way |
| `DomainCommitStarts.CoupledIffRecordingsMeetApproval` | internal/domaincommit/commit.go:115-157 | whatever starts interleave, the records are coupled at the end of a run if and only if every new operation of it was recorded while its run was still at approval; with and without early events |
| `DomainCommitStarts.TwoStartsPart` | internal/domaincommit/commit.go:122-156 | from the empty records, two interleaved starts of one run leave a second, recorded operation beside a run already at its outcome |
| `DomainCommitStarts.EarlyEventBreaksCoupling` | internal/domaincommit/commit.go:253-304 | an event for an operation never marked issued parts the records exactly when its run was already committing |
| `DomainCommitStarts.EarlyEventRun` | internal/domaincommit/commit.go:253-304 | such a moment is reached from the empty records by one start |
| `DomainCommitStarts.LastTurnPartsIff` | internal/domaincommit/commit.go:293-304 | whatever runs before and beside it, as long as recordings meet approval, an event that takes its last turn leaves its run at the outcome, and the two records apart if and only if the operation is still recorded then |
| `DomainCommitStarts.MendableIff` | internal/domaincommit/commit.go:159-212 | records parted so are mended by some later run, its recordings meeting approval, if and only if the start that approved is still about to mark the operation |
| `DomainCommit.CreationIsSafeIff` | internal/domaincommit/commit.go:131-156 | recording a new operation keeps the records coupled exactly when its run is still at approval |
| `DomainCommit.StatusesOnlyAdvance` | internal/domaincommit/commit.go:458-474 | a legal status change never goes back and never leaves a decided outcome |
| `DomainCommit.StatusesFollow` | internal/domaincommit/commit.go:458-474 | the legal status changes, named one by one |
| `DomainCommit.MarkKeepsInv` | internal/domaincommit/commit.go:354-383 | a status change keeps the coupling when the new status suits the run, and keeps identity and authorization |
| `DomainCommit.TransitionKeepsInv` | internal/domaincommit/commit.go:174-184 | a run transition keeps the coupling when the operation suits the new state |
| `DomainCommitCoordinator.MemoryStore.ActiveForRun` | internal/domaincommit/commit.go:323-332 | the scan finds an active operation of the run if and only if there is one |
| `DomainCommitCoordinator.MemoryStore.Create` | internal/domaincommit/commit.go:333-353 | one insertion, proved against the record operation |
| `DomainCommitCoordinator.MemoryStore.Mark` | internal/domaincommit/commit.go:354-368 | one status change, proved against the record operation |
| `DomainCommitCoordinator.Coordinator.Start` | internal/domaincommit/commit.go:115-157 | from every state a crash can leave it succeeds exactly for a resumable operation of the same request or an untouched run at approval, ends with the operation awaiting, and otherwise changes nothing |
| `DomainCommitCoordinator.Coordinator.Resume` | internal/domaincommit/commit.go:159-212 | an active operation is carried to awaiting exactly when it can be, keeping its binding; an issued one is reported uncertain |
| `DomainCommitCoordinator.Coordinator.AwaitConfirmation` | internal/domaincommit/commit.go:214-234 | it succeeds exactly when the run has no outcome yet, and otherwise changes nothing |
| `DomainCommitCoordinator.Coordinator.HandleEvent` | internal/domaincommit/commit.go:253-304 | an applied effect ends its run completed and its operation applied, a conflict both in conflict, a rejection failed and rejected, and no other way round; it is refused exactly for another authorization, an operation never issued, or an outcome contradicting the run's own; the records stay coupled exactly unless the operation was never issued and its run is committing |
| `ExactlyOnceRuns.EveryRunKeepsInv` | internal/execution/applyauthority.go:186-296 | over every interleaving of issuing and committing, with crashes and lost races, nothing recorded changes, issuances are of distinct genuine authorizations, and effects are exactly the redemptions, one each |
| `ExactlyOnceRuns.EveryCallerGetsTheOriginal` | internal/execution/applyauthority.go:186-223 | every caller for an operation key, first, racing or replaying, is answered with the one persisted authorization |
| `ExactlyOnceRuns.EffectsAreDistinct` | internal/execution/domainowner.go:170-187 | no two effects share an operation or an authorization |
| `ExactlyOnceRuns.OutcomeIsFinal` | internal/execution/domainowner.go:170-187 | a recorded outcome never changes, and every later commit of that effect is answered with it |
| `ExactlyOnceAnswers.AnswersMean` | internal/execution/domainowner.go:78-133 | a command is refused exactly when incomplete or timeless; whatever does not verify, binds something else, or repeats an operation or authorization with another effect is rejected and leaves no trace; the first of its kind gets the owner's decision, and a repetition the one on the book |
| `ExactlyOnceAnswers.EveryAnswerHolds` | internal/execution/domainowner.go:78-133 | every answer other than a rejection, ever given in a run, stands on the book at its end with its authorization, token, run, artifact and outcome |
| `ExactlyOnceAnswers.AnswersAgree` | internal/execution/domainowner.go:170-187 | so two such answers about one operation are the same, about the same authorization, run and artifact |
| `ExactlyOnceAnswers.EveryAnswerWasAskedFor` | internal/execution/domainowner.go:90-108 | from the empty records on nobody is told that an effect stands unless one request asked for that run, artifact and material and its token was signed |
| `ExactlyOnceAnswers.EveryIssuanceWasAskedFor` | internal/execution/applyauthority.go:186-223 | every authorization on record was drawn for a request of the operation it stands under |
| `ExactlyOnceAnswers.LostRaceIsAnswered` | internal/execution/applyauthority.go:206-223 | a caller that lost the race to record is answered with the authorization that won, and changes nothing |
| `ExactlyOnceAnswers.IssuingIsAnswered` | internal/execution/applyauthority.go:186-223 | a caller left alone is answered with what is on record, or with what it drew, which then is |
| `ExactlyOnceRuns.IssuedAlwaysRedeems` | internal/execution/domainowner.go:78-133 | when everybody commits what was issued to them, presenting an operation's authorization always commits it: first with the owner's decision, later with the same one, never as a second effect |
| `ExactlyOnceRuns.EveryRunKeepsAsIssued` | internal/execution/domainowner.go:78-133 | under that discipline every redemption is of the authorization issued for its operation |
| `ExactlyOnceRuns.EveryRedemptionWasSigned` | internal/execution/domainowner.go:90-108 | in every run from the empty records, each redemption on the book is of a token really signed, and signed for exactly the authorization, scope, run and artifact it names |
| `ExactlyOnce.RedeemKeepsInverse` | internal/execution/domainowner.go:170-187 | the by-operation and by-authorization maps stay mutual inverses and only grow |
| `ExactlyOnce.OneOperationPerAuthorization` | internal/execution/domainowner.go:180-186 | no authorization ever backs two operations |
| `ExactlyOnceStores.MemoryIssuanceStore.Record` | internal/execution/applyauthority.go:273-296 | insert-once by operation; success means this authorization is the one on record |
| `ExactlyOnceStores.CommitAuthority.Issue` | internal/execution/applyauthority.go:186-223 | with rivals recording in between, the answer is the persisted original |
| `ExactlyOnceStores.MemoryRedemptionStore.Redeem` | internal/execution/domainowner.go:170-187 | both maps written together, proved against the book operation |
| `ExactlyOnceStores.DomainPort.Commit` | internal/execution/domainowner.go:78-133 | verification, every binding, then redemption: an answer other than a rejection is given only for a signature that verifies and binds this very command, and then stands on the book with its authorization, token, run, artifact and outcome |
| `ExactlyOnceStores.DomainPort.Reconcile` | internal/execution/domainowner.go:137-160 | no record is answered exactly when nothing landed for the operation |
| `ReleaseDocumentRoundTrip.ValueReads` | cmd/runtime-release/document.go:53-176 | a printed value of any depth, whatever follows it that does not continue a number, is read back and reading stops where it ends |
| `ReleaseDocumentRoundTrip.ParseUndoesEncode` | cmd/runtime-release/document.go:40-176 | parsing what was printed returns the same tree in the same member order |
| `ReleaseDocumentRoundTrip.EncodingIsInjective` | cmd/runtime-release/document.go:130-176 | two well-formed trees are printed alike only if they are the same |
| `ReleaseDocumentRoundTrip.EncodeStringIsInjective` | cmd/runtime-release/document.go:116-126 | escaping loses nothing |
| `ReleaseDocumentRoundTrip.NumberReads` | cmd/runtime-release/document.go:101-102 | a number keeps its text whatever follows it that does not continue it |
| `ReleaseDocumentRoundTrip.ValueIsWellFormed` | cmd/runtime-release/document.go:53-112 | whatever text is accepted, the tree is well formed, so the round trip applies to it |
| `ReleaseDocumentRoundTrip.RewritingSettles` | cmd/runtime-release/document.go:40-176 | rewriting any accepted document settles at once: the second rewrite is byte-identical |
| `ReleaseDocumentGrammar.AcceptsExactlyTheGrammar` | cmd/runtime-release/document.go:40-112 | a text is accepted if and only if the grammar of sections 2 to 7 of RFC 8259 derives it, written out as derivations without the parser |
| `ReleaseDocumentGrammar.ValueIsRead` | cmd/runtime-release/document.go:53-112 | a derived value is read to exactly its end, after white space and before anything that does not continue a number |
| `ReleaseDocumentGrammar.ValueIsDerived` | cmd/runtime-release/document.go:53-112 | what is read as a value is derived, from its first character to its end |
| `ReleaseDocumentStrings.StringIsWhatItMeans` | cmd/runtime-release/document.go:99-100 | the reader takes a string for exactly what it denotes by section 7 of RFC 8259: every escape for its character, every surrogate pair for its one character, half a pair for the replacement character |
| `ReleaseDocumentStrings.MeaningIsOne` | cmd/runtime-release/document.go:99-100 | no text denotes two strings |
| `ReleaseDocumentStrings.SpellingMeansTheString` | cmd/runtime-release/document.go:116-126 | the printed spelling of a string denotes that string |
| `ReleaseDocumentLayout.LaidOutIsPrinted` | cmd/runtime-release/document.go:130-176 | the printer's texts are exactly those laid out with two spaces a level, one element a line, and every string in its one spelling |
| `ReleaseDocumentLayout.ByteIdenticalIff` | cmd/runtime-release/document.go:130-176 | a text is accepted and reproduced byte for byte if and only if it is laid out so |
| `ReleaseDocumentEdits.EditReachesItsTarget` | cmd/runtime-release/document.go:179-266 | an edit succeeds exactly when its path leads to a node it applies to, and then that node is what the edit makes of it |
| `ReleaseDocumentEdits.EditLeavesTheRest` | cmd/runtime-release/document.go:217-266 | nothing read along a path that parts from the edit's own has changed |
| `ReleaseDocumentEdits.RefusalsMean` | cmd/runtime-release/document.go:179-266 | each refusal of an edit names what is the case at one node on its path: no member of that name, a node without members, or a target that is not of the kind the edit is for |
| `ReleaseDocumentEdits.StringAnswers` | cmd/runtime-release/document.go:201-214 | reading a string of a well-formed document answers it exactly when the scalar spells it, or is null and it is empty |
| `ReleaseDocumentEdits.SetThenGet` | cmd/runtime-release/document.go:201-227 | a string set is the string read back |
| `ReleaseDocumentEdits.LastEditWins` | cmd/runtime-release/document.go:217-227 | setting again replaces the first setting |
| `ReleaseDocumentEdits.SettingTheSameIsNothing` | cmd/runtime-release/document.go:201-227 | setting what is already read there changes nothing exactly when it is not null |
| `ReleaseDocumentEdits.UpsertThenGet` | cmd/runtime-release/document.go:231-247 | an upserted member reads back, in place of the old one or last, and no other key is affected |
| `ReleaseDocumentEdits.RemoveThenGet` | cmd/runtime-release/document.go:250-266 | a removed key is gone and every other reads as before |
| `ReleaseDocumentEdits.RemoveUndoesUpsert` | cmd/runtime-release/document.go:231-266 | removing a member that was not there before it was upserted restores the document |
| `ReleaseDocumentEdits.EditKeepsWellFormed` | cmd/runtime-release/document.go:217-266 | an edited document is still well formed |
| `ReleaseDocumentEdits.RewriteReadsBack` | cmd/runtime-release/document.go:40-266 | parse, edit, print, parse gives the edited tree |
| `ReleaseDocumentCodec.Decoder.ReadChars` | cmd/runtime-release/document.go:99-100 | the string loop, proved against the grammar |
| `ReleaseDocumentCodec.Decoder.ReadMembers` | cmd/runtime-release/document.go:62-82 | the member loop, proved against the grammar |
| `ReleaseDocumentCodec.Decoder.ReadItems` | cmd/runtime-release/document.go:83-95 | the item loop, proved against the grammar |
| `ReleaseDocumentCodec.Decoder.ReadDocument` | cmd/runtime-release/document.go:40-51 | exactly one value and nothing but space after it |
| `ReleaseDocumentCodec.Printer.Write` | cmd/runtime-release/document.go:137-176 | the printer appends exactly the layout of the node at its depth |
| `ReleaseDocumentCodec.Printer.WriteMembers` | cmd/runtime-release/document.go:145-158 | the member loop writes every member once, in order, with separators between |
| `ReleaseDocumentCodec.Document.Descend` | cmd/runtime-release/document.go:179-198 | the descent loop, proved against the first-match lookup |
| `ReleaseDocumentCodec.Document.Keep` | cmd/runtime-release/document.go:258-265 | the filter loop keeps exactly the other members, in order |
| `ReleaseDocumentCodec.Document.Put` | cmd/runtime-release/document.go:240-247 | the upsert loop replaces the first member under the key in its place, or appends it |
| `ReleaseDocumentCodec.Document.Rewrite` | cmd/runtime-release/document.go:217-266 | an edit of the held document: its target, its error cases, and that everything off its path is untouched |
| `ContextCompiler.OrderDoesNotMatter` | internal/contextcompiler/context.go:141-148 | any two arrangements of any two permutations of the sources both succeed with the same result, or both fail |
| `ContextCompiler.CompilationIsBounded` | internal/contextcompiler/context.go:127-199 | one layer a source, in trust order when the sources are arranged so; class budgets sum to the layers' budgets and stay within the total; every content is within four bytes a token, free of registered secrets, and the longest valid prefix of the redacted source that fits whenever that source is text, as it always is when the secrets are |
| `ContextCompilerGrants.BudgetFollowsTrust` | internal/contextcompiler/context.go:141-192 | no class comes before one that is trusted more, the seven named in order, and every source is granted the lesser of what it asks and what all that are trusted more, and smaller identities of its own class, have left of the total |
| `ContextCompilerGrants.LaterSourcesCostNothing` | internal/contextcompiler/context.go:141-192 | so a source that comes after another never costs it a token |
| `ContextCompilerEvidence.SucceedsExactly` | internal/contextcompiler/context.go:127-192 | a compilation succeeds exactly when the request stands, no identity is used twice, and every source is fit on its own: its identity, workspace, trust, class and text, no credential, and no secret left |
| `ContextCompilerEvidence.CompilationIsEvident` | internal/contextcompiler/context.go:152-199 | the evidence adds up by class, counts every removed secret and classification, and reports a truncation for exactly the sources that were cut, with the bytes lost |
| `ContextCompilerEvidence.SourceRefusalsMean` | internal/contextcompiler/context.go:152-180 | why a source is refused, exactly |
| `ContextCompiler.HalfRuneIsDisclosed` | internal/contextcompiler/context.go:243-254 | a registered secret that is half a rune makes a compilation disclose what is not text |
| `ContextCompiler.OneArrangement` | internal/contextcompiler/context.go:141-148 | sources with distinct identities have exactly one arrangement by trust and identity |
| `ContextCompiler.SuccessMeansDistinct` | internal/contextcompiler/context.go:152-156 | compilation succeeds only if no source identity repeats |
| `ContextCompilerRun.Compiler.Arrange` | internal/contextcompiler/context.go:141-148 | the sources sorted: the same multiset, in order |
| `ContextCompilerRun.Compiler.Minimize` | internal/contextcompiler/context.go:215-257 | the redaction loops, proved against the specification; what survives is refused |
| `ContextCompilerRun.Compiler.AddOne` | internal/contextcompiler/context.go:152-192 | one pass of the compile loop, proved against the specification |
| `ContextCompilerRun.Compiler.Compile` | internal/contextcompiler/context.go:127-199 | the outcome is that of every arrangement of the request's sources; it succeeds exactly when all are fit; sources come in the order of the seven trust classes, and each is granted what the more trusted, and smaller identities of its own class, leave it |
| `Utf8.Truncate` | internal/contextcompiler/context.go:288-299 | the backwards loop cuts at the last boundary that fits, which for valid text is the longest valid prefix (section 3 of RFC 3629) |
| `Utf8.CutIsLongest` | internal/contextcompiler/context.go:288-299 | no longer prefix that fits is valid |
| `Utf8Encoding.ValidIffEncodes` | internal/contextcompiler/context.go:288-299 | valid byte strings are exactly the encodings of Unicode scalar values, each written as section 3 of RFC 3629 says |
| `Utf8Encoding.EncodingIsUnique` | internal/contextcompiler/context.go:288-299 | and no two texts have the same one |
| `Utf8.PrefixIsValidIff` | internal/contextcompiler/context.go:295-297 | the valid prefixes of valid text are exactly those that end at a rune boundary |
| `Utf8.ReplaceAll` | internal/contextcompiler/context.go:243-248 | the left-to-right replacement and its count |
| `Utf8.ReplacingKeepsValid` | internal/contextcompiler/context.go:243-248 | replacing valid by valid in valid text leaves valid text |
| `Utf8.RedactionStaysValidIff` | internal/contextcompiler/context.go:243-248 | redacting one secret from valid text leaves valid text exactly when the secret is itself valid or does not occur |
| `Utf8.HalfARune` | internal/contextcompiler/context.go:243-248 | taking the first byte of a two-byte rune out of a text leaves the second behind the marker |

## Left out

- PostgreSQL and workflow adapters, HTTP and event transport, configuration, command lines and composition: wiring, or SQL that is not in these files.
- Signatures, hashing and key handling: a signature check is a parameter, a digest an injective constructor.
- The protected audit: its part is that a mutation runs under one recorded decision; the reason it holds for an owning decision is a parameter of `Delete`.
- The run aggregate beyond the commit boundary: a run moves only through approval, committing, awaiting confirmation and the three outcomes; cancellation, retry, rebase and recorded failure are not modelled.
- Operator escalation, resolution and reconcile counts of a domain operation: they do not move the run; the escalated status stays in the status order.
- `ReserveReplacement`, `FenceCancelledRun`, `ReconcileSuperseded`, `OutstandingCancelledHolds` and exposure reporting of the budget: each adds one guard or one more loop of a shape already proved.
- `RetryBudget` and `Circuit` of admission: retry costs, jitter and a breaker counter.
- The coordinator's `Dispatched`, `Close`, `CancelRun` and `Settled` of dispatch: one-line delegations to repository methods that are proved.
- Listings sorted by identity: the ledger and the sweeps treat them as maps, since no result depends on the order.
- Retention periods and object-existence lookups of the artifact reconciler: its expiries and destructions may happen at any time in the custody protocol, which is more than it does; its sweep loop is not modelled.
- Artifact schema, lineage and validation fields, tags and precondition parsing: fixed data the protocol does not read.
- Artifact bytes: an object is its reference, present or absent; write-once conflicts between different bytes are not modelled, and creation is one step per identity.
- Custody over records that share an object, or that a transition buried: `ArtifactCustody.EveryRunKeepsInv` takes objects to be distinct and transitions never to ask for the tombstone; `ArtifactService.Service.Create` and `ArtifactService.Service.Transition` say exactly when one call breaks that.
- Version, generation and attempt counters are unbounded naturals, so their 64-bit wrap-around is not modelled.
- Aliasing of document nodes: trees are values, and writing through a node's reference is replacing it where its path leads, so sharing between nodes is not modelled.
- Text that is not valid UTF-8 in release documents: document text is a sequence of Unicode scalar values, so the decoder's replacement of invalid bytes is not modelled.
- Credential patterns in context minimization: any predicate of the content stands for them. The registered secrets are redacted in whatever order they are held.
- Digests, timestamps and policy references copied unchanged into compiled evidence, and the evidence recorder.
- BudgetController.Controller.ConcludeCancelledRun: states of the ledger left by a refused conclusion only that ledger operations made it, because which finality records were written before the refusal depends on the order of the listing.
- BudgetLedger.MemoryLedger.Reserve: refuses an estimate below one micro itself; the service leaves that to the controller in front of the ledger, which refuses the same estimates.
- BudgetLedger.MemoryLedger.Observe: refuses a negative cost, which the service's ledger would subtract; usage is taken to be non-negative throughout.
