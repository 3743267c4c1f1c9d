# Verified model of the application platform

A Dafny model of the parts of the platform that carry state across requests: the application
workflow, the documents, sections and signals that surround it, teams, invitations and calls, and
the check of CORS origins. Each stateful part comes twice: as a class whose methods change its
rows the way services and repositories do, and as functions over values. The methods are specified
by those functions: in the workflow, calls, teams, sections and invitations each service method takes
exactly one step (`ensures View() == Next(old(View()), ...)`), the methods on documents and signals
leave what a function of the old rows says (`AfterAttach`, `Refreshed`). What a step answers and does is
said once more without those functions, from the stored fields (lemmas named `...Answers`, `...Does`,
`...Stores`, `...Decides`). The promises are lemmas about all runs of the steps.

`dafny verify dfyconfig.toml` checks everything.

| file | what it is about |
|---|---|
| `Common.dfy` | options, results, roles |
| `Workflow.dfy`, `WorkflowEngine.dfy` | the workflow as interleaved transactions, and the methods that perform it |
| `WorkflowRuns.dfy`, `WorkflowTheorems.dfy`, `WorkflowExamples.dfy` | the invariant of its runs, what follows, and witnesses |
| `WorkflowOperations.dfy` | the answer and the effect of each request, from the fields of the application, and the decision that was asked for |
| `Registry.dfy` | all applications: draft creation and the partial unique index |
| `Documents.dfy`, `Completeness.dfy` | versioned document slots, the string-keyed completeness report |
| `Teams.dfy`, `Submission.dfy`, `SubmissionOperations.dfy` | team membership, how submission freezes team and documents, and what each submission had been checked for |
| `Sections.dfy`, `SectionList.dfy`, `SubmittedSections.dfy` | versioned sections as a ledger with a cursor, the bulk read, and sections beside submission |
| `Signals.dfy`, `SignalRuns.dfy` | the eligibility signals and their refresh, and the cache under overlapping requests |
| `Invitations.dfy`, `InvitationOperations.dfy` | organization invitations, and which token opens one |
| `Calls.dfy`, `CallOperations.dfy` | calls and their partial updates, and field by field what each request stores |
| `CorsPattern.dfy` | the glob compiler, an ECMA-262 pattern parser and matcher, and their agreement |

## Reads and writes

A request reads a snapshot, checks it (`Admit`) and leaves a transaction in flight; a later `Commit`
step performs its write (`Write`) on whatever the row holds by then. Any number of requests of any
users interleave in any order. A compare-and-set that misses rolls everything back. Two writes of the
workflow are not compare-and-set in the code and are not here either: submit and saving an evaluation.
Reply and resubmit run SERIALIZABLE and are one step each; a reply that overlaps a rejection touches
other rows than it and counts as coming first. The call's type and the team's leader may change at any
time (`SetContext`).

Calls, invitations and submission are modelled the same way, because there too the code reads in one
statement and writes in another: `Calls.Begin`/`Commit`, the `Begin...` steps with `Insert` and `Land`
of `Invitations`, attachments and membership changes that `Land` in `Submission`, and refreshes of signals
that `Land` in `SignalRuns`. Failing emails are steps of their own, and so is each refresh that follows the
write of a profile.

Where such a gap lets a promise fail, the promise is proved as an equivalence over all runs: it holds
at every point if and only if no step fires a condition, and the condition reads only what is stored
before the step, what the request had read and what it asks for.

## Assumptions

- New rows start as the schema's defaults say: applications DRAFT, needs-info items OPEN, sections at version 1.
- The unique constraints of the schema and the partial unique index over (teamId, callId) are enforced.
- Generated ids and tokens do not repeat, and the clock does not run backwards.
- In `Documents`, `Teams` and `Sections` each operation is one step; `Submission` splits those of the first two,
  and in `SubmittedSections` an upsert may have read another status than holds when it is stored.
- The checks that are not modelled (access to an organization, archived teams, the text of a section,
  the state of a team invitation) appear as an error or a Boolean that may take any value.
- Reasons and rationales are passed trimmed. Thresholds and section payloads are passed parsed, and a number
  that is stored as text comes back as the same number.

## Where the code promises less than one might expect

| promise | holds at every point if and only if | a run that breaks it |
|---|---|---|
| the log is a path from DRAFT to the stored status | no submit is written over a non-draft (`LogContiguousIffNoStaleSubmit`) | `DoubleSubmitBreaksLog` |
| evaluations stand still outside FORMALLY_VERIFIED and EVALUATING | no save is late (`EvaluationsFrozenExactly`) | `StaleEvaluationLands` |
| what is approved has been evaluated | no approve lands on an application without evaluations (`ApprovedIsEvaluatedExactly`) | `ApprovedWithoutEvaluation` |
| a team has one application under way | no submit is written while the team is busy with another (`OneBusyApplicationPerTeamExactly`) | `TeamMayHaveTwoOpenApplications` |
| submission freezes team and documents | no attachment or membership change lands after it (`SubmissionFreezesThePack`) | `LateAttachmentLands` |
| submitted Program A applications are document-complete | no submit is written over a missing CV, and nobody without one joins late (`SubmittedIsCompleteExactly`) | `JoinDuringSubmit` |
| one active invitation per email and organization | no insert, late resend or rollback makes one active beside another (`OneActiveInvitationExactly`) | `InterleavedCreatesCrowd`, `OverlappingResendsAwaken` |
| accepted and revoked invitations stay, and stay so | no resend or revoke lands on one, and no failed creation email deletes one (`SettledExactly`) | `LateResendRevivesAccepted`, `FailedCreationDeletesAccepted` |
| each invitation is in one list | no revoke lands on an accepted one (`ListsPartitionInvitations`) | `LateRevokeOfAccepted` |
| calls obey their rules and archived calls are final | no commit breaks them (`CallRulesExactly`) | `LateUpdateClearsOpenCall`, `LateOpenRevivesArchivedCall` |
| submitted Program A applications have all sections | no submit is written over a missing one, and none is unpinned afterwards (`SubmittedSectionsExactly`) | `UnpinDuringSubmit` |
| signals are never stale | no new limit passes a number of a team with stored signals, and no refresh lands whose reading, or the signals it leaves alone, no longer give what the moment gives (`SignalsAreNeverStaleExactly`) | `NewRulesOutdate`, `OverlappingJoinsLeaveStale` |

And `*` in a CORS pattern does not match line terminators (`StarDoesNotCrossLines`); on origins of one line
the check is glob matching.

## Model

| member | source | states |
|---|---|---|
| WorkflowTheorems.LogContiguousIffNoStaleSubmit | src/applications/applications.service.ts:600-680 | for all interleavings, the events form one path from DRAFT to the stored status if and only if no submit wrote over an application that had left DRAFT |
| WorkflowTheorems.LogIsLegalPath | src/applications/applications.service.ts:1127-1295 | without a stale submit the log is contiguous and every edge is one of the lifecycle |
| WorkflowRuns.EdgesAreWhatIsWritten | src/applications/applications.service.ts:416-1295 | quantified over every step on every application with well-formed transactions: some step can log a change if and only if it is an edge of the lifecycle |
| WorkflowTheorems.AtomicSubmitsAreNeverStale | src/applications/applications.service.ts:604-641 | a schedule in which each submit's write follows its read has no stale submit |
| WorkflowTheorems.AtomicSubmitsKeepTheLog | src/applications/applications.service.ts:1127-1295 | with atomic submits every interleaving of everything else leaves a contiguous, legal log |
| WorkflowTheorems.DoubleSubmitBreaksLog | src/applications/applications.repository.ts:259-272 | two submits that both read DRAFT log DRAFT to SUBMITTED twice and overwrite submittedAt |
| WorkflowTheorems.StaleSubmitBreaksLog | src/applications/applications.repository.ts:259-272 | any stale submit breaks adjacency of the log, from any state a run can reach |
| WorkflowTheorems.ItemsMatchEvents | src/applications/applications.service.ts:682-760 | in every run, stale submits included, items match the events entering NEEDS_INFO one by one and in order |
| WorkflowTheorems.NeedsInfoConservation | src/applications/applications.service.ts:682-917 | items match the events entering NEEDS_INFO one by one and in order, RESOLVED items equal NEEDS_INFO to EVALUATING events, and the log up to the decision has at most 2 * items + 4 events |
| WorkflowTheorems.LogLengthLaw | src/applications/applications.service.ts:682-917 | before the decision the length of the log is the exact sum of submission, verification, start of evaluation, items and resolved items |
| WorkflowTheorems.UnresolvedByStatus | src/applications/needs-info/needs-info.repository.ts:80-92 | one unresolved item in NEEDS_INFO, at most one in REJECTED, none anywhere else |
| WorkflowTheorems.UnresolvedIsCardinality | src/applications/needs-info/needs-info.repository.ts:80-92 | the running count of unresolved items is the number of the rows the query selects |
| WorkflowTheorems.ResubmitResolvesExactlyOne | src/applications/applications.service.ts:843-872 | the check for no unresolved items never fires, and a resubmit turns exactly one ANSWERED item into RESOLVED |
| WorkflowTheorems.HistoryIsKept | src/applications/applications.service.ts:947-1083 | from any point of any run on: the log is extended, resolved items stay, submittedAt and the decision are never rewritten, REJECTED and ARCHIVED are never left |
| WorkflowTheorems.StampsMatchStatus | src/applications/applications.service.ts:490-1083 | decidedAt is set exactly in the seven decided statuses, submittedAt exactly outside DRAFT, and exactly one event decides |
| WorkflowTheorems.ProgramBStatuses | src/applications/application-access.service.ts:210-218 | while the call stays PROGRAM_B only DRAFT, SUBMITTED, NEEDS_INFO and EVALUATING occur, stale submits included |
| WorkflowExamples.ProgramBReachesExactly | src/applications/applications.service.ts:682-917 | a status occurs in some PROGRAM_B run if and only if it is one of those four |
| WorkflowExamples.ApprovedWithoutEvaluation | src/applications/applications.service.ts:989-1005 | a clean run reaches APPROVED with no evaluation stored |
| WorkflowTheorems.ApprovedIsEvaluatedExactly | src/applications/applications.service.ts:989-1005 | in any run, applications from APPROVED on have evaluations at every point if and only if no approve lands on an EVALUATING application without any |
| WorkflowTheorems.ValidScoresArePermutations | src/applications/application-access.service.ts:62-92 | the three checks together accept exactly the permutations of the three criteria |
| WorkflowTheorems.NoDuplicates | src/applications/application-access.service.ts:62-92 | comparing the size of the set with the length of the list detects exactly the duplicates |
| WorkflowRuns.CompletenessIsNonEmptiness | src/applications/application-access.service.ts:94-118 | on valid evaluations ensureEvaluationCompleteness is non-emptiness |
| WorkflowTheorems.EvaluationsInEveryRun | src/applications/evaluations/application-evaluations.repository.ts:30-82 | in every run whatsoever: stored criterion codes are permutations of the required three, the completeness check is non-emptiness, and a recorded decision rests on an evaluation |
| WorkflowTheorems.EvaluationsFrozenUnlessStale | src/applications/applications.service.ts:416-463 | outside FORMALLY_VERIFIED and EVALUATING a step changes evaluations if and only if it commits a late save of other scores |
| WorkflowTheorems.EvaluationsFrozenExactly | src/applications/applications.service.ts:416-463 | for every run from any state: evaluations stand still outside those two statuses at every point if and only if no save is late |
| WorkflowTheorems.EvaluationsFrozenAfterDecision | src/applications/applications.service.ts:433-450 | from the decision on, the evaluations are the same at every point if and only if no save is late |
| WorkflowExamples.StaleEvaluationLands | src/applications/applications.service.ts:427-462 | a run from a new draft in which an evaluation admitted in time is stored after the rejection |
| WorkflowRuns.StepKeeps | src/applications/applications.service.ts:416-1295 | each step other than a stale submit keeps log, stamps, items, length and evaluations consistent, transactions in flight included |
| WorkflowRuns.RunKeeps | src/applications/applications.service.ts:416-1295 | so does every run without a stale submit |
| WorkflowOperations.DecisionIsTheOneAskedFor | src/applications/applications.service.ts:490-597 | in every run, whoever is recorded as decider asked for that decision: an earlier step is their request as a reviewer, a later one its write, and the event that this write appended enters APPROVED if they approved and REJECTED if not; without stale submits decidedAt is the moment of that write and it is the only deciding event |
| WorkflowOperations.DecisionAnswers | src/applications/applications.service.ts:490-545 | a decision is admitted if and only if a reviewer gives a rationale on an undecided PROGRAM_A application in FORMALLY_VERIFIED or EVALUATING with an evaluation that scores every required criterion; and which error each other request gets |
| WorkflowOperations.DecisionDoes | src/applications/applications.service.ts:546-580 | the write makes APPROVED of an approval and REJECTED of a rejection, records the user and the moment and appends the event from the read status, if the row is undecided and as it was read; otherwise it changes nothing |
| WorkflowOperations.TransitionAnswers | src/applications/applications.service.ts:416-1083 | each of the nine transitions is admitted if and only if a reviewer asks, with a reason where it rejects, pauses or archives, on a PROGRAM_A application in a status from which it leads on; and the errors of the rest |
| WorkflowOperations.TransitionDoes | src/applications/applications.service.ts:416-1083 | its write moves the row along that one edge with its event and stamps decidedAt only for approve and reject, or changes nothing if the status has moved |
| WorkflowOperations.SubmitAnswers | src/applications/applications.service.ts:600-640 | only the leader submits, only a draft, and then whatever else stands in the way is reported |
| WorkflowOperations.AskAnswers | src/applications/applications.service.ts:682-711 | a reviewer asks for information in SUBMITTED, FORMALLY_VERIFIED or EVALUATING, and gets an error otherwise |
| WorkflowOperations.AskDoes | src/applications/applications.service.ts:713-748 | one new OPEN item, named by its event, and NEEDS_INFO; or nothing if the status has moved |
| WorkflowOperations.EvaluationAnswers | src/applications/applications.service.ts:416-462 | scores are admitted if and only if a reviewer gives a permutation of the three criteria on a PROGRAM_A application in FORMALLY_VERIFIED or EVALUATING; and the errors of the rest |
| WorkflowOperations.ReplyAnswers | src/applications/applications.service.ts:762-817 | the leader answers an unresolved item in NEEDS_INFO; the error of every other case |
| WorkflowOperations.ResubmitAnswers | src/applications/applications.service.ts:843-872 | the leader resubmits in NEEDS_INFO if and only if some item is ANSWERED and none is OPEN; the error of every other case |
| WorkflowEngine.ApplicationRecord.constructor | src/applications/applications.repository.ts:200-214 | a new row is the initial state |
| WorkflowEngine.ApplicationRecord.SubmitDraft | src/applications/applications.repository.ts:259-272 | writes status and submittedAt without a condition |
| WorkflowEngine.ApplicationRecord.UpdateStatusIfCurrent | src/applications/applications.repository.ts:274-291 | changes status (and decidedAt if given) exactly when the status is the expected one, and counts it |
| WorkflowEngine.ApplicationRecord.UpdateDecisionIfCurrent | src/applications/applications.repository.ts:293-316 | writes the decision exactly when the status is the expected one and none was made |
| WorkflowEngine.ApplicationRecord.CreateItem | src/applications/needs-info/needs-info.repository.ts:13-30 | appends an OPEN item |
| WorkflowEngine.ApplicationRecord.CreateStatusEvent | src/applications/needs-info/needs-info.repository.ts:131-152 | appends one event to the log |
| WorkflowEngine.ApplicationRecord.BeginSubmit | src/applications/applications.service.ts:604-629 | the checks of submit and their errors, in order |
| WorkflowEngine.ApplicationRecord.BeginTransition | src/applications/applications.service.ts:1205-1243 | the checks of all nine transitions and their errors, in order |
| WorkflowEngine.ApplicationRecord.BeginDecision | src/applications/applications.service.ts:490-545 | the checks of createDecision and their errors, in order; an admitted request puts in flight APPROVED if it approves and REJECTED otherwise, in its user's name |
| WorkflowEngine.ApplicationRecord.BeginNeedsInfo | src/applications/applications.service.ts:682-709 | the checks of createNeedsInfoItem and their errors, in order |
| WorkflowEngine.ApplicationRecord.BeginEvaluation | src/applications/applications.service.ts:416-437 | the checks of createEvaluation and their errors, in order |
| WorkflowEngine.ApplicationRecord.CommitSubmit | src/applications/applications.service.ts:631-641 | the unconditional write and its event are one Commit step |
| WorkflowEngine.ApplicationRecord.CommitTransition | src/applications/applications.service.ts:1245-1268 | compare-and-set and event are one Commit step, which succeeds exactly when the status has not moved |
| WorkflowEngine.ApplicationRecord.CommitDecision | src/applications/applications.service.ts:546-580 | one compare-and-set on status and unset decidedAt; when it hits, status, decidedAt and decisionBy are those of the decision and its event is appended, else nothing changes |
| WorkflowEngine.ApplicationRecord.CommitNeedsInfo | src/applications/applications.service.ts:711-744 | the item created before the compare-and-set is gone when the write loses the race |
| WorkflowEngine.ApplicationRecord.CommitEvaluation | src/applications/evaluations/application-evaluations.repository.ts:30-82 | the evaluator's scores are replaced as a whole |
| WorkflowEngine.ApplicationRecord.ReplyToNeedsInfoItem | src/applications/applications.service.ts:762-818 | marks an OPEN item ANSWERED, leaves an ANSWERED one, with the error of each failing check |
| WorkflowEngine.ApplicationRecord.ResubmitApplication | src/applications/applications.service.ts:820-917 | resolves the answered items, moves to EVALUATING and logs it, with the error of each failing check |
| Registry.OneOpenApplicationPerTeamAndCall | prisma/migrations/20260420080000_add_application_unique_index/migration.sql:1-3 | in every run whatsoever at most one application per (team, call) is outside REJECTED and ARCHIVED |
| Registry.DraftAnswers | src/applications/rules/application-rules.service.ts:28-69 | which error each refusal of createDraft gives, in order: the call and the team, an application of the team under way, another user than the leader, an open application of the same team and call; accepted otherwise |
| Registry.DraftDoes | src/applications/applications.service.ts:173-218 | a checked request inserts an empty draft of its team, call and leader, unless an application of the pair was opened in between; then it inserts nothing |
| Registry.IndexNeverRefusesWork | src/applications/applications.repository.ts:239-257 | without stale submits no workflow step is ever refused by the unique index |
| Registry.OneBusyApplicationPerTeamExactly | src/applications/applications.repository.ts:216-237 | in any run no team has two applications under way at any point if and only if no submit is written while the team is busy with another, the check createDraft makes and submit omits |
| Registry.TeamMayHaveTwoOpenApplications | src/applications/applications.repository.ts:216-237 | a clean run in which one team has two SUBMITTED applications for different calls |
| Documents.DocumentPack.DeactivateActiveBySlot | src/applications/documents/application-documents.repository.ts:104-124 | afterwards no row of the slot is active, no row changed in anything but that, and rows of other slots not at all |
| Documents.DeactivatedSlots | src/applications/documents/application-documents.repository.ts:104-124 | seen slot by slot: the versions of the one slot are all kept, inactive, and those of every other slot are the same list |
| Documents.DocumentPack.CreateVersioned | src/applications/documents/application-documents.repository.ts:126-134 | appends the new row |
| Documents.DocumentPack.AttachDocument | src/applications/applications.service.ts:239-323 | on success the slot's rows are deactivated and the next version is appended active, on any failing check nothing changes |
| Documents.AttachAnswers | src/applications/applications.service.ts:239-275 | an attachment is accepted if and only if the leader makes it on a PROGRAM_A draft, a CV names the leader or a member and nothing else names anybody, and the file is uploaded and belongs to the leader or, for a CV, to the member it is about; which slot it gets, and the error of every refusal |
| Documents.LatestIsLength | src/applications/documents/application-documents.repository.ts:81-102 | the highest version among a slot's rows is their number |
| Documents.AttachmentEffect | src/applications/applications.service.ts:281-310 | an attachment extends its slot by the next version as its only active row and leaves every other slot as it was |
| Documents.SlotsAreVersioned | src/applications/applications.service.ts:239-323 | after any calls in any contexts each slot's versions are exactly 1..n in order and exactly the highest is active |
| Documents.PackIsFrozenOutsideDraft | src/applications/applications.service.ts:260-260 | calls that read another status than DRAFT change no row |
| Completeness.SlotKeyCollision | src/applications/applications.service.ts:1418-1424 | two slots share a key if and only if type, scope and member text agree, so only an absent member and one named application can clash |
| Completeness.SlotKeyInjective | src/applications/applications.service.ts:1297-1336 | on the slots the service produces the key is injective for arbitrary user ids |
| Completeness.BuildRequiredDocumentSlots | src/applications/applications.service.ts:1390-1416 | the nested loops build exactly the application slots of the required types and one CV slot per member |
| Completeness.RequiredSlotsInOrder | src/applications/applications.service.ts:1390-1416 | the required slots stand in the order of the call's document types, one for each, and for a CV one for each member in the order of the members |
| Completeness.KeyLookupExact | src/applications/applications.service.ts:1350-1359 | looking a slot up by key finds exactly the slots with an active row |
| Completeness.ReportSplitsRequiredSlots | src/applications/applications.service.ts:1361-1387 | satisfied and missing are an order-preserving merge of the required slots, split by whether an active document fills them |
| Completeness.ReportIsCompleteExactly | src/applications/applications.service.ts:1338-1388 | isComplete if and only if every required type other than CV has an active application document and, if CV is required, every member an active CV |
| Completeness.ProgramBNeedsNothing | src/applications/applications.service.ts:1338-1348 | the report of a PROGRAM_B application is complete and lists no document |
| Teams.TeamRecord.constructor | src/team/team.service.ts:43-94 | the creator leads the new team and is its member |
| Teams.TeamRecord.DeleteMembership | src/team/team.repository.ts:146-157 | removes the user's rows and no others and returns how many |
| Teams.TeamRecord.RemoveTeamMember | src/team/team.service.ts:308-354 | the checks in order, then the member is gone |
| Teams.TeamRecord.LeaveTeam | src/team/team.service.ts:356-402 | the checks in order, then the member is gone |
| Teams.TeamRecord.TransferLeadership | src/team/team.service.ts:404-446 | done if and only if the leader names a member while the team is unlocked; then that member leads, and members and lock are as before; the errors come in the source order |
| Teams.TeamRecord.AcceptInvitation | src/team/invitations/invitation.service.ts:290-399 | joins an unlocked team once; unknown, used and foreign invitations are reported before the lock, lapsed ones after it |
| Teams.TeamRecord.LockOnSubmission | src/applications/applications.service.ts:648-654 | writes lockedAt exactly when the submit had read the team unlocked, so an overlapping second submit moves its time |
| Teams.LeaderIsLastNamed | src/team/team.service.ts:404-446 | after any steps the leader is the one whom the last accepted transfer named, or the first leader if none was accepted; accepted means that the leader of that moment named a member while the team was unlocked |
| Teams.TeamAnswers | src/team/team.service.ts:308-446 | for each of the operations, from leader, lock and members: exactly when it is accepted and exactly when it fails with which error |
| Teams.TeamEffects | src/team/team.repository.ts:159-168 | what each accepted operation leaves: a removal takes every row of that user and no other, a transfer changes the leader alone, a join appends one member, a lock changes the lock alone; a refused one changes nothing |
| Teams.WithoutRemoves | src/team/team.repository.ts:146-157 | the remaining members are exactly the others |
| Teams.LeaderIsAlwaysMember | src/team/team.service.ts:308-446 | from creation on the leader is a member in every run |
| Teams.LockedTeamIsFrozen | src/team/team.service.ts:532-545 | operations that find the team locked change neither leader nor members, in any sequence, and nothing unlocks it |
| Submission.SubmittedIsCompleteExactly | src/applications/applications.service.ts:600-654 | in any run with all reads and writes apart, Program A applications outside DRAFT are document-complete at every point if and only if no submit is written while a member lacks a required CV and nobody without one joins late |
| SubmissionOperations.SubmittedWasFoundComplete | src/applications/applications.service.ts:600-680 | in every run, an application that is no draft was written by a submit whose request the leader made on a draft with a complete pack |
| SubmissionOperations.SubmitRequestDoes | src/applications/applications.service.ts:600-640 | a submit is admitted if and only if the leader makes it on a draft, every required document and every member's CV is there in PROGRAM_A, and nothing else is reported |
| SubmissionOperations.SubmitReports | src/applications/applications.service.ts:618-633 | what submit reports, in order: the call and the team, then missing sections, then missing documents, the last two in PROGRAM_A only |
| SubmissionOperations.AttachRequestDoes | src/applications/applications.service.ts:239-275 | with other requests in between, an attachment is admitted by what is stored when it reads: leader, draft, slot and file |
| Submission.SubmissionFreezesThePack | src/applications/applications.service.ts:600-654 | from submission on leader, members and document rows stay the same at every point if and only if no attachment or membership change lands on the submitted application |
| Submission.SubmittedIsLocked | src/applications/applications.service.ts:648-654 | in every run the leader is a member and an application outside DRAFT has its team locked |
| Submission.OnlyNewcomersLackCv | src/applications/applications.service.ts:618-629 | whoever lacks a required CV when a submit is written was not a member when it was read |
| Submission.JoinDuringSubmit | src/applications/applications.service.ts:604-654 | a member who joins between read and write leaves the application submitted without the CV |
| Submission.LateAttachmentLands | src/applications/applications.service.ts:239-311 | an attachment that read the draft adds a document to the submitted application |
| Sections.SectionTable.UpsertRow | src/applications/sections/application-sections.repository.ts:52-80 | creates version 1 or increments, replacing the value |
| Sections.SectionTable.SetActive | src/applications/sections/application-sections.repository.ts:136-145 | moves the active pointer of one section |
| Sections.SectionTable.UpsertSection | src/applications/sections/application-sections.service.ts:88-145 | row, history entry and active pointer change together or, on any error, not at all |
| Sections.SectionTable.SetActiveVersion | src/applications/sections/application-sections.service.ts:181-249 | pins a version that has a history row, or unpins, with the error of each failing check |
| Sections.SectionAnswers | src/applications/sections/application-sections.service.ts:88-249 | the error of every refused save and pin in the order of the checks, and when each is accepted |
| Sections.ReadAnswers | src/applications/sections/application-sections.service.ts:255-340 | an unsupported key fails; otherwise a pinned version is read from its history row and, if that is absent or null, the section's own value is |
| Sections.StoreIsLedger | src/applications/sections/application-sections.service.ts:88-249 | after any run the store is an append-only list of payloads per key with a cursor: history versions are exactly 1..version, each holds what was saved then, pins are in range |
| Sections.UpsertIsAccepted | src/applications/sections/application-sections.repository.ts:82-97 | in a reachable store a checked upsert never meets the unique constraint on history |
| Sections.ReadReturnsPinnedPayload | src/applications/sections/application-sections.service.ts:255-303 | a read returns the payload saved at the pinned version, or the latest when none is pinned |
| Sections.HistoryIsAppendOnly | src/applications/sections/application-sections.repository.ts:82-97 | no step changes or removes a history row |
| Sections.CheckSectionsExact | src/applications/application-access.service.ts:322-340 | submit's check passes exactly when every required key has an active version |
| Sections.CompletenessIsLostExactly | src/applications/sections/application-sections.service.ts:181-249 | complete sections become incomplete exactly by an accepted unpinning of a required key |
| Sections.LostMeansUnpinned | src/applications/sections/application-sections.service.ts:181-249 | if sections complete at one point are incomplete later, a required one was unpinned in between |
| SubmittedSections.SubmittedSectionsExactly | src/applications/applications.service.ts:618-641 | in any run with submit read and written apart and late upserts, Program A applications outside DRAFT have all required sections at every point if and only if no submit is written over a missing one and none is unpinned afterwards |
| SubmissionOperations.SectionRequestDoes | src/applications/application-access.service.ts:322-340 | a submit is admitted by the sections if and only if each required one has an active version; PROGRAM_B asks for none |
| SubmittedSections.UnpinDuringSubmit | src/applications/application-access.service.ts:322-340 | a section unpinned between read and write is missing from the submitted application |
| SectionList.DecimalInjective | src/applications/sections/application-sections.service.ts:45-86 | different versions print differently |
| SectionList.HistoryKeyInjective | src/applications/sections/application-sections.service.ts:45-86 | the concatenated key is injective for arbitrary section ids |
| SectionList.HistoryMapExact | src/applications/sections/application-sections.service.ts:45-86 | the map built from the bulk rows holds exactly their keys and values |
| SectionList.ListSectionsAgreesWithRowLookup | src/applications/sections/application-sections.service.ts:45-86 | for any list of sections and any order of the bulk result, the list is row by row what toSectionDto returns, and fails exactly when one of them fails |
| Signals.SignalDesk.UpsertSignal | src/applications/eligibility-signals/eligibility-signals.repository.ts:19-44 | overwrites one (application, code) |
| Signals.SignalDesk.RecomputeForApplication | src/applications/eligibility-signals/eligibility-signals.service.ts:31-90 | the loop that skips unchanged signals leaves what writing all five leaves, and writes exactly those that differed |
| Signals.SignalDesk.RecomputeForTeam | src/applications/eligibility-signals/eligibility-signals.service.ts:92-105 | refreshes every application of the team that is not REJECTED or ARCHIVED, in any order |
| Signals.SignalDesk.ChangeMembership | src/team/team.service.ts:308-446 | an accepted change refreshes the team's applications, a refused one, an unknown team included, changes nothing |
| Signals.SignalDesk.RecomputeForStudent | src/applications/eligibility-signals/eligibility-signals.service.ts:107-120 | refreshes the active applications of every team the student is in |
| Signals.SignalDesk.UpdateProfile | src/student-profile/student-profile.service.ts:58-87 | write and refresh without interruption leave the student's active applications fresh |
| Signals.PresenceSignalsExact | src/applications/eligibility-signals/eligibility-signals.service.ts:187-238 | these two signals pass exactly when every member has a profile with the mark |
| Signals.LimitSignalsExact | src/applications/eligibility-signals/eligibility-signals.service.ts:236-323 | the transferred-subjects and average signals pass exactly when no member who reports a number exceeds the number stored for that very code, or 0 and 2 where none is stored, it is blank or it is not finite |
| Signals.MinimumDecides | src/applications/eligibility-signals/eligibility-signals.service.ts:155-186 | the team-size signal passes if and only if the team has at least the number stored for TEAM_SIZE_MIN, else 3, and otherwise names its size and that number |
| Signals.MissingMarksDecide | src/applications/eligibility-signals/eligibility-signals.service.ts:188-234 | the two presence signals fail with exactly the members without the declaration, respectively the evidence, and a member without a profile lacks both |
| Signals.TransferredDecides | src/applications/eligibility-signals/eligibility-signals.service.ts:236-286 | the signal fails with exactly the members who have transferred more subjects than the number stored for TRANSFERRED_SUBJECTS_MAX, else 0; a set mark without a count counts as one |
| Signals.AverageDecides | src/applications/eligibility-signals/eligibility-signals.service.ts:288-323 | the signal fails with exactly the members whose average is above the number stored for PROFILE_SUBJECTS_AVERAGE_MAX, else 2 |
| Signals.OwnRuleAndMembersOnly | src/applications/eligibility-signals/eligibility-signals.service.ts:31-60 | two calls that agree on the rule of a code give the same signal of that code, and only profiles of members matter |
| Signals.CurrentReads | src/applications/eligibility-signals/eligibility-signals.service.ts:31-60 | the signal of an application is computed from the members of its own team, the stored profiles and the rules of its own call |
| Signals.RefreshedApplications | src/applications/eligibility-signals/eligibility-signals.repository.ts:45-95 | the applications refreshed for a team, or for a student, are all of theirs but the rejected and the archived ones |
| Signals.ReadsWhatIsStored | src/applications/eligibility-signals/eligibility-signals.service.ts:122-153 | each code is read exactly once: as it is stored, or as not passed and not computed if it never was |
| Signals.ReasonsAreExact | src/applications/eligibility-signals/eligibility-signals.service.ts:155-323 | a signal fails exactly when it carries a reason, and every member named in it fails alone |
| Signals.RulesMatterExactly | src/applications/eligibility-signals/eligibility-signals.service.ts:155-323 | new thresholds change one of the five signals if and only if the minimum changes for a team below the old or the new one, or a member's number lies between the old and the new maximum |
| Signals.RefreshedExact | src/applications/eligibility-signals/eligibility-signals.service.ts:62-89 | refreshed applications hold the current five signals, all others are untouched |
| Signals.SkippingIsWriting | src/applications/eligibility-signals/eligibility-signals.service.ts:62-89 | skipping an unchanged signal equals writing it |
| Signals.WritingAllIsRefreshing | src/applications/eligibility-signals/eligibility-signals.service.ts:62-89 | writing the five one by one equals refreshing at once |
| Signals.SecondRecomputeWritesNothing | src/applications/eligibility-signals/eligibility-signals.service.ts:62-89 | a second run finds nothing to write |
| Signals.ReadAfterRecompute | src/applications/eligibility-signals/eligibility-signals.service.ts:122-153 | reading after a recompute returns the five current signals in order, none a placeholder |
| SignalRuns.MembershipChangeRefreshes | src/team/team.service.ts:308-402 | an uninterrupted change leaves every active application of the team fresh whatever was stored, and other teams' signals untouched |
| SignalRuns.RefreshDoes | src/applications/eligibility-signals/eligibility-signals.service.ts:31-90 | after an uninterrupted recompute the application's five signals are current and nothing else has changed |
| SignalRuns.StudentRefreshDoes | src/applications/eligibility-signals/eligibility-signals.service.ts:107-120 | the uninterrupted refresh of a waiting application makes its signals current and takes it alone off the list |
| SignalRuns.ProfileWriteDoes | src/student-profile/student-profile.service.ts:77-84 | writing a profile writes nothing else, and exactly the active applications of the user's teams then wait for their refresh |
| SignalRuns.PlainStepsDo | src/applications/calls/admin-calls.service.ts:153-171 | new rules, statuses, drafts, teams and locks change that one entry and leave every stored signal alone |
| SignalRuns.SignalsAreNeverStaleExactly | src/applications/eligibility-signals/eligibility-signals.service.ts:31-120 | in any run with overlapping refreshes every active application has no signals, the current ones, or waits for the refresh of a written profile, at every point if and only if no rules outdate a stored signal by `RulesMatter` and no landing writes or leaves alone what its reading no longer supports |
| SignalRuns.LandExactly | src/applications/eligibility-signals/eligibility-signals.service.ts:52-90 | a landing keeps all signals current if and only if it neither writes a result that its reading no longer gives nor leaves alone a signal that its change alters |
| SignalRuns.SetRulesExactly | src/applications/calls/admin-calls.service.ts:153-171 | new rules keep all signals current if and only if they move no limit across a number of a team whose signals are stored |
| SignalRuns.UnshiftedLandingIsSafe | src/applications/eligibility-signals/eligibility-signals.service.ts:35-89 | a landing does no harm if members, profiles, rules and the signals it skips are as it read them and no application is new to it |
| SignalRuns.UninterruptedWrites | src/applications/eligibility-signals/eligibility-signals.service.ts:52-90 | a refresh that is not interrupted writes what writing all five would |
| SignalRuns.SignalsAreNeverStale | src/applications/eligibility-signals/eligibility-signals.service.ts:31-120 | if no rules outdate a signal and every refresh finds what it had read, signals are absent, current or awaited |
| SignalRuns.NewRulesOutdate | src/applications/calls/admin-calls.service.ts:153-171 | raising a call's minimum team size leaves a passed signal stored |
| SignalRuns.OverlappingJoinsLeaveStale | src/team/invitations/invitation.service.ts:332-392 | two users accept at once and a team of three keeps the signal of a team of two, with no rule changed |
| Invitations.InvitationTable.constructor | src/organization/organization-invitation.repository.ts:21-28 | the table starts empty |
| Invitations.InvitationTable.BeginCreateInvite | src/organization/organization-invite.service.ts:62-88 | the checks of createInvite and their errors; nothing is written yet |
| Invitations.InvitationTable.InsertInvite | src/organization/organization-invite.service.ts:90-99 | inserts a pending row unconditionally and hands over its email |
| Invitations.InvitationTable.BeginRevokeInvite | src/organization/organization-invite.service.ts:178-194 | access, organization, pending and unexpired, with their errors |
| Invitations.InvitationTable.WriteRevoked | src/organization/organization-invite.service.ts:196-203 | sets REVOKED and revokedAt whatever the row holds by then |
| Invitations.InvitationTable.BeginResendInvite | src/organization/organization-invite.service.ts:212-234 | the same checks, and the token and expiry a failure would put back |
| Invitations.InvitationTable.WriteResent | src/organization/organization-invite.service.ts:236-250 | sets PENDING, token and expiry whatever the row holds by then |
| Invitations.InvitationTable.AcceptInvite | src/organization/organization-invite.service.ts:270-364 | done only if the stored token is the presented one, the email is the user's, nothing else stands in the way and the row is pending and unexpired; then exactly status and acceptedAt change, and a refusal changes nothing |
| Invitations.InvitationTable.DeliverMail | src/organization/organization-invite.service.ts:245-260 | a failed email deletes a created invitation or puts the old token and expiry back |
| InvitationOperations.AcceptedWithLastToken | src/organization/organization-invite.service.ts:270-281 | over all runs: an invitation is accepted only with the token that the last of its insert, its landed resends and its rollbacks stored |
| InvitationOperations.TokenIsLastStored | src/organization/organization-invite.service.ts:62-268 | in every run the token of a row is the one that the last of these steps stored |
| InvitationOperations.ReplacedTokenIsRefused | src/organization/organization-invite.service.ts:231-281 | from the landing of a resend with a new token on, the replaced token is answered NotFound by this invitation until a step stores it there again, and by every invitation if no other held it and no step stores it |
| InvitationOperations.UnstoredIsRefused | src/organization/organization-invite.service.ts:270-281 | a token that no row holds and no step stores is answered NotFound at every point |
| InvitationOperations.AcceptAnswers | src/organization/organization-invite.service.ts:270-322 | every answer of acceptInvite from the columns of the row: NotFound without the token, Forbidden for another user, then the organization, BadRequest or Conflict by the state, the role and the link of the user, and acceptance otherwise |
| InvitationOperations.CreateAnswers | src/organization/organization-invite.service.ts:62-88 | an invitation is refused as a conflict if and only if a pending, unrevoked, unexpired one of the same email and organization is stored |
| InvitationOperations.ChangeAnswers | src/organization/organization-invite.service.ts:178-234 | revoke and resend need a row of that organization that is pending, without timestamps and unexpired; the error of every other case |
| InvitationOperations.DisplayAnswers | src/common/invitations/invitation-state.utils.ts:46-72 | a revoked row shows REVOKED, else an accepted one ACCEPTED, else an expired one EXPIRED, and PENDING is what an answer can still be given to |
| InvitationOperations.InsertDoes | src/organization/organization-invite.service.ts:90-99 | the new row is PENDING with its token and expires after the configured number of days |
| InvitationOperations.RevokeDoes | src/organization/organization-invite.service.ts:196-203 | status and revokedAt change, the latter to the moment of the check, and nothing else |
| InvitationOperations.ResendDoes | src/organization/organization-invite.service.ts:236-250 | token, expiry and status change and nothing else, and the email on its way keeps the token and expiry that were read |
| InvitationOperations.FailureDoes | src/organization/organization-invite.service.ts:245-260 | a failed creation email leaves no row, a failed resend puts token and expiry back and leaves status and timestamps |
| Invitations.AwakensExactly | src/organization/organization-invite.service.ts:212-268 | in any state a step makes a known invitation active if and only if it is a resend landing on one that expired or was accepted since, or a rollback restoring an unexpired expiry |
| Invitations.QuietExactlyFrom | src/organization/organization-invite.service.ts:62-364 | over whole runs: no known invitation ever becomes active at any point if and only if none of these two happens |
| Invitations.StepKeepsOneActiveExactly | src/organization/organization-invite.service.ts:76-103 | from any state with one active invitation per pair, a step keeps that if and only if it makes none active, or inserts none, beside an active one |
| Invitations.OneActiveInvitationExactly | src/organization/organization-invite.service.ts:62-268 | at every point of a run at most one invitation per (email, organization) is active if and only if no write makes one active beside another, the check createInvite makes before its insert |
| Invitations.OneActiveInvitation | src/organization/organization-invitation.repository.ts:30-45 | if every write still meets the check of its request, resends do not overlap and no accepted invitation's creation fails, then uniqueness, permanence and the partition of the lists all hold at every point |
| Invitations.UndisturbedRunsAreHarmless | src/organization/organization-invite.service.ts:212-268 | such runs fire none of the four conditions; in particular taking back a single resend only shortens the validity |
| Invitations.InactiveForGood | src/organization/organization-invite.service.ts:62-268 | from any point on at which no write awakens, what is not active never becomes active again |
| Invitations.SettledExactly | src/organization/organization-invite.service.ts:178-243 | accepted and revoked invitations are kept with status and timestamps at every point if and only if no resend, no revoke of another moment, and no failure of the creation's email hits one |
| Invitations.SettledForGood | src/organization/organization-invite.service.ts:178-364 | then an accepted or revoked invitation is never deleted and keeps its status and timestamps for the rest of the run |
| Invitations.FiltersMatchDisplayExactly | src/common/invitations/invitation-state.utils.ts:46-72 | for an arbitrary row the list filters select exactly the displayed status if and only if its three facts do not clash |
| Invitations.GuardMatchesDisplay | src/organization/organization-invite.service.ts:534-570 | for an arbitrary row acceptance is possible if and only if PENDING is displayed, and the query for active ones differs from that only on accepted rows made pending again |
| Invitations.ListsPartitionInvitations | src/organization/organization-invite.service.ts:482-521 | in any run the four lists partition the invitations by displayed status at every point if and only if no revoke lands on an accepted one |
| Invitations.InterleavedCreatesCrowd | src/organization/organization-invite.service.ts:76-103 | two creates that both look before either inserts leave two active invitations |
| Invitations.LateResendRevivesAccepted | src/organization/organization-invite.service.ts:229-243 | a resend that looked before the acceptance makes the accepted invitation pending and active |
| Invitations.LateRevokeOfAccepted | src/organization/organization-invite.service.ts:193-203 | a revoke that looked before the acceptance puts the invitation into two lists |
| Invitations.FailedCreationDeletesAccepted | src/organization/organization-invite.service.ts:90-112 | an invitation accepted through a resend's email is deleted when the email of its creation fails |
| Invitations.OverlappingResendsAwaken | src/organization/organization-invite.service.ts:231-260 | two resends with their emails on the way lead to two active invitations of one pair |
| Calls.CallTable.UpdateAdminCall | src/applications/calls/calls.repository.ts:158-232 | given fields are written, undefined ones kept, lists replaced as a whole |
| Calls.CallTable.CreateCall | src/applications/calls/admin-calls.service.ts:52-72 | one `Create` step and its answer; the new draft has the given title, documents, categories and tags, each under its own name |
| CallOperations.CreateAnswers | src/applications/calls/admin-calls.service.ts:52-58 | a call is created if and only if an administrator asks, a PROGRAM_B call names no documents, the dates are in order and no option value of a PROGRAM_A call repeats; the error of every refusal |
| CallOperations.CreateStores | src/applications/calls/admin-calls.service.ts:285-310 | an accepted create stores a DRAFT with the given title and dates, the given documents, the categories as categories and the tags as tags, each empty when omitted, and each threshold under its own code, else 3, 0 and 2; PROGRAM_B gets none of these |
| CallOperations.UpdateAnswers | src/applications/calls/admin-calls.service.ts:123-179 | an update is accepted if and only if the call is not archived, the dates that result are in order, an open call keeps its dates and a document, and no option value repeats; the error of every refusal |
| CallOperations.UpdateStores | src/applications/calls/admin-calls.service.ts:123-179 | field by field what an update writes over the row it finds, with another call read before: type, title and dates by the request or else as read, lists only if named or if the type changes |
| CallOperations.UpdateStoresRules | src/applications/calls/admin-calls.service.ts:312-360 | each threshold is the given one, else what the read call stores for that code, else 3, 0 and 2 |
| CallOperations.LastRowCounts | src/applications/calls/admin-calls.service.ts:319-326 | of several stored rows of a rule the last one counts |
| CallOperations.StatusAnswers | src/applications/calls/admin-calls.service.ts:199-273 | opening needs a draft or closed call with dates in order and, in PROGRAM_A, a document; closing an open call; archiving a closed one; and the errors otherwise |
| CallOperations.StatusStores | src/applications/calls/admin-calls.service.ts:224-273 | opening, closing and archiving change the status and nothing else |
| Calls.CallTable.BeginUpdate | src/applications/calls/admin-calls.service.ts:123-151 | the checks of updateCall on the call it reads, with their errors |
| Calls.CallTable.BeginOpen | src/applications/calls/admin-calls.service.ts:199-223 | the checks of openCall in order: already open, archived, not ready |
| Calls.CallTable.BeginClose | src/applications/calls/admin-calls.service.ts:233-245 | only an open call is admitted for closing |
| Calls.CallTable.BeginArchive | src/applications/calls/admin-calls.service.ts:254-266 | only a closed call is admitted for archiving |
| Calls.CallTable.CommitWrite | src/applications/calls/admin-calls.service.ts:153-179 | the patch is applied to whatever the call is by then |
| Calls.UpdateBreaksExactly | src/applications/calls/admin-calls.service.ts:129-179 | an update computed on one call and written over another leaves it in order if and only if it neither keeps Program A lists on a Program B call nor takes a date or the last required document from an open one |
| Calls.WriteBreaksExactly | src/applications/calls/admin-calls.service.ts:123-273 | for the write of any admitted request on any call: rules and archived state survive if and only if a condition on the stored row, the read call and the request does not fire |
| Calls.CallRulesExactly | src/applications/calls/admin-calls.service.ts:52-273 | in any run the rules of all calls hold and archived calls do not change, at every point, if and only if no commit fires that condition |
| Calls.UndisturbedRunsAreSafe | src/applications/calls/admin-calls.service.ts:123-273 | commits that find the call as their request read it never fire it |
| Calls.CallsInEveryRun | src/applications/calls/admin-calls.service.ts:52-273 | in such runs opensAt is before closesAt, open calls have both dates and Program A ones a required document, Program B calls carry no Program A data |
| Calls.ArchivedCallsAreFinal | src/applications/calls/admin-calls.service.ts:131-135 | in such runs an archived call never changes again |
| Calls.UpdateChangesOnlyWhatIsGiven | src/applications/calls/admin-calls.service.ts:123-197 | an accepted update that keeps the type gives every date, list, title and threshold the value that the request names, and leaves each one it omits as it was |
| Calls.LateUpdateClearsOpenCall | src/applications/calls/admin-calls.service.ts:153-179 | an update that read the draft clears the dates of the call that was opened meanwhile |
| Calls.LateOpenRevivesArchivedCall | src/applications/calls/admin-calls.service.ts:199-227 | an open that read the closed call reopens it after it was archived |
| Calls.VisibleIsOpenForApplications | src/applications/rules/application-rules.service.ts:71-93 | any call whatever is publicly visible exactly when it takes applications |
| Calls.VisibleIsWithinDates | src/applications/calls/calls.repository.ts:475-487 | without breaking commits that is exactly an open call within its two dates |
| CorsPattern.SourceParses | src/infrastructure/config/config.service.ts:263-266 | the built text is a pattern of section 22.2.1 of ECMA-262 with one alternative that reads the glob literally, for every glob |
| CorsPattern.StarMatches | src/infrastructure/config/config.service.ts:263-266 | under section 22.2.2 the compiled star matches exactly the strings without line terminator |
| CorsPattern.MatchGivesFills | src/infrastructure/config/config.service.ts:263-266 | soundness: an accepting run spells out texts for the stars |
| CorsPattern.FillsGiveMatch | src/infrastructure/config/config.service.ts:263-266 | completeness: any such texts give an accepting run |
| CorsPattern.WildcardRegExpMeaning | src/infrastructure/config/config.service.ts:263-266 | for every glob and origin the expression accepts exactly the origins the glob covers with one-line stars |
| CorsPattern.CorsOriginExact | src/infrastructure/config/config.service.ts:251-261 | exactly which origins an entry admits, line terminators included |
| CorsPattern.CorsOriginIsGlobMatching | src/infrastructure/config/config.service.ts:251-266 | on one-line origins the check is plain glob matching, with and without stars |
| CorsPattern.StarDoesNotCrossLines | src/infrastructure/config/config.service.ts:265-265 | the one-line condition cannot be dropped |
| CorsPattern.OneStarFixesBothEnds | src/infrastructure/config/config.service.ts:251-266 | an entry with one star admits exactly the origins with its two ends, not overlapping |
| CorsPattern.AllowListExact | src/infrastructure/config/config.service.ts:166-181 | a named origin passes exactly when it is local or some entry's glob covers it |
| CorsPattern.AllowListForAll | src/infrastructure/config/config.service.ts:166-181 | for any request and any allow list: naming no origin passes, a named one passes exactly if it is local, an entry, or an entry with its stars filled in without line breaks |

## Left out

- WorkflowTheorems.NeedsInfoConservation: for runs without a stale submit; after one, items of a needs-info round that the submit cut off are resolved later with another round's.
- SignalRuns.SignalsAreNeverStaleExactly: a refresh of several applications of a team reads them in one step, and the up to five writes of a refresh land together.
- Submission.SubmittedIsCompleteExactly: the call's type and required documents are unchanged during the run.
- Isolation inside the database: a transaction is a read and a later write, or one step where it is serializable against everything it touches.
- Section payloads are opaque: whether a value has the required structure is a Boolean of the step.
- Human-readable reasons of signals: reduced to the numbers or members they are built from.
- Parsing of thresholds and dates, invalid dates, and the order in which configuration rows are read.
- Team creation beyond its first row, renaming, archiving and sending of team invitations, and accepting an organization invitation while registering.
- The Program B workspace, mentoring, grant budget, conversations and reports: no part of the workflow's state.
- Listing, sorting and pagination, response shapes, email contents and queues, file storage and download links.
- Authentication, password and token handling, and role checks beyond the ones the modelled operations make.
