# Verification of the CodeGym backend core

This project models the parts of the CodeGym Go backend (and of its Python sandbox supervisor) whose
correctness is hard to see from any one function, and proves what they promise. Run
`dafny verify dfyconfig.toml` to check all of it.

The protocols (submissions, profile refreshes, workflow appends, the model relay) are state machines: a
total `Step` function lets one call perform its next store operation, `Exec` runs a list of actions, and
every theorem about them holds for every action list, that is, for every interleaving of any number of
calls, with failures and lost writes among the actions. The stores below them are classes over maps, as in
the original, and each method's contract is stated with the functions the protocol uses. Loops over maps pick an
arbitrary key, and the results are proved not to depend on it.

## Modules

| module | models |
|---|---|
| `Options`, `Text`, `Sequences`, `Sums`, `Keys`, `Ranking`, `Notes` | optional values, trimming and string order, sequence facts, totals, composite keys, the (number descending, text ascending) order, the note record |
| `ExecutionStore`, `Submission`, `SubmissionOutcomes`, `SubmissionEvidence`, `SubmissionVerdicts`, `SubmissionProgress` | runs, reservations, the Submit protocol over them, what the sandbox runner can make of it, which evidence it records, which status a run gets and is told for which outcome, and when a call is rejected, waits or ends |
| `ProfileStore`, `ProfileRefresh`, `ProfileRetry`, `ProfileLoss` | versioned profiles with completion markers, the refreshes over them, when a refresh starts over, applies or fails, and which writes a profile contains |
| `WorkflowStore`, `Workflow`, `WorkflowOrder`, `WorkflowSteps`, `WorkflowRecord` | the append-only operation log, appends from stale readings, how status moves, which step a cancellation picks, and what the log says of the calls that wrote it |
| `UsageLedger`, `RelayBudget`, `Relay`, `RelayRuns`, `RelayAuthority`, `RelayCharges` | pricing and usage rows, operation budgets, the model relay over both and over workflow, when a token authorizes a call, and what becomes of every answer |
| `Summarizer`, `SummaryMeaning` | the deterministic profile derivation, and what a result says of the log |
| `OutputCapture`, `CaseLog`, `CaseLogMeaning`, `Judge`, `JudgeSources`, `FailureText` | the supervisor's output capture, crash recovery of the case log and what it says line by line, result reconstruction and grading, which source decides a result, failure truncation |
| `NoteActions`, `NoteHistory`, `NoteIds`, `NoteConcepts` | note actions with concept de-duplication, where each held note comes from and what it says, when listed ids are unique, and when a known concept adds a note |
| `GoTypes` | the Go problem type grammar |

## What the proofs found

Where the code does not keep what its design suggests, the model keeps the code, a lemma gives the run or
the input, and the theorem carries the exact condition.

- Every accepted submission is told a terminal run as long as the runner's statuses are those of the protocol
  (`SubmissionOutcomes.AcceptedIsTerminal`), and the sandbox runner's are (`SubmissionOutcomes.SandboxKnown`). Only a
  runner from outside the repository could leave an accepted run marked running (`Submission.UnknownVerdictStaysOpen`).
- `RefreshProfileFor` and `ReplaceNotes` of the memory service write without a version check, and `ReplaceProfile`
  overwrites whatever is there. Such a write loses an earlier one for good exactly when it was overtaken
  (`ProfileLoss.NothingLostByKind`, `ProfileLoss.StaleUpsertNeverRecovers`). The server wires none of them in: its
  daily worker is given the profile synthesizer (`cmd/server/main.go:234`), whose `RefreshAllProfiles` runs the
  versioned refresh (`internal/generation/profile.go:727-752`), `MaintainNotes` is kept for legacy callers and
  tests, and `ReplaceProfile` is called by tests only. So `ProfileLoss.GuardedRunsLoseNothing` applies to it.
- An absent profile is presented as version 0. After a put at a negative version into an empty scope, upserts can lift
  the stored version to exactly 0, and then a commit whose caller read nothing passes the version check
  (`ProfileRefresh.NegativePutAllowsBlindCommit`). That is the only way: `ProfileRefresh.NoLostUpdateIff` is exact for
  every run, `ProfileRefresh.NoLostUpdate` says it of the actions, and versions rise strictly all the same
  (`ProfileRefresh.VersionsRise`). No caller in the repository puts a negative version.
- An operation's status goes from running back to queued exactly when a stale append that neither terminates nor
  reports running lands on it (`WorkflowOrder.FallsBackIff`); no other step lowers it, and termination is final.
- A provider that reports a negative count makes budget and ledger disagree (`UsageLedger.NegativeCountDisagrees`);
  they agree exactly for the usages `UsageLedger.ChargeMatchesRow` describes, and `Relay.LedgerAgrees` accounts for the
  difference in every run.
- A charge whose row is not written and whose revocation is lost leaves budget and ledger in disagreement with the
  budget still usable (`RelayRuns.LostRevocationDisagrees`); `Relay.AgreesOrRevokedIff` is the exact condition.
- A later event that re-issues a known note with an earlier time can make an incremental refresh differ from a
  full one (`Summarizer.BackdatingBreaks`); `Summarizer.RefreshesAgreeIff` says exactly when they agree.
- A pruned note keeps its claim on its concepts. A later create about one of them brings its id back although another
  held note has the concept, and that note is listed no more (`NoteConcepts.StaleClaimDropsNote`);
  `NoteConcepts.HeldConceptIsReused` says exactly when an action about a known concept adds a note.
- Pruning a note and writing its id again without a concept lists that id twice (`NoteIds.PruneThenWriteDoubles`);
  `NoteIds.UniqueIdsIff` is the exact condition, and `NoteIds.UniqueWhenConceptsNamed` one on the actions alone.
- Scopes whose identifiers hold a NUL can share a request key. A call then may wait for, or be refused, a run that is in
  the other scope (`SubmissionProgress.MissesByCollision`); nothing else a submission looks up is ever missing
  (`SubmissionProgress.RejectedIff`).
- A failure text with an ill-formed byte loses everything from that byte on (`FailureText.Kept`).

## Model

| member | source | states |
|---|---|---|
| `Text.BlankTrims` | backend/internal/execution/judge_protocol.go:205-208 | Trimming leaves nothing exactly of a string of blanks, so a name check by trimming is a check for blanks |
| `Text.TrimIs` | backend/internal/execution/judge_protocol.go:205-208 | Trimming takes the blanks at both ends and nothing else |
| `Submission.AtMostOneRun` | backend/internal/submission/service.go:115-184 | In every interleaving of any number of calls, one logical request (scope and non-empty token) creates at most one run, every stored run was created by exactly one call of its scope, and no call takes the fall-through that would start a second run for a completed request without a submission id |
| `Submission.SameSubmission` | backend/internal/submission/service.go:120-156 | All accepted calls of one token, whether they own, join or replay it, got one submission id and brought one fingerprint; the run each was told is the stored one, finished, and terminal exactly unless the runner's status was outside the protocol (which status it is: SubmissionVerdicts) |
| `SubmissionVerdicts.VerdictFits` | backend/internal/execution/service.go:110-145 | In every run, every stored finished run and every run an accepted caller is told has the status that belongs to what the runner answered for it: its error gives error, an exit code passed exactly when it is 0, and each status of the protocol its own |
| `SubmissionVerdicts.ToldVerdict` | backend/internal/execution/service.go:121-137 | On the strings: if the sandbox delivered a judge result for the run, the accepted caller is told passed exactly when the result says "passed", and likewise "failed", "timeout", "out_of_memory" and "crashed" |
| `SubmissionVerdicts.RecordedIffDecided` | backend/internal/submission/service.go:186-230 | In every run an accepted call has recorded the four events exactly when it launched the run itself, in submit mode and for a session, the runner came to a decodable verdict, and no save failed |
| `SubmissionProgress.RejectedIff` | backend/internal/submission/service.go:115-184 | In every run a call has been rejected if and only if it was given up, or its token was reserved with another fingerprint, or it looked for its request's run in a scope that has none; nothing else it looks up in the store is ever missing |
| `SubmissionProgress.MissesByCollision` | backend/internal/submission/service.go:126-133 | The last of these takes two scopes with one request key |
| `SubmissionProgress.Accepts` | backend/internal/submission/service.go:115-338 | From every state of every run, a call that is not given up, in conflict or astray, and does not have to wait, is accepted after at most twelve steps of its own, however the others interleave; and it waits for nothing but a fresh id, the binding of its request, or the end of that run |
| `Submission.FingerprintGuards` | backend/internal/submission/service.go:119-124 | A call whose fingerprint differs from the one its token is reserved with has launched nothing and recorded nothing, and any step it takes only rejects it |
| `Submission.EvidenceOnce` | backend/internal/submission/service.go:199-230 | Each of the four evidence events of one logical request is recorded at most once, in order, all by the one owner and for the run it launched |
| `SubmissionEvidence.AllRecordedIff` | backend/internal/submission/service.go:199-230 | An accepted call that launched a graded attempt has recorded all four events, in order, if and only if none of its saves failed; any other accepted call has recorded nothing |
| `SubmissionOutcomes.AcceptedIsTerminal` | backend/internal/submission/service.go:120-184 | In every interleaving whose runner statuses are the protocol's, every accepted owner, joiner and replayer is told a run that is stored, finished and terminal |
| `SubmissionOutcomes.SandboxKnown` | backend/internal/execution/daytona_runner.go:223-240 | The sandbox runner's statuses are: its results come from the two functions below |
| `SubmissionOutcomes.ParsedDeliverable` | backend/internal/execution/daytona_runner.go:223-226 | Whatever parsing a result file accepts carries a known status |
| `SubmissionOutcomes.ReconstructedDeliverable` | backend/internal/execution/daytona_runner.go:315-320 | Whatever reconstruction makes of a dead run carries a known status |
| `SubmissionOutcomes.KnownStatus` | backend/internal/execution/service.go:126-137 | The status switch maps a string to a known status exactly when it is one of the protocol |
| `Submission.UnknownVerdictStaysOpen` | backend/internal/execution/service.go:126-137 | A runner from outside the repository that returned another status would leave an accepted run marked running |
| `Submission.StepInv` | backend/internal/submission/service.go:286-338 | The inductive invariant over every store step, including both waiting loops: a reservation has one owner, names no run but a finished one of that owner, and is completed exactly when its submission id is set and equals its run id |
| `Submission.ExecInv` | backend/internal/submission/service.go:79-244 | The invariant holds after every action list |
| `Submission.RequestKeyInjective` | backend/internal/execution/inmemory_store.go:154-160 | Request keys coincide exactly for equal workspace, user and token when workspace and user hold no NUL, whatever the token holds |
| `Keys.JoinInjective` | backend/internal/execution/inmemory_store.go:154-160 | Joining with NUL determines the parts when none before the last holds a NUL |
| `Keys.JoinCollision` | backend/internal/memory/inmemory_store.go:158-164 | The condition is needed at every identity: a NUL in any part before the last gives it a second identity with the same key |
| `ExecutionStore.InMemoryStore.CreateRun` | backend/internal/execution/inmemory_store.go:22-29 | The new run is appended to its scope; nothing else changes |
| `ExecutionStore.InMemoryStore.UpdateRun` | backend/internal/execution/inmemory_store.go:31-43 | The first run with the id is replaced in its own scope and found iff it was there; otherwise nothing changes |
| `ExecutionStore.InMemoryStore.GetRun` | backend/internal/execution/inmemory_store.go:45-55 | Finds a run only in the caller's scope |
| `ExecutionStore.InMemoryStore.ReserveSubmissionRequest` | backend/internal/execution/inmemory_store.go:88-108 | A first caller creates the reservation; a later one gets it unchanged, or a conflict and no change when the fingerprint differs |
| `ExecutionStore.InMemoryStore.BindSubmissionRequestRun` | backend/internal/execution/inmemory_store.go:110-123 | Sets the run id of an existing reservation and nothing else |
| `ExecutionStore.InMemoryStore.CompleteSubmissionRequest` | backend/internal/execution/inmemory_store.go:125-140 | Sets status, submission id and run id together, so a completed reservation never lacks its id |
| `ExecutionStore.InMemoryStore.GetSubmissionRequest` | backend/internal/execution/inmemory_store.go:142-152 | Returns the reservation, never marked as just created |
| `ExecutionStore.FindAfterCreate` | backend/internal/execution/inmemory_store.go:22-55 | A created run is found under its own id and scope unless an older one hides it; every other lookup is unchanged |
| `ExecutionStore.FindAfterUpdate` | backend/internal/execution/inmemory_store.go:31-55 | An update is seen by every later lookup of that run and by no other |
| `ExecutionStore.LookupAfterReserve` | backend/internal/execution/inmemory_store.go:88-108 | A first reservation makes a request in progress with nothing bound and is the only one told so; a later one is told the request as it is, or refused if its fingerprint differs |
| `ExecutionStore.LookupAfterBind` | backend/internal/execution/inmemory_store.go:110-152 | Binding sets the run id and completing both ids and the status, as every later lookup tells; the rest of the request and all other requests stay |
| `ProfileRefresh.NoLostUpdateIff` | backend/internal/generation/profile.go:143-193 | No lost update and no ABA, exactly: in every run of refreshes, note replacements, background workers and puts of any version, a guarded commit that succeeded replaced exactly the profile its caller read, with no write in between, if and only if it did not find a profile where its caller had read none; in that case the stored version was 0 |
| `ProfileRefresh.NoLostUpdate` | backend/internal/memory/inmemory_store.go:38-73 | On the actions: while no action puts a negative version into a scope without a profile, every guarded commit in that scope replaces what was read, whatever is put where there is a profile |
| `ProfileRefresh.VersionsRise` | backend/internal/memory/inmemory_store.go:38-99 | Along a scope stored versions rise strictly in every run, by exactly one save for a put into an empty scope |
| `ProfileRefresh.AppliedOnce` | backend/internal/generation/profile.go:347-383 | In every run: one marked write per completion, each marker carries the version that very write stored, and distinct markers of a scope carry distinct versions |
| `ProfileRefresh.MarkedForGood` | backend/internal/generation/profile.go:124-141 | In every run: once marked, a completion's marker never changes and no later write is made for it, by a concurrent refresh, a retry or a later one |
| `ProfileLoss.NothingLostIff` | backend/internal/generation/profile.go:347-367 | In every run, the stored profiles contain every write of their scope if and only if every write replaced the profile it was computed from |
| `ProfileLoss.NothingLostByKind` | backend/internal/memory/service.go:143-182 | By kind of write, in every run: nothing is lost if and only if no unguarded upsert was overtaken since its read, no put found a profile, and no guarded commit found a profile where its caller had read none |
| `ProfileLoss.GuardedRunsLoseNothing` | backend/internal/generation/profile.go:727-752 | With guarded writers only, as the server and its daily worker are wired, the stored profiles contain every commit |
| `ProfileLoss.StaleUpsertNeverRecovers` | backend/internal/memory/service.go:269-293 | From every reachable state, an overtaken upsert loses a write for good, however the run goes on |
| `ProfileLoss.UnguardedWriteDiscards` | backend/internal/memory/service.go:269-293 | Such a state is reachable, and the write lost can be one whose completion is marked, so that no refresh repeats it |
| `ProfileRefresh.NegativePutAllowsBlindCommit` | backend/internal/memory/inmemory_store.go:38-73 | The exception is reachable: for every negative version, a put of it into an empty scope makes a run possible in which upserts lift it to exactly 0 and a versioned commit replaces a profile its caller never read |
| `ProfileRefresh.StampedKey` | backend/internal/memory/service.go:204-236 | The key a commit marks is the key the processed check looked up, at the version after the one read |
| `ProfileRetry.FailsIff` | backend/internal/generation/profile.go:124-141 | In every run a refresh has failed if and only if it was ended with an error of its own, or its identity was incomplete, or it lost the race for its profile twice; while it runs, its attempt is one more than its losses |
| `ProfileRetry.LossesAreOvertaken` | backend/internal/generation/profile.go:135-138 | Every loss comes from a write of others in the scope between this attempt's own read, made after the losses before it, and its commit |
| `ProfileRetry.LoserApplies` | backend/internal/generation/profile.go:124-141 | From every reachable state: a refresh whose first commit comes too late loads again, and if nothing else writes the scope or marks the completion during its next three steps it ends applied, by one write that replaced the profile that had won |
| `ProfileRetry.Undisturbed` | backend/internal/generation/profile.go:143-383 | The same from any stage of either attempt: a refresh that is left alone applies, and its one write replaced the profile it found |
| `ProfileRetry.CommitEnds` | backend/internal/generation/profile.go:347-395 | A commit writes exactly if the version is still the one read, is a success without a write if the completion is marked, starts over after a first loss, and fails after a second or if it cannot name its completion; it is never told that there is no profile |
| `ProfileRetry.CheckEnds` | backend/internal/generation/profile.go:163-214 | Between read and commit a refresh fails for an incomplete completion and leaves everything as it is if the completion is marked or there is nothing new |
| `ProfileRetry.WinMarks` | backend/internal/memory/service.go:204-236 | The marker names the trimmed identifiers, only the thread of an interview, and the version that the write stored |
| `ProfileRetry.AppliedIffWrote` | backend/internal/generation/profile.go:347-395 | In every run a call is told that it applied exactly if it wrote the profile, which it did once |
| `ProfileStore.StampedIs` | backend/internal/memory/service.go:209-226 | A completion is stamped exactly if it names session, source and refresh, and a thread or both submission and problem |
| `ProfileRefresh.StepInv` | backend/internal/generation/profile.go:143-395 | The inductive invariant over loads, processed checks, commits, the one retry and aborts: what was read is current or overtaken, every guarded commit replaced what was read or nothing, one write per call (when a call retries or fails: ProfileRetry) |
| `ProfileRefresh.ExecInv` | backend/internal/generation/profile.go:143-395 | The invariant holds after every action list |
| `ProfileStore.InMemoryStore.UpsertProfile` | backend/internal/memory/inmemory_store.go:38-51 | Stores the profile one version above the stored one, or at its own version (at least 1) into an empty scope |
| `ProfileStore.InMemoryStore.ReplaceProfileIfVersion` | backend/internal/memory/inmemory_store.go:53-73 | Writes one version higher exactly when the stored version is the expected one; a refusal changes nothing |
| `ProfileStore.InMemoryStore.ReplaceProfileAndMarkCompletionIfVersion` | backend/internal/memory/inmemory_store.go:75-99 | Checks processed first, then the version; writes profile and marker together or neither |
| `Workflow.LogsAlwaysOK` | backend/internal/workflow/service.go:204-268 | With stale status readings allowed, in every reachable state an operation's event sequences are exactly 1..LastSequence, its completion time is set iff it is terminal, and exactly one event, the last, carries the terminal mark iff it is terminal |
| `Workflow.TerminalIsFinal` | backend/internal/workflow/inmemory_store.go:44-71 | A terminal operation stays exactly as it is however the run goes on, and logs only grow |
| `WorkflowOrder.FallsBackIff` | backend/internal/workflow/service.go:236-254 | For every reachable state, action and operation: a running operation becomes queued if and only if an append lands that neither terminates nor reports running and that read the operation queued |
| `WorkflowOrder.LowersIff` | backend/internal/workflow/service.go:236-254 | That is the only way for a status to go back: in no other step does it fall in the order queued, running, terminal |
| `WorkflowOrder.UndisturbedRises` | backend/internal/workflow/service.go:211-254 | Along any part of a run in which every append of an operation lands on what it read, the status never goes back |
| `WorkflowOrder.StatusCanFallBack` | backend/internal/workflow/service.go:236-254 | The race is reachable |
| `Workflow.StepInv` | backend/internal/workflow/service.go:155-268 | The inductive invariant over appends and cancellations between their reads and their writes |
| `Workflow.ExecInv` | backend/internal/workflow/service.go:204-268 | The invariant holds after every action list |
| `Workflow.SanitizeMetadata` | backend/internal/workflow/service.go:279-312 | Returns the metadata itself when every entry is allowed and nothing otherwise, whatever order the map is visited in |
| `Workflow.SanitizedHasNoMark` | backend/internal/workflow/service.go:226-235 | Caller metadata can never smuggle in the terminal mark |
| `Workflow.FirstActiveStep` | backend/internal/workflow/service.go:179-202 | The step a cancellation picks, over any event list |
| `Workflow.FirstActiveReported` | backend/internal/workflow/service.go:179-202 | The picked step was reported by some event, and is running whenever any step is |
| `WorkflowSteps.CancelledStep` | backend/internal/workflow/service.go:179-202 | On the events alone: the picked step is the first to appear among those last reported running; if none is, the first among those last reported queued; if none is, the one that appeared last |
| `WorkflowRecord.LogTells` | backend/internal/workflow/service.go:155-268 | In every run the log of an operation has one entry for each call that landed on it, in that order, with the step, label, status and metadata of that call's own report, the terminal mark if it terminates, and the time at which it read the operation; a cancellation reports a retryable failure with reason "cancelled" for the step active among the first 500 events |
| `WorkflowRecord.DoneIffLogged` | backend/internal/workflow/service.go:204-268 | In every run a call has succeeded exactly if the log of its operation has an entry of it |
| `WorkflowRecord.ReadDecides` | backend/internal/workflow/service.go:212-235 | A call that reads its operation goes on exactly if the operation is in its scope, its kind has the step, and status and metadata are allowed: eight keys, texts of at most 80 bytes, no structured values |
| `WorkflowRecord.LandedStatus` | backend/internal/workflow/service.go:236-254 | In every run a landing makes the status failed or succeeded if it terminates, running if it reports so and read the operation queued, and otherwise what it read |
| `WorkflowRecord.CancelFails` | backend/internal/workflow/service.go:155-177 | Left alone, a cancellation of an unfinished operation whose active step is known fails it within four steps, with one event for that step |
| `WorkflowRecord.UpdatedAtLast` | backend/internal/workflow/inmemory_store.go:44-71 | In every run an operation was updated when its last event says, or never since it was created |
| `WorkflowStore.InMemoryStore.CreateOperation` | backend/internal/workflow/inmemory_store.go:24-32 | A new id is stored once; a known one is a conflict that changes nothing |
| `WorkflowStore.InMemoryStore.GetOperation` | backend/internal/workflow/inmemory_store.go:34-42 | Finds an operation only in its scope |
| `WorkflowStore.InMemoryStore.AppendEvent` | backend/internal/workflow/inmemory_store.go:44-71 | Refuses on a terminal operation; else numbers the event, sets status and times, and changes no other log |
| `WorkflowStore.InMemoryStore.ListEvents` | backend/internal/workflow/inmemory_store.go:73-96 | On a consecutive log, exactly the page after the given sequence number, in order, cut to the limit |
| `WorkflowStore.PagesCoverLog` | backend/internal/workflow/inmemory_store.go:73-96 | Pages resumed from the last sequence number seen make up the log, nothing skipped and nothing twice |
| `WorkflowStore.PageIs` | backend/internal/workflow/inmemory_store.go:73-96 | A page is the events numbered from there on, all of them or the first so many |
| `Relay.LedgerAgrees` | backend/internal/agentrelay/http.go:356-386 | Conservation over two stores, with no condition on the replies: at every moment an operation's used tokens, and its used cost, equal its usage rows plus the calls charged but not yet recorded plus the calls whose recording failed plus what recorded calls were charged beyond their rows |
| `Relay.NoGap` | backend/internal/agentrelay/http.go:356-386 | That last part is zero for cost in every run, and for tokens when the replies to the operation's calls count alike on both sides |
| `Relay.QuiescentAgreesOrRevoked` | backend/internal/agentrelay/http.go:356-386 | When the revocations that follow this operation's failed accountings are stored, at rest the budget is revoked or the stores differ by no more than recorded calls were charged beyond their rows |
| `Relay.AgreesOrRevokedIff` | backend/internal/agentrelay/http.go:356-386 | At rest, in every run: the stores agree or the budget is revoked if and only if what was lost and what was charged beyond the rows sum to zero, or some revocation of this operation was stored, by a call or by the workflow |
| `Relay.ExecRevokes` | backend/internal/workflow/service.go:257-266 | A budget is revoked if and only if some action of the run stored a revocation of it |
| `Relay.AtRestDifference` | backend/internal/agentrelay/http.go:356-386 | At rest, in every run, the stores differ by exactly what was charged and failed to be recorded and what was charged beyond the rows |
| `RelayRuns.LostRevocationDisagrees` | backend/internal/agentrelay/http.go:382-386 | For every usage a provider may report: when its row is not written and the revocation that should follow is lost too, at rest the stores differ by its whole charge, in tokens and in cost, although the budget is not revoked |
| `Relay.OvershootBound` | backend/internal/agentrelay/service.go:142-199 | With at most k calls between their budget read and their accounting, each charging at most d, usage never exceeds the maximum minus one plus k times d, in tokens and in cost |
| `RelayRuns.OvershootReached` | backend/internal/agentrelay/service.go:142-199 | The bound is exact: for every k and every usage a provider may report there is a run in which used tokens and used cost both equal the maximum minus one plus k times its charge |
| `Relay.FailsClosed` | backend/internal/workflow/relay.go:15-24 | Once an operation's terminal event is appended no call for it becomes authorized, even if the revocation write is lost |
| `Relay.RevocationHolds` | backend/internal/agentrelay/inmemory_store.go:21-77 | A budget is never replaced, its limits never move, its usage never shrinks and its revocation is never undone; from a revocation on, no further call gets past its budget read |
| `Relay.StepGrants` | backend/internal/agentrelay/service.go:142-165 | A step authorizes a call only while the operation is active, and takes one past its budget read only while the stored budget is unrevoked and the one its token names (expiry, deadline and ceilings: RelayAuthority) |
| `RelayAuthority.AuthorizedIff` | backend/internal/agentrelay/service.go:142-176 | In every run a call is authorized if and only if three of its steps came in this order: one that verified its token, issued by then and unexpired at that time; one that read the unrevoked budget its token names; and one at which the operation was unfinished, the time before the deadline of the stored budget, and the usage as read below both ceilings |
| `RelayAuthority.CheckDecides` | backend/internal/agentrelay/service.go:157-176 | In every reachable state a step authorizes a call exactly under that last condition; a call for a known finished operation is to revoke its budget instead, and any other is over |
| `RelayAuthority.NoneAfterDeadline` | backend/internal/agentrelay/service.go:166-168 | In every run: once the time has reached the deadline of a stored budget, no call for its operation becomes authorized |
| `RelayAuthority.NoneAfterExpiry` | backend/internal/agentrelay/service.go:288-291 | In every run: a call whose token has expired before it was verified is never authorized |
| `RelayAuthority.IssueDecides` | backend/internal/agentrelay/service.go:86-138 | A request for a token goes on exactly for an unfinished operation, and stores a budget and a token exactly if the operation has no budget and the deadline is ahead: the limits given or the default ones, the deadline given or the wall clock away, nothing used |
| `RelayAuthority.IssuedOnce` | backend/internal/agentrelay/service.go:86-138 | In every run each stored budget was created so, once, by one request that had found the operation unfinished, and has exactly one token ever since |
| `RelayCharges.ChargedOnce` | backend/internal/agentrelay/http.go:147-158 | In every run the usage of a budget is what the provider reported to the calls of its operation, every readable answer charged exactly once, less what is yet to be charged |
| `RelayCharges.DebtPaid` | backend/internal/agentrelay/http.go:147-158 | In every run: after an answer without readable usage, a usage that could not be recorded, or a call for a finished operation, the next step of that call revokes the budget, whatever happens in between, unless that write is lost |
| `RelayCharges.OwesIff` | backend/internal/agentrelay/http.go:147-235 | In every run a call is about to revoke exactly from then until its next step |
| `RelayCharges.RevokedIff` | backend/internal/agentrelay/service.go:157-165 | In every run a budget is revoked if and only if the workflow revoked it or such a call stored its revocation |
| `Relay.ExecLedger` | backend/internal/agentrelay/http.go:356-386 | The ledger equation is kept by every step of every run |
| `Relay.ExecBound` | backend/internal/agentrelay/service.go:180-199 | Usage plus what calls in flight may still add stays within the bound in every run |
| `RelayBudget.InMemoryStore.Create` | backend/internal/agentrelay/inmemory_store.go:21-29 | One budget per operation: a second one is a conflict that changes nothing |
| `RelayBudget.InMemoryStore.Get` | backend/internal/agentrelay/inmemory_store.go:31-39 | Finds a budget only in its scope |
| `RelayBudget.InMemoryStore.Revoke` | backend/internal/agentrelay/inmemory_store.go:41-53 | Sets the revocation time of the scope's budget and nothing else |
| `RelayBudget.InMemoryStore.AddUsage` | backend/internal/agentrelay/inmemory_store.go:55-77 | Adds tokens and cost to the scope's budget, revoked or not, and touches nothing else |
| `UsageLedger.ChargeMatchesRow` | backend/internal/agentrelay/http.go:356-380 | Budget and ledger take the same price for every usage, and count the same tokens exactly when the total is positive or no other count is |
| `UsageLedger.HonestUsageConsistent` | backend/internal/agentrelay/http.go:311-342 | Non-negative counts whose sum fits 64 bits are always read so that both sides agree |
| `UsageLedger.NegativeCountDisagrees` | backend/internal/agentrelay/http.go:311-342 | Counts of -10 and 10 are charged as 0 and recorded as 10 |
| `UsageLedger.CostNonNegative` | backend/internal/usage/pricing.go:140-151 | No price is negative, and some tokens never cost nothing |
| `UsageLedger.CostNearest` | backend/internal/usage/pricing.go:140-151 | The price is that of the input tokens at the input rate and the output tokens at the output rate, to the nearest millionth of a dollar, and at least one for some tokens |
| `UsageLedger.UsageRead` | backend/internal/agentrelay/http.go:311-342 | How an answer is read: each count from the one field or, where that is absent, the other; a total that covers input and output; the largest of the alternative reasoning and cache counts; never below zero; and unreadable exactly if no token is reported |
| `UsageLedger.CostMonotone` | backend/internal/usage/pricing.go:140-151 | More tokens never cost less |
| `UsageLedger.InMemoryStore.Append` | backend/internal/usage/inmemory_store.go:25-30 | The log grows by exactly the row |
| `UsageLedger.InMemoryStore.List` | backend/internal/usage/inmemory_store.go:33-43 | Exactly the rows of the scope, in order |
| `UsageLedger.InMemoryStore.RecordScoped` | backend/internal/usage/service.go:49-87 | Appends the priced row with negative counts clamped and the missing total filled in, or refuses without identity and changes nothing |
| `Summarizer.Summarize` | backend/internal/memory/summarizer.go:37-102 | The result satisfies a relation of inputs to output that mentions no map order and no sorting algorithm (what it says of the log: SummaryMeaning) |
| `SummaryMeaning.SummaryMeans` | backend/internal/memory/summarizer.go:64-101 | Every result says of the log: one skill for each label, ranked by attempts and name, with the level 2 plus wins minus losses within 1 to 5, the confidence 25 plus 15 per attempt up to 95, the sign of wins minus losses as trend, and the latest time practised; as strengths the first five skills won more often than lost, as edges the first five lost more often; and a digest of these |
| `SummaryMeaning.NotesMean` | backend/internal/memory/summarizer.go:312-362 | Every note of every result is the latest with its id, from an event or from before; they are newest first and by id, and at most 20, none left out unless 20 rank before it |
| `Summarizer.SummaryDetermined` | backend/internal/memory/summarizer.go:248-260 | Any two results of that relation are equal: map iteration order and sort instability cannot show |
| `Summarizer.IncrementalRefresh` | backend/internal/memory/summarizer.go:347-362 | A refresh over a prefix of the log followed by one over the whole log gives what one refresh over the whole log gives, although each keeps 20 notes, provided no later event re-issues a known note with an earlier time |
| `Summarizer.RefreshesAgreeIff` | backend/internal/memory/summarizer.go:37-102 | For any log, on the inputs: the two ways agree if and only if every note no event regenerates that is behind 20 others after the prefix is still behind 20 after the whole |
| `Summarizer.ShownIff` | backend/internal/memory/summarizer.go:347-362 | A note of the map is shown unless at least 20 others rank before it |
| `Summarizer.BackdatingBreaks` | backend/internal/memory/summarizer.go:347-362 | The proviso is needed: with 21 notes, an event that re-issues the newest one behind all others makes the incremental and the full refresh differ |
| `Summarizer.Idempotent` | backend/internal/memory/summarizer.go:37-102 | Refreshing again with the same events and time changes nothing |
| `Summarizer.TopUnique` | backend/internal/memory/summarizer.go:347-362 | The newest 20 notes of a map are determined by the map |
| `Summarizer.NoteSurvives` | backend/internal/memory/summarizer.go:347-362 | A note the first refresh dropped stays out of the newest 20 of the whole log unless an event regenerates it |
| `Summarizer.StatsCount` | backend/internal/memory/summarizer.go:64-87 | Attempts, positives and negatives of a skill count the labels in the log with its id, in all events and in those with a positive or negative outcome; a skill exists iff it was attempted |
| `Summarizer.LabelsDisjoint` | backend/internal/memory/summarizer.go:262-310 | Strengths and growth edges share no label, are at most five each and name derived skills |
| `Summarizer.SortedStats` | backend/internal/memory/summarizer.go:248-260 | The statistics in strict rank order, each once |
| `Summarizer.SortedNotes` | backend/internal/memory/summarizer.go:347-362 | The newest 20 notes in strict rank order; every note left out ranks behind all of them |
| `Summarizer.PickFive` | backend/internal/memory/summarizer.go:286-310 | The first five labels that satisfy the condition, for strengths and for growth edges |
| `Summarizer.ExistingNotes` | backend/internal/memory/summarizer.go:114-123 | Notes without an id are dropped and of two with one id the later counts |
| `Ranking.BeforeStrictTotal` | backend/internal/memory/summarizer.go:253-258 | The comparator of both lists is a strict total order |
| `Ranking.RankedUnique` | backend/internal/memory/summarizer.go:248-260 | A strictly ranked list is determined by its elements |
| `OutputCapture.CapturePipe` | backend/internal/execution/supervisor.py:36-60 | Chunking does not matter: for every split of a stream into non-empty chunks the buffer keeps the first cap bytes, is truncated iff the stream is longer, and reports a memory error iff a marker occurs in the lower-cased whole |
| `OutputCapture.ReportedIff` | backend/internal/execution/supervisor.py:27-52 | Exhausted memory is reported exactly if the stream says so somewhere, in one of five ways and in whatever case of letters |
| `OutputCapture.KeptIs` | backend/internal/execution/supervisor.py:54-58 | The kept bytes begin the stream, as many as the cap allows, and it is marked truncated exactly if that is not all of it |
| `OutputCapture.CappedBuffer.Consume` | backend/internal/execution/supervisor.py:44-58 | The four fields keep saying this of everything seen so far, across calls |
| `OutputCapture.ScanSeesSplit` | backend/internal/execution/supervisor.py:50-53 | Scanning each chunk behind the last n bytes before it misses no marker and invents none, for every n of at least 21 |
| `OutputCapture.ShorterTailMisses` | backend/internal/execution/supervisor.py:27-33 | 21 is necessary: for every shorter tail some split hides a marker |
| `CaseLog.ParseCaseProgress` | backend/internal/execution/judge_protocol.go:218-255 | Reads a log line by line into finished cases, the case in flight and protocol errors |
| `CaseLog.CrashRecovery` | backend/internal/generation/problem.go:554-610 | For a harness log cut after any number of bytes: the recovered results are those of exactly the named cases whose result text is whole, in order; the case in flight is exactly the one whose start is whole and whose result is not; and the cut is one protocol error iff it went through a text |
| `CaseLogMeaning.ListsMean` | backend/internal/execution/judge_protocol.go:218-255 | Of any log: the recovered cases are the usable results of its lines in order, and the errors what is wrong with its lines |
| `CaseLogMeaning.InFlightMeans` | backend/internal/execution/judge_protocol.go:226-254 | Of any log: the case in flight is the one last started, unless a later line reports its result |
| `CaseLog.CutLog` | backend/internal/execution/judge_protocol.go:218-255 | For any log of framed events: a cut yields the replay of the whole events plus at most one malformed line |
| `CaseLog.CutLines` | backend/internal/execution/judge_protocol.go:218-226 | The lines of a cut log are the whole texts, in order, and the fragment if there is one |
| `CaseLog.CompleteExists` | backend/internal/generation/problem.go:554-557 | Every cut has its number of whole texts, so recovery covers every cut |
| `JudgeSources.FileDecides` | backend/internal/execution/judge_protocol.go:112-126 | An acceptable verdict file decides status, cases and compile error, whatever the output and the log say |
| `JudgeSources.LineDecides` | backend/internal/execution/judge_protocol.go:127-139 | Else the last marked line of the retained output, or of standard output when nothing was retained, decides them if it is acceptable: failed exactly when a test or the compilation failed |
| `JudgeSources.DeathDecides` | backend/internal/execution/judge_protocol.go:140-157 | Else the status is the death status if that is "timeout", "out_of_memory" or "crashed", and "crashed" otherwise; the cases are those of the log; and the detail gives the stated cause or the one that belongs to the status, the case in flight, and what was wrong with file and log |
| `Judge.ReconstructJudgeResult` | backend/internal/execution/judge_protocol.go:98-157 | The verdict file if valid, else the last legacy line, else the death status with the recovered cases, the blamed case and every protocol error |
| `Judge.ReconstructionWellFormed` | backend/internal/execution/judge_protocol.go:94-157 | For all inputs and all decoders the result passes every check that reading it back makes |
| `Judge.GradedIffEvidence` | backend/internal/submission/parser.go:76-116 | A reconstruction becomes tests exactly when the child left evidence of a verdict, exactly when its status is passed or failed, and otherwise it is a death with a failure detail |
| `Judge.KilledRun` | backend/internal/execution/judge_protocol.go:140-157 | A child killed while it appended its log gives a death of the status it was killed with that carries exactly the finished cases and names the running one |
| `Judge.ParseJudgeResult` | backend/internal/execution/judge_protocol.go:159-182 | Accepts exactly the decodable well-formed results, fills in absent cases and changes nothing else; a refusal names the first check that fails |
| `Judge.ParseLegacyVerdict` | backend/internal/execution/judge_protocol.go:262-291 | The verdict of the last line with the prefix, or none |
| `Judge.JudgeLegacy` | backend/internal/execution/judge_protocol.go:269-289 | Failed exactly when a test or the compilation failed; nothing for absent, empty or invalid tests |
| `Judge.ValidateHarnessVerdict` | backend/internal/execution/judge_protocol.go:184-203 | Accepts exactly schema 1, a completed status, present valid cases, and cases or a compile error |
| `Judge.TestResultFromJudge` | backend/internal/submission/parser.go:76-116 | Accepts exactly the gradable results, and counts, copies and grades all of their cases |
| `Judge.GradesAddUp` | backend/internal/submission/parser.go:76-116 | Passed plus failed is the total; "pass" holds iff the judge passed, nothing failed to compile and every case passed, and then there is at least one |
| `Judge.LegacyGradesAgree` | backend/internal/execution/judge_protocol.go:276-288 | For a legacy verdict the grade and the judge's status agree |
| `Judge.WrittenVerdictMayDisagree` | backend/internal/submission/parser.go:90-111 | A verdict file that says passed beside a failed case is graded fail |
| `FailureText.TruncateFailure` | backend/internal/submission/service.go:623-633 | Never more than 2048 bytes; short texts unchanged; a long one is its longest well-formed prefix within 2033 bytes, then the suffix |
| `FailureText.ShownText` | backend/internal/submission/service.go:623-633 | A shown long text is well-formed for every input, and a well-formed input keeps at least 2030 bytes |
| `FailureText.Kept` | backend/internal/submission/service.go:629-632 | For any text: everything up to its first ill-formed character if that is within the limit, else all but at most three bytes of the limit |
| `FailureText.WellFormedIff` | backend/internal/submission/service.go:628-632 | A text is well-formed exactly if it is the UTF-8 encoding of some characters, by the table in section 3 of RFC 3629 |
| `FailureText.ThreeBytesLost` | backend/internal/submission/service.go:629-632 | Three bytes are lost when a four-byte character starts three bytes before the limit |
| `NoteActions.ApplyNoteActions` | backend/internal/generation/notes.go:398-492 | The distinct notes left by any action list, newest first, at most 20 |
| `NoteActions.Shape` | backend/internal/generation/notes.go:466-491 | At most 20 notes, newest first with the id as tie-break, no two sharing a concept |
| `NoteActions.Determined` | backend/internal/generation/notes.go:482-487 | The result is a function of the inputs |
| `NoteIds.UniqueIdsIff` | backend/internal/generation/notes.go:420-491 | The listed ids are unique if and only if no note is pruned while held, brought back by a later create or update, left without a concept by the last title and problem id set since then, and ranked with at most 18 distinct notes before it |
| `NoteIds.TwiceIffRevived` | backend/internal/generation/notes.go:418-436 | An id comes twice in the order of arrival if and only if a prune takes its note away and a later create or update reaches it |
| `NoteIds.UniqueWhenConceptsNamed` | backend/internal/generation/notes.go:418-461 | On the actions alone: when every create and update sets a title or problem id that normalizes to something, ids are unique whatever is pruned and whatever was there |
| `NoteIds.UniqueWithoutPrunes` | backend/internal/generation/notes.go:420-461 | Without prune actions ids are unique |
| `NoteIds.PruneThenWriteDoubles` | backend/internal/generation/notes.go:418-461 | Pruning any note and writing its id again without a concept lists that id twice, whatever concepts the pruned note had |
| `NoteActions.SurvivorKeepsCreation` | backend/internal/generation/notes.go:437-456 | An existing note that no prune reaches, directly or through a concept, is still held at the end under its id with its non-zero creation time, whatever the actions change in it, and no other note is listed under that id |
| `NoteActions.LastWriteWins` | backend/internal/generation/notes.go:437-459 | Title, summary, problem id, disposition and tags of a note no prune reaches are the last value any action set, through its id or one of its concepts, or else what they were |
| `NoteHistory.HeldSays` | backend/internal/generation/notes.go:398-461 | For any batch and any id: the note is held at the end exactly if it was there or an action entered it, and no prune has reached it since; it says what was last set since then, or else what it said before; and it keeps its time of creation, a new one getting the time of the call |
| `NoteHistory.AboutIs` | backend/internal/generation/notes.go:418-427 | An action is about the note with its id, if there is one, else the one its problem belongs to, else the one its title belongs to, else a new one |
| `NoteHistory.BelongsTo` | backend/internal/generation/notes.go:403-461 | After any batch a concept belongs to the note that an action last left with it, or else to the first existing note about it |
| `NoteHistory.IdsCome` | backend/internal/generation/notes.go:432-436 | Ids come in the order in which their notes do: the existing ones first, each new one behind all that were there |
| `NoteActions.PrunedNoteGone` | backend/internal/generation/notes.go:418-436 | A pruned note stays away unless a later action writes it |
| `NoteActions.HeldNotesListed` | backend/internal/generation/notes.go:463-491 | A held note is listed or ranks behind 20 listed ones, or this is so of another held note that shares a concept with it and whose id came first |
| `NoteConcepts.HeldConceptIsReused` | backend/internal/generation/notes.go:418-436 | After any actions that name ids, a create or update about a concept of a held note adds a note if and only if its own id is not held and the id that claims the concept was pruned and not written since |
| `NoteConcepts.VacatedIff` | backend/internal/generation/notes.go:418-436 | An id was pruned and not written since if and only if it was ever pruned while held and is not held now |
| `NoteConcepts.StaleClaimDropsNote` | backend/internal/generation/notes.go:418-481 | It happens: prune the first of any two notes with the same concepts and create a note about one of them under any id but the second's; the first id is back and the second note, which no prune reached, is listed no more |
| `NoteActions.DistinctNotes` | backend/internal/generation/notes.go:463-481 | Each note in order of arrival that shares no concept with one listed before |
| `NoteHistory.MeetsIff` | backend/internal/generation/profile.go:1598-1607 | Two notes share a concept exactly if their problem ids or their titles normalize to the same, which is not nothing |
| `GoTypes.ParseIff` | backend/internal/generation/problem_language.go:155-187 | The parser accepts a string at a depth as a type if and only if the string writes that type, with blanks before and after each component, and depth plus nesting is at most 8 |
| `GoTypes.RoundTrip` | backend/internal/generation/problem_language.go:155-187 | Parsing the printed form gives the type back exactly when it nests at most eight slices and maps, and is refused as too deep otherwise |
| `GoTypes.AcceptedIsPrinted` | backend/internal/generation/problem_language.go:159-186 | Every accepted string without its blanks is the printed form of its type |
| `GoTypes.InnerBlankRejected` | backend/internal/generation/problem_language.go:159-163 | The converse fails: a blank inside a name is not trimmed |

## Left out

- SameSubmission: leaves the run of an accepted call open when a runner returns a status outside the protocol, because the code does; AcceptedIsTerminal closes it for every other runner, the sandbox runner among them.
- NoLostUpdate: asks that no action puts a negative version into a scope without a profile, because of NegativePutAllowsBlindCommit; NoLostUpdateIff is exact without it.
- NoGap: for tokens it needs replies whose counts both sides read alike, because the code charges and records others differently (ChargeMatchesRow, NegativeCountDisagrees); LedgerAgrees needs nothing.
- QuiescentAgreesOrRevoked: assumes that the revocations following this operation's failed accountings are stored, because the code only logs such a loss; AgreesOrRevokedIff is exact without it.
- IncrementalRefresh: assumes that no later event re-issues a known note with an earlier time; RefreshesAgreeIff is exact without it.
- HeldConceptIsReused: assumes that actions name ids; both parsers of note actions refuse or fill in an empty id.
- UniqueWhenConceptsNamed: assumes that the key normalization maps the empty string to itself, as the code's does.
- Liveness beyond SubmissionProgress.Accepts, ProfileRetry.Undisturbed and WorkflowRecord.CancelFails: a token whose owner failed after reserving stays in progress, and waiting loops may wait for good.
- Reservation and run timestamps, run timings, files, limits and the fingerprint hash: a call brings its fingerprint as a value, and a run keeps its id, status, completion, judge status and whether its verdict decodes.
- Session file saves, session status and memory-status updates around a graded submission: their reads and writes are separate and promise nothing across calls.
- Building profile evidence and curating profiles by a model: a refresh brings an arbitrary new profile; its text is not modelled, only its version and the commits it contains.
- Decoding of event payloads, inferring skills and outcomes, and the slug and area functions: an event carries its skill labels, outcome and note draft, and the theorems hold for any slug function.
- The summary paragraph: kept as the four values it is rendered from.
- Step labels and operation kinds: a table given as a parameter.
- Floating point in pricing: rates are exact rationals, rounding is to nearest, and the rate lookup is a given rate; the int64 counters of budgets are unbounded (OvershootBound shows when they fit), and so are profile versions.
- Token signing: verification is membership in the issued tokens and expiry; a token dated more than a minute ahead needs clocks that disagree. Expiry times are not rounded to seconds. The relay's identifiers are taken as already trimmed.
- The read back after a profile commit or a found marker: the commit's own outcome is what a refresh reports.
- Failures of the stores themselves: of a submission or a refresh they are a given-up call, and usage rows, revocations and evidence may be lost; the charge of a budget that is there succeeds, as in the in-memory store.
- Postgres stores, HTTP handlers, streaming writes, authentication, providers and the sandbox runner: a run or a reply is an arbitrary outcome.
- JSON codecs: decoders are parameters; crash recovery assumes of the encoder only that a text is one line starting with a brace, decodes to its event, and that no proper beginning of it decodes.
- The scanner's 64 KiB line limit, and closing the stream when reading it fails.
- ReconstructJudgeResult: the failure detail keeps the values it is rendered from (cause, case in flight, protocol errors) and not the rendered text.
- The Python reconstruction in the supervisor: it differs from the Go one on blank names and empty case lists, so agreement is not claimed.
- ApplyNoteActions: the key normalization is a parameter, so the theorems hold for any; parsing and validating note actions is not modelled.
- Validation of JSON values against a parsed Go type: one easy recursion over the type.
- Aggregation of usage rows, listing of runs and timings, chat threads and sessions: no invariant across operations.
