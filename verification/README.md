# SoulClaw: a verified model of its stateful core

SoulClaw is an agent server: it queues background jobs, runs an LLM tool loop that can stop for a human approval,
compiles a Markdown wiki into tables, mirrors memories into `MEMORY.md`, applies skill proposals, and talks to
remote agents. This project models the parts where several operations must keep one promise together, and proves
those promises for every input, every reachable state and every run.

`dafny verify dfyconfig.toml` checks the whole project.

## How the files are laid out

| component | files | what is proved |
|---|---|---|
| background jobs | `Jobs`, `JobProtocol`, `JobSettling`, `JobEndings`, `JobWrites`, `JobStore`, `Cron` | a step system over job rows, outbox rows, idempotency records, workers in flight and a log; one inductive invariant; every job settles; which terminal statuses are final; every row shows its last write; the service class refines the steps |
| agent loop | `Agent`, `AgentRefinement`, `AgentCalls`, `AgentTranscript`, `AgentRuntime` | any chain of stops and approvals is the uninterrupted loop, with the exact condition under which a user cannot tell them apart; the transcript holds the model's replies and the tools' own results |
| wiki | `WikiKeys`, `WikiText`, `Wiki`, `WikiService` | keys keep the words of their text and nothing of its case; the tables mirror the files whatever they held; links, dangling entries and counts agree |
| breaker, limiter | `Resilience`, `RateLimit` | quantitative bounds over whole runs, from small state machines |
| memory | `MemoryLine`, `MarkedLines`, `MirroredRows`, `MemoryMirror`, `MemoryRuns`, `MemoryWrites`, `MemoryService`, `SearchDedup` | print/parse round trip, edits in place in a shared file, a mirror kept over all runs, undo from the history at any later time, the greedy diversity filter |
| skills | `Skills` | optimistic concurrency on file maps, undo and redo, injectivity of the digest input |
| A2A | `A2aTasks`, `A2aOutcomes`, `Sse` | task lifecycle, what a delegation ends in, gapless log and paging, stream print/parse round trip |
| shared | `Common` | option and outcome types, decimal rendering, stripping and lines |

Code that updates rows in place is a class whose methods are proved against functions on values; the properties of
whole runs are lemmas about those functions. Foreign code is a function parameter with a stated assumption: the
broker, `croniter` (the next run is strictly after its base), SHA-256 (injective), JSON (decoding inverts encoding),
the LLM and the tools (functions of the history so far), Python's character classes, the marker pattern.
Functions with the assumed properties are exhibited (`Cron.GoodDigestExists`, `Skills.GoodHashingExists`,
`MemoryMirror.GoodReadersExist`, `WikiText.AsciiIsCased`, `Sse.SeparatorBreaksTheRoundTrip`).
Each `session_scope` block is one atomic step, and the job clock does not run backwards.

## What turned out not to hold, and exactly when it does

- A cancelled job can end up succeeded, because finishing writes have no status guard (`CancelCanBeOverwritten`).
  `TerminalLeftIff` says which single step replaces a terminal status; `TerminalIsFinalIff` says when none ever can:
  no worker is in flight for the job, and it is dead-lettered or none of its outbox rows is still waiting.
- `reschedule_job` accepts queued jobs; called twice with the same reason and attempt it strands the job
  (`TwiceRescheduledIsStranded`). `ScheduleKeepsDispatchIff` gives the condition: the dispatch key must be new. The
  scheduler always meets it.
- Resuming an approval is not always the uninterrupted turn (`RaisingAfterApprovalDiffers`). In a round that was
  stopped, a tool exception at or after the gate aborts instead of becoming a result, a failing LLM call is reported as
  failed with a fallback answer, and truthy non-object arguments of the last gated call are shown as an empty object.
  `ResumeRefinesPlainTurnIff` proves that these are the only differences a user can see; `AnswersAgreeIff` adds that a
  resumed turn does not fill in an empty answer, and `ReportedCallsAgreeIff` that ids in the reported list of calls
  stay empty exactly when the model left one empty in a gated round.
- Two rollbacks give back the same files only if no file of the snapshot is missing (`TwoRollbacksIff`, with the input
  `MissingFileComesBack`); the service's own runs never get there (`UndoRedo`).
- The digest input is injective on NUL-free maps, but files may contain a NUL. `CollisionIff`: a NUL-free directory
  shares its checksum with some other directory exactly when it has two files or more, and then a changed directory
  can pass the comparison in `apply_proposal` (`ChangedDirectoryAppliedIff`).
- `json.dumps` leaves characters such as U+2028 in place, at which the reader ends a line. `RoundTripIff`: a list of
  events comes back exactly when every JSON text is one line (a failing event: `SeparatorBreaksTheRoundTrip`).
- A memory file sync also strips blanks at the ends of kind, source and content; `SettledMeaning` says exactly when a
  field is left alone. A row without visible content is not read at all.
- A page's own key can be taken over by a later page (`AliasTakesOverAKey`). `KeyStaysIff`: it keeps its key exactly
  when no later page has a title or alias that normalizes to it.
- `mark_task` has no guard: alone it keeps the lifecycle only if it does not leave a terminal status (`MarkKeepsIff`).

## Model

| member | source | states |
|---|---|---|
| Jobs.RetryKeyInjective | backend/domain/jobs.py:260-271 | retry dispatch keys of any two jobs and attempts differ unless job key and attempt are the same |
| Jobs.EnqueueKeyInjective | backend/domain/jobs.py:260-271 | enqueue dispatch keys determine the job's key |
| Jobs.EnqueueKeyIsNoRetryKey | backend/domain/jobs.py:260-271 | an enqueue dispatch key is never a retry dispatch key, whatever the job keys contain |
| JobProtocol.InvKeeps | backend/domain/jobs.py:80-203 | every admissible step (enqueue, dispatch, claim, finish, crash, cancel, retry, time passing) keeps the protocol invariant |
| JobProtocol.InvHolds | backend/worker/tasks.py:47-85 | so every state reachable by any run satisfies it, with any number of deliveries and crashes |
| JobProtocol.OneWorkerPerJob | backend/worker/tasks.py:53-84 | at most one worker executes a job; while it does, neither a delivery nor a retry can take the job, and a running job's lock is that worker's |
| JobProtocol.LocksFollowStatus | backend/domain/jobs.py:80-203 | the lock fields are set exactly when the status is running |
| JobProtocol.KeyIsFresh | backend/domain/jobs.py:225-271 | the dispatch key of a new job or of the scheduler's next retry has never been used |
| JobProtocol.NoLostDispatch | backend/domain/jobs.py:225-276 | a queued job always has an outbox row with its current queue id that is not dead-lettered |
| JobProtocol.JobsStay | backend/domain/jobs.py:72-203 | no step removes or renames a job, changes its request or lowers its attempt count |
| JobProtocol.RecordsKeep | backend/domain/jobs.py:375-397 | every step keeps each job's idempotency record: it names the job's request and is succeeded exactly when the job is |
| JobProtocol.OneJobPerKey | backend/domain/jobs.py:406-447 | over whole runs at most one job per key |
| JobProtocol.ReplayOrConflict | backend/domain/jobs.py:344-373 | enqueueing under a used key changes nothing, and is a conflict exactly when the request differs |
| JobProtocol.RetryWindows | backend/domain/jobs.py:134-148 | attempt k+1 never starts before the failure of attempt k plus min(300, 2^min(k,8)) seconds |
| JobProtocol.CancelCanBeOverwritten | backend/domain/jobs.py:98-117 | a concrete run in which a cancelled job becomes succeeded |
| JobProtocol.TerminalLeftIff | backend/domain/jobs.py:98-203 | a step replaces a terminal status exactly when a worker's finishing write lands on the job or its due outbox row gives up |
| JobProtocol.ScheduleKeepsDispatchIff | backend/domain/jobs.py:260-276 | under a fresh queue id the rescheduled job keeps a live row exactly when the dispatch key is new |
| JobEndings.TerminalIsFinalIff | backend/domain/jobs.py:98-203 | a terminal status survives every continuation exactly when no worker is in flight for the job and it is dead-lettered or none of its rows is still waiting |
| JobEndings.ReachedTerminalIsFinalIff | backend/domain/jobs.py:98-203 | the same in every state reachable from empty tables |
| JobEndings.RowCanBury | backend/domain/jobs.py:308-342 | from any state a waiting row has a continuation of failing sends that dead-letters its job, whatever the job's status |
| JobEndings.TwiceRescheduledIsStranded | backend/domain/jobs.py:260-276 | enqueue and two reschedules with one reason leave a queued job without any row carrying its queue id |
| JobSettling.StepPays | backend/domain/jobs.py:80-203 | each step leaves a job, its worker and its rows alone, or strictly lowers the job's potential |
| JobSettling.RunPays | backend/worker/tasks.py:47-85 | the number of steps of any run that touch a job is bounded by its potential |
| JobSettling.EveryJobSettles | backend/domain/jobs.py:80-203 | after its enqueue any run touches a job at most 9 * max_attempts + 6 times, whatever is cancelled, crashed or delivered twice |
| JobSettling.StartsBounded | backend/domain/jobs.py:80-96 | the logged starts of a job equal its attempt count and never exceed max_attempts |
| JobWrites.StepWrites | backend/domain/jobs.py:72-203 | each step makes exactly the write it should to the job row, spares every other field, closes the record on a terminal write, and writes no other job |
| JobWrites.RowShowsLastWrite | backend/domain/jobs.py:72-203 | after any run a job's row shows the last write to it, field by field, and an unwritten row is as it was |
| JobWrites.StatusIsLastWrite | backend/domain/jobs.py:72-203 | from empty tables a job has a status exactly when its last write put it there |
| JobWrites.StepLogs | backend/worker/tasks.py:53-85 | the run's log holds every start and every failure with attempt and time, and nothing else |
| JobWrites.DelayInSeconds | backend/domain/jobs.py:521-523 | the retry delay is 2, 4, 8, ... 256 seconds |
| JobWrites.RetryOpensExactly | backend/domain/jobs.py:134-181 | after a failed attempt the job may be taken again from exactly that many seconds later on |
| JobWrites.RetryWindowsInSeconds | backend/domain/jobs.py:134-148 | the retry windows of whole runs in seconds |
| JobWrites.DispatchTries | backend/domain/jobs.py:308-340 | a dispatch step tries exactly the row it names, if it is pending or retrying and its time has come, and changes no other row |
| JobWrites.EnqueueAddsRow | backend/domain/jobs.py:225-271 | an accepted enqueue adds one pending row with five attempts under its dispatch key |
| JobWrites.RetryAddsRow | backend/domain/jobs.py:260-276 | an accepted retry adds one such row under a key with the attempt number |
| JobWrites.OthersKeepRows | backend/domain/jobs.py:225-276 | no other step adds or changes a row |
| JobStores.JobStore.SetStarted | backend/domain/jobs.py:80-96 | the row after a start; an unknown job is refused |
| JobStores.JobStore.SetSucceeded | backend/domain/jobs.py:98-117 | job and record become succeeded, with no status guard |
| JobStores.JobStore.SetRetrying | backend/domain/jobs.py:134-148 | the row waits for its retry window and its lock is released |
| JobStores.JobStore.SetDeadLetter | backend/domain/jobs.py:150-173 | the job is dead-lettered and its record closed, with no status guard |
| JobStores.JobStore.CancelJob | backend/domain/jobs.py:183-203 | succeeds exactly for queued, retrying and running jobs, otherwise nothing changes |
| JobStores.JobStore.CreateOutbox | backend/domain/jobs.py:225-258 | one row per dispatch key: an existing key adds nothing |
| JobStores.JobStore.ScheduleDispatch | backend/domain/jobs.py:260-271 | the job is queued under the new queue id with its dispatch row |
| JobStores.JobStore.RescheduleJob | backend/domain/jobs.py:273-276 | refused exactly for statuses other than queued and retrying |
| JobStores.JobStore.FindByKey | backend/domain/jobs.py:406-447 | finds a job exactly when the key is taken |
| JobStores.JobStore.EnqueueJob | backend/domain/jobs.py:406-447 | refused exactly on conflicts; a replay returns the existing job; a new one gets record, row and job together |
| JobStores.JobStore.DispatchRow | backend/domain/jobs.py:308-342 | a failed send gives up exactly at the row's last attempt and then buries its job |
| JobStores.JobStore.DispatchBatch | backend/domain/jobs.py:278-306 | dispatched, failed and dead counts are exact |
| JobStores.JobStore.DispatchOutbox | backend/domain/jobs.py:278-306 | the first max(1, min(limit, 500)) rows that may be tried are tried once, no other row changes, jobs are buried exactly when such a row gives up on them, and all four counters are exact |
| JobStores.DueRowsComplete | backend/domain/jobs.py:278-287 | no row that may be tried is missed by the query |
| JobStores.PrefixIsScanned | backend/domain/jobs.py:278-287 | the scanned rows are exactly those with fewer than the page size of due rows before them |
| JobStores.JobStore.DispatchRetryable | backend/runtime/cron.py:175-179 | exactly the listed jobs are queued again, each under its new queue id and the key of its attempt |
| JobStores.JobStore.ClaimJob | backend/worker/tasks.py:53-68 | a claim happens exactly when the job may run now; otherwise nothing changes |
| JobStores.JobStore.FinishJob | backend/worker/tasks.py:69-85 | the finishing write follows the attempt numbers captured at the claim |
| JobStores.DispatchIsARun | backend/domain/jobs.py:278-306 | dispatching a batch is a run of dispatch steps of the protocol |
| JobStores.RetryIsARun | backend/runtime/cron.py:175-179 | rescheduling the ready jobs is a run of retry steps of the protocol |
| Cron.CronKeyIff | backend/runtime/cron.py:192-201 | two cron keys are equal exactly when row identity, name, metadata and minute are |
| Cron.GoodDigestExists | backend/runtime/cron.py:192-201 | a digest without colons that tells all key inputs apart exists, so the lemmas about cron keys apply |
| Cron.RequestMeaning | backend/runtime/cron.py:101-150 | task, payload and trigger of the request, with the defaults 24 and 50, and exactly when it raises |
| Cron.SettingsAreKept | backend/runtime/cron.py:104-113 | two dream-review requests are equal exactly when row, hours and limit are |
| Cron.DueAgainIff | backend/runtime/cron.py:154-173 | after a run the row is due again exactly when its next run has come and, after a failure, 2, 4, ... 512 or 900 seconds have passed |
| Cron.CronNeverConflicts | backend/runtime/cron.py:101-173 | after any run no cron enqueue that has a request conflicts with anything enqueued before |
| Cron.OneJobPerMinute | backend/runtime/cron.py:101-173 | later ticks of the same minute change nothing, and the minute's job is the only one under its key |
| Cron.EnqueueIsARun | backend/runtime/cron.py:69-91 | the enqueue loop of a tick is a run of enqueue steps |
| Cron.TickKeepsInv | backend/runtime/cron.py:69-91 | a whole tick keeps the protocol invariant, whichever due rows, ready jobs and cron rows its queries return |
| Cron.Scheduler.RunCronJob | backend/runtime/cron.py:101-173 | every field of the cron row after success or failure; after success a job exists under the key; a setting that is no number and a key conflict both fail the row and leave the job tables alone |
| Cron.Scheduler.EnqueuePicked | backend/runtime/cron.py:69-91 | every picked row is served: its job exists unless its request raised or conflicts; no picked row is due again at that time and no other row changes |
| Cron.Scheduler.Tick | backend/runtime/cron.py:69-91 | outbox, retries and cron rows are processed in that order in one transaction |
| AgentRefinement.DriveStopped | backend/runtime/agent.py:311-515 | resuming a saved checkpoint, and every later stop, finishes the round it was saved in |
| AgentRefinement.DriveContinue | backend/runtime/agent.py:633-678 | any chain of stops and approvals, within rounds and across them, equals one uninterrupted approved loop |
| AgentRefinement.ApprovedVsPlainRound | backend/runtime/agent.py:680-735 | a round under approvals breaks exactly when a call at or after a gate raises; otherwise results and effects are those of the plain round |
| AgentRefinement.SameTurnIffSmooth | backend/runtime/agent.py:374-460 | messages, results, answer, status and effects equal the pre-approved loop's exactly on smooth runs |
| AgentRefinement.ResumeRefinesPlainTurnIff | backend/runtime/agent.py:311-515 | the same for whole turns from the first LLM call |
| AgentRefinement.ResumeRefinesPlainTurn | backend/runtime/agent.py:311-515 | if no tool raises, arguments are objects and the LLM replies, stop-and-resume is the plain turn |
| AgentCalls.SmoothCalls | backend/runtime/agent.py:440-460 | on smooth runs both lists of calls have the same names and arguments, and the same ids exactly when every gated round came with ids |
| AgentCalls.ReportedCallsAgreeIff | backend/runtime/agent.py:440-460 | the same for whole turns along any chain of approvals |
| AgentRefinement.AnswersAgreeIff | backend/runtime/agent.py:919-943 | a stopped turn's final answer equals the plain turn's exactly when the model's last reply has text |
| AgentRefinement.EachCallRunsOnce | backend/runtime/agent.py:374-460 | every listed tool call is executed exactly once, in the listed order, along any chain of approvals |
| AgentRefinement.AppendKeepsTranscript | backend/runtime/agent.py:738-768 | each assistant message with k calls is followed by exactly k tool messages with matching ids in order |
| AgentRefinement.TurnBudget | backend/runtime/agent.py:571-678 | however often a turn is stopped: at most 4 tool rounds, 5 completions and a well-formed transcript |
| AgentTranscript.AppendShape | backend/runtime/agent.py:738-768 | after the messages come one assistant message and, for each call, a tool message with that call's id and that call's result |
| AgentTranscript.RoundOutputs | backend/runtime/agent.py:680-735 | a round's results are what its tools returned, in order, each call run with approval exactly where a gate asks |
| AgentTranscript.TurnIsFaithful | backend/runtime/agent.py:571-768 | when a turn ends, each assistant message shows the model's reply to the messages before it, the tool messages carry the results in order, the listed calls are the shown ones, and answer and status come from the model's reply to the whole transcript |
| AgentTranscript.ToolsGetTheirArguments | backend/runtime/agent.py:693-699 | each executed call has the listed call's name and its arguments whenever they are an object |
| AgentRefinement.RaisingAfterApprovalDiffers | backend/runtime/agent.py:374-460 | a concrete gated call whose exception ends the resumed turn but not the plain one |
| AgentRuntimes.AgentRuntime.ExecuteToolCalls | backend/runtime/agent.py:680-735 | one round up to its end or its first gate, with the effects in order |
| AgentRuntimes.AgentRuntime.AppendToolMessages | backend/runtime/agent.py:738-768 | the new transcript, and the calls with their ids filled in |
| AgentRuntimes.AgentRuntime.ContinueLlmLoop | backend/runtime/agent.py:633-678 | the loop's turn: ended, or stopped with a complete checkpoint |
| AgentRuntimes.AgentRuntime.Run | backend/runtime/agent.py:571-631 | a turn from its first completion; a checkpoint is saved exactly when it stops |
| AgentRuntimes.AgentRuntime.FinishResumedRound | backend/runtime/agent.py:374-436 | the calls after the approved one, where exceptions are not caught |
| AgentRuntimes.AgentRuntime.ResumeTurn | backend/runtime/agent.py:311-515 | rebuilding the turn from the checkpoint and continuing it |
| AgentRuntimes.AgentRuntime.RunApprovingAll | backend/runtime/agent.py:311-515 | approving every stop shows the plain turn exactly on smooth runs, each call run once |
| WikiKeys.NormalizeIsCanonical | backend/domain/wiki.py:130-137 | every normalized key consists of slug characters, without double hyphens and without hyphen or slash at the ends |
| WikiKeys.CanonicalIsFixed | backend/domain/wiki.py:130-137 | every string of that form is its own normalization |
| WikiKeys.NormalizeIdempotent | backend/domain/wiki.py:130-137 | normalizing twice is normalizing once, for every string |
| WikiText.KeyKeepsWords | backend/domain/wiki.py:130-137 | a key has exactly the words of its text, in order and parted where the text parts them |
| WikiText.KeyKeepsPath | backend/domain/wiki.py:130-137 | so it is with words and slashes, before hyphens and slashes at the ends are stripped |
| WikiText.FileNameToKey | backend/domain/wiki.py:130-137 | a key followed by .md in any case normalizes to the key |
| WikiText.CaseDoesNotMatter | backend/domain/wiki.py:130-137 | texts with the same lower case have the same key |
| WikiText.AnyCaseToKey | backend/domain/wiki.py:130-137 | any spelling of a key in another case normalizes to the key |
| WikiText.LowerConcat | backend/domain/wiki.py:133-133 | lower-casing goes character by character |
| Wiki.ErrorFreeMirrorsPages | backend/domain/wiki.py:401-507 | an error-free compile leaves exactly the pages the files give, row by row |
| Wiki.ErrorFreeMirrorsSources | backend/domain/wiki.py:401-507 | and exactly the sources |
| Wiki.ErrorFreeForgets | backend/domain/wiki.py:401-507 | so the result does not depend on what the tables held before |
| Wiki.AcceptedPagesAreStored | backend/domain/wiki.py:478-497 | every accepted page, with or without errors, is stored with its own columns, and so is its source |
| Wiki.ScanMeaning | backend/domain/wiki.py:412-441 | a file is accepted exactly when it parses and no earlier accepted file has its key; every other file gives one open error of its kind |
| Wiki.ErrorsDeleteNothing | backend/domain/wiki.py:401-541 | files seen = pages indexed + errors, and with errors no page or source row disappears |
| Wiki.RecompileChangesNothing | backend/domain/wiki.py:401-541 | a second compile changes no page, source or link, with or without errors |
| Wiki.KeysStayCanonical | backend/domain/wiki.py:401-507 | a compile with or without errors stores only normalized keys if the table held only such keys |
| Wiki.ReadFindsEveryKey | backend/domain/wiki.py:560-562 | after any sequence of compiles, whatever their errors, read finds every stored page by its key |
| Wiki.ReadSeesTheNormalForm | backend/domain/wiki.py:560-562 | every spelling that normalizes to a stored key reads that page, and reading a key and its normal form is the same |
| Wiki.KnownLeadsToPages | backend/domain/wiki.py:443-449 | every key, alias or title the link table knows leads to a parsed page |
| Wiki.LastClaimWins | backend/domain/wiki.py:443-449 | a name leads to the last page that claims it by key, alias or title |
| Wiki.NoClaimNoName | backend/domain/wiki.py:443-449 | a name no page claims is unknown |
| Wiki.KeyStaysIff | backend/domain/wiki.py:443-449 | a page keeps its own key exactly when no later page has a title or alias that normalizes to it |
| Wiki.LinkArrivesIff | backend/domain/wiki.py:498-510 | a link to a page's key is resolved to that page exactly under the same condition |
| Wiki.AliasTakesOverAKey | backend/domain/wiki.py:443-510 | two pages where a link to an existing key is resolved to another page |
| Wiki.LinksPointAtPages | backend/domain/wiki.py:498-525 | after any compile every resolved link starts and ends at stored pages |
| Wiki.LinkRow | backend/domain/wiki.py:498-510 | the j-th link of a page has its row, in order: start, written target, anchor, and where the name leads |
| Wiki.ClosedMeaning | backend/domain/wiki.py:451-461 | exactly the open entries of the three compile kinds become fixed, and nothing else about any entry changes |
| Wiki.DanglingMatchesUnresolved | backend/domain/wiki.py:451-525 | open dangling entries match the unresolved links one for one, in order |
| WikiServices.WikiService.ScanFiles | backend/domain/wiki.py:406-441 | parsed pages and found errors account for every file |
| WikiServices.WikiService.BuildKnown | backend/domain/wiki.py:443-449 | the table of keys, aliases and titles |
| WikiServices.WikiService.CloseOldErrors | backend/domain/wiki.py:451-461 | open compile entries become fixed, everything else stays |
| WikiServices.WikiService.WritePages | backend/domain/wiki.py:478-525 | pages, sources, links and dangling entries after the write loop |
| WikiServices.WikiService.CompileAll | backend/domain/wiki.py:401-541 | the tables become the compiled ones; seen = indexed + failed |
| WikiServices.WikiService.LinkCounts | backend/domain/wiki.py:1519-1528 | the counts of the resolved links |
| WikiServices.CountsAreExact | backend/domain/wiki.py:1519-1528 | a page has an entry exactly when a resolved link touches it, holding its inbound and outbound counts |
| WikiServices.TotalsAgree | backend/domain/wiki.py:1519-1528 | over any covering set of pages both totals are the number of resolved links |
| WikiServices.CompiledTotalsAgree | backend/domain/wiki.py:1519-1528 | after any compile total inbound = total outbound = number of resolved links |
| Resilience.LastTryIsFirstStop | backend/infra/resilience.py:49-89 | the retry loop stops at the first success, final error or last allowed attempt |
| Resilience.ResilienceManager.Call | backend/infra/resilience.py:49-89 | at most max(1, max_attempts) runs, none exactly while the circuit is open; only this policy's state changes |
| Resilience.CircuitMeans | backend/infra/resilience.py:143-154 | the failure count is the number of failed calls that reached the function since the last success; opening time and last error come from the last of them |
| Resilience.RefusedIff | backend/infra/resilience.py:49-62 | a call is refused exactly when at least max(1, threshold) failed calls reached the function since the last success and less than max(1, recovery_seconds) have passed since the last of them ended |
| Resilience.FailureRateBound | backend/infra/resilience.py:49-89 | N consecutive failing calls that reach the function take at least (N - threshold) * max(1, recovery_seconds), from any circuit state |
| Resilience.FailuresTakeTime | backend/infra/resilience.py:49-89 | the same bound in the policy's own numbers |
| RateLimit.SlotMeaning | backend/infra/rate_limit.py:118-132 | the stored slot counts the requests of the current aligned window and names its end |
| RateLimit.LimiterRefinesRule | backend/infra/rate_limit.py:118-132 | a request is allowed exactly when fewer than limit earlier ones fell in its aligned window |
| RateLimit.SlotsAreSeparate | backend/infra/rate_limit.py:118-132 | after any sequence of checks over any keys each slot is what the key's own request times alone give |
| RateLimit.RunRefinesRule | backend/infra/rate_limit.py:118-132 | in such a run a request is allowed exactly by the rule on its own key's earlier requests |
| RateLimit.DecisionMeaning | backend/infra/rate_limit.py:118-132 | remaining, reset time and retry_after of every decision in such a run |
| RateLimit.IdentityMeaning | backend/infra/rate_limit.py:140-141 | the identity in the key: its first 160 characters with every unsafe one replaced |
| RateLimit.SafeIdentitiesAreKept | backend/infra/rate_limit.py:140-141 | identities of at most 160 safe characters never share a slot within a policy |
| RateLimit.WindowAdmits | backend/infra/rate_limit.py:118-132 | one window admits the minimum of the limit and its requests |
| RateLimit.TwiceTheLimit | backend/infra/rate_limit.py:118-132 | no interval of one window length admits more than twice the limit |
| RateLimit.RetryLandsInFreshWindow | backend/infra/rate_limit.py:118-132 | a blocked caller's retry_after leads to the start of the next window, which nobody has used |
| RateLimit.FixedWindowRateLimiter.Check | backend/infra/rate_limit.py:51-78 | one slot and the policy's counters change, nothing else, and the decision follows the slot |
| Skills.DecodeEncode | backend/domain/skills.py:48-55 | the digest input of NUL-free files decodes to the same file map, in any listing order |
| Skills.EncodeInjective | backend/domain/skills.py:48-55 | so equal digest inputs come from equal maps |
| Skills.ChecksumInjective | backend/domain/skills.py:48-55 | equal checksums of NUL-free maps mean equal maps |
| Skills.CollisionIff | backend/domain/skills.py:48-55 | a NUL-free map shares its checksum with another map exactly when it has two files or more |
| Skills.ChangedDirectoryAppliedIff | backend/domain/skills.py:334-388 | a directory changed after the proposal was created can still be overwritten exactly when it held two files or more |
| Skills.AppliedOnlyIfUnchanged | backend/domain/skills.py:334-388 | a proposal without a caller's checksum is applied only to the files it was created against, giving them overridden by its own; otherwise no file changes |
| Skills.AppliedIff | backend/domain/skills.py:334-388 | with passing checks it is applied exactly when the files are unchanged, else it goes stale |
| Skills.ApplyOutcome | backend/domain/skills.py:334-388 | every outcome: lint, then the comparison, then the tests; only applying touches files and history, and it overrides exactly the given files |
| Skills.CreateOutcome | backend/domain/skills.py:280-313 | a created proposal is pending and remembers the checksum of the files it was made for |
| Skills.RollbackRestores | backend/domain/skills.py:400-425 | rollback gives every file of the snapshot its earlier content and leaves the others |
| Skills.RollbackOutcome | backend/domain/skills.py:400-425 | other skills and proposals stay, and the history remembers what was replaced |
| Skills.TwoRollbacksIff | backend/domain/skills.py:400-425 | two rollbacks give back the same map exactly when no file of the snapshot has gone missing |
| Skills.MissingFileComesBack | backend/domain/skills.py:400-425 | a store whose snapshot file is missing, where two rollbacks do not give back the same files |
| Skills.UndoRedo | backend/domain/skills.py:400-425 | in any run of the service two rollbacks in a row change nothing |
| Skills.SkillService.DigestInput | backend/domain/skills.py:48-55 | the loop feeds the digest path, NUL, content, NUL for each file in order |
| Skills.SkillService.CreateProposal | backend/domain/skills.py:280-313 | the stored proposal carries the checksum of the files at creation unless the caller gave one |
| Skills.SkillService.ApplyProposal | backend/domain/skills.py:334-388 | refused exactly for unknown or finished proposals; the whole store after lint, tests and the checksum comparison |
| Skills.SkillService.WriteAll | backend/domain/skills.py:369-373 | every given file is written, no other file is touched |
| Skills.SkillService.FindLast | backend/domain/skills.py:400-410 | the newest history entry of the skill |
| Skills.SkillService.RollbackSkill | backend/domain/skills.py:400-425 | the store after a rollback; without history nothing changes |
| A2aTasks.MarkKeeps | backend/domain/a2a.py:139-171 | marking a task that is not terminal keeps the lifecycle |
| A2aTasks.MarkKeepsIff | backend/domain/a2a.py:139-171 | mark_task alone keeps it exactly when it does not leave a terminal status |
| A2aTasks.DelegateIsGood | backend/runtime/a2a.py:293-477 | a delegation keeps the lifecycle for any remote reply or stream, including exceptions |
| A2aTasks.LifecycleHolds | backend/runtime/a2a.py:162-190 | over any sequential run of delegate and cancel terminal statuses stay, finished_at is set exactly for terminal tasks, event numbers are 1..n |
| A2aOutcomes.MarkWrites | backend/domain/a2a.py:139-171 | what a mark writes and what it leaves |
| A2aOutcomes.StreamMeans | backend/runtime/a2a.py:370-477 | the stream is read up to the first settled status in force and no further, and the notes of the items taken are logged in order |
| A2aOutcomes.DelegationOutcome | backend/runtime/a2a.py:162-178 | a delegation ends in the status its first settled report, its blocking reply or its failure calls for, started when delegated, with its log |
| A2aOutcomes.CancelOutcome | backend/runtime/a2a.py:180-190 | a task that is not terminal becomes canceled exactly when the remote agent could be told |
| A2aTasks.PageIsSlice | backend/domain/a2a.py:259-266 | a page is the slice of the log after the cursor, cut at the clamped limit |
| A2aTasks.PagingIsExact | backend/domain/a2a.py:259-266 | following the cursor with any page size returns the log exactly once in order |
| A2aTasks.A2aTask.AddEvent | backend/domain/a2a.py:242-257 | the event gets the next number |
| A2aTasks.A2aTask.MarkTask | backend/domain/a2a.py:139-171 | status, times, error and the logged change |
| A2aTasks.A2aTask.StreamMessage | backend/runtime/a2a.py:370-477 | the stream loop against its specification, item by item |
| A2aTasks.A2aTask.SendMessage | backend/runtime/a2a.py:293-368 | the task after one blocking exchange |
| A2aTasks.A2aTask.DelegateTo | backend/runtime/a2a.py:162-178 | the task after a whole delegation, falling back from streaming where the source does |
| A2aTasks.A2aTask.CancelTask | backend/runtime/a2a.py:180-190 | terminal tasks are left alone |
| A2aTasks.A2aTask.ListEvents | backend/domain/a2a.py:259-266 | the query loop returns exactly the page |
| Sse.Generate | backend/api/admin/a2a.py:188-195 | the printed stream of an event list |
| Sse.IterSseEvents | backend/runtime/a2a.py:794-826 | the reader's loop over lines against its specification |
| Sse.PrintFormat | backend/api/admin/a2a.py:188-195 | the id, event and data lines of an event as sent |
| Sse.PayloadMeaning | backend/runtime/a2a.py:818-826 | data lines are joined by line feeds; what is no typed object is wrapped under the event's name or message |
| Sse.BlankLine | backend/runtime/a2a.py:794-815 | a blank line yields the collected data, if any, and starts afresh |
| Sse.RoundTrip | backend/runtime/a2a.py:794-826 | reading the printed lines of any event list gives exactly those events in order (section 9.2.6 of the WHATWG HTML Standard) |
| Sse.RoundTripIff | backend/runtime/a2a.py:794-826 | any list of events comes back exactly when every JSON text is one line for the reader |
| Sse.SeparatorBreaksTheRoundTrip | backend/api/admin/a2a.py:188-195 | a concrete event with U+2028 in its data that does not come back |
| MemoryLine.ReadFields | backend/domain/memory.py:864-873 | the parser's loop over the comma-separated parts |
| MemoryLine.LineReadsBack | backend/domain/memory.py:850-874 | printing a row and parsing the line gives every field back, stripped; a line without visible content does not parse |
| MemoryLine.LineIsOne | backend/domain/memory.py:850-857 | the line of a row without breaks in its fields and content is one line of the file |
| MemoryLine.LineFormat | backend/domain/memory.py:850-857 | the line spelled out |
| MemoryLine.ScoreDigits | backend/domain/memory.py:850-857 | scores print as the digits of their hundredths |
| MemoryLine.EditedLineReads | backend/domain/memory.py:859-874 | a hand-edited line with any kind and fields reads as those fields in order, stripped, and its content |
| MemoryLine.RoundMovesLittle | backend/domain/memory.py:850-857 | two-decimal printing moves a score by at most 0.005 |
| MarkedLines.RewriteKeeps | backend/domain/memory.py:484-497 | rewriting an entry in place keeps every wanted entry announced once and followed by its line |
| MarkedLines.AppendKeeps | backend/domain/memory.py:467-475 | appending an entry keeps them too |
| MarkedLines.AddKeeps | backend/domain/memory.py:467-475 | also when the marker text already occurs inside some line |
| MirroredRows.RewriteLeavesOthers | backend/domain/memory.py:484-497 | in any file and for any new text, rewriting one entry leaves the marker and the reading of every other entry, unless it sits right under the rewritten marker |
| MarkedLines.AppendTouchesNothing | backend/domain/memory.py:467-475 | appending keeps every line that is not blank where it was |
| MarkedLines.RStripEnds | backend/domain/memory.py:497-497 | the written file ends in a line without blanks at its end |
| MirroredRows.SyncSettles | backend/domain/memory.py:245-283 | reading an agreeing file settles exactly the announced rows and leaves the others |
| MirroredRows.SyncTwice | backend/domain/memory.py:245-283 | a second sync changes nothing |
| MemoryMirror.FormatIsFaithful | backend/domain/memory.py:831-874 | the printed line of every clean row carries that row through parse and sync, and is never taken for a marker |
| MemoryMirror.SettledMeaning | backend/domain/memory.py:264-280 | a sync keeps status and archived flag; it keeps content, kind and source exactly when they have no blanks at the ends or are blank; scores move at most 0.005 |
| MemoryMirror.ReadMeaning | backend/domain/memory.py:264-282 | what a sync takes from a line: fields that are present and not empty, and the archived flag from the status |
| MemoryRuns.StepKeeps | backend/domain/memory.py:172-196 | create, supersede, archive, verify, restore and sync each keep file and rows in agreement |
| MemoryRuns.RunKeeps | backend/domain/memory.py:216-315 | so does any sequence of them |
| MemoryRuns.SyncAfterAnyRun | backend/domain/memory.py:245-315 | after any such sequence a sync changes rows only by stripped ends and rounding, and a further one changes nothing |
| MemoryRuns.SyncReadsEveryRow | backend/domain/memory.py:245-315 | after any such sequence every row is in the file and a sync makes of each exactly what its own line says |
| MemoryWrites.CreateWrites | backend/domain/memory.py:44-101 | what create writes, field by field, to the row and the history |
| MemoryWrites.SupersedeWrites | backend/domain/memory.py:172-196 | what supersede writes to both rows and the history |
| MemoryWrites.VerifyWrites | backend/domain/memory.py:216-229 | what verify writes |
| MemoryWrites.ArchiveWrites | backend/domain/memory.py:230-243 | what archive writes |
| MemoryWrites.RestoreWrites | backend/domain/memory.py:298-315 | what restore writes: the snapshot, with a fallback for each empty text field |
| MemoryWrites.RestoreAfterAnything | backend/domain/memory.py:298-315 | whatever happened since, restoring an entry with a whole snapshot gives back exactly that row and touches no other |
| MemoryWrites.UndoAfterAnything | backend/domain/memory.py:172-315 | archive, verify and supersede are undone, at any later time, by restoring the entry they appended |
| MemoryRuns.AnyFileStarts | backend/domain/memory.py:467-475 | any file, whatever it contains, is a valid start when there are no rows |
| MemoryServices.MemoryService.RewriteMemoryFileEntry | backend/domain/memory.py:484-504 | the loop rewrites the line after the first marker and nothing else |
| MemoryServices.MemoryService.AppendToMemoryFile | backend/domain/memory.py:467-482 | append, or rewrite when the marker text is present |
| MemoryServices.MemoryService.CreateMemory | backend/domain/memory.py:44-101 | the store after a create, for any content; file and rows stay in agreement when content is one line and fields have no delimiters |
| MemoryServices.MemoryService.SupersedeMemory | backend/domain/memory.py:172-196 | the retired row, its successor, both entries and three history records, for any replacement; agreement kept as for create |
| MemoryServices.MemoryService.MarkVerified | backend/domain/memory.py:216-229 | clamped confidence and stability, entry rewritten |
| MemoryServices.MemoryService.ArchiveMemory | backend/domain/memory.py:230-243 | status and flag together, entry rewritten |
| MemoryServices.MemoryService.RestoreMemory | backend/domain/memory.py:298-315 | a whole snapshot comes back as it was and no other row changes; each empty field falls back to the row's own or a constant; entry rewritten |
| MemoryServices.MemoryService.SyncFromMemoryFile | backend/domain/memory.py:245-296 | the rows after the sync loop and the number of markers without a row |
| SearchDedup.JaccardMeaning | backend/domain/memory.py:919-923 | similarity is symmetric, between 0 and 1, and 1 exactly for equal non-empty token sets |
| SearchDedup.JaccardIs | backend/domain/memory.py:919-923 | similarity times the size of the union is the size of the intersection, and 0 when a set is empty |
| SearchDedup.SimilarityIsMax | backend/domain/memory.py:707-707 | the penalty's similarity bounds every similarity to a kept hit and is attained unless it is 0 |
| SearchDedup.AdjustedScores | backend/domain/memory.py:705-714 | each kept hit is its ranked one with its score lowered by 0.35 of its similarity to those kept before it |
| SearchDedup.DiverseMeans | backend/domain/memory.py:702-716 | any two hits of a result share less than 0.82 of their tokens |
| SearchDedup.SelectIsGreedy | backend/domain/memory.py:702-716 | kept hits are pairwise below 0.82; a dropped one is like an earlier kept one unless the limit was reached before it |
| SearchDedup.GreedyIsUnique | backend/domain/memory.py:702-716 | that rule determines the selection: no other list of ranks follows it |
| SearchDedup.MaxSimilarity | backend/domain/memory.py:707-707 | the loop over the kept hits finds the largest similarity, 0 without any |
| SearchDedup.SortOrders | backend/domain/memory.py:717-717 | the descending sort is by score and keeps equal scores in order |
| SearchDedup.PickHits | backend/domain/memory.py:702-716 | the selection loop with its early stop keeps the greedy choice with lowered scores |
| SearchDedup.MmrDedup | backend/domain/memory.py:702-718 | at most limit hits, pairwise below 0.82, sorted by adjusted score; with room left every dropped hit is shadowed by a kept one ranked before it |

## Left out

- FastAPI routes, serializers, auth, startup, frontend, events, audit rows, metrics and trace ids: plumbing that does not touch the modelled states.
- SQL, FTS tables, migrations and races below the transaction level: tables are maps and sequences; what a query returns inside a transaction (ready jobs, due cron rows) is a parameter constrained by its conditions.
- Background jobs: creation without a key (the enqueue function always supplies one), `mark_failed`, replay after commit and the order and limit of the retry query; the failure counter of a cron row is never reset, as in the code.
- Agent: the edit, reject and respond decisions, delegation to deep research, a runtime without tool executor, and truncated copies of results in the conversation; each approval is resumed once, an approved tool does not ask again, and a tool that asks for approval has had no effect yet.
- AgentRefinement.SameTurnIffSmooth: leaves the reported list of calls out of what it compares; `ReportedCallsAgreeIff` states exactly what happens to that list.
- Wiki: YAML, headings, link extraction, search, lint and repair; a parsed page is an input of the compiler, with the normalized key the parser gives it.
- Resilience: `async_call` is the same loop as `call`; jitter and length of the retry delay, and threads sharing breaker state.
- Rate limiting: the Redis path and the disabled switch; limit and window are fixed per key in the run lemmas.
- Skills: lint rules and declared tests are predicates; partial failure of file writes, two spellings of one path, newline translation, and ties in the order of history entries.
- A2A: artifacts, discovery, JSON-RPC framing and approval checks.
- SSE and MEMORY.md: the pair `\r\n` as one line break; event types contain no line break, as the constants in the code.
- Memory: pinned flag, provenance, metadata, validity dates, conflicts, probes and proposals; a direct `supersedes_id` on create; failing file writes; the file is a list of lines, scores are real numbers, and the counter of updated rows is not returned.
- SearchDedup.MmrDedup: requires a limit of at least 1, which `search` guarantees; tokens of a memory are given as a set and rounding to four decimals is a parameter.
- Seed trees, workspace defaults, sandbox runtime, gateway and signatures: bound to I/O, or only easy members.
