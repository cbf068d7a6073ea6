# Verified model of the operations agent

This project models the parts of the backend that decide what reaches a network device, what reaches the language
model and what reaches the operator, and proves what they guarantee over whole runs: under concurrent callers,
cancellations, crashes and restarts, and with arbitrary devices, models and tools.

Each database transaction, and each single-row conditional `UPDATE`, is one atomic step. Time is integer microseconds,
money is a real number. Devices, language models, tools, clocks and other callers are arbitrary: they are parameters,
functions of a step number, or steps of a run that may come in any order.

| file | models |
|---|---|
| `HitlProposal.dfy` | the six-state approval row and its compare-and-swap updates |
| `HitlRuns.dfy` | all runs of the approval protocol: callers, worker threads, crashes, restarts, a log of device lines |
| `HitlLines.dfy`, `HitlOrphans.dfy` | on those runs: what lies between two calls' lines, and claims nobody is in charge of |
| `HitlExecution.dfy` | one call of the execution service, step by step, against any interference |
| `HitlQueue.dfy` | persisted execution requests, the bounded queue, and startup recovery |
| `QueueRuns.dfy` | runs of the queue: tickets that callers hold, jobs, shutdown |
| `Uptime.dfy`, `MonitorLog.dfy` | the availability bar and the run-length compressed status log behind it |
| `Transcript.dfy`, `Compaction.dfy`, `Window.dfy`, `Compactor.dfy` | legal histories, the safe cut, racing compactors, and the window the model is shown |
| `Budget.dfy`, `RunLoop.dfy` | the budget ledger and the agent loop |
| `Orchestration.dfy` | bounded parallel workflows with a nested review |
| `AgentSessions.dfy`, `TurnRuns.dfy` | turn leases, archiving, and their runs |
| `SummaryWorker.dfy`, `LineChunks.dfy` | summary delivery with claim times as fencing tokens; line-wise chunking |
| `DeviceExecutor.dfy` | what the device worker thread sends, commits and reports |
| `DependencyGraph.dfy`, `AgentRegistry.dfy` | breadth-first distances; the receipts below an agent |

State that the code updates in place is held in classes whose methods are proved against specification functions;
the lemmas are about those functions and about runs of steps. A method that waits takes what others do meanwhile as
a list of steps (`others`, `env`), so its contract holds under every interleaving of atomic steps.

Automatic induction is switched off throughout, so every inductive proof shows its own induction.
`dafny verify dfyconfig.toml` checks everything.

## What the proofs found

- **Read-only queries have no bound by human decisions.** A state-changing command reaches the device through at most
  one call plus one per human retry authorisation (`SendsAreAuthorised`). A `device_query` may be sent again any number
  of times on one approval, because a failed query goes straight back to APPROVED (`QueriesMayBeResent`).
- **Lines may arrive late.** A device worker thread cannot be cancelled, so lines of a call whose outcome was already
  written off may still go out after a human authorised a retry, next to those of the new call
  (`LateLineAfterRetry` is such a run of a state-changing command). Lines sent while their call is in charge always have a
  permission to send again between them, for state-changing commands a human one (`DecisionBetweenPromptLines`). All lines
  of a run do if and only if no line goes out while the log holds a line of another call with no permission since
  (`ApartExactly`); where that happens one of the two is late (`CrowdingIsLate`, `LateLinesDecide`), so never when every
  caller waits for its thread (`WaitingKeepsLinesApart`).
- **A claim can be orphaned.** A call that is cut off after its claim without writing a status, as by a cancellation between
  the commit and the `try`, leaves the row EXECUTING with no call in charge (`ClaimThenCancel`). A row becomes an orphan
  exactly when its call is cut off like that or the process ends (`OrphanedExactly`), and nothing but the recovery at the
  next start changes it, to UNKNOWN (`OnlyRestartReleases`, `OrphanUntilRestart`).
- **A proposal can have two jobs.** Two retries may adopt the same ticket that is not started yet; when the commit of one
  fails, it gives the ticket back under the other, which then starts it outside the table, and a third retry gets a new
  ticket (`TwoRetriesTwoJobs`). A shutdown that clears the table while a caller still waits for its commit does the same
  (`ShutdownTwoJobs`); the application calls it only as the process ends, so that needs a caller that outlives the shutdown. Without such a drop there is never a second job (`OneJobUnlessDropped`), and a step opens the way to
  one exactly when it drops a live ticket (`DropDecides`). The claim still lets only one of two jobs be in charge (`OneOwner`).
- **A restart strands some requests.** If an asset is switched to dynamic credentials after a request was stored as
  static, and the retry is cancelled while queued, the request waits for a password that its stored kind never asks
  for, and a restart does not queue it again. `QueuedUnlessStranded` gives the exact condition and
  `StrandedByCredentialChange` the scenario.
- **An archived session can get a new proposal.** A turn that has outlived its lease does not count as active, so
  its session may be archived under it, and creating a proposal checks no lease (`OverdueTurnProposesAfterArchive` is such a
  run for every lease time). `ArchiveIsFinal` holds when turns end within their lease. In every run an archived session stays
  settled if and only if no turn or child of it proposes afterwards (`SettledUntilProposal`), and whoever does is a turn that
  has outlived its lease, or a child that such a turn spawned after the archiving (`LateProposerIsOverdue`).
- **`dispatched` errs on the safe side.** `dispatched = false` implies that nothing was sent, as the retry rule needs. The
  converse does not hold, because the flag is set before the first line goes out
  (`backend/app/agent/executors.py:604`, `:618`). `RunDeviceCommand` says exactly when a command is reported as dispatched,
  and, from the command and the transport alone, exactly when nothing of such a command goes out: the transport breaks off, or
  refuses, before any line is out (`SilentCallIsReportedDispatched`); a configuration template has an unresolved placeholder
  (`backend/app/agent/executors.py:350-351`, `PlaceholderIsReportedDispatched`) or there is no line to send; or a template
  cannot be filled.
- **`WaveResult` keeps failed children open too.** Its description says that the children left open by the last wave
  are those that were waited on successfully (`backend/app/agent/orchestration.py:102-104`); the code keeps all
  of the last wave (`backend/app/agent/orchestration.py:342-345`), and they are closed later all the same. The model
  follows the code: the description is right if and only if no wait for one of the requests from the last multiple of the limit
  on fails (`OpenFinalMayHaveFailed` with `LastWaveIs`), and `FailedChildrenStayOpen` is a fan-out where it is not.
- **Ties in the status log.** The order in which rows of one target are read does not matter, for any window, if and only if
  no two rows of one time disagree about being up (`OrderFreeExactly`); two of one time that are both not up may differ.
- **The budget may be crossed before the last model call.** When the summariser's charge crosses the limit, the error is
  swallowed and one more model call is made before the turn ends (`FirstStepCrosses`, `SummaryCrossesTheLimit`). In a turn that
  starts within the limit this happens at most once, in its last step, of a root turn, and exactly when that step was charged
  for a summary past the limit and still called the model (`OverLimitCallsExactly`); no tool is dispatched after that
  (`OverBudgetStops`).

## Model

| member | source | states |
|---|---|---|
| HitlProposal.EdgesAreExact | backend/app/crud/hitl_proposal.py:102-334 | the conditional updates realise exactly the documented state diagram, both directions |
| HitlProposal.SettledForever | backend/app/crud/hitl_proposal.py:102-334 | no sequence of updates ever touches an EXECUTED or REJECTED row again |
| HitlProposal.TableInvKept | backend/app/crud/hitl_proposal.py:102-334 | over any updates: no row past PENDING without its decider, start and execution times exactly where owed |
| HitlProposal.RecoveredKeepsTable | backend/app/crud/hitl_proposal.py:297-312 | startup turns exactly the EXECUTING rows into UNKNOWN and keeps the table consistent |
| HitlProposal.ProposalTable.Decide | backend/app/crud/hitl_proposal.py:102-138 | a decision takes effect on a PENDING row only; otherwise the row is unchanged and the error names its status |
| HitlProposal.ProposalTable.ClaimExecution | backend/app/crud/hitl_proposal.py:140-160 | the claim is the one update from APPROVED to EXECUTING, refused on any other status |
| HitlProposal.ProposalTable.Revert | backend/app/crud/hitl_proposal.py:162-198 | EXECUTING goes back to APPROVED for the two fixed reasons only |
| HitlProposal.ProposalTable.RejectForPolicy | backend/app/crud/hitl_proposal.py:200-218 | a blacklisted command rejects an APPROVED row |
| HitlProposal.ProposalTable.MarkUnknown | backend/app/crud/hitl_proposal.py:220-247 | doubt is written on an EXECUTING row only, with the fixed reason |
| HitlProposal.ProposalTable.ResolveUnknown | backend/app/crud/hitl_proposal.py:249-295 | a person ends UNKNOWN as executed or authorises a retry, and is recorded |
| HitlProposal.ProposalTable.MarkExecuted | backend/app/crud/hitl_proposal.py:314-334 | success is written on an EXECUTING row only |
| HitlProposal.ProposalTable.RecoverExecuting | backend/app/crud/hitl_proposal.py:297-312 | bulk recovery and the number of rows it changed |
| HitlRuns.SendsAreAuthorised | backend/app/agent/hitl_execution.py:550-706 | in every run the calls whose lines reach the device number at most 1 + retry authorisations (+ read-only reverts for queries) |
| HitlRuns.OneOwner | backend/app/agent/hitl_execution.py:338-358 | at most one live call owns a claim, and only while the row is EXECUTING |
| HitlRuns.ClaimsFollowDecisions | backend/app/crud/hitl_proposal.py:140-295 | every claim follows an approving decision, two claims are separated by a revert or retry authorisation, lines follow a claim, a revert as unsent means no line ever |
| HitlRuns.QueriesMayBeResent | backend/app/agent/hitl_execution.py:632-651 | for every n there is a run in which one approved query is sent by n calls with no retry authorisation |
| HitlLines.DecisionBetweenPromptLines | backend/app/agent/hitl_execution.py:632-703 | in every run, two lines of different calls that were in charge when they sent have a human retry authorisation between them, or, for read-only commands only, a revert |
| HitlLines.ApartExactly | backend/app/agent/hitl_execution.py:587-630 | in every run: all lines of different calls are kept apart like that if and only if no line goes out while the log holds another call's line for the proposal with no permission since |
| HitlLines.CrowdingIsLate | backend/app/agent/hitl_execution.py:587-630 | when a line goes out like that, it or the line before it was sent after its call was written off |
| HitlLines.LateLinesDecide | backend/app/agent/hitl_execution.py:587-630 | all lines of different calls are kept apart like that if and only if the lines sent after their call was written off are |
| HitlLines.WaitingKeepsLinesApart | backend/app/agent/hitl_execution.py:587-630 | if every caller waits for its thread, all lines of different calls are kept apart |
| HitlLines.LateLineAfterRetry | backend/app/agent/hitl_execution.py:587-630 | a run in which a written-off call of a state-changing command sends a line right after a line of the authorised retry |
| HitlOrphans.OrphanedExactly | backend/app/agent/hitl_execution.py:358-372 | a row becomes EXECUTING without a call in charge exactly when its call ends without a status update, or the process ends |
| HitlOrphans.OrphanUntilRestart | backend/app/agent/hitl_execution.py:140-178 | however long others go on, such a row stays as it is until the recovery at a restart |
| HitlOrphans.OnlyRestartReleases | backend/app/crud/hitl_proposal.py:297-312 | a step changes such a row if and only if it is that recovery, which makes it UNKNOWN |
| HitlOrphans.ClaimThenCancel | backend/app/agent/hitl_execution.py:358-372 | a run that leaves one: a claim, and a cancellation before the `try` |
| HitlRuns.RunInv | backend/app/agent/hitl_execution.py:550-706 | what every step, crash and restart keeps: owners match EXECUTING rows, the log matches the calls |
| HitlExecution.OwnedRowIsStable | backend/app/agent/hitl_execution.py:338-358 | while a call owns its claim no other step changes its row |
| HitlExecution.System.PollExecuting | backend/app/agent/hitl_execution.py:140-178 | whatever others do: the executed summary if and only if the row last read is EXECUTED, the next try if and only if it is APPROVED, and an error otherwise |
| HitlExecution.System.HandleClaimConflict | backend/app/agent/hitl_execution.py:180-211 | the same after a lost claim: EXECUTED gives the summary, APPROVED one more try, anything else an error |
| HitlExecution.System.AwaitApproved | backend/app/agent/hitl_execution.py:260-274 | the row last read decides: APPROVED goes on, EXECUTED answers with its summary, anything else is an error that fits it |
| HitlExecution.System.PreflightAndClaim | backend/app/agent/hitl_execution.py:235-372 | success means an authorised call that owns an EXECUTING row; every refusal fits the row it leaves; a row EXECUTED at the start gives its summary and a REJECTED one an error whatever others do; undisturbed, status and checks decide the answer |
| HitlExecution.System.SecondClaim | backend/app/agent/hitl_execution.py:340-357 | one more claim exactly when the row is APPROVED again, then no third |
| HitlExecution.System.Settle | backend/app/agent/hitl_execution.py:632-703 | the executor's answer decides the row: executed, back to APPROVED, or UNKNOWN |
| HitlExecution.System.ExecuteApproved | backend/app/agent/hitl_execution.py:550-706 | whatever others do, a call that claimed leaves the row as its own outcome demands, one that did not sent nothing and answers as the row says, and a proposal EXECUTED before gives its summary; undisturbed, an approved one is claimed if and only if the checks pass |
| HitlQueue.RestartIsSafe | backend/app/agent/hitl_executor.py:490-516 | after recovery nothing is EXECUTING, one open request per proposal, open requests belong to APPROVED rows and wait for a password or are queued |
| HitlQueue.RecoveryCloses | backend/app/agent/hitl_executor.py:500-515 | exactly the open requests of proposals that are not APPROVED any more are closed, as abandoned and with the time; the others keep everything but their status |
| HitlQueue.StartableAfterRecovery | backend/app/agent/hitl_executor.py:441-515 | after recovery exactly the requests that waited or ran, need no password, have an initiator and an APPROVED proposal can be started |
| HitlQueue.QueuedUnlessStranded | backend/app/agent/hitl_executor.py:507-514 | surviving requests without dynamic password are all queued if and only if none was stranded |
| HitlQueue.StrandedByCredentialChange | backend/app/agent/hitl_executor.py:418-425 | the scenario that strands a request |
| HitlQueue.ExecutionRequests.CreateOpen | backend/app/crud/hitl_execution_request.py:19-39 | a second open request of a proposal is refused and changes nothing |
| HitlQueue.ExecutionRequests.ResumeAwaiting | backend/app/crud/hitl_execution_request.py:77-93 | the same request becomes the next attempt; the index still holds |
| HitlQueue.ExecutionRequests.SetStatus | backend/app/crud/hitl_execution_request.py:95-109 | a status write by request id in all columns: the first start and the end are timed, and it is refused where the index forbids it |
| HitlQueue.ExecutionRequests.RecoverOpen | backend/app/agent/hitl_executor.py:500-515 | the recovery loop settles every open request as the specification says |
| HitlQueue.HitlExecutionQueue.Reserve | backend/app/agent/hitl_executor.py:330-338 | a ticket is given exactly when accepting, not yet present and below capacity |
| HitlQueue.HitlExecutionQueue.Adopt | backend/app/agent/hitl_executor.py:340-349 | an existing ticket is kept; otherwise as reserve |
| HitlQueue.HitlExecutionQueue.Release | backend/app/agent/hitl_executor.py:351-354 | only the ticket that holds the place gives it back |
| HitlQueue.HitlExecutionQueue.Start | backend/app/agent/hitl_executor.py:356-380 | a ticket is started once |
| HitlQueue.HitlExecutionQueue.EnterSlot | backend/app/agent/hitl_executor.py:393-395 | never more than the configured number run |
| HitlQueue.HitlExecutionQueue.EndTask | backend/app/agent/hitl_executor.py:413-432 | slot and place are given back on every end, other tickets stay; the request is finished, abandoned, waiting for a password or unchanged as that end calls for; after an orderly end everything queued is started unless the queue is full |
| HitlQueue.HitlExecutionQueue.Pump | backend/app/agent/hitl_executor.py:434-455 | every queued request without dynamic password and with an initiator is started unless the queue is full, with that initiator and those credentials, and nothing else is |
| HitlQueue.Restart | backend/app/agent/hitl_executor.py:490-516 | over the tables the last process left: every request that waited or ran, without dynamic password, with an initiator and an APPROVED proposal, is started unless the queue is full, and nothing else is |
| QueueRuns.OneJobUnlessDropped | backend/app/agent/hitl_executor.py:330-380 | in every run in which no place of a ticket is given up while its job runs or a caller may still start it, a proposal has at most one job at a time |
| QueueRuns.DropDecides | backend/app/api/v1/hitl.py:301-412 | after a run without such a drop, a step opens the way to two jobs of a proposal if and only if it is one |
| QueueRuns.TwoJobsAhead | backend/app/agent/hitl_executor.py:340-380 | in every run with room, two jobs are still to come without another drop if and only if a live ticket is outside the table |
| QueueRuns.WithinCapacity | backend/app/agent/hitl_executor.py:330-349 | in every run the places given never exceed the capacity |
| QueueRuns.TwoRetriesTwoJobs | backend/app/api/v1/hitl.py:376-427 | two retries adopt one ticket, the failed commit of one gives it back, and a proposal ends up with two jobs |
| QueueRuns.ShutdownTwoJobs | backend/app/agent/hitl_executor.py:462-470 | so does a shutdown that clears the table while a caller waits for its commit |
| Uptime.BuildUptimeWindow | backend/app/services/monitor_uptime.py:54-123 | buckets, covered time, up time and rate equal the pointwise meaning of the log |
| Uptime.Paint | backend/app/services/monitor_uptime.py:110-116 | in-place painting: failure always wins, up only replaces unknown |
| Uptime.Segments | backend/app/services/monitor_uptime.py:81-86 | the stretches tile the known time, each with the status of the earliest event after it |
| Uptime.GoverningIsEarliest | backend/app/services/monitor_uptime.py:79-86 | the status of an instant is that of the earliest event after it |
| Uptime.BucketsMet | backend/app/services/monitor_uptime.py:104-109 | first and last bucket computed with whole seconds are exactly the buckets a stretch meets |
| Uptime.BucketsTileTheHour | backend/app/services/monitor_uptime.py:29-31 | the sixty one-minute buckets cover the hour of the window, each instant once |
| Uptime.CoveredTelescopes | backend/app/services/monitor_uptime.py:100-102 | covered time is one clipped interval, and 0 <= up <= covered <= one hour |
| Uptime.RateAgreesWithBar | backend/app/services/monitor_uptime.py:110-122 | the rate is below 100% if and only if some bucket is down |
| Uptime.OrderFreeExactly | backend/app/services/monitor_uptime.py:63-86 | for every log: every order of its rows shows the same buckets, covered and up time in every window, if and only if rows of one time are all up or all not |
| Uptime.OrderDoesNotMatter | backend/app/services/monitor_uptime.py:63-75 | the result is the same for every order of such rows |
| Uptime.TiesDependOnOrder | backend/app/services/monitor_uptime.py:72-86 | for any two rows of one time of which one is up, another order of the log and a window that shows the difference |
| MonitorLog.CompressionIsLossless | backend/app/crud/monitor_status_event.py:58-96 | for probe times that never go back the compressed rows show the same buckets, covered and up time as all probes |
| MonitorLog.LogIsLossless | backend/app/crud/monitor_status_event.py:58-305 | however probes and purges interleave: with a clock that never goes back and no purge past the floor of a window, the rows left show in it the same buckets, covered and up time as all probes ever made |
| MonitorLog.CompressedMeansTheSame | backend/app/crud/monitor_status_event.py:84-96 | every instant has the same status under the compressed rows and under all probes |
| MonitorLog.CompressedAlternates | backend/app/crud/monitor_status_event.py:87-96 | neighbouring rows differ: the log cannot be shorter |
| MonitorLog.PurgedExactly | backend/app/crud/monitor_status_event.py:281-304 | purging keeps the newest row and exactly the rows that are not too old |
| MonitorLog.PurgeIsInvisible | backend/app/crud/monitor_status_event.py:262-305 | purging changes nothing a window shows when the cutoff is not past the window's floor |
| MonitorLog.StatusEvents.Latest | backend/app/crud/monitor_status_event.py:186-214 | the newest row of a target, the later one among equals |
| MonitorLog.StatusEvents.RecordProbe | backend/app/crud/monitor_status_event.py:58-96 | the row that is current, loaded by the caller or else the newest, is extended or a row is added; judged against the newest row and with a clock that has not gone back, that is recording the probe in the rows of its own target |
| Transcript.SuffixIsLegal | backend/app/agent/session.py:105-113 | any suffix of a legal history is legal once leading tool rows are dropped |
| Transcript.WellFormedConcat | backend/app/agent/session.py:105-106 | committed rows followed by pending rows are a legal history |
| Transcript.CallsAreAnswered | backend/app/agent/session.py:105-113 | in a legal history every call has its own result right behind its row, in order |
| Transcript.ToolsAnswerCalls | backend/app/agent/session.py:109-112 | and a tool row stands nowhere else |
| Transcript.SkipLeadingTools | backend/app/agent/compaction.py:208-211 | the index loop drops exactly the leading tool rows |
| Transcript.MessageUnits | backend/app/agent/compaction.py:144-171 | the parsed units tile a prefix, and their ends are exactly the places where every earlier call is answered |
| Transcript.SafeCompactionCut | backend/app/agent/compaction.py:174-196 | the cut is such a place, keeps the recent rows, and no later place would do |
| Transcript.CutAnswersItsCalls | backend/app/agent/compaction.py:174-196 | every call before the cut has its result before the cut |
| Transcript.ClosedSplits | backend/app/agent/compaction.py:144-171 | cutting a legal history at such a place leaves two legal histories |
| Compaction.MessagesToSummarize | backend/app/agent/compaction.py:214-234 | the rows chosen are those past the boundary before the best cut that keeps the sixteen most recent rows, unwritten ones among them |
| Compaction.ChosenIsStretch | backend/app/agent/compaction.py:284-306 | what a compactor chooses is one contiguous stretch of the last 216 rows, ending at a legal cut before the sixteen most recent rows; it starts at the boundary if and only if all uncompacted rows were loaded |
| Compaction.SavesRaiseTheBoundary | backend/app/agent/compaction.py:340-352 | racing saves: an effective save strictly raises the boundary and none happened since its read, so the summary was unchanged too |
| Compaction.ChainIsLossless | backend/app/agent/compaction.py:284-352 | no row is summarised twice, and every row up to the boundary was summarised once if and only if each save had loaded all uncompacted rows |
| Compaction.SmallReadsLoseNothing | backend/app/agent/compaction.py:293-352 | in every run whose reads find at most 216 uncompacted rows, what was summarised is exactly the rows up to the boundary, once each and in order |
| Compaction.FewRowsAreComplete | backend/app/agent/compaction.py:293-298 | a read that finds at most 216 uncompacted rows has loaded all of them |
| Compactor.EnsureRootCompaction | backend/app/agent/compaction.py:262-352 | called if and only if there is something to summarise and the window is full; one call is a read, foreign steps, and a save; the summariser's cost is booked before anything can fail; a save is effective only on an unchanged boundary |
| Compactor.Conversation.Read | backend/app/agent/compaction.py:284-306 | the snapshot a compactor holds |
| Compactor.Conversation.Save | backend/app/agent/compaction.py:340-352 | the conditional update |
| ModelWindow.EstimateMatchesHistory | backend/app/agent/compaction.py:87-111 | the estimator measures the window the model is sent, up to leading tool rows |
| ModelWindow.TruncatesOnce | backend/app/agent/session.py:105-106 | truncating committed rows before appending pending ones equals truncating everything |
| ModelWindow.ShownIsLegal | backend/app/agent/session.py:105-113 | whatever the boundary and the window, the rows sent are a legal history |
| ModelWindow.ShownExactly | backend/app/agent/session.py:66-113 | the window in numbers: the last sixteen rows past the boundary, or forty without a summary, pending ones among them, less the tool rows in front |
| ModelWindow.ShownIsLegalInEveryRun | backend/app/agent/session.py:56-114 | the same in every state that racing compactors and writers reach |
| ModelWindow.UpToAndAfter | backend/app/agent/session.py:83-89 | the summarised rows and the rows past the boundary are together the transcript |
| ModelWindow.BuildModelHistory | backend/app/agent/session.py:56-114 | the prompt says exactly the instructions, first; for the root exactly the current summary, once; and then exactly the window of the whole transcript, from the few rows it reads |
| ModelWindow.PromptIsTells | backend/app/agent/session.py:69-114 | an assembled prompt holds these instructions, this summary and these rows, and nothing else |
| ModelWindow.EstimateWindow | backend/app/agent/compaction.py:95-108 | the estimator's choice of rows |
| BudgetTracking.LedgersAddUp | backend/app/agent/budget.py:72-79 | the ledgers of all models add up to the total less the charges without a model |
| BudgetTracking.Budget.ReserveStep | backend/app/agent/budget.py:47-52 | a step is reserved exactly below the limit |
| BudgetTracking.Budget.RecordCost | backend/app/agent/budget.py:54-82 | counters and ledgers equal the charges made; a charge is booked before the limit is checked, an invalid one never |
| RunLoop.Run | backend/app/agent/loop.py:104-248 | the loop is a legal turn: its steps are the world's, it ends as its last step demands, its rows are legal |
| RunLoop.CallsWithinSteps | backend/app/agent/loop.py:138-165 | at most as many model calls, and summariser calls, as steps were left |
| RunLoop.OverBudgetStops | backend/app/agent/loop.py:172-193 | once over the limit no tool is dispatched and no further step follows, also when the summariser crossed it |
| RunLoop.OverLimitCallsExactly | backend/app/agent/loop.py:144-178 | a turn that starts within the limit calls the model over it at most once, and exactly when its last step was charged for a summary past the limit and still called the model; only a root turn does |
| RunLoop.FirstStepCrosses | backend/app/agent/loop.py:144-178 | a root turn whose first step compacts, with a summary that crosses the limit: the model is called over the limit and the turn ends |
| RunLoop.SummaryCrossesTheLimit | backend/app/agent/loop.py:144-178 | a whole turn that does it |
| RunLoop.PauseStops | backend/app/agent/loop.py:209-232 | nothing is handled after a call that waits for approval, and the turn ends with it |
| RunLoop.ThreeFailuresStop | backend/app/agent/loop.py:240-248 | three rounds of failures in a row are the last three |
| RunLoop.EarlyExitExactly | backend/app/agent/loop.py:209-248 | a turn exits early if and only if a call of its last round waits for an approval, or its last three rounds, not fewer, were nothing but failures |
| RunLoop.FinalAnswerExactly | backend/app/agent/loop.py:185-189 | a turn ends with an answer, that reply, if and only if its last reply is booked and asks for no call |
| RunLoop.ErrorsExactly | backend/app/agent/loop.py:166-204 | a turn ends with a model error if and only if its last reply is one, and raises if and only if a charge is invalid or a call breaks |
| RunLoop.OnlyLimitsExceed | backend/app/agent/loop.py:138-193 | a turn calls its budget exceeded only without a step left or with the money over the limit |
| RunLoop.RowsOfRound | backend/app/agent/loop.py:209-238 | the rows of a round in full: reply, calls, each call's own result, or the note for a skipped one |
| RunLoop.TurnIsLegal | backend/app/agent/loop.py:209-238 | every assistant row with calls is followed by exactly one result per call in order, skipped ones included |
| RunLoop.UsageRowIsTheReply | backend/app/agent/loop.py:185-232 | the row that carries the usage is the reply that ended the turn |
| RunLoop.HandleCalls | backend/app/agent/loop.py:195-211 | calls are handled in order up to the first that pauses or raises |
| RunLoop.Prepare | backend/app/agent/loop.py:144-160 | the prompt is built from what is committed and pending at that moment, after compacting exactly when needed; for the root, and for it alone, it carries the summary current by then |
| RunLoop.PersistTranscript | backend/app/agent/session.py:198-215 | all rows are appended in order in one step, and the id returned is that of the usage row |
| RunLoop.RunAndPersist | backend/app/agent/loop.py:134-136 | a turn that stops writes exactly its rows; a turn that raises writes nothing |
| Orchestration.NeverMoreOpen | backend/app/agent/orchestration.py:298-365 | the bound that every workflow keeps means: after every call at most max(1, limit) spawned children are not closed |
| Orchestration.RunWave | backend/app/agent/orchestration.py:298-365 | receipts are index-aligned with the requests, failures are exactly the missing ones, exactly the last wave stays open, on any failure nothing does, and a controller that refuses nothing gets a result |
| Orchestration.LastWaveIs | backend/app/agent/orchestration.py:308-312 | full waves come before the last one, which holds what they leave over, and at least one request where there is one |
| Orchestration.OpenFinalMayHaveFailed | backend/app/agent/orchestration.py:102-104 | the children left open were all waited on successfully if and only if no wait for a request of the last wave fails |
| Orchestration.FailedChildrenStayOpen | backend/app/agent/orchestration.py:342-345 | for any requests: when every wait fails, the children of the last wave are left open |
| Orchestration.Controller.CloseAll | backend/app/agent/orchestration.py:227-241 | every close is attempted, and the failed ones are reported |
| Orchestration.RunReviewer | backend/app/agent/orchestration.py:411-442 | one more child within the limit; a failed or cancelled wait closes it |
| Orchestration.SelectCompletedParent | backend/app/agent/orchestration.py:282-295 | the last worker that completed and is still open |
| Orchestration.SpawnReviewer | backend/app/agent/orchestration.py:445-481 | nested under the last completed open worker if and only if there is one and two children are allowed; every open child stays on a list the caller closes |
| Orchestration.Workflow | backend/app/agent/orchestration.py:528-625 | on every exit all children were closed and the limit held; the results are exactly what the children delivered, in order, every other request is listed for its own reason, and one more child reviews if and only if that is called for |
| Orchestration.ClassifyDocuments | backend/app/agent/orchestration.py:495-625 | bad input spawns nothing; results match their documents; reviewed if and only if a document has no result, or a result asks for it, is below the threshold, or names a category that is not offered |
| Orchestration.InvestigateRootCause | backend/app/agent/orchestration.py:662-780 | the same, reviewed always when anything was found |
| Orchestration.EveryRequestCounts | backend/app/agent/orchestration.py:541-574 | results, missing, unfinished and unreadable children together are all requests |
| Orchestration.ResultsAreDistinct | backend/app/agent/orchestration.py:560-568 | no two results speak about the same request |
| AgentSessions.SessionTable.ClaimTurn | backend/app/crud/agent_session.py:180-239 | claimed exactly when active and free or strictly older than the timeout |
| AgentSessions.SessionTable.ReleaseTurn | backend/app/crud/agent_session.py:265-291 | only the holder's lease is cleared |
| AgentSessions.SessionTable.RecoverActiveTurns | backend/app/crud/agent_session.py:293-314 | startup clears every lease |
| AgentSessions.SessionTable.Archive | backend/app/crud/agent_session.py:101-178 | the refusal reasons in order, each exactly; on success pending proposals are withdrawn and all are settled |
| AgentSessions.StaleReleaseIsHarmless | backend/app/crud/agent_session.py:265-291 | a stale holder's release leaves a newer lease alone |
| TurnRuns.TurnsWriteOnlyWhileCurrent | backend/app/agent/chat_turn.py:330-352 | in every run a turn writes its whole batch while it holds the lease, otherwise nothing |
| TurnRuns.HoldsMeansCurrent | backend/app/crud/agent_session.py:241-263 | in every run the check answers yes exactly for the last token to take the lease, unless it was given back or a restart came since |
| TurnRuns.SupersededForever | backend/app/crud/agent_session.py:180-291 | a turn that lost its lease never holds it or writes again |
| TurnRuns.OnePunctualTurn | backend/app/crud/agent_session.py:188-189 | at most one turn of a session that is not overdue runs, and it holds the lease |
| TurnRuns.ArchiveIsFinal | backend/app/crud/agent_session.py:101-178 | when no turn acts after its lease, an archived session has only settled proposals, for good |
| TurnRuns.SettledUntilProposal | backend/app/crud/agent_session.py:101-178 | in every run, from the step that archives a session on, its proposals stay settled up to a step if and only if no turn or child of it proposes before |
| TurnRuns.LateProposerIsOverdue | backend/app/crud/agent_session.py:132-140 | who proposes in an archived session is a turn past its lease, or a child spawned by one after the archiving |
| TurnRuns.OverdueTurnProposesAfterArchive | backend/app/crud/agent_session.py:132-140 | such a run exists for every lease time |
| SummaryWorker.DeliveredAtMostOnce | backend/app/crud/hitl_execution_result.py:56-106 | claim times strictly increase, at most one finish succeeds, and the message exists if and only if the result is done |
| SummaryWorker.OnlyLastClaimDelivers | backend/app/crud/hitl_execution_result.py:81-106 | a finish succeeds if and only if its claim is the last and nothing was delivered |
| SummaryWorker.ResultIsKept | backend/app/crud/hitl_execution_result.py:23-42 | the stored output never changes, and a delivered summary stays |
| SummaryWorker.ClaimableExactly | backend/app/crud/hitl_execution_result.py:56-79 | in every run a claim succeeds if and only if nothing was delivered and the last claim, if any, is more than five minutes old |
| SummaryWorker.StuckClaimIsTakenOver | backend/app/crud/hitl_execution_result.py:56-106 | a dead worker blocks nothing: five minutes later another one claims and delivers |
| SummaryWorker.StoredResult.CreateForProposal | backend/app/crud/hitl_execution_result.py:23-42 | a repeat returns the stored row |
| SummaryWorker.StoredResult.ClaimSummary | backend/app/crud/hitl_execution_result.py:56-79 | pending or strictly expired results only |
| SummaryWorker.StoredResult.FinishSummary | backend/app/crud/hitl_execution_result.py:81-106 | only the exact claim time finishes, and the message comes with it |
| SummaryWorker.StoredResult.Deliver | backend/app/agent/device_result_summary.py:347-431 | a worker reports what is stored, whatever others did meanwhile: new if and only if it still owns its claim, otherwise existing, in progress or not found |
| LineChunks.SplitConfigLines | backend/app/agent/device_result_summary.py:113-132 | whole lines, at most the limit unless one line is longer, greedily, and nothing lost |
| LineChunks.ChunksRoundTrip | backend/app/agent/device_result_summary.py:120-132 | the chunks joined are the output |
| DeviceExecutor.RenderedAt | backend/app/agent/device_commands.py:969-985 | the rendering line by line: each interface's name in every template, in order |
| DeviceExecutor.RunConfigBatch | backend/app/agent/executors.py:335-494 | lines sent are a prefix of the rendering and all of it on success, and none exactly when a placeholder is left, there are none, or the transport is silent before any is out; a commit line needs every interface answered and the check confirmed; failures say where, and each has its cause in a reply of the device |
| DeviceExecutor.SendBlocks | backend/app/agent/executors.py:358-411 | interface by interface up to the first that does not answer |
| DeviceExecutor.CheckBatch | backend/app/agent/executors.py:413-455 | without a confirmed check the batch ends before the commit |
| DeviceExecutor.RunConfirmationFlow | backend/app/agent/executors.py:497-540 | an answer is given only to its own registered question, never past an error |
| DeviceExecutor.RunDeviceCommand | backend/app/agent/executors.py:543-683 | what is sent is a prefix of what the audit shows, and for a confirmed command of its template followed by the registered answers, all of it on success; no line is sent with a placeholder left; reported as dispatched if and only if the command was entered and its line has no placeholder left; when nothing went out although reported, exactly; a device that answers every call fails only for what it said |
| DeviceExecutor.PlaceholderIsReportedDispatched | backend/app/agent/executors.py:350-351 | a configuration command with a placeholder left: dispatched, and nothing sent |
| DeviceExecutor.SilentCallIsReportedDispatched | backend/app/agent/executors.py:604-641 | a first call that breaks off, or in configuration mode is refused, before any line is out: dispatched, and nothing sent, for each kind of command |
| DeviceExecutor.NameIsFilled | backend/app/agent/device_commands.py:1007-1010 | filling a template puts the argument in place of its name and keeps the text around it |
| DeviceExecutor.FormatFillsIn | backend/app/agent/device_commands.py:1007-1010 | a template written from literal characters, braces doubled, and names is filled piece by piece, and cannot be filled exactly when a name is missing |
| DeviceExecutor.LoneBraces | backend/app/agent/device_commands.py:1007-1010 | a template with a closing brace of its own, or an opening one that is never closed, cannot be filled |
| DependencyGraph.Traverse | backend/app/crud/cmdb_asset_dependency.py:69-107 | exactly the assets at distance 1 to max_depth, each once with its exact distance, nearest first, never the start |
| DependencyGraph.DistanceIsWithin | backend/app/crud/cmdb_asset_dependency.py:77-82 | layers are shortest-path distances |
| DependencyGraph.ArrowIs | backend/app/crud/cmdb_asset_dependency.py:89-94 | down runs from parent to child, up from child to parent |
| DependencyGraph.DistanceReversed | backend/app/crud/cmdb_asset_dependency.py:76-94 | the two directions are each other's inverse, with the same distances |
| AgentRegistry.OnlyForward | backend/app/crud/agent_registry.py:17-25 | a receipt only moves forward, changes at most four times, and CLOSED is final |
| AgentRegistry.LifecycleExactly | backend/app/crud/agent_registry.py:17-25 | the allowed transitions are exactly the documented lifecycle |
| AgentRegistry.EveryStatusIsReached | backend/app/crud/agent_registry.py:17-25 | along them a new receipt can come to every status, CLOSED included |
| AgentRegistry.Registration.TransitionStatus | backend/app/crud/agent_registry.py:102-134 | allowed transitions only; the closing time is recorded exactly when closed |
| AgentRegistry.Registration.CloseReceipt | backend/app/crud/agent_registry.py:136-150 | closing works from any status and is idempotent |
| AgentRegistry.Collect | backend/app/crud/agent_registry.py:198-215 | the stack walk ends on cycles and finds exactly what is reachable through parent links |
| AgentRegistry.ListDescendants | backend/app/crud/agent_registry.py:189-221 | exactly the receipts below the root, each once; deepest first puts every child before its parent |

## Left out

- SQL text, sessions, row locks and migrations: replaced by atomic steps; ids of separate transactions do not interleave, so a written batch is contiguous.
- Network, SSH, language model, WebSocket and file I/O, audit rows, events and texts shown to people: they decide none of the modelled branches.
- Regular expressions, prompts, token estimates and vendor error patterns: arbitrary predicates and functions.
- Recording of error texts and result excerpts on proposals and requests, and `latency_ms` and `detail` of probes: easy columns.
- `app.agent.spawn` and the HTTP routes: the workflows use only the controller protocol; the routes' own checks are not modelled.
- Floating point: costs and confidences are reals, so rounding, infinities and NaN are not modelled; a model reply without text is an empty one.
- Rows beyond 216 uncompacted ones, and the claim that every row is in the summary or in the window: the code promises neither.
- Re-checking authorisation before the second claim: the code does not do it.
- Children that were force-closed while their coroutine still runs count as ended.
- HitlQueue.HitlExecutionQueue.EnterSlot: the semaphore is a counter and the set of its holders, without the order of waiters.
- Orchestration.Workflow: cancellation arrives only at a spawn or at a wait; the close between two waves is not shielded by the code, and a cancelled spawn is taken to have created no child.
- Orchestration.Controller.CloseAll: closes one after the other although the code gathers them; a failed close counts as closed, because nothing tries again.
- TurnRuns.TurnsWriteOnlyWhileCurrent: turns that are given no token check no lease.
- Compaction.ChainIsLossless: every batch of rows that is appended is a legal history of its own, as turns and user messages are.
- AgentRegistry.ListDescendants: receipt ids are distinct, as the primary key demands.
- QueueRuns.OneJobUnlessDropped: which requests of a proposal are open is not part of these runs, so a pump may start any ticket that waits.
- DeviceExecutor.RunDeviceCommand: templates use plain `{name}` fields, without conversions or format specifications; filtering and truncating of the returned output is not modelled.
- Dashboards, permissions, schemas, configuration and the frontend: no protocol of their own.
