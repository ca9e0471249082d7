# The Architecture Lifecycle Assistant, modelled and proved

The assistant drives numbered steps through a transition table. Three actors write them: the loop, the
approval human and the state-control human. All of them share one SQLite connection behind a nesting
transaction boundary, and talk to a worker through files that no transaction covers. Beside that it evolves
its own architecture baseline through change requests, decision records and versions, merges advisor
evidence, checks layer rules over its source, and keeps a cost ledger.

The project has three layers of statements.

* **Micro-steps.** A command is a list of file and database micro-steps; the process may die between any two
  of them and the worker may publish any report at any moment (`Transactions`, `Runs`). The classes
  (`Connections`, `Realization`, `Orchestration`, `HumanPaths`, `Scheduling`) are the methods of the source
  over mutable objects, each proved to perform exactly the micro-steps of its script.
* **Atomic protocol.** `Protocol` says what a whole command does; `ProtocolScripts` and `Runs` prove that every
  crashing run is a stuttering run of it, and `Invariants`, `Moves`, `History`, `Budget`, `Guarantees`,
  `Machine` and `Progress` prove what all runs keep and achieve. `TickTable`, `TickContent` and `HumanTable` say
  of every command exactly when it does what, and which value every field has afterwards.
* **Evolution and cores.** `Adrs`, `Versions`, `Requests` and `Bootstraps` hold the evolution engine as functions
  on the store and as classes with nested, rolling-back transactions; `AdrHistory`, `VersionChain`,
  `EvolutionRuns`, `StartUp`, `Restart`, `Convergence`, `FreshStart` and `FirstStart` prove what every history
  and every start-up keeps; `RecordTable` and `EvolutionTable` say exactly when each call succeeds and which rows
  it leaves. `Merger` to `Deciding`, `Layers` and `LayerPaths`, and `Costs`, `TimeText` and
  `Slugs` hold the algorithmic cores.

How the source's notions are represented:

* Tables are maps by key, the audit trail a sequence. Every exception is an error value; a message is a short
  reason. `str.strip` is modelled on ASCII white space.
* Clock readings, failures of file writes and acknowledgements, and the result of the source scan are
  parameters of a call (`Env`) and arbitrary; an evolution call uses one reading.
* A realization finding or decision is keyed by step and attempt; `Slugs.NamesAreInjective` shows that its text
  id is as good as that key, given distinct digests.
* Money is counted in whole micro-dollars.

## Where the documentation says more than the code does

* README.md:337-342 and the acknowledgement comment (`src/architecture_assistant/application/orchestrator.py:556-560`)
  say that an unacknowledged report is never processed again. After a BLOCKED outcome an UNBLOCK keeps the
  attempt, and the same report is read again: `ReplayCases.ReportReadTwice` is such a run,
  `Replay.ReplayedIffBlocked` the exact condition.
* `src/architecture_assistant/application/realization_control.py:17-20` says a retry never overwrites an earlier
  verdict. A second review of the same attempt does: `ReplayCases.DecisionReplaced` is such a run,
  `Verdicts.DecisionFinalIffSpent` the exact condition.
* `src/architecture_assistant/composition/evolution.py:230-231` says a restart is a no-op. It is one exactly while
  everything declared is on record as declared and the declared version is the last of the chain
  (`Restart.RestartIffAtHead`): a third version ends it, and so does amending or retiring a declared record
  (`RestartCases`, `Restart.RestartIffRecordsStand`).
* The layer rules look at direct imports and skip the bare root package, so a path through it can escape:
  `LayerPaths.RootEscapes`, and `LayerPaths.PathsBoundedIffRootHarmless` for the exact condition.

## Model

| member | source | states |
|---|---|---|
| `Transactions.InsideScope` | src/architecture_assistant/infrastructure/sqlite.py:94-103 | inside an open scope, however deeply nested, no write is durable, every write is visible, and leaving nested scopes ends nothing |
| `Transactions.CrashPoint` | src/architecture_assistant/infrastructure/sqlite.py:93-118 | for every command and every crash position, the committed database is the one before the command or, exactly from its COMMIT on, the one after the whole command; a rolled-back command changes nothing |
| `ProtocolScripts.BodyCommits` | src/architecture_assistant/application/orchestrator.py:443-454 | the nested gate scope and transition scope of a review amount to one commit of all its rows |
| `ProtocolScripts.ScriptRefines` | src/architecture_assistant/application/orchestrator.py:290-310 | the micro-steps of every tick, approval, rejection, override and project command have the shape the crash theorem needs, and their outcome is the atomic effect |
| `Runs.BeforeOrAfter` | src/architecture_assistant/application/orchestrator.py:421-458 | while a command runs, the durable store is the one before it or the one after all of it |
| `Runs.ActKeepsInvariant` | src/architecture_assistant/application/approval.py:153-204 | no command, micro-step, crash or worker report, in any order, breaks the system invariant |
| `Runs.RunKeepsInvariant` | src/architecture_assistant/application/orchestrator.py:290-349 | the system invariant holds after every run |
| `Runs.ReachableIsSafe` | src/architecture_assistant/application/dispatch.py:1-23 | from a seeded plan, every reachable durable store satisfies the workflow invariant, every step in flight has its task file, and no task file is without its context file |
| `Runs.RunsRefineAtomicProtocol` | src/architecture_assistant/infrastructure/sqlite.py:67-118 | crash refinement: the durable stores a run passes through are a stuttering run of the atomic protocol |
| `Connections.Connection.Enter` | src/architecture_assistant/infrastructure/sqlite.py:94-109 | opening a scope: only the outermost one takes explicit transaction control |
| `Connections.Connection.Leave` | src/architecture_assistant/infrastructure/sqlite.py:100-118 | leaving a scope: nested ones join, the outermost commits or, on an exception, restores what was durable |
| `Connections.Connection.ExecuteWrite` | src/architecture_assistant/infrastructure/repositories.py:109-121 | a write joins an open transaction and commits itself outside one |
| `Connections.Connection.Restart` | src/architecture_assistant/infrastructure/sqlite.py:83-85 | a process that comes back finds exactly what was committed, in no scope |
| `Connections.Connection.ListSteps` | src/architecture_assistant/application/orchestrator.py:607-610 | every step row once, in ascending step order |
| `Connections.WorkerChannel.Dispatch` | src/architecture_assistant/infrastructure/cline.py:173-200 | context first, task last as commit marker; a failing write stops the sequence there |
| `Connections.WorkerChannel.Read` | src/architecture_assistant/infrastructure/cline.py:223-236 | reading is repeatable and moves nothing |
| `Connections.WorkerChannel.Acknowledge` | src/architecture_assistant/infrastructure/cline.py:239-259 | a valid report moves to the archive, anything else stays where it is |
| `Moves.TickMoves` | src/architecture_assistant/application/orchestrator.py:312-349 | every transition a tick makes is a legal move of the current step; the exhausted-REVISE wait, the CONFLICT wait and an illegal event never occur |
| `Moves.ApproveMoves` | src/architecture_assistant/application/approval.py:153-204 | every successful approval is a legal move, of the current step |
| `Moves.RejectMoves` | src/architecture_assistant/application/approval.py:206-236 | every successful rejection is a legal move, of the current step |
| `Moves.OverrideMoves` | src/architecture_assistant/application/human_override.py:296-351 | every successful override is a legal move, of the current step |
| `Moves.TaskAdvances` | src/architecture_assistant/application/orchestrator.py:568-590 | the task row of a collecting step exists and advances: neither fallback of the lookup is taken |
| `Moves.EffectKeepsInvariant` | src/architecture_assistant/application/orchestrator.py:508-541 | every whole command of every actor keeps attempts in range, the verified prefix, task lockstep, verified evidence and audit replay |
| `Invariants.MoveKeepsInvariant` | src/architecture_assistant/application/orchestrator.py:492-551 | a legal move keeps each part of the workflow invariant |
| `Invariants.VerifiedIsFinal` | src/architecture_assistant/domain/fsm.py:168-173 | a VERIFIED step and its decision survive every legal move unchanged |
| `Guarantees.PlanSplits` | src/architecture_assistant/application/orchestrator.py:607-612 | in step order every reachable plan is VERIFIED steps, at most one step in any other state, PENDING steps, and it splits at the current step |
| `Guarantees.HumansMoveOnlyTheCurrentStep` | src/architecture_assistant/application/approval.py:240-267 | no approval, rejection or override changes any step but the current one, or makes one VERIFIED |
| `Guarantees.OnlyTheLoopVerifies` | src/architecture_assistant/application/human_override.py:317-328 | a step becomes VERIFIED in a tick or not at all |
| `Guarantees.VerificationCarriesEvidence` | src/architecture_assistant/application/orchestrator.py:443-452 | the commit that makes a step VERIFIED appends its VERIFY entry and stores an ACCEPTED decision for that attempt, without findings, against the canonical baseline |
| `Machine.StepMachine.Apply` | src/architecture_assistant/domain/fsm.py:112-115 | a legal event moves the machine, an illegal one raises and leaves it |
| `Machine.StepMachine.ApplyMany` | src/architecture_assistant/domain/fsm.py:117-121 | all events in order, or the state after the legal prefix and an error at the first illegal one |
| `Machine.TrailRebuildsState` | src/architecture_assistant/application/orchestrator.py:523-538 | the audited events of a step, run through a fresh machine, end in its persisted state, whichever actors wrote them |
| `Machine.TerminalIsNoExit` | src/architecture_assistant/domain/fsm.py:175-203 | exactly the terminal states have no outgoing event |
| `Fsm.TableIsExact` | src/architecture_assistant/domain/fsm.py:175-203 | the step table as a relation: each state's events and where they lead |
| `Fsm.TaskTableIsExact` | src/architecture_assistant/domain/fsm.py:236-240 | the task table as a relation |
| `LoopPolicy.ReviewIsExact` | src/architecture_assistant/application/loop_policy.py:70-119 | VERIFY exactly for an unqualified DONE, REVISE exactly with an attempt left, BLOCK otherwise, never CONFLICT |
| `LoopPolicy.ApprovalIsMonotone` | src/architecture_assistant/application/loop_policy.py:29-55 | less autonomy or more risk never removes an approval; the exact threshold |
| `TickTable.TickMakes` | src/architecture_assistant/application/orchestrator.py:312-349 | for every event, exactly when a tick makes it: the state, the approval policy, the report, the deadline, the gate and the attempts of the current step, spelled out per event |
| `TickTable.LoopObeysApproval` | src/architecture_assistant/application/orchestrator.py:352-358 | the loop requests approval exactly for a READY step that needs a human, and dispatches on its own exactly a READY step that needs none and can be published |
| `TickTable.TickFailsIffLate` | src/architecture_assistant/application/orchestrator.py:592-604 | a tick fails a step exactly when it is with the worker, its report file does not exist, and the check is later than its last update, or its start when it was never updated, plus the configured time |
| `TickContent.TickWrites` | src/architecture_assistant/application/orchestrator.py:508-541 | every field a transition of the loop writes: attempt, four clocks, entry and reason, task row, published artifacts, findings and decision |
| `TickContent.TickExplains` | src/architecture_assistant/application/loop_policy.py:70-119 | every reviewed outcome is acknowledged and carries the reason its report calls for; nothing else is acknowledged |
| `TickContent.MovedRows` | src/architecture_assistant/application/orchestrator.py:539-543 | a transition leaves its step, its task, its evidence and one entry, and no other row |
| `TickContent.TickFiles` | src/architecture_assistant/infrastructure/cline.py:173-259 | the files after a tick: context and task of a dispatch added, the report of an acknowledged review archived, nothing else touched |
| `TickContent.FailedPublication` | src/architecture_assistant/application/dispatch.py:71-99 | when a publication fails, and that it leaves nothing or the context of its attempt |
| `TickContent.TickRests` | src/architecture_assistant/application/orchestrator.py:297-349 | exactly when a tick rests, and why: paused, no plan, complete, stopped, or waiting for which reason |
| `TickContent.TickAnswers` | src/architecture_assistant/application/orchestrator.py:544-551 | what the caller of a tick is told: status, step, event, both states, attempt, reason and acknowledgement |
| `HumanTable.RunsAskHumans` | src/architecture_assistant/application/approval.py:153-204 | over every run, crashes included: an audited dispatch of a step that asks for a human was made by an approval |
| `HumanTable.ManualRunsAskHumans` | src/architecture_assistant/application/loop_policy.py:29-55 | over every run in which the project stays MANUAL: every audited dispatch was made by an approval |
| `HumanTable.PausedTick` | src/architecture_assistant/application/orchestrator.py:297-300 | a tick of a paused project reports the pause and writes nothing |
| `HumanTable.PausedLoopIsStill` | src/architecture_assistant/application/human_override.py:162-217 | until a RESUME, no list of commands ends a pause, and everything appended to the trail was written by humans |
| `HumanTable.ApprovalTable` | src/architecture_assistant/application/approval.py:153-204 | an approval succeeds exactly when it is explained, the step waits for it and its task can be published; every field it writes |
| `HumanTable.ApprovalFiles` | src/architecture_assistant/application/approval.py:153-204 | the context and the task of the approved attempt are on the channel, and no other file changes |
| `HumanTable.RejectionTable` | src/architecture_assistant/application/approval.py:206-236 | a rejection succeeds exactly when it is explained and the step waits for approval; every field it writes |
| `HumanTable.OverrideTable` | src/architecture_assistant/application/human_override.py:253-351 | which states each override takes, where it leads, and every field it writes |
| `HumanTable.OverrideRefused` | src/architecture_assistant/application/human_override.py:296-316 | in any other state an override raises |
| `HumanTable.ControlTable` | src/architecture_assistant/application/human_override.py:162-251 | exactly when pause, resume and set-mode succeed, the one switch each changes, and the entry it leaves |
| `HumanTable.HumanAnswers` | src/architecture_assistant/application/human_override.py:296-351 | a successful human command returns the row it stored, a refused one raises and writes nothing |
| `History.RunIsLater` | src/architecture_assistant/application/orchestrator.py:509-521 | over whole runs, crashes included: terminal steps never change, attempts never decrease, spent attempts stay spent with their decision, the audit trail only grows |
| `History.TickReadsOneReport` | src/architecture_assistant/application/orchestrator.py:390-399 | a tick depends on no report but the one of the current step and attempt |
| `History.NoStaleRead` | src/architecture_assistant/application/orchestrator.py:426-434 | once an attempt is spent, no later tick of any run reads its report |
| `Replay.ReplayedIffBlocked` | src/architecture_assistant/application/human_override.py:325-331 | after a durable review whose acknowledgement was lost, some later tick reads the same report again if and only if the report has questions or issues or is BLOCKED, or is REVISE or FAILED with no attempt left, or is DONE with violations in the scan |
| `Replay.ReadAgainIffUnsettled` | src/architecture_assistant/application/orchestrator.py:421-458 | durable or not: after its review a report can be read again if and only if it is not a clean DONE accepted against the canonical baseline and not a clean REVISE or FAILED with an attempt left |
| `ReplayCases.ReportReadTwice` | src/architecture_assistant/application/orchestrator.py:556-560 | a run of a one-step plan in which the report of attempt 1 is reviewed, the step BLOCKED, and the same report received a second time after an UNBLOCK |
| `Verdicts.DecisionFinalIffSpent` | src/architecture_assistant/composition/realization.py:118-121 | the decision of an attempt begun can never be replaced by the workflow, paused or not, if and only if the attempt is spent or no review can take place (no single project, or a baseline that is not the canonical one); a spent one is safe from every component |
| `ReplayCases.DecisionReplaced` | src/architecture_assistant/application/realization_control.py:17-20 | a run of a one-step plan in which a BLOCKED step holds a REJECTED decision and, after an UNBLOCK, the same attempt holds an ACCEPTED one |
| `Budget.MoveLowersRank` | src/architecture_assistant/application/orchestrator.py:460-478 | each loop transition lowers a rank on attempts left and state; a human event raises it by at most 5, 5 or 1 |
| `Budget.LoopWorkIsBounded` | src/architecture_assistant/application/scheduler.py:145-153 | from a seeded plan the audit trail never holds more than 6 * (sum of max attempts) + 5 * (UNBLOCKs + RESOLVEs) + REJECTs loop transitions |
| `Budget.CountsCountEntries` | src/architecture_assistant/application/orchestrator.py:523-538 | the counts in the bound are numbers of audit entries by the loop and by each human event |
| `Budget.AttemptsKept` | src/architecture_assistant/application/orchestrator.py:509-521 | the attempt budget of the plan never changes |
| `Realization.RealizationControl.RequireAuthoritativeBaseline` | src/architecture_assistant/application/realization_control.py:122-152 | succeeds exactly when one version is current and it is the canonical one with the canonical rules |
| `Realization.RealizationControl.RecordEvidence` | src/architecture_assistant/application/realization_control.py:106-109 | all findings, then the decision, in one scope |
| `Realization.RealizationControl.Gate` | src/architecture_assistant/application/realization_control.py:86-119 | a verdict and its evidence recorded in one scope, or an error and no write |
| `Orchestration.RequireProject` | src/architecture_assistant/application/orchestrator.py:614-627 | the single project, or none |
| `Orchestration.PublishTask` | src/architecture_assistant/application/dispatch.py:71-99 | the artifacts that reach the disk before a dispatch is persisted, on success and on each failure |
| `Orchestration.PersistRows` | src/architecture_assistant/application/orchestrator.py:539-543 | step, task and audit entry in one scope |
| `Orchestration.Orchestrator.Transition` | src/architecture_assistant/application/orchestrator.py:492-551 | one event of the table persisted with exactly one audit entry, or an error and no write |
| `Orchestration.Orchestrator.Dispatch` | src/architecture_assistant/application/orchestrator.py:360-388 | publish, then persist, as the script of a dispatch says |
| `Orchestration.Orchestrator.Collect` | src/architecture_assistant/application/orchestrator.py:390-419 | report before deadline, deadline before start, otherwise wait |
| `Orchestration.Orchestrator.ReviewDone` | src/architecture_assistant/application/orchestrator.py:443-452 | gate and transition in one transaction; an inconclusive gate rolls it back |
| `Orchestration.Orchestrator.Review` | src/architecture_assistant/application/orchestrator.py:421-458 | outcome durable first, acknowledgement after it and best effort |
| `Orchestration.Orchestrator.RetryOrAbort` | src/architecture_assistant/application/orchestrator.py:460-478 | next attempt, abort when exhausted |
| `Orchestration.Orchestrator.CurrentStep` | src/architecture_assistant/application/orchestrator.py:607-612 | the lowest-numbered step that is not VERIFIED |
| `Orchestration.Orchestrator.RunOnce` | src/architecture_assistant/application/orchestrator.py:290-310 | the methods perform exactly the micro-steps of a tick's script and come to rest in its atomic effect |
| `Scheduling.Scheduler.RunUntilIdle` | src/architecture_assistant/application/scheduler.py:145-153 | ticks chain while they transition; the last one says why they stopped, or the raising one is the last; the final store and channel are those after that many ticks |
| `Progress.LimitNeverReached` | src/architecture_assistant/application/scheduler.py:31-34 | with more iterations than the rank of the plan, the iteration limit is never the reason a call stops |
| `Progress.SchedulerCompletes` | src/architecture_assistant/application/scheduler.py:145-153 | on the smooth path a call with more than 5N iterations counts exactly 5N transitions and stops with every step VERIFIED |
| `Progress.SchedulerNeverRaises` | src/architecture_assistant/application/scheduler.py:145-153 | nor does a tick of that call raise |
| `HumanPaths.ApprovalGate.Target` | src/architecture_assistant/application/approval.py:240-267 | the target of an event, pinned to what the gate may realize, never VERIFIED |
| `HumanPaths.ApprovalGate.Approve` | src/architecture_assistant/application/approval.py:153-204 | validated, then published, then committed as one script |
| `HumanPaths.ApprovalGate.Reject` | src/architecture_assistant/application/approval.py:206-236 | back to READY with one audit entry |
| `HumanPaths.HumanOverride.ApplyStepEvent` | src/architecture_assistant/application/human_override.py:296-351 | one legal event on one step, or an error and no write |
| `HumanPaths.HumanOverride.PauseProject` | src/architecture_assistant/application/human_override.py:162-189 | pausing writes project and entry, and a no-op raises |
| `HumanPaths.HumanOverride.ResumeProject` | src/architecture_assistant/application/human_override.py:191-217 | resuming writes project and entry, and a no-op raises |
| `HumanPaths.HumanOverride.SetMode` | src/architecture_assistant/application/human_override.py:219-249 | a new mode writes project and entry, and a no-op raises |
| `Adrs.ADRManager.Commit` | src/architecture_assistant/application/adr_manager.py:270-290 | every row and exactly one audit entry in one scope |
| `Adrs.ADRManager.Propose` | src/architecture_assistant/application/adr_manager.py:75-115 | a new record at version 1, or an error before any write |
| `Adrs.ADRManager.ChangeStatus` | src/architecture_assistant/application/adr_manager.py:250-268 | a status change along the table, or an error before any write |
| `Adrs.ADRManager.Deprecate` | src/architecture_assistant/application/adr_manager.py:129-133 | an ACCEPTED record is retired, any other refused before any write |
| `Adrs.ADRManager.Amend` | src/architecture_assistant/application/adr_manager.py:135-178 | new content under the next version with the status untouched, or an error before any write |
| `Adrs.ADRManager.Supersede` | src/architecture_assistant/application/adr_manager.py:180-230 | both sides of the relationship in one commit under one entry, or an error before any write |
| `AdrHistory.ChainEnd` | src/architecture_assistant/application/adr_manager.py:200-230 | every chain of supersessions ends, and from a superseded record it ends in an ACCEPTED or DEPRECATED one |
| `RecordTable.StatusPairs` | src/architecture_assistant/application/adr_manager.py:47-53 | the allowed status changes as pairs |
| `RecordTable.ProposeTable` | src/architecture_assistant/application/adr_manager.py:75-115 | exactly when a record can be proposed, its row and its entry |
| `RecordTable.StatusTable` | src/architecture_assistant/application/adr_manager.py:117-133 | exactly when a record is accepted, rejected or deprecated, its row and its entry |
| `RecordTable.AmendTable` | src/architecture_assistant/application/adr_manager.py:135-178 | exactly when a record is amended, and which text stands in each field afterwards |
| `RecordTable.SupersedeTable` | src/architecture_assistant/application/adr_manager.py:180-230 | exactly when a record supersedes another, both rows and the entry |
| `AdrHistory.NoCycle` | src/architecture_assistant/application/adr_manager.py:191-198 | along a chain each record was superseded later than the one before, so none returns to its start |
| `AdrHistory.SupersedeKeeps` | src/architecture_assistant/application/adr_manager.py:180-230 | a supersession keeps the forest and the rebuilding of the table from the trail |
| `AdrHistory.AmendKeeps` | src/architecture_assistant/application/adr_manager.py:135-178 | an amendment, of any record, keeps them too |
| `AdrHistory.MoveKeeps` | src/architecture_assistant/application/adr_manager.py:250-268 | a status change keeps them too |
| `Versions.ArchitectureVersioning.Introduce` | src/architecture_assistant/application/architecture_versioning.py:155-176 | roll-over and accompanying records all or nothing, joining an outer scope |
| `Versions.ArchitectureVersioning.RollOver` | src/architecture_assistant/application/architecture_versioning.py:192-245 | inserts the version and retires exactly one named, current predecessor, or raises |
| `Versions.ArchitectureVersioning.CheckPresent` | src/architecture_assistant/application/architecture_versioning.py:247-278 | an already stored version is verified, never rewritten |
| `Versions.ArchitectureVersioning.EnsureAdrs` | src/architecture_assistant/application/architecture_versioning.py:281-307 | missing records are proposed and accepted, differing ones are a conflict |
| `VersionChain.RollOverExtends` | src/architecture_assistant/application/architecture_versioning.py:192-245 | a successful roll-over finds everything in place or appends exactly one version to the chain, and rewrites no content |
| `EvolutionTable.RollOverTable` | src/architecture_assistant/application/architecture_versioning.py:192-278 | exactly when a roll-over from a named predecessor succeeds, and the two rows it leaves |
| `EvolutionTable.FirstVersionTable` | src/architecture_assistant/application/architecture_versioning.py:192-220 | exactly when a first version is introduced |
| `EvolutionTable.EnsureTable` | src/architecture_assistant/application/architecture_versioning.py:281-307 | exactly when a list of records can be ensured, and that it leaves exactly those rows beside what was there |
| `EvolutionTable.RegisterTable` | src/architecture_assistant/application/architecture_evolution.py:659-683 | the same for declared risks |
| `VersionChain.CurrentIsLast` | src/architecture_assistant/application/architecture_evolution.py:594-613 | at most one version is current, and it is the last of the chain |
| `VersionChain.OnePredecessor` | src/architecture_assistant/application/architecture_versioning.py:223-236 | no two versions are superseded by the same one |
| `VersionChain.Latest` | src/architecture_assistant/application/architecture_versioning.py:192-245 | following the chain from any version ends at the single current one |
| `Requests.ArchitectureEvolution.Propose` | src/architecture_assistant/application/architecture_evolution.py:286-342 | request, entry and record together, or nothing; a repeated proposal writes nothing |
| `Requests.ArchitectureEvolution.Approve` | src/architecture_assistant/application/architecture_evolution.py:344-394 | request APPROVED and record ACCEPTED together, or nothing |
| `Requests.ArchitectureEvolution.Reject` | src/architecture_assistant/application/architecture_evolution.py:396-429 | request REJECTED and record REJECTED together, or nothing |
| `Requests.ArchitectureEvolution.Apply` | src/architecture_assistant/application/architecture_evolution.py:431-524 | supersession, risks, request and entry together with the postcondition re-read, or nothing |
| `Requests.ArchitectureEvolution.Verify` | src/architecture_assistant/application/architecture_evolution.py:626-657 | a repeated apply demands that its target still heads the chain |
| `Requests.EnsureRisks` | src/architecture_assistant/application/architecture_evolution.py:659-683 | missing risks are registered, differing ones are a conflict |
| `EvolutionTable.ProposalTable` | src/architecture_assistant/application/architecture_evolution.py:286-342 | exactly when a request is proposed, and the request row, record row and entries it leaves |
| `EvolutionTable.ApprovalTable` | src/architecture_assistant/application/architecture_evolution.py:344-394 | exactly when a request is approved; request APPROVED under that name, record ACCEPTED, their entries, nothing else |
| `EvolutionTable.RejectionTable` | src/architecture_assistant/application/architecture_evolution.py:396-429 | exactly when a request is rejected; request and record REJECTED, their entries, nothing else |
| `EvolutionTable.ApplicationTable` | src/architecture_assistant/application/architecture_evolution.py:431-524 | exactly when a request is applied, and versions, records, risks, request and last entry afterwards |
| `EvolutionRuns.ApproveForward` | src/architecture_assistant/application/architecture_evolution.py:716-727 | approval keeps requests, records and baseline coupled, also when requests share a record |
| `EvolutionRuns.RejectForward` | src/architecture_assistant/application/architecture_evolution.py:729-740 | rejection keeps them coupled |
| `EvolutionRuns.ApplyForward` | src/architecture_assistant/application/architecture_evolution.py:497-517 | application keeps them coupled: source superseded by target, target with the request's rules |
| `EvolutionRuns.HistoryKept` | src/architecture_assistant/application/architecture_evolution.py:286-524 | over any history, by any processes with any catalogues, of bootstrap, introduce, propose, approve, reject, apply and record calls, raising ones included: one linear chain with frozen content, coupled requests, a rooted forest of records rebuilt by the trail |
| `EvolutionRuns.EmptyStore` | src/architecture_assistant/application/architecture_bootstrap.py:619-641 | every such history may start from an empty store |
| `Bootstraps.ArchitectureBootstrap.Seed` | src/architecture_assistant/application/architecture_bootstrap.py:619-641 | project, baseline, records and risks created or already present, or nothing at all |
| `Bootstraps.ArchitectureBootstrap.ReconcileProject` | src/architecture_assistant/application/architecture_bootstrap.py:643-668 | created only when absent, never reset |
| `Bootstraps.ArchitectureBootstrap.ReconcileVersion` | src/architecture_assistant/application/architecture_bootstrap.py:670-742 | content reconciled, history never rewritten, the successor must be current |
| `EvolutionTable.SeedTable` | src/architecture_assistant/application/architecture_bootstrap.py:619-742 | exactly when seeding succeeds, and every table afterwards |
| `Bootstraps.Start` | src/architecture_assistant/composition/evolution.py:218-238 | seed, propose, approve, apply as four transactions, stopping at the first that raises |
| `StartUp.StepAdvances` | src/architecture_assistant/composition/evolution.py:226-235 | each successful transaction makes itself repeatable and undoes none before it |
| `StartUp.RestartWritesNothing` | src/architecture_assistant/composition/evolution.py:221-231 | once a start-up has completed, a further one writes nothing |
| `Restart.RestartIffAtHead` | src/architecture_assistant/composition/evolution.py:226-235 | a start-up succeeds without a write if and only if everything declared is on record as declared and the declared version is the last of the chain |
| `Restart.RestartIffShortChain` | src/architecture_assistant/application/architecture_evolution.py:626-657 | on a chain that begins with the declared change: if and only if everything declared is on record as declared and the chain has at most two versions |
| `Restart.RestartIffRecordsStand` | src/architecture_assistant/application/architecture_bootstrap.py:549-558 | when only decision records changed since a completed start-up, the next one writes nothing, and succeeds if and only if every declared record is still ACCEPTED in its declared words |
| `Restart.RestartAfterAmendment` | src/architecture_assistant/application/adr_manager.py:135-178 | after one amendment: if and only if it amended no declared record or changed no word of it |
| `Restart.RestartAfterRetirement` | src/architecture_assistant/application/adr_manager.py:180-230 | after one deprecation or supersession: if and only if the record is not a declared one |
| `RestartCases.ThirdVersionEndsRestarts` | src/architecture_assistant/application/architecture_bootstrap.py:731-741 | a completed start-up that one more introduced version makes raise |
| `RestartCases.AmendmentEndsRestarts` | src/architecture_assistant/application/architecture_versioning.py:298-306 | a completed start-up that one amendment makes raise |
| `RestartCases.DeprecationEndsRestarts` | src/architecture_assistant/application/architecture_bootstrap.py:549-558 | a completed start-up that one deprecation makes raise |
| `Restart.FurtherChangeEndsRestarts` | src/architecture_assistant/application/architecture_bootstrap.py:728-742 | after any further applied change every start-up raises |
| `Convergence.StepTimeless` | src/architecture_assistant/application/architecture_bootstrap.py:533-546 | no transaction of the start-up looks at a timestamp |
| `Convergence.StartUpConverges` | src/architecture_assistant/composition/evolution.py:218-238 | crashed between any of its transactions and rerun any number of times, the start-up reaches the uninterrupted result up to timestamps |
| `Convergence.UninterruptedReaches` | src/architecture_assistant/application/architecture_bootstrap.py:619-641 | so does one uninterrupted start-up, whatever its clock reads |
| `Convergence.OnlyTimesDiffer` | src/architecture_assistant/application/architecture_bootstrap.py:533-546 | two stores that are equal up to timestamps agree on every other field of every table |
| `FreshStart.FirstStartUpCompletes` | src/architecture_assistant/composition/evolution.py:218-238 | with a well-declared catalogue any number of crashing processes and then one that is not interrupted bring an unused store to the declared baseline, the change APPLIED, and a further start-up writes nothing |
| `FirstStart.FirstStartUpIffDeclared` | src/architecture_assistant/composition/evolution.py:226-238 | a first start-up succeeds if and only if the catalogue is well declared: named records and valid risks, no id with two contents, an approver, and a change from the first baseline to another declared one with exactly its rules |
| `Merging.MergeEvidence` | src/architecture_assistant/application/evidence_merger.py:447-569 | exactly the specified view, or exactly the first of: gate not settled, identity collision, blank anchor |
| `Merging.Collect` | src/architecture_assistant/application/evidence_merger.py:478-530 | one pass over the observations, stopped exactly by a collision |
| `Merging.Oppose` | src/architecture_assistant/application/evidence_merger.py:534-554 | one conflict per anchor with two sides, in anchor order |
| `MergerLaws.FirstsStep` | src/architecture_assistant/application/evidence_merger.py:499-516 | the findings are exactly the first arrivals, in order of arrival |
| `MergerLaws.NothingLost` | src/architecture_assistant/application/evidence_merger.py:18-22 | every delivered finding is in the view under its own identity |
| `MergerLaws.FindingsPartitioned` | src/architecture_assistant/application/evidence_merger.py:287-343 | the three id lists partition the findings |
| `MergerLaws.AnchorsAreTheGates` | src/architecture_assistant/application/evidence_merger.py:468-472 | the anchors of a view are exactly the rules and evidence references of the gate, in order |
| `MergerOrder.ListsFollowArrival` | src/architecture_assistant/application/evidence_merger.py:513-524 | in order of arrival, a finding supports or conflicts exactly when its first delivery declared that and named a rule or an evidence reference of the gate |
| `MergerOrder.SidesFollowArrival` | src/architecture_assistant/application/evidence_merger.py:532-552 | the two sides of a conflict: in order of arrival, exactly the findings that count for and against its target |
| `MergerOrder.OutcomesFollowArrival` | src/architecture_assistant/application/evidence_merger.py:487-500 | abstentions and failures apart, each with its source and reason, in order of arrival |
| `MergerOrder.QuestionNames` | src/architecture_assistant/application/evidence_merger.py:438-444 | a question names the target, the supporting ids and then the contradicting ids |
| `MergerOrder.AnchorsNamedIs` | src/architecture_assistant/application/evidence_merger.py:366-371 | no anchor is blank exactly when no rule and no reference of the gate is |
| `MergerLaws.ConflictIffOpposed` | src/architecture_assistant/application/evidence_merger.py:225-235 | an anchor has a conflict exactly when both opposing relations were declared to it and it is a rule or an evidence reference of the gate |
| `MergerLaws.MergeIgnoresRepeats` | src/architecture_assistant/application/evidence_merger.py:503-511 | removing repeated deliveries changes nothing |
| `MergerLaws.OneView` | src/architecture_assistant/application/evidence_merger.py:447-569 | observations and gate determine the view |
| `MergerLaws.ViewAcceptedIffAnchorsNamed` | src/architecture_assistant/application/evidence_merger.py:287-371 | the view's own constructor accepts a merge exactly when no anchor is blank |
| `Deciding.EngineAcceptsMerge` | src/architecture_assistant/application/decision_engine.py:90-125 | a merged view is accepted with a gate exactly when that gate has the status it was merged under |
| `Deciding.StatusIgnoresAdvisors` | src/architecture_assistant/application/decision_engine.py:128-141 | advisors never vote: the gate's status, else ERROR exactly when every execution failed |
| `Deciding.EvidenceRefs` | src/architecture_assistant/application/decision_engine.py:216-238 | the references in order, each at its first occurrence |
| `Deciding.DeduplicatedIsExact` | src/architecture_assistant/application/decision_engine.py:232-238 | de-duplication keeps the members and repeats none |
| `Deciding.DeduplicatedInOrder` | src/architecture_assistant/application/decision_engine.py:232-238 | each reference stands where it first occurs |
| `Deciding.JudgeFailsOnlyAcrossSteps` | src/architecture_assistant/application/judge.py:76-130 | for a conflict of a merged view the judge's input is built, from exactly the findings it names, unless they span steps |
| `Deciding.Resolve` | src/architecture_assistant/application/judge.py:219-238 | one judge input per conflict, in order; none when no judge is available |
| `Layers.CheckUnknownLayers` | src/architecture_assistant/architecture/rules.py:144-171 | reports exactly the modules outside the known layers, each once |
| `Layers.CheckForbiddenImports` | src/architecture_assistant/architecture/rules.py:174-207 | reports exactly the imports against the allowed direction, each once |
| `Layers.CheckSqlite` | src/architecture_assistant/architecture/rules.py:210-233 | reports exactly the sqlite3 imports outside infrastructure, each once |
| `Layers.Validate` | src/architecture_assistant/architecture/validator.py:37-49 | exactly all violations, each once, in key order; none if and only if the model complies |
| `Layers.ReportedPairs` | src/architecture_assistant/architecture/rules.py:89-113 | which ordered pairs of layers are reported, in v1.0 and in v1.1, as literal relations |
| `Layers.LayerOfNames` | src/architecture_assistant/architecture/rules.py:123-137 | the layer of a dotted name, of the root, and of a name outside the project |
| `LayerPaths.AvoidingPathBounded` | src/architecture_assistant/architecture/rules.py:102-113 | compliance of direct imports bounds import paths of any length that avoid the bare root |
| `LayerPaths.PathsBoundedIffRootHarmless` | src/architecture_assistant/architecture/rules.py:189-190 | all paths are bounded if and only if whoever imports the bare root may import what it imports |
| `LayerPaths.RootEscapes` | src/architecture_assistant/architecture/scanner.py:53-65 | for every root name a compliant model in which a domain module reaches infrastructure through the bare root |
| `LayerPaths.OnlyTwoLayersReachSqlite` | src/architecture_assistant/architecture/rules.py:210-233 | only infrastructure and composition modules can reach sqlite3 |
| `LayerPaths.OlderComplianceIsEnough` | src/architecture_assistant/architecture/rules.py:329-344 | every v1.0-compliant model is v1.1-compliant |
| `LayerPaths.NewerComplianceIsNotEnough` | src/architecture_assistant/architecture/rules.py:311-326 | not conversely: a composition module |
| `Costs.CostLedger.Record` | src/architecture_assistant/infrastructure/cost.py:78-113 | a replay is quiet, a conflicting identity raises, anything else is appended |
| `Costs.CostLedger.Query` | src/architecture_assistant/infrastructure/cost.py:115-135 | each total is the sum of its own column over exactly the matching records, each count their number; priced plus unpriced is the record count |
| `Costs.SummedByColumn` | src/architecture_assistant/infrastructure/cost.py:226-255 | cost, input, output, records, priced and unpriced: each the sum of its own column |
| `Costs.FiltersNarrow` | src/architecture_assistant/ports/capabilities.py:387-403 | an empty query matches everything and each filter narrows it by its own field, both time bounds inclusive |
| `Costs.RecordingTable` | src/architecture_assistant/infrastructure/cost.py:78-113 | one more recording: quiet for a known event billing the same, raising for a known event billing otherwise, one row for a new event |
| `Costs.SqlSelectsExactlyMatches` | src/architecture_assistant/infrastructure/cost.py:197-223 | the SQL filter selects exactly the rows the typed predicate accepts |
| `Costs.LedgerIsFirstRecords` | src/architecture_assistant/infrastructure/cost.py:78-113 | after any recordings, replays and conflicts the table is the first record of each event, in order |
| `Costs.FirstRecordsAreFirst` | src/architecture_assistant/infrastructure/cost.py:91-100 | each kept record is the earliest of its event |
| `Costs.EventsOnce` | src/architecture_assistant/infrastructure/cost.py:91-113 | no event is kept twice, however often it is recorded |
| `Costs.ReplaysChangeNothing` | src/architecture_assistant/infrastructure/cost.py:91-100 | recording known events again, with equal or other content, changes nothing |
| `Costs.QueriesSumDistinctEvents` | src/architecture_assistant/infrastructure/cost.py:226-255 | every query sums each distinct event once |
| `TimeText.IsoKeepsOrder` | src/architecture_assistant/infrastructure/cost.py:157-169 | UTC texts compare as text exactly as the instants do, although the fraction is omitted when zero |
| `TimeText.IsoInjective` | src/architecture_assistant/infrastructure/cost.py:157-169 | different instants have different texts |
| `TimeText.IsoReads` | src/architecture_assistant/infrastructure/cost.py:157-169 | where separators, fraction and zone stand in the text |
| `TimeText.BeforeCounts` | src/architecture_assistant/infrastructure/cost.py:215-220 | one instant is before another exactly when its field-by-field count is smaller |
| `TimeText.ParsedIso` | src/architecture_assistant/infrastructure/repositories.py:67-70 | reading a stored instant back is the identity |
| `Slugs.NamesAreInjective` | src/architecture_assistant/infrastructure/cline.py:139-142 | two attempts never share a channel file, a decision id or, given distinct digests, a finding id |
| `Slugs.PaddedShape` | src/architecture_assistant/infrastructure/cline.py:139-142 | at least three digits, the number itself, a leading zero only to fill them |

## Left out

- Provider adapters, the judge's HTTP adapter, secrets and the plugin registry: network clients around the merger.
- Excel and Markdown rendering, the report builder and the monitor: they only read.
- Real SQLite, SQL parsing, row converters, migrations, `ast.parse` and directory walking: tables are maps, rule checks start from a source model, and a file replacement is one map update.
- Two processes on one database: the code assumes one connection and one actor at a time, and so do the runs.
- Evolution commands inside the crash runs are arbitrary nested writes of other tables; each of their own methods is proved to make at most one store durable, the one after all of it (`Did`, over the ghost `history` of the connection).
- Start-up with several declared changes: the catalogue of the source holds one.
- Changes of the plan after it was seeded, and human edits of step rows other than through the three actors.
- The risk manager beyond registration: its status changes follow the pattern of the decision records.
- Finding digests: distinct violations are taken to have distinct digests.
- Floating-point rounding of totals, and naive datetimes: bounds and instants are UTC instants.
- Orchestration.Orchestrator.RunOnce: report and context contents are reduced to what the loop reads (status, issues, questions; step number and the earlier verified steps).
- Merging.MergeEvidence: finding severity and confidence are carried but never interpreted, as in the source.
- Layers.Validate: a violation's message is left out; rule, module and target determine it.
- Costs.CostLedger.Record: whether the insert joins a transaction is not modelled here; `Connections.Connection.ExecuteWrite` models that choice.
