# RunForge server core: a verified model

This project models the parts of RunForge in which many steps must fit together: the compaction of an
agent's message list, the in-process protocols around runs, sub-tasks and deletions, the live event stream
and the rebuilding of a history from it, business plugin readiness and installation, and identifiers, the
model catalogue and file tokens. It states what those parts guarantee and proves it for every input, every
run of calls and every interleaving.

Each component has a module. Code that updates objects in place is a class whose methods are tied to a
function over values; the theorems are about those functions and, for the protocols, about all sequences of
atomic steps, where the code between two suspension points is one step.

## How the model is laid out

| module | what it holds |
|---|---|
| `Messages`, `Text`, `Lists`, `Wrappers` | messages, the round form, string helpers, selections from a list |
| `Compaction` | masking, the summary range, the sliding window |
| `Segments` | cutting a tool round into summary requests and merging the answers |
| `Cascade`, `CascadeProofs` | the compaction cascade as a function, and what it keeps |
| `CascadeActs`, `TrimActs` | what each stage of the two strategies does and exactly when it acts, said of the lists themselves |
| `ContextCompactor` | the cascade as it runs, over shared wrappers written in place |
| `TrimStrategy` | the second strategy: protected prefix, outside trimmer, pair repair |
| `Recovery` | interrupted tool calls and their recorded results |
| `GoalUpdates`, `ContextManager` | superseded plan updates, compaction on clones, the affected report |
| `Identities`, `WorkingList`, `ContextRuns` | distinct messages, collapsed results and skill instructions, the working list over a whole run |
| `ExecutionControl` | the registry of run executions and shutdown |
| `RunActivity`, `PollProtocol` | waits on run activity, and the sub-task poller around them |
| `DeletionGate` | deletions against short operations |
| `RunBus`, `RunSocket`, `ReplayCursor` | the live stream, its sockets and the safe replay cursor |
| `HistoryFold`, `HistoryMessages` | events folded into parts, runs cut into messages, the active path |
| `PluginReadiness`, `PluginInstall`, `TenantLock` | readiness search, replacement with rollback, the tenant lock |
| `Snowflake`, `ModelCatalog`, `FileTokens` | identifiers, model names, file tokens |

A list of messages is in *round form* when every result lies in the unbroken run of results right after the
assistant turn that issued its call, and no call id is issued by two turns. `KeepsRounds` (in
`CascadeProofs`) adds that no call appears from nowhere, no answered call of a surviving turn loses its
answer, and the leading system messages and the first user message stay in front. Outside round form the
range search and the pair repair can split pairs; when exactly they do is stated for any list
(`Compaction.TrimsSplitIff`, `TrimStrategy.RepairIff`). The list keeps the form over every run
(`ContextRuns.RunStaysSound`).

Texts are sequences of code points; the source counts UTF-16 units, which differ for characters beyond the
basic plane.

## Where the code does less than it promises

Each entry names the lemma that says exactly when the promise holds.

- A tenant deletion that is given the tenant's threads, as `server/src/tenants/deletion.ts:38` does, no longer
  covers operations that name only a space, nor other deletions of spaces
  (`DeletionGate.AddThreadsKeepsBlocking`, `DeletionGate.TenantDeletionMissesSpaces`,
  `DeletionGate.NarrowedTenantOverlaps`).
- A poller can close a sub-task as an orphan between the creation of its row and the start of its worker; the
  worker then runs and its outcome is dropped. The row of a worker at work is terminal before its report
  exactly when that has happened (`PollProtocol.OvertakenExactly`).
- Results that a tool round masks without the size test can grow: a placeholder is longer than its text
  exactly when it elides less than 20 characters (`Compaction.PlaceholderLength`), which no text of more than
  160 characters risks (`Compaction.LengthsThatShrink`) and which happens at each length between 141 and 159
  (`Compaction.LengthsThatGrow`).
- An installation is not all-or-nothing when the removal of the backup fails. That is an error exactly when a
  directory stood in the target, and leaves there what the removal left of it
  (`PluginInstall.Registry.InstallArchive`, `PluginInstall.FailingRemovalLosesPlugin`). It also reports an
  error after it was done when one of the two final removals fails.
- Identifiers made before the epoch are empty (`Snowflake.EmptyIffBeforeEpoch`).
- A file token is cut short when its path or name holds `}]]` or a Unicode line separator
  (`FileTokens.TokenRoundTripIff`).
- The latest plan result is lost exactly when another answered plan update has the same call id
  (`GoalUpdates.LatestSurvives`, `GoalUpdates.RepeatedIdLosesLatest`).

## Model

| member | source | states |
|---|---|---|
| `Compaction.PlaceholderShrinks` | server/src/agent/compaction.ts:83-87 | every result that is large enough for masking gets strictly shorter |
| `Compaction.PlaceholderLength` | server/src/agent/compaction.ts:83-87 | for any text, exactly when its placeholder is shorter and exactly when it is longer |
| `Compaction.LengthsThatShrink` | server/src/agent/compaction.ts:83-87 | the lengths at which every text gets shorter are exactly those above 160 |
| `Compaction.LengthsThatGrow` | server/src/agent/compaction.ts:83-87 | the lengths at which some text gets longer are exactly those from 141 to 159 |
| `Compaction.PlaceholderTells` | server/src/agent/compaction.ts:83-87 | a placeholder keeps every character of the first 140 that is no white space, and names how many characters it leaves out |
| `Cascade.RoundMaskLength` | server/src/agent/contextCompactor.ts:289-297 | what these lengths mean for the results of the recent round, which are masked without the size test |
| `Compaction.MaskedExactly` | server/src/agent/compaction.ts:134-180 | which messages masking replaces, and by what: large aged results get shorter placeholders, large arguments of aged or forced turns go, everything else is unchanged |
| `Compaction.CountLeadingSystem` | server/src/agent/compaction.ts:183-191 | the loop counts exactly the leading system messages that are no summaries |
| `Compaction.SummaryEndBeforeSplitToolRound` | server/src/agent/compaction.ts:197-216 | for any list, repeated call ids included, the search ends at the greatest end that leaves no later result of a call inside |
| `Compaction.SafeEndUnique` | server/src/agent/compaction.ts:197-216 | that end is fixed by being the greatest such one |
| `Compaction.SummaryCandidate` | server/src/agent/compaction.ts:230-245 | the loops compute the range of the specification: safe end, then results, then calling turns trimmed, and none if only system messages are left |
| `Compaction.SummaryRangeSplitsNothing` | server/src/agent/compaction.ts:230-245 | in round form the trimmed range still splits no pair, and no result starts what follows it |
| `Compaction.TrimsSplitIff` | server/src/agent/compaction.ts:230-245 | for any list the range splits a pair if and only if the results that end at the safe end hold an answer to a call from behind a message that calls no tools |
| `Compaction.SplitsForSomeSetting` | server/src/agent/compaction.ts:230-245 | the lists that some setting makes split are exactly those with such results at a cut that splits nothing |
| `Compaction.TrimsNeedRoundForm` | server/src/agent/compaction.ts:238-239 | outside round form that does happen |
| `Compaction.SlidingWindow` | server/src/agent/compaction.ts:283-311 | filtering by object identity keeps exactly the leading system messages, the first user message, the last summary and the tail from a safe start, in order |
| `Compaction.WindowKeepsRoundForm` | server/src/agent/compaction.ts:283-311 | the window never breaks a tool round |
| `Segments.SegmentToolRoundForSummary` | server/src/agent/contextCompactor.ts:123-162 | the loops produce the greedy chunks of the blocks of the round, with every long argument and every result in them whole and in order, and one label per result as its status |
| `Segments.RoundIsTold` | server/src/agent/contextCompactor.ts:123-162 | the chunks consist, in order, of one part for each argument of more than 300 characters whose pieces join to that argument, and one part of at least one block for each tool message whose pieces join to its text followed by its media; the label names the last call with its id and whether the result was cut |
| `Segments.PiecesLoseNothing` | server/src/agent/contextCompactor.ts:130-149 | the pieces of a text concatenate to the text |
| `Segments.SectionLosesNothing` | server/src/agent/contextCompactor.ts:130-149 | the pieces inside the blocks of one argument or result are its whole body, in order |
| `Segments.GroupsFlatten` | server/src/agent/contextCompactor.ts:151-160 | every block lands in exactly one chunk, in order |
| `Segments.GroupsWithinBound` | server/src/agent/contextCompactor.ts:151-160 | no chunk is empty and a chunk of two or more blocks is within the bound |
| `Segments.GroupsAreGreedy` | server/src/agent/contextCompactor.ts:153-157 | a chunk is closed only when the next block does not fit |
| `Segments.ChunksWithinBound` | server/src/agent/contextCompactor.ts:123-162 | with room for a least piece and the part number, single-block chunks are within the bound too |
| `Segments.MergeAnswers` | server/src/agent/contextCompactor.ts:184-195 | the requests fall into levels, each of which carries all answers of the one before, also where merging fails; it ends with the answer to a single last request, and no merge request exceeds the bound |
| `Segments.SummarizeRecentToolRound` | server/src/agent/contextCompactor.ts:164-196 | the chunks carry the whole round, all of them are asked in order before anything is merged, no level loses an answer, and the result is the last answer |
| `CascadeProofs.CascadeKeepsRounds` | server/src/agent/contextCompactor.ts:217-315 | whatever the budget, the estimator and the provider's answers, compacting a round-form list gives a round-form list that loses no answer of a surviving turn, invents no call and keeps the anchors in front |
| `CascadeProofs.CascadeConservesIds` | server/src/agent/contextCompactor.ts:238-314 | with multiplicity, the stored ids of the input are those of the output, the summarised and the window-dropped |
| `CascadeProofs.MaskingKeepsRounds` | server/src/agent/contextCompactor.ts:89-102 | the masking stage keeps rounds |
| `CascadeProofs.L3KeepsRounds` | server/src/agent/contextCompactor.ts:247-264 | replacing the summary range by one system message keeps rounds |
| `CascadeProofs.WindowStageKeepsRounds` | server/src/agent/contextCompactor.ts:266-275 | the window stage keeps rounds |
| `CascadeProofs.RoundStageKeepsRounds` | server/src/agent/contextCompactor.ts:279-303 | masking the latest complete round and appending its summary keeps rounds |
| `CascadeActs.CascadeActs` | server/src/agent/contextCompactor.ts:217-315 | the whole outcome, said of the lists alone: under budget only forced payloads are masked; over budget old messages are masked, then a summary takes the place of the summarisable messages exactly when a provider is there, the list is over budget and one of them is stored; then an over-full list that is over budget shrinks to exactly its anchors and its safe tail and loses something, and any other stays; then, if no summary was made, a complete stored last round is cut and summarised exactly when the list is still over budget; the report says what was done, and it throws exactly when an acting request does |
| `CascadeActs.MaskAllMasks` | server/src/agent/compaction.ts:134-180 | all but the newest `keepRecent` messages are masked as old ones, and those as recent ones |
| `CascadeActs.ChangesExactly` | server/src/agent/compaction.ts:134-180 | which messages masking changes: of the old ones the large results and the turns with large arguments or replay state, of the newest `keepRecent` only turns that call a forced tool with large arguments |
| `CascadeActs.RangeExactly` | server/src/agent/compaction.ts:230-245 | for any list there is a summary range exactly when some messages between the protected front and the last safe cut can be summarised, and it is those |
| `CascadeActs.RangeIff` | server/src/agent/compaction.ts:230-245 | when there is a range: a message that is no system message, one that calls no tools and one that is no result stand in this order, with repetition, before the safe cut |
| `CascadeActs.RoundExactly` | server/src/agent/contextCompactor.ts:109-120 | the search finds a round exactly where a turn with one result for each of its calls ends the list |
| `ContextCompactor.LatestCompleteToolRound` | server/src/agent/contextCompactor.ts:109-120 | the round is found exactly when the trailing results answer all calls of the turn before them and nothing else |
| `ContextCompactor.MaskPayloads` | server/src/agent/contextCompactor.ts:89-102 | the wrappers are written in place to the masked messages and the ids of the changed ones are collected |
| `ContextCompactor.ApplyWindow` | server/src/agent/contextCompactor.ts:266-275 | filtering the wrappers by kept message objects gives the window of the list |
| `ContextCompactor.Compact` | server/src/agent/contextCompactor.ts:217-315 | the whole in-place cascade equals the specified one and acts as `CascadeActs.CascadeActs` says, reuses only the wrappers it was given and reports what it did |
| `TrimStrategy.RepairToolPairs` | server/src/agent/contextCompactor.ts:391-407 | the two passes with their growing set keep exactly the turns whose calls are all answered, then the results with an earlier call |
| `TrimStrategy.RepairIff` | server/src/agent/contextCompactor.ts:391-407 | for any list the repair leaves no call unanswered if and only if each call of a fully answered turn has an answer behind such a turn that issued it |
| `TrimStrategy.RepairedResultsHaveCalls` | server/src/agent/contextCompactor.ts:391-407 | for any list every result that stays answers a call of a turn that stays |
| `TrimStrategy.RepairPairsExactly` | server/src/agent/contextCompactor.ts:391-407 | repairing any list in which results closely follow their calls pairs calls and results exactly both ways |
| `TrimStrategy.RepairNeedsOrder` | server/src/agent/contextCompactor.ts:391-407 | the condition of the repair can fail: a list with a result in front of its call |
| `TrimStrategy.TrimPairsExactly` | server/src/agent/contextCompactor.ts:371-407 | whatever subset of the body the trimmer keeps of a round-form list, the repaired list pairs exactly both ways |
| `TrimStrategy.TrimKeepsRounds` | server/src/agent/contextCompactor.ts:416-545 | the second strategy keeps rounds for every provider, every trimmer and a trimmer that throws |
| `TrimActs.StrategyActs` | server/src/agent/contextCompactor.ts:416-545 | the whole outcome of the second strategy, said of the lists: masking and summary as in the first; then a list over budget keeps its protected messages if nothing is offered to the trimmer, is windowed if the trimmer throws, and else becomes the survivors of the repair if they are fewer |
| `TrimActs.RepairKeepsSurvivors` | server/src/agent/contextCompactor.ts:391-407 | for any list the repair keeps exactly the turns all of whose calls are answered somewhere, the results with such a turn in front that issued their call, and every other message |
| `TrimActs.SplitExactly` | server/src/agent/contextCompactor.ts:371-389 | the prefix and the body are exactly the protected messages and, behind the last summary if there is one, the rest |
| `Recovery.FindMissingToolResults` | server/src/agent/executor.ts:571-580 | the nested loops report the specified calls in order |
| `Recovery.MissingExactly` | server/src/agent/executor.ts:571-580 | a call is reported exactly when some message carries it and no result answers it |
| `Recovery.RecoveredIsComplete` | server/src/agent/executor.ts:920-930 | once each reported call has a result, wherever it is stored, nothing is missing |
| `GoalUpdates.LatestSurvives` | server/src/agent/context.ts:236-248 | the latest plan call survives, and its result exactly when no other answered plan call has its id |
| `GoalUpdates.RepeatedIdLosesLatest` | server/src/agent/context.ts:236-248 | two answered plan updates under one id, whatever they say, lose the latest result |
| `GoalUpdates.OthersSuperseded` | server/src/agent/context.ts:237-248 | every other answered plan update is reduced to its marker, call and result |
| `GoalUpdates.PrunedExactly` | server/src/agent/context.ts:220-249 | pruning changes the results and call arguments of exactly the answered plan updates that are not the latest, and nothing else of any message |
| `GoalUpdates.PruningKeepsRounds` | server/src/agent/context.ts:220-249 | pruning keeps rounds |
| `ContextManager.AffectedExactly` | server/src/agent/context.ts:251-306 | each changed stored id is listed once, and nothing else is |
| `ContextManager.ReportMatchesCascade` | server/src/agent/context.ts:266-279 | the report lists exactly the masked, summarised and dropped messages; one masked first and dropped later is listed as masked |
| `ContextManager.EachIdInOnePlace` | server/src/agent/context.ts:308-340 | each stored message ends in the list, in the summary or dropped, and in one of them only |
| `ContextManager.Manager.CloneItems` | server/src/agent/context.ts:210-214 | the clones are new wrappers around the same messages |
| `ContextManager.Manager.MaybeCompact` | server/src/agent/context.ts:187-214 | the old wrappers keep what they held; if the provider throws the list itself is unchanged; otherwise list and report are those of the cascade; the manager stays valid |
| `ContextManager.Manager.PruneSupersededGoalUpdates` | server/src/agent/context.ts:220-249 | the in-place loop writes exactly the pruned list |
| `ContextManager.Manager.Add` | server/src/agent/context.ts:84-87 | appending a new message prunes the plan updates it supersedes, and the manager stays valid |
| `ContextManager.Manager.SetLastDbId` | server/src/agent/context.ts:112-114 | the stored id of the last entry is written in place and no other entry changes |
| `ContextManager.Manager.CompactForHistory` | server/src/agent/contextCompactor.ts:202-215 | masking at the end of a run works on clones, reports the changed messages and changes nothing when there is nothing to mask |
| `ContextManager.Manager.CollapseConsumedToolResults` | server/src/agent/context.ts:147-179 | the loops over calls and results collapse exactly the intact results of the named tools, on clones, and nothing when none of them is stored |
| `ContextManager.Manager.SetActiveSkillInstructions` | server/src/agent/context.ts:95-111 | the injected entries are replaced by the new instructions behind the leading system messages |
| `WorkingList.AddKeepsRoundFormIff` | server/src/agent/context.ts:84-87 | exactly when one more message keeps a list in round form |
| `WorkingList.SkillsKeepRoundForm` | server/src/agent/context.ts:95-111 | exchanging the instructions keeps the round form |
| `WorkingList.SkillsStand` | server/src/agent/context.ts:95-109 | the entries that were not injected stay in order and the new instructions stand together behind all system messages that these start with |
| `WorkingList.CollapsesExactly` | server/src/agent/context.ts:147-164 | exactly the intact results for which the last call with their id is one of the named tools collapse, all of them if one is stored and none otherwise |
| `Identities.CascadeKeepsIdentities` | server/src/agent/contextCompactor.ts:217-315 | the cascade keeps messages distinct and brings in at most the summary |
| `ContextRuns.RunStaysSound` | server/src/agent/context.ts:84-214 | over every sequence of additions, compactions, collapses and exchanged instructions, with whatever budgets and answers, the list stays in round form with distinct messages and keeps its first user message |
| `ExecutionControl.RunKeepsInv` | server/src/agent/executionControl.ts:10-139 | after any sequence of calls the holder counts match the open handles, and after shutdown every mapped execution is aborted |
| `ExecutionControl.MappedIffHeld` | server/src/agent/executionControl.ts:97-116 | a run is in the map exactly while one of its handles is unfinished |
| `ExecutionControl.OneMainPerRun` | server/src/agent/executionControl.ts:92-96 | at most one main executor of a run is active |
| `ExecutionControl.DoneAtLastFinish` | server/src/agent/executionControl.ts:107-115 | `done` resolves exactly when the only open handle finishes, and stays resolved |
| `ExecutionControl.ShutdownIsFinal` | server/src/agent/executionControl.ts:16-22 | after shutdown no run enters the map, every mapped one is aborted and no main registration succeeds, for ever |
| `ExecutionControl.IdleIffAllFinished` | server/src/agent/executionControl.ts:32-36 | the map is empty exactly when every handle given out is finished |
| `ExecutionControl.RegistersExactly` | server/src/agent/executionControl.ts:87-139 | after any calls a main executor of a held run is refused exactly when the run has an unfinished one or was aborted, of any other run exactly when shutdown was called, with that error; a further holder exactly when nobody holds the run |
| `ExecutionControl.RegistrationHolds` | server/src/agent/executionControl.ts:97-132 | a registration gives an unfinished main handle on the execution of the run, which is new exactly when nobody held the run |
| `ExecutionControl.RetentionHolds` | server/src/agent/executionControl.ts:97-139 | a further holder gets an unfinished handle, no main one, on the execution that is held |
| `ExecutionControl.AbortedExactly` | server/src/agent/executionControl.ts:141-159 | an execution is aborted by exactly the calls that name its run or a thread it is bound to, and by shutdown, made while somebody holds it, and it stays aborted |
| `ExecutionControl.BoundIsHit` | server/src/agent/executionControl.ts:101-159 | an execution once bound to a thread stays bound, and every later abort of that thread while it is held reaches it |
| `ExecutionControl.Executions.RegisterRun` | server/src/agent/executionControl.ts:120-132 | the shared entries end up in the specified state, or the call throws and changes nothing |
| `ExecutionControl.Executions.RetainRun` | server/src/agent/executionControl.ts:135-139 | a further holder joins the mapped entry, or the call throws |
| `ExecutionControl.Executions.FinishHandle` | server/src/agent/executionControl.ts:107-115 | finishing updates counters, map and `done` as specified; a second finish does nothing |
| `ExecutionControl.Executions.StopAcceptingNewRuns` | server/src/agent/executionControl.ts:16-22 | the loop aborts exactly the mapped executions and stops registration |
| `ExecutionControl.Executions.AbortThreadExecutions` | server/src/agent/executionControl.ts:148-160 | the loop aborts and names exactly the mapped executions bound to one of the threads |
| `ExecutionControl.Executions.BindRunThread` | server/src/agent/executionControl.ts:101-106 | an execution bound to another thread refuses; otherwise it is bound |
| `RunActivity.Waiters.WaitForRunActivity` | server/src/agent/executionControl.ts:52-79 | one synchronous step registers the wait under each of its run ids |
| `RunActivity.Waiters.Notify` | server/src/agent/executionControl.ts:39-44 | exactly the live waits on that run are woken and leave all their sets; no empty set stays in the map |
| `RunActivity.Waiters.Dispose` | server/src/agent/executionControl.ts:65-71 | the wait leaves its sets, an emptied set leaves the map unless it was replaced there, and other waits are untouched |
| `RunActivity.Waiters.MembersAreLiveWaits` | server/src/agent/executionControl.ts:52-79 | the set of a run id holds exactly the live waits on it |
| `PollProtocol.NoLostWakeUp` | server/src/agent/executor.ts:1549-1586 | in every run a poller parked on an unwoken wait has a worker still at work |
| `PollProtocol.PollerReturns` | server/src/agent/executor.ts:1560-1585 | in any company, once the worker has left a poller has returned after six own steps |
| `PollProtocol.TerminalIsFinal` | server/src/agent/executor.ts:1569-1573 | a terminal status never changes; the row may only be deleted |
| `PollProtocol.ReportsAreTrue` | server/src/agent/executor.ts:1563-1575 | a terminal status a poller reports is the row's |
| `PollProtocol.ReportsLastRead` | server/src/agent/executor.ts:1549-1586 | in every run a poller that has returned and was not cancelled reports no status if and only if its row was gone at its last read, else exactly the status it read, which is running if and only if it returned for new input |
| `PollProtocol.ReportsOutcome` | server/src/agent/executor.ts:1563-1576 | if the worker reported before the last read of such a poller, the poller reports that outcome, or none if the row was gone |
| `PollProtocol.OrphanExactly` | server/src/agent/executor.ts:1568-1576 | a running row is closed as an orphan exactly when its worker has left or has not started |
| `PollProtocol.TerminalExactly` | server/src/agent/executor.ts:1563-1576 | in every run a row is terminal exactly when its worker has reported or a poller has closed it as an orphan |
| `PollProtocol.OvertakenExactly` | server/src/agent/executor.ts:1503-1576 | in every run, while a worker that has reported nothing is at work, its row is terminal exactly when a poller found it running before the worker was registered and has closed it since |
| `PollProtocol.OrphanOvertakesStart` | server/src/agent/executor.ts:1503-1511 | closed before its worker is registered, the sub-task still runs and its outcome is dropped |
| `PollProtocol.OrphanOvertakesStartInSomeRun` | server/src/agent/executor.ts:1503-1511 | such a state is reached |
| `DeletionGate.NoOpenOperationInTheWay` | server/src/deletion/gate.ts:45-57 | from the end of the awaited operations until the deletion finishes or its scope changes, no open operation is in its way in any run |
| `DeletionGate.RefusedExactly` | server/src/deletion/gate.ts:35-95 | in every run a deletion or operation is refused exactly when a deletion that was begun and has not finished concerns its scope: same tenant, and one of them names nothing (the deletion also without added threads), or both name the same space or thread, or the thread was added; otherwise it is registered |
| `DeletionGate.AdmittedExactly` | server/src/deletion/gate.ts:60-95 | while one deletion is under way, an operation is admitted exactly when it is of another tenant or names only other spaces and threads, and the deletion names something or was given threads |
| `DeletionGate.PendingExactly` | server/src/deletion/gate.ts:49-54 | a deletion waits for exactly the entered, unfinished operations that it concerns in that sense |
| `DeletionGate.NoneInHand` | server/src/deletion/gate.ts:45-57 | the exclusion told by the calls: once those operations are over, no operation that the deletion concerns is in hand while it goes on unchanged |
| `DeletionGate.OverlapIsSymmetric` | server/src/deletion/gate.ts:89-95 | overlap is symmetric on the scopes deletions begin with |
| `DeletionGate.AddThreadsKeepsBlocking` | server/src/deletion/gate.ts:46-48 | adding threads keeps everything blocked if and only if the deletion named a space or thread or nothing is added |
| `DeletionGate.TenantDeletionMissesSpaces` | server/src/tenants/deletion.ts:30-39 | given threads, a tenant deletion admits and does not await operations on its spaces |
| `DeletionGate.ActiveDeletionsAreApart` | server/src/deletion/gate.ts:35-44 | in runs without such a call, deletions in progress never overlap |
| `DeletionGate.NarrowedTenantOverlaps` | server/src/deletion/gate.ts:35-48 | with such a call two overlapping deletions can be in progress |
| `DeletionGate.Gate.BeginDeletion` | server/src/deletion/gate.ts:35-57 | after any calls a deletion is refused exactly when a deletion under way concerns its scope, told by the calls alone |
| `DeletionGate.Gate.EnterOperation` | server/src/deletion/gate.ts:60-80 | after any calls an operation is refused exactly when a deletion under way concerns its scope, told by the calls alone |
| `DeletionGate.Gate.PendingOperations` | server/src/deletion/gate.ts:49-54 | the awaited operations are exactly the open ones whose scope the deletion concerns, told by the calls |
| `DeletionGate.Gate.AddThreadsTo` | server/src/deletion/gate.ts:46-48 | the loop adds the threads to that deletion alone, so the gate stands as its calls say |
| `DeletionGate.Gate.EndDeletion` | server/src/deletion/gate.ts:55 | the deletion leaves the active ones, so the gate stands as its calls say |
| `DeletionGate.Gate.EndOperation` | server/src/deletion/gate.ts:73-78 | the operation leaves the open ones, and a second end does nothing, so the gate stands as its calls say |
| `RunBus.RowsAreNumbered` | server/src/agent/bus.ts:19-30 | cursors count publications, and a retained row is the event its cursor numbers |
| `RunBus.ActiveStepExactly` | server/src/agent/bus.ts:19-83 | a step is active if and only if the last announcement among the operations, by its start event or by pruning, is of that step and no completion of it follows |
| `RunBus.RetainedExactly` | server/src/agent/bus.ts:78-83 | a published event is retained under its number if and only if it belongs to no step or no pruning past its step followed |
| `RunBus.KeptIffNeverPruned` | server/src/agent/bus.ts:78-83 | the retained events of a step are all of them if and only if none was pruned |
| `RunBus.SnapshotCompleteIff` | server/src/agent/bus.ts:50-58 | while a step is in progress by the operations, the snapshot is of that step and holds all its events, in order, if and only if no pruning past it followed one of them |
| `RunBus.SnapshotCompleteInStepOrder` | server/src/agent/executor.ts:1626 | announced in step order, there is a snapshot exactly while a step is in progress, and it is always complete |
| `RunBus.Bus.PublishEvent` | server/src/agent/bus.ts:19-30 | publishing numbers, stores and returns the row and leaves other runs alone |
| `RunBus.Bus.ClearBeforeStep` | server/src/agent/bus.ts:78-83 | pruning keeps the rows of that step and later ones and makes it active |
| `RunBus.Bus.CurrentStepSnapshot` | server/src/agent/bus.ts:50-58 | the snapshot is that of the specified state |
| `RunBus.Bus.PublishStepCompleted` | server/src/agent/bus.ts:60-63 | completing a step ends it if it is active and leaves other runs alone |
| `RunBus.AfterIsTail` | server/src/agent/bus.ts:42-44 | the rows past a cursor are a tail of the buffer |
| `RunSocket.DeliversEverythingSince` | web/src/api.ts:707-728 | for every interleaving the client holds the snapshot of its moment and is handed exactly what was published since, in order |
| `RunSocket.ActiveStepArrivesWhole` | server/src/api/ws.ts:304-346 | snapshot and live events of the step that is in progress by the operations are together all of its events once each in order, if and only if none was pruned before |
| `RunSocket.HeldBackUntilSnapshot` | web/src/api.ts:713-717 | before the snapshot nothing is delivered and all that is held back is counted already |
| `RunSocket.SortSorts` | web/src/api.ts:722 | sorting by cursor is a sorted permutation |
| `RunSocket.RunSubscription.OnMessage` | web/src/api.ts:707-727 | the handler with its buffer does what the specification says for each frame |
| `RunSocket.SendsPastCursorUntilEnd` | server/src/api/ws.ts:141-155 | offered rows in cursor order, the socket sends each one past the requested cursor once, up to and including the first terminal one |
| `RunSocket.ExternalStreamOfRun` | server/src/api/ws.ts:134-166 | over a bus session an external connection sends the rows retained at its start or published later, past the requested cursor, once and in order: all of them if none ends or suspends the run, else up to the first that does |
| `RunSocket.ExternalSocket.Replay` | server/src/api/ws.ts:159-166 | the replay loop sends the retained rows past the cursor and closes for a run that is over |
| `ReplayCursor.CompletedHistoryThroughStates` | packages/contracts/src/schemas.ts:16-27 | the loop computes the specified cursor |
| `ReplayCursor.ThroughIsLongestPrefix` | packages/contracts/src/schemas.ts:15-27 | over sorted steps it is the end of the longest complete prefix beyond the initial cursor |
| `ReplayCursor.LongestPrefixIsUnique` | packages/contracts/src/schemas.ts:15-27 | there is only one such cursor |
| `ReplayCursor.NeverMovesBack` | packages/contracts/src/schemas.ts:20-26 | it never moves back as steps complete, are added or the start moves on |
| `ReplayCursor.OnlyStepsBeyondMatter` | server/src/api/ws.ts:331-340 | the steps beyond a cursor give the same result as all steps |
| `ReplayCursor.ResumesFromReached` | server/src/api/ws.ts:331-340 | resumed from the cursor reached over an earlier list, the steps beyond it give what all steps of the grown list give from the start |
| `HistoryFold.CutsDoNotMatter` | web/src/history.ts:130-281 | event lists that differ only in how deltas of one step and timing are cut fold to the same parts |
| `HistoryFold.OnePartPerCall` | web/src/history.ts:212-245 | each call has one tool part, which holds what became of it, and there is no other tool part |
| `HistoryFold.ToolShowsLast` | web/src/history.ts:212-245 | the tool part shows the input, the output with its end and duration, and the start time that the last event with them brings, and none if no event does |
| `HistoryFold.ToolShowsFirst` | web/src/history.ts:212-245 | and the name and step of its first event |
| `HistoryFold.NothingIsLost` | web/src/history.ts:139-160 | the text and reasoning parts hold all text and reasoning of the events, in order, none twice |
| `HistoryFold.PartsInOrder` | web/src/history.ts:130-281 | the parts of all kinds stand in the order of the events: each event adds its own parts behind all earlier ones, an event of another kind first closes the open reasoning or text with its step and timing, and the last statistics come last |
| `HistoryFold.FoldUiEventsToParts` | web/src/history.ts:130-281 | the loop with its buffers computes the fold |
| `HistoryMessages.CutLosesNothing` | web/src/history.ts:488-515 | cutting succeeds exactly when persisted user messages come in stored order; then the users come once each in order and the segments hold the events minus the consumed boundaries |
| `HistoryMessages.RunShowsItsUsers` | web/src/history.ts:449-515 | a run that is shown shows its stored users once each in stored order |
| `HistoryMessages.RunIsLaidOut` | web/src/history.ts:449-515 | a shown run is its first user message, then each stored user message at its boundary with exactly the events in front of that boundary in front of it, and of this exactly the segments without parts are left out |
| `HistoryMessages.LastOfIdCounts` | web/src/history.ts:354 | of several runs with one id the last one counts |
| `HistoryMessages.AppendRun` | web/src/history.ts:456-515 | the loop over a run's events emits exactly the specified messages or the same error |
| `HistoryMessages.AppendRuns` | web/src/history.ts:449-515 | the runs come one after the other, and the first whose messages are out of order is the error |
| `HistoryMessages.ActivePathRuns` | web/src/history.ts:352-367 | the loop ends and gives the active run with its ancestors, oldest first, or the whole list if the way up breaks off |
| `HistoryMessages.OneWayUp` | web/src/history.ts:358-365 | the way up is unique |
| `HistoryMessages.TopOrBreak` | web/src/history.ts:358-366 | it reaches a top or breaks off, never both |
| `PluginReadiness.BusinessPluginReadiness` | server/src/businessPlugins/settings.ts:146-187 | a plugin is ready exactly when no faulty plugin and no dependency cycle can be reached from it; an error explains itself along the dependencies |
| `PluginReadiness.Resolver.ResolveError` | server/src/businessPlugins/settings.ts:154-182 | the memoised search ends, remembers only what is right and leaves the visited set as it found it |
| `PluginReadiness.SoundIsUsable` | server/src/businessPlugins/settings.ts:179-181 | plugins remembered without error cannot reach a fault or a cycle |
| `PluginReadiness.ExplainedIsUnusable` | server/src/businessPlugins/settings.ts:156-177 | every error points to a real fault or cycle |
| `PluginReadiness.OrderDoesNotMatter` | server/src/businessPlugins/settings.ts:183-186 | any order of the same plugins gives the same verdicts |
| `PluginInstall.Registry.Replace` | server/src/businessPlugins/registry.ts:467-486 | what each stage of the replacement leaves when it stops there |
| `PluginInstall.Registry.TakeBack` | server/src/businessPlugins/registry.ts:501-504 | the catch clause puts the old directory back |
| `PluginInstall.Registry.Deploy` | server/src/businessPlugins/registry.ts:460-507 | with one fault at most, an error leaves directories and index as they were, but for the two failing removals: when each is an error, and what it leaves |
| `PluginInstall.IndexedFinds` | server/src/businessPlugins/registry.ts:488-491 | in the new index the new definition is found under its id, once, and every other id finds what it found before |
| `PluginInstall.FailingRemovalLosesPlugin` | server/src/businessPlugins/registry.ts:484-504 | an update whose backup removal fails and leaves nothing reports an error and loses both the old and the new content |
| `PluginInstall.Registry.InstallArchive` | server/src/businessPlugins/registry.ts:431-511 | the same for the whole installation, with the temporary directory and the reload |
| `TenantLock.InOrderOneAtATime` | server/src/businessPlugins/registry.ts:348-358 | mutations of a tenant run in call order, never two at a time |
| `TenantLock.FirstUnsettledMayGo` | server/src/businessPlugins/registry.ts:348-358 | the first unsettled mutation can take its next step: it starts, or settles |
| `TenantLock.LockKeptWhileNeeded` | server/src/businessPlugins/registry.ts:355-357 | clean-up never removes a lock still needed |
| `TenantLock.CleansUpExactly` | server/src/businessPlugins/registry.ts:355-357 | clean-up removes the lock exactly when the mutation has settled and is the last one of its tenant |
| `Snowflake.ValuesIncrease` | server/src/id.ts:75-90 | successive values grow strictly for any clock readings |
| `Snowflake.TimeIsReading` | server/src/id.ts:75-90 | a value carries the clock reading of its call, or the last time used if the clock jumped back, and only when 4096 values carry that time the reading that ended the wait |
| `Snowflake.NumbersCount` | server/src/id.ts:75-90 | the number of a value counts the earlier values of its time |
| `Snowflake.NeverBehindTheClock` | server/src/id.ts:75-90 | no value carries a time before the reading of its own or any earlier call |
| `Snowflake.ValueIsUnique` | server/src/id.ts:87-88 | a value gives back time, worker and sequence number |
| `Snowflake.RoundTrip` | server/src/id.ts:56-66 | base 62 printing has a decoding inverse |
| `Snowflake.EmptyIffBeforeEpoch` | server/src/id.ts:56-66 | an identifier is empty exactly when its time lies before the epoch |
| `Snowflake.IdentifiersDiffer` | server/src/id.ts:75-90 | two identifiers of a worker differ exactly when the later one is not from before the epoch |
| `Snowflake.WorkersDiffer` | server/src/id.ts:44-54 | identifiers of different workers coincide only before the epoch |
| `Snowflake.Clock.WaitNextMs` | server/src/id.ts:68-72 | the wait ends with the first reading past the given time |
| `Snowflake.Generator.NewSnowflakeId` | server/src/id.ts:75-90 | the generator moves to the specified next state and prints its value; it waits only with the sequence used up, and then takes the reading that ended the wait |
| `ModelCatalog.Catalog.RegisterAlias` | packages/contracts/src/modelCatalog.ts:102-121 | a name is taken or refused, and owners and names of entries keep agreeing |
| `ModelCatalog.Catalog.RegisterCandidates` | packages/contracts/src/modelCatalog.ts:223-240 | exactly the unowned names on which all candidates agree are added, with that owner, and no conflict arises |
| `ModelCatalog.Catalog.Generate` | packages/contracts/src/modelCatalog.ts:219-241 | after all phases model names and base names belong to their model, of the others exactly those on which the weights agree, and else the providers, to the model they agree on; it fails if and only if two models clash or a name to register is empty |
| `ModelCatalog.LookupFollowsOwners` | packages/contracts/src/modelCatalog.ts:274-283 | a registered name finds its owner, another the owner of the unique longest dash-delimited prefix, nothing exactly when there is none |
| `ModelCatalog.OneOwner` | packages/contracts/src/modelCatalog.ts:115-119 | no name is carried by two entries |
| `FileTokens.ParseFileTokens` | web/src/messageInput.ts:29-49 | the loop over matches computes the specified text and files |
| `FileTokens.MatchesWhole` | web/src/messageInput.ts:33 | a token matches to its end if and only if its payload is on one line and holds no closing bracket |
| `FileTokens.RunsShrink` | web/src/messageInput.ts:48 | of each run of newlines at most two stay, and everything else stays |
| `FileTokens.MembersFit` | web/src/messageInput.ts:20-26 | quoting keeps that exactly for kinds, paths and names without `}]]` and line separators |
| `FileTokens.TokenRoundTripIff` | web/src/messageInput.ts:16-49 | exactly which attachments survive printing and parsing |
| `FileTokens.MessageRoundTrip` | web/src/App.tsx:1605-1607 | a message printed from text and attachments parses back to the trimmed text and the files in order |
| `FileTokens.TextRoundTrip` | web/src/App.tsx:1607 | without attachments the text is sent as typed and parses back up to its trailing white space |

## Left out

- `Segments.SummarizeRecentToolRound`: request wording, the length hints given to the provider and its streaming are left aside; an answer is any text or none.
- `CascadeProofs.CascadeKeepsRounds`: the token estimator and the wording around summaries are arbitrary functions, so nothing is said about how much is saved.
- `Compaction.MaskedExactly`: the instruction sentences inside masked arguments are left out, so the length of masked arguments is not modelled.
- `ContextManager.ReportMatchesCascade`: tool names, original sizes and replacement texts of the report are not modelled.
- `ContextRuns.RunStaysSound`: loading stored messages at the start of a run is represented by any sound list; writing stored ids back changes no message.
- `ContextManager.Manager.MaybeCompact`: the calibration of tokens per character and the counters of sent characters are not modelled.
- `TrimStrategy.TrimKeepsRounds`: the outside trimmer is an arbitrary choice of body entries; identifiers it is handed are taken to be distinct.
- `Recovery.RecoveredIsComplete`: where the store puts a recorded result is left open.
- `PollProtocol.TerminalIsFinal`: `finishSubagentRun` belongs to the store, which is not part of this model; it is taken to write only a row that is still running.
- `PollProtocol.NoLostWakeUp`: cancellation is one step from any point; a worker whose retention throws is one that never starts.
- `RunActivity.Waiters.WaitForRunActivity`: abort signals are not modelled apart from the disposal they cause.
- `ExecutionControl.IdleIffAllFinished`: the loop of `waitForAllRunExecutions` is represented by the condition it waits for.
- `DeletionGate.NoOpenOperationInTheWay`: promises are represented by the set of operations they wait for.
- `RunBus.Bus.PublishEvent`: listeners are not called by the class; their deliveries are steps of `RunSocket`.
- `RunSocket.DeliversEverythingSince`: holds between two calls of `clear`, since cursors restart there; which completed steps are replayed is left out.
- `ReplayCursor.CompletedHistoryThroughStates`: whether a single step is complete is an input.
- `HistoryFold.FoldUiEventsToParts`: shared tool parts are entries of one list that are replaced where they stand; part ids are left out where they follow from the step.
- `HistoryMessages.AppendRun`: branch information, notices, times, goal and stream statistics of a message are not modelled; an empty segment is recognised by an arbitrary test.
- `PluginReadiness.BusinessPluginReadiness`: a plugin's own error (schema, servers, secrets) is an input.
- `PluginInstall.Registry.InstallArchive`: content is an id and a hash, names with random parts are taken to be new, an index is not sorted, and snapshots and older deployments are not used.
- `TenantLock.InOrderOneAtATime`: the mutation itself is one running stage.
- `ModelCatalog.Catalog.Generate`: the normaliser and the base name are arbitrary functions; how candidates are read from weights and provider lists is left out.
- `FileTokens.MessageRoundTrip`: JSON parsing is an arbitrary function that reads back what was printed; attachments of the kind `shell`, which print their own text, are left out.
- HTTP routes, authentication, the store, the React interface, prompts, archives and shells are left out: they are plumbing around services that are not part of this model.
- Settings normalisers, title clean-up and byte ranges are left out: they would add only easy members.
