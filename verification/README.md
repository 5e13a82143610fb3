# Retry queues, plan engines, order execution and backtest scans, verified

This project models the state machines and scans at the centre of a trading back
end and proves what they keep, lose and compute. It is written for Dafny 4.11;
`dafny verify dfyconfig.toml` checks all of it.

Conventions. Floats are reals. Time is a clock that does not run backwards, in
milliseconds or as a real. The broker, the database insert, notifiers, Redis
commands and step actions are scripts or oracles: they may do anything their
interface allows, including raise, and take any time. What is asked of them is
recorded in a trace.
Objects whose methods update fields are classes; each of their methods is proved
equal to a function of the old state, or to a declarative predicate, and the
theorems are about those.

| module | models |
|---|---|
| `DeadLetterList`, `Orchestrator` | the in-memory dead-letter list: producers, one retry pass, entries shared by reference |
| `DeadLetterListProofs`, `DeadLetterListRuns`, `DeadLetterListBackoff` | exactly when a pass loses nothing; conservation, attempt cap, draining and backoff over runs |
| `DeadLetterStream` | the Redis-stream dead-letter queue: fallible commands, one uninterrupted processor, many interleaved processors, the poll cursor |
| `DeadLetterStreamProofs`, `DeadLetterStreamBackoff` | no message lost at any command boundary; backoff along a chain of retries |
| `DeadLetterStreamRedelivery`, `DeadLetterStreamOverlap` | redelivery bound with many processors, and exactly when a second reader breaks it |
| `DeadLetterStreamSequential` | one processor: copies, what the cursor abandons |
| `PlanWalk`, `PlanRuns` | the step graph walker with retries and success/failure edges |
| `PlanContract`, `PlanContractProofs` | plan validation, dependency-ordered execution, status inference |
| `ExecutionEngine` | preconditions, kill switch, one order, 30-second wait, fill or timeout, one reconciliation |
| `OutcomeTagger`, `OutcomeTaggerProofs` | the candle tagger |
| `ReplayScans`, `ReplayOutcomes` | drawdown and streaks over lists with undecided outcomes, loss streak, grouped statistics |
| `OrchestrationAdvanced` | cooldown windows, bounded event cache |
| `HumanApproval` | approval maps against the audit log |
| `ErrorBudget` | sliding error window and breach flag |
| `Escaping` | Slack and Telegram escaping |

## Where the code and its documentation differ

The model follows the code. The theorems named here state the difference exactly.

- In-memory queue: the update loop matches by `ts`, so two entries of one
  millisecond can overwrite each other. `PassConservesIff` gives the condition under
  which no pass can lose an entry, `CollisionExample` a loss.
- Both dead-letter queues compute a retry time from a clock reading made before the
  awaited insert or dispatch. So readings are spaced by the exponential delay
  (`RunBacksOff`), but inserts and dispatches come earlier by the time the previous one
  lagged behind its reading (`RunInsertsBackOff`, `BackedOff`); they are spaced by the
  full delay, whatever happens, exactly under the conditions of `InsertsSpacedIff` and
  `DispatchSpacedIff`; `LateInsertExample` and `LateDispatchExample` show a delay of
  sixty seconds shrunk to five and to none.
- Nothing keeps two readers of the stream from holding the same entry. As long as none
  takes what another holds, and nothing fails, no message exceeds its quota of
  dispatches (`BoundedRedelivery`). A second read is safe exactly if nobody holds the
  entry: otherwise, wherever the holder stands and whatever the quota is, clean steps
  lead over it (`OverlapIff`, `OverlapExample`).
- `DLQ` command-line retries are documented to ignore the retry time; they do not
  (`CountedRetriesDispatchIff`, `CountedRetryExample`). The poll loop is documented to
  start after the last id; it starts at it. Of the entries still live it reads again
  exactly the last of a batch (`ReadAgainIff`), so one skipped as too early is otherwise
  abandoned (`CursorNeverReturns`); and it moves on exactly when a later entry is live and
  fits in behind the cursor's own (`CursorMovesIff`), so with batches of one it stays at
  an entry for as long as that is live (`StuckAtOne`).
- `run_plan` does not return on every plan: `HaltsIff` says exactly on which.
- `_execute_steps` is documented to report the first non-skipped error or None. It
  reports the last error, skipped or not (`LastErrorReported`). On the three policies
  this is the documented one exactly when nothing was missed or some step was missed on
  halt or retry (`NonSkippedErrorIff`), so not when steps were only skipped
  (`TwoSkipsExample`). Nor is it the first error, as the name of the variable suggests,
  unless a single step was missed (`FirstErrorIff`). `execute` never ends in partial success (`Execute`). It passes two arguments to a
  one-argument context check; the intended call is modelled.
- The global kill switch does not block a symbol (`GlobalSwitchBlocks`,
  `GlobalSwitchExample`), and after a timeout the reconciliation reports a match whatever
  the broker holds (`TimeoutAlwaysMatches`). A pending order is documented to be cancelled
  at thirty seconds and reconciled; it is cancelled exactly when every poll saw it
  pending (`CancelledIff`), and a poll that raises leaves it neither cancelled nor
  reconciled (`RaisingPollAbandons`, `RaisingPollExample`).
- `tag_from_candles` ignores `tie_break_on`: the verdict is the documented one exactly
  when ties are to be losses or there is none (`TieBreakIff`, `TieExample`).
- The event cache has no bound when its limit is below ten (`CacheBoundedIff`).
- A Slack summary is escaped twice (`EscapedTwiceIff`, `EscapedTwiceExample`).

## Model

| member | source | states |
|---|---|---|
| `Orchestrator.DecisionOrchestrator.PublishToDlq` | reasoner_service/orchestrator.py:1246-1247 | an append adds one entry at the end with the decision, error and `ts` supplied, zero attempts, due at once, and changes nothing else |
| `Orchestrator.DecisionOrchestrator.Remove` | reasoner_service/orchestrator.py:1794-1798 | removes the first entry equal by value, or nothing |
| `Orchestrator.DecisionOrchestrator.UpdateStored` | reasoner_service/orchestrator.py:1815-1820 | writes the entry into the first slot that is it or shares its `ts` |
| `Orchestrator.DecisionOrchestrator.RetryEntry` | reasoner_service/orchestrator.py:1785-1837 | one due entry: awaited insert, which takes time while others append, then removal, or failure update and cap, the retry time counted from the reading of the pass |
| `Orchestrator.DecisionOrchestrator.RecordFailure` | reasoner_service/orchestrator.py:1800-1837 | a failed insert counts, stores its error, puts the entry off by base * 2^attempts or the maximal delay if that is less, places it, and drops it at the cap |
| `Orchestrator.DecisionOrchestrator.RetryOnce` | reasoner_service/orchestrator.py:1742-1839 | the loop over a snapshot computes the pass function on the whole state: queue, dicts, clock, and the history of inserts with the reading each rests on and the moment it began |
| `DeadLetterListProofs.AttemptInPlace` | reasoner_service/orchestrator.py:1785-1837 | when no earlier entry shares its `ts`, an attempt removes, stores or drops, or updates exactly its own entry |
| `DeadLetterListProofs.AttemptContent` | reasoner_service/orchestrator.py:1800-1807 | whatever collides, an attempt writes to no dict but its own; a failure keeps decision and `ts`, and counts and delays as above; arrivals are as supplied |
| `DeadLetterListProofs.PassConservesIff` | reasoner_service/orchestrator.py:1769-1837 | a pass keeps every entry exactly one of queued, stored, dropped for all database outcomes and appends, if and only if no due entry has an earlier one of the same `ts` that may outlast its own attempt |
| `DeadLetterListProofs.HazardLoses` | reasoner_service/orchestrator.py:1815-1820 | under such a collision, a pass whose inserts all fail forgets a queued entry altogether |
| `DeadLetterListProofs.CollisionExample` | reasoner_service/orchestrator.py:1815-1820 | concrete loss: two entries of one millisecond become one entry queued twice |
| `DeadLetterListRuns.CalmRunInv` | reasoner_service/orchestrator.py:1736-1839 | the full invariant on every run whose passes meet no hazardous collision |
| `DeadLetterListRuns.RunConserves` | reasoner_service/orchestrator.py:1769-1837 | on every run with distinct `ts`, each entry ever created is exactly one of queued below the cap, stored once, or dropped once after exactly the capped number of failed inserts |
| `DeadLetterListRuns.RunKeepsContent` | reasoner_service/orchestrator.py:1800-1807 | over every run an entry keeps the decision and `ts` it was appended with |
| `DeadLetterListRuns.PassFrame` | reasoner_service/orchestrator.py:1775-1780 | a pass keeps survivors in order, appends of the pass at the tail, and leaves entries not yet due untouched |
| `DeadLetterListRuns.DuePassWorks` | reasoner_service/orchestrator.py:1800-1837 | a pass with something due and nothing arriving strictly lowers the attempts left |
| `DeadLetterListRuns.Drains` | reasoner_service/orchestrator.py:1800-1837 | queue length plus number of such passes never exceeds the attempts left at the start, so they empty the queue |
| `DeadLetterListBackoff.RunBacksOff` | reasoner_service/orchestrator.py:1742-1745 | the passes that make the first and the m-th insert of an entry start at least the sum of the capped exponential delays apart, base * (2^(m-1) - 1) below the cap |
| `DeadLetterListBackoff.RunWaits` | reasoner_service/orchestrator.py:1803-1804 | on every run a queued entry with m failures waits exactly base * 2^(m-1), or the maximal delay if that is less, from the start of the pass of its last insert |
| `DeadLetterListBackoff.DueAgain` | reasoner_service/orchestrator.py:1803-1804 | after every pass every entry that has failed is due again by the maximal delay after the start of the pass |
| `DeadLetterListBackoff.RunInsertsBackOff` | reasoner_service/orchestrator.py:1786-1807 | on every run an insert comes after the previous one by the delay less the time that one lagged behind the start of its pass, and after the first by the sum less the lag of the first |
| `DeadLetterListBackoff.InsertsSpacedIff` | reasoner_service/orchestrator.py:1800-1807 | the next insert comes a full delay after the last, whatever happens, if and only if the last was made when its pass started or the delay is over already |
| `DeadLetterListBackoff.LateInsertExample` | reasoner_service/orchestrator.py:1742-1807 | concrete run: with a delay of sixty seconds the second of two entries is inserted again after five |
| `DeadLetterStream.DeadLetterQueue.Add` | utils/redis_wrapper.py:95-130 | an XADD through the wrapper takes effect zero, one or two times, case by case, adds nothing but its entry, and returns only if an attempt returned |
| `DeadLetterStream.DeadLetterQueue.PublishDeadletter` | reasoner_service/deadletter.py:99-118 | publishes message, channel and base as given, with the exponential retry time unless one is given; an id only if the wrapper returned |
| `DeadLetterStream.DeadLetterQueue.ProcessEntry` | reasoner_service/deadletter.py:177-263 | processing one entry computes the process function on stream and dispatch history; what it adds keeps message, channel and base and counts one attempt more |
| `DeadLetterStream.ProcessMeaning` | reasoner_service/deadletter.py:184-206 | an entry is dispatched exactly when it is due and its channel is slack, discord or telegram, and otherwise nothing happens; all it adds is its own retry |
| `DeadLetterStream.DeadLetterQueue.PollOnce` | reasoner_service/deadletter.py:301-319 | one scan processes the batch read from the cursor and moves the cursor to its last id |
| `DeadLetterStream.BatchMeaning` | reasoner_service/deadletter.py:302-306 | a batch is the first live ids from the cursor on, the cursor included, up to the limit |
| `DeadLetterStreamProofs.StepKeeps` | reasoner_service/deadletter.py:208-263 | every step of every processor keeps the protocol invariant |
| `DeadLetterStreamProofs.DeleteKeeps` | reasoner_service/deadletter.py:255-263 | deleting a copy never takes the last trace of a message, with any number of deleters at work |
| `DeadLetterStreamProofs.NeverLost` | reasoner_service/deadletter.py:208-263 | at every command boundary of every run, with failures, lost replies and crashes, a message that reached the stream is in it, was delivered, or was dispatched in vain its full quota |
| `DeadLetterStreamBackoff.BackedOff` | reasoner_service/deadletter.py:182-258 | no dispatch before its time; along a chain message, channel and base stay and attempts rise by one, the clock readings of a dispatch and of the failed one that scheduled it lie base * 2^(attempts-1) apart, and the dispatches that much less the lag of the failed one |
| `DeadLetterStreamBackoff.RetryFields` | reasoner_service/deadletter.py:244-254 | in every run all copies of a message share channel and base, and a retry is due base * 2^(attempts-1) after the reading of the dispatch that failed |
| `DeadLetterStreamBackoff.DispatchSpacedIff` | reasoner_service/deadletter.py:182-245 | every later dispatch of a live retry comes a full delay after the failed one that scheduled it, whatever all processors do, if and only if that one was made at its reading or the delay is over already |
| `DeadLetterStreamBackoff.LateDispatchExample` | reasoner_service/deadletter.py:182-245 | concrete run: with a delay of sixty seconds an entry is dispatched again at once |
| `DeadLetterStreamSequential.ProcessIsPath` | reasoner_service/deadletter.py:168-270 | processing without interruption is a path of protocol steps |
| `DeadLetterStreamSequential.ProcessCopies` | reasoner_service/deadletter.py:255-263 | the number of copies changes by written minus removed, and grows exactly if XADD took effect twice, or once while the old entry stayed |
| `DeadLetterStreamRedelivery.BoundedRedelivery` | reasoner_service/deadletter.py:226-263 | with any number of processors, no failing command, no crash and no entry taken while another holds it: at most max(1, max_retries - a + 1) dispatches of a message published with attempts a, exactly that many when given up undelivered, and of two copies one is about to be deleted |
| `DeadLetterStreamOverlap.OverlapIff` | reasoner_service/deadletter.py:334-360 | in every state of a run without failure, crash or overlap, when an idle processor reads a live entry on a known channel, its message stays within its quota whatever happens afterwards without failure, crash or another overlap, if and only if no processor holds the entry |
| `DeadLetterStreamOverlap.Chain` | reasoner_service/deadletter.py:226-258 | an entry with attempts k that one processor holds can be dispatched max(1, max_retries - k + 1) more times although nothing fails, so the quota is reached |
| `DeadLetterStreamOverlap.OverlapExample` | reasoner_service/deadletter.py:334-360 | concrete run: two processors holding one entry dispatch it twice, its quota being one, although nothing fails |
| `DeadLetterStreamSequential.CursorNeverReturns` | reasoner_service/deadletter.py:301-319 | the cursor never goes back, and no later scan reads, dispatches or removes an entry the cursor has passed, whoever else changes the stream |
| `DeadLetterStreamSequential.ReadAgainIff` | reasoner_service/deadletter.py:301-319 | an entry read and still live at the next scan is read again if and only if it was the last of its batch; a scan leaves alone what it skips as too early |
| `DeadLetterStreamSequential.CursorMovesIff` | reasoner_service/deadletter.py:301-319 | a scan moves the cursor if and only if its batch holds another id, that is, if a later id is live and the batch has room for it after the cursor's own live entry |
| `DeadLetterStreamSequential.StuckAtOne` | reasoner_service/deadletter.py:301-319 | with batches of one, the loop reads an entry that stays live for ever and nothing after it |
| `DeadLetterStreamSequential.CountedRetriesDispatchIff` | reasoner_service/deadletter.py:334-383 | all entries counted as retried are dispatched if and only if each was due on a known channel |
| `DeadLetterStreamSequential.CountedRetryExample` | reasoner_service/deadletter.py:334-360 | an entry due in a minute: the retry changes nothing and dispatches nothing |
| `PlanWalk.HaltsIff` | reasoner_service/plan_executor.py:32-83 | the walk returns whatever its steps do if and only if every reachable step has an attempt and no walk revisits a step |
| `PlanWalk.GroundedHalts` | reasoner_service/plan_executor.py:32-83 | on such plans it returns after at most as many visits as there are steps |
| `PlanWalk.NotGroundedLoops` | reasoner_service/plan_executor.py:44-80 | on any other plan some behaviour of the steps keeps it going for ever |
| `PlanRuns.RunReturns` | reasoner_service/plan_executor.py:32-83 | steps visited at most once along the edges their outcomes select, calls per step as many as needed and at most its retries, results exactly the visited steps that succeeded, one DLQ event exactly for a final failure without edge |
| `PlanRuns.VisitMeaning` | reasoner_service/plan_executor.py:44-80 | a visit calls its step until the first call that returns, at most as often as it may, and follows on_success exactly if the last call returned |
| `PlanRuns.ExecutionContext.RunStep` | reasoner_service/plan_executor.py:44-77 | the retry loop of one step computes the visit function |
| `PlanRuns.ExecutionContext.RunPlan` | reasoner_service/plan_executor.py:32-83 | the loops compute the walk, so all the above hold of the context object |
| `PlanContract.CollectIds` | reasoner_service/plan_execution_schemas.py:429-514 | the step loop accepts exactly unique ids with valid fields and policies, and indexes each by its position |
| `PlanContract.CheckDependencies` | reasoner_service/plan_execution_schemas.py:516-545 | accepts exactly topologically listed dependencies; otherwise the code of the first offending one |
| `PlanContract.FaultExamples` | reasoner_service/plan_execution_schemas.py:516-545 | a self-dependency is INVALID_PAYLOAD, a missing or a forward one DEPENDENCY_UNRESOLVED |
| `PlanContract.ValidatePlan` | reasoner_service/plan_execution_schemas.py:363-642 | no error exactly for valid plans, of at most 1024 steps; errors are fatal, with the code of the first check that fails |
| `PlanContract.ValidateContext` | reasoner_service/plan_execution_schemas.py:668-798 | no error exactly for a window that fits the timeout with every requirement present; otherwise DEADLINE_EXCEEDED, CONTEXT_MISSING or INVALID_PAYLOAD, each exactly for its causes in the order they are checked |
| `PlanContract.ExecuteSteps` | reasoner_service/plan_execution_schemas.py:842-907 | the nested loops compute the run function for any plan |
| `PlanContractProofs.AcceptedIsAcyclic` | reasoner_service/plan_execution_schemas.py:516-545 | no dependency path of an accepted plan returns to its start |
| `PlanContractProofs.RunnableIsGreatest` | reasoner_service/plan_execution_schemas.py:848-897 | the runnable positions are the greatest set whose dependencies are all met by earlier positions of the set |
| `PlanContractProofs.ExecutedSteps` | reasoner_service/plan_execution_schemas.py:842-907 | on any plan the executed steps are the runnable ones before the first unmet step that halts or retries, whose error is then returned |
| `PlanContractProofs.SuccessIffComplete` | reasoner_service/plan_execution_schemas.py:950-963 | no error, all steps executed and status success coincide; the fallback branch of the inference is unreachable |
| `PlanContractProofs.StatusIff` | reasoner_service/plan_execution_schemas.py:950-963 | success if nothing is missed, failure if nothing was executed or the last step missed is on retry, partial otherwise |
| `PlanContractProofs.LastErrorReported` | reasoner_service/plan_execution_schemas.py:853-891 | the error returned is that of the last step reached and not executed, with its id and the code and severity of its policy |
| `PlanContractProofs.NonSkippedErrorIff` | reasoner_service/plan_execution_schemas.py:836-907 | on the three policies the error returned is the first non-skipped one, or None, if and only if nothing is missed or some step is missed on halt or retry |
| `PlanContractProofs.FirstErrorIff` | reasoner_service/plan_execution_schemas.py:842-907 | with unique ids the error of a missed step is returned if and only if no later step is missed, so that of the first if and only if it is the only one |
| `PlanContractProofs.TwoSkipsExample` | reasoner_service/plan_execution_schemas.py:868-876 | two skipped steps: the error of the second is returned, neither the first nor a non-skipped one |
| `PlanContractProofs.TopologicalCompletes` | reasoner_service/plan_execution_schemas.py:848-897 | a topologically listed plan executes completely without error |
| `PlanContractProofs.Execute` | reasoner_service/plan_execution_schemas.py:270-310 | success exactly for valid plan and context, otherwise fatal failure with nothing executed and the code of the cause; never partial |
| `ExecutionEngine.Engine.IsExpired` | reasoner_service/execution_engine.py:308-323 | expired exactly when more than 30 s have passed since the start |
| `ExecutionEngine.Engine.WaitForFill` | reasoner_service/execution_engine.py:948-961 | at most 301 polls; the last one explains the outcome, all earlier ones were pending; a timeout means the clock has expired |
| `ExecutionEngine.Engine.Reconcile` | reasoner_service/execution_engine.py:358-438 | one query; manual flag, mismatches and status other than matched coincide, and matched is characterised exactly |
| `ExecutionEngine.SoundMeaning` | reasoner_service/execution_engine.py:407-428 | matched means within a thousandth of the expected size and any expected stop present; a missing stop outweighs a differing size |
| `ExecutionEngine.Engine.HandleTimeout` | reasoner_service/execution_engine.py:791-818 | cancel, then reconcile once without expectations |
| `ExecutionEngine.Engine.HandleFill` | reasoner_service/execution_engine.py:820-888 | stop, target and slippage from the fill price; late exactly when the clock had expired; one reconciliation against them |
| `ExecutionEngine.Engine.Execute` | reasoner_service/execution_engine.py:705-904 | rejected without any broker call exactly when a precondition fails or the symbol's switch is on; otherwise the calls and the result form one flow |
| `ExecutionEngine.SubmitsIff` | reasoner_service/execution_engine.py:905-936 | a run asks anything of the broker, first of all its order, if and only if the advisory is unexpired, has an id, a positive size and offsets on the right sides, and no switch is on under its key; otherwise REJECTED |
| `ExecutionEngine.CompleteCalls` | reasoner_service/execution_engine.py:764-818 | what a run that ends in a report asks of the broker, call by call |
| `ExecutionEngine.FilledIff` | reasoner_service/execution_engine.py:820-888 | a fill price exactly if the last poll reported a fill with a price and the reference price is not zero; price and size as reported; late exactly when the thirty seconds were over |
| `ExecutionEngine.FlowSafety` | reasoner_service/execution_engine.py:764-904 | one order, first; a cancel only when no poll saw a fill; at most one position query, last; never SUBMITTED; a report unless failed |
| `ExecutionEngine.CancelledIff` | reasoner_service/execution_engine.py:788-810 | an order that was placed is cancelled, right after the polls, if and only if all of them saw it pending; the thirty seconds are then over |
| `ExecutionEngine.RaisingPollAbandons` | reasoner_service/execution_engine.py:896-900 | a status poll that raises is the last call: the run is FAILED, its order neither cancelled nor reconciled |
| `ExecutionEngine.FillBrackets` | reasoner_service/execution_engine.py:963-1001 | stop and target lie the given offsets away from the fill price, slippage is relative to the reference price, and stop < fill < target if and only if the fill price is positive |
| `ExecutionEngine.TimeoutAlwaysMatches` | reasoner_service/execution_engine.py:813-818 | a completed timeout is always reported as matched |
| `ExecutionEngine.GlobalSwitchBlocks` | reasoner_service/execution_engine.py:253-265 | with the global switch on and the preconditions met, a run submits an order, as its first call, exactly unless the symbol is empty, named global, or has its own switch on |
| `ExecutionEngine.GlobalSwitchExample` | reasoner_service/execution_engine.py:253-265 | the global switch is on and the order of an ordinary symbol goes out |
| `ExecutionEngine.KillSwitchManager.SetKillSwitch` | reasoner_service/execution_engine.py:237-246 | sets the state under the target, or under global when there is none, and records it |
| `OutcomeTagger.SortFacts` | backtest_replay/outcome_tagger.py:64-65 | the traversal order is a sorted permutation of the candles |
| `OutcomeTagger.SortStable` | backtest_replay/outcome_tagger.py:64-65 | candles of equal time keep their order |
| `OutcomeTagger.Look` | backtest_replay/outcome_tagger.py:93-111 | one candle raises the running maxima to its excursions and reports which levels it touches |
| `OutcomeTagger.TagSignal` | backtest_replay/outcome_tagger.py:68-134 | the scan yields the declarative outcome: first touch, stop before target, maxima up to the exit candle |
| `OutcomeTagger.TagFromCandles` | backtest_replay/outcome_tagger.py:64-149 | one outcome per signal, in order, over the sorted candles, independent of the tie-break argument |
| `OutcomeTaggerProofs.OutcomeUnique` | backtest_replay/outcome_tagger.py:84-149 | the declarative outcome is unique |
| `OutcomeTaggerProofs.VerdictInPrices` | backtest_replay/outcome_tagger.py:70-134 | in raw prices: the first later candle not strictly between stop and target decides, a loss of 1R at the stop if it is touched, otherwise a win of the target's multiple of the risk |
| `OutcomeTaggerProofs.ExcursionsInPrices` | backtest_replay/outcome_tagger.py:84-111 | entry and excursions bound the prices of all later candles up to the exit |
| `OutcomeTaggerProofs.ExcursionReached` | backtest_replay/outcome_tagger.py:84-111 | and a recorded excursion is the price of one of them |
| `OutcomeTaggerProofs.VerdictExcursions` | backtest_replay/outcome_tagger.py:93-134 | for sound levels a loss has MAE >= 1, a win MFE >= r > 0, an undecided trade MAE < 1 and MFE < target r |
| `OutcomeTaggerProofs.OrderIrrelevant` | backtest_replay/outcome_tagger.py:64-65 | with distinct timestamps the order of the candles does not matter |
| `OutcomeTaggerProofs.LaterCandlesIrrelevant` | backtest_replay/outcome_tagger.py:84-134 | candles after a decided exit change nothing |
| `OutcomeTaggerProofs.TieBreakIff` | backtest_replay/outcome_tagger.py:34-61 | the verdict is the documented one if and only if the tie-break is LOSS or the first candle that touches a level does not hold both |
| `OutcomeTaggerProofs.TieExample` | backtest_replay/outcome_tagger.py:112-118 | at a tie with tie-break WIN the verdict is a loss where a win is documented |
| `OutcomeTaggerProofs.MirrorSymmetric` | backtest_replay/outcome_tagger.py:84-134 | mirroring prices and direction keeps everything but the sign of the exit price |
| `ReplayScans.Drawdown` | backtest_replay/replay_runner.py:224-234 | the one-pass drawdown is the maximum over i <= j of prefix sum i minus prefix sum j |
| `ReplayScans.Streaks` | backtest_replay/replay_runner.py:236-253 | the counters are the longest contiguous runs of losses and of wins |
| `ReplayOutcomes.ComputeDrawdownStreaks` | backtest_replay/replay_runner.py:213-255 | over the outcomes themselves, undecided ones skipped: the largest amount lost over any stretch, and the largest number of losses, and of wins, with no other decided outcome between them |
| `ReplayScans.GetLossStreak` | reasoner_service/outcome_stats.py:239-264 | on a newest-first list, the longest run and the chronologically trailing run, current <= max |
| `ReplayScans.Aggregate` | reasoner_service/outcome_stats.py:332-342 | the grouping loop computes the fold of the list |
| `ReplayScans.GroupsPartition` | reasoner_service/outcome_stats.py:332-342 | exactly the occurring keys have groups, and each counts exactly its own trades by kind |
| `ReplayScans.GroupsStep` | reasoner_service/outcome_stats.py:332-342 | one more trade changes the group of its key only, by one and by its own result |
| `OrchestrationAdvanced.CooldownManager.RecordEvent` | reasoner_service/orchestration_advanced.py:425-437 | records on the configured type's tracker only, opening a window when the cooldown is over |
| `OrchestrationAdvanced.CooldownManager.ConfigureCooldown` | reasoner_service/orchestration_advanced.py:378-383 | a new configuration keeps a running window |
| `OrchestrationAdvanced.TrackerMeaning` | reasoner_service/orchestration_advanced.py:108-117 | the tracker is a function of the last reset, and counts exactly the events since |
| `OrchestrationAdvanced.OpensIff` | reasoner_service/orchestration_advanced.py:108-117 | an event opens a window if and only if the cooldown since the last one that did is over |
| `OrchestrationAdvanced.ResetsSpaced` | reasoner_service/orchestration_advanced.py:425-437 | consecutive resets are at least a cooldown apart |
| `OrchestrationAdvanced.ResetsPerInterval` | reasoner_service/orchestration_advanced.py:425-437 | an interval of length L holds at most L / cooldown + 1 of them |
| `OrchestrationAdvanced.EventCorrelationManager.CreateEventTracker` | reasoner_service/orchestration_advanced.py:291-311 | at the limit a tenth of it, oldest first, leaves; then the event is stored |
| `OrchestrationAdvanced.EventCorrelationManager.Oldest` | reasoner_service/orchestration_advanced.py:299-306 | the evicted are that many entries, none created after one that stays |
| `OrchestrationAdvanced.OldestLeaves` | reasoner_service/orchestration_advanced.py:297-311 | at a limit of ten or more the oldest entry leaves and the newest stays |
| `OrchestrationAdvanced.CacheBoundedIff` | reasoner_service/orchestration_advanced.py:297-311 | the cache stays within its limit on every run if and only if the limit is at least ten |
| `HumanApproval.HumanApprovalManager.ApproveAdvisory` | reasoner_service/human_approval_manager.py:148-249 | appends exactly one entry with the decided outcome, or refuses an incomplete snapshot, and keeps both maps folds of the log |
| `HumanApproval.HumanApprovalManager.ExecuteIfApproved` | reasoner_service/human_approval_manager.py:251-311 | true exactly if the last unexpired decision in the log approved and its snapshot has not expired |
| `HumanApproval.HumanApprovalManager.IsApprovalValid` | reasoner_service/human_approval_manager.py:395-419 | the same condition, so both readers agree |
| `HumanApproval.DecidedApproved` | reasoner_service/human_approval_manager.py:190-249 | if the last decision approved, the stored snapshot is its own |
| `HumanApproval.StaysBlocked` | reasoner_service/human_approval_manager.py:313-356 | once blocked, an id stays blocked however log and clock grow, until it is approved again |
| `HumanApproval.EntryEffect` | reasoner_service/human_approval_manager.py:190-249 | a rejection blocks at once, an expired attempt revokes nothing, other ids are unaffected |
| `ErrorBudget.PruneAgain` | reasoner_service/alerts.py:207-209 | pruning at two growing times is pruning once at the later |
| `ErrorBudget.ErrorBudgetTracker.Register` | reasoner_service/alerts.py:204-217 | list, flag and action count stay the history cut to the window, its exceeded budget, and the false-to-true transitions |
| `ErrorBudget.ErrorBudgetTracker.Meaning` | reasoner_service/alerts.py:207-217 | the flag is on exactly if more than the given share of the registrations within the window failed, and the list holds exactly those |
| `Escaping.SlackIsMap` | reasoner_service/alerts.py:68-70 | three replacements in sequence are one pass with a character map |
| `Escaping.SlackEntities` | reasoner_service/alerts.py:68-70 | the entities of the three characters, and nothing for any other |
| `Escaping.SlackRoundTrip` | reasoner_service/alerts.py:68-70 | unescaping undoes escaping on every string |
| `Escaping.EscapedTwiceIff` | reasoner_service/alerts.py:94-96 | a summary escaped twice reads back exactly if it has nothing to escape |
| `Escaping.EscapedTwiceExample` | reasoner_service/alerts.py:94-96 | a summary "<" reads back as its own escape sequence |
| `Escaping.EscapeTelegramMd` | reasoner_service/alerts.py:72-76 | the loop of replacements puts one backslash before each special character |
| `Escaping.TelegramCharacters` | reasoner_service/alerts.py:72-76 | exactly seventeen characters are escaped, neither backslash nor asterisk among them |
| `Escaping.TelegramRoundTrip` | reasoner_service/alerts.py:72-76 | a right-to-left reader undoes it, although the backslash itself is not escaped |
| `Escaping.TelegramInjective` | reasoner_service/alerts.py:72-76 | so no two texts are escaped alike |

## Left out

- The Redis-list branches of the orchestrator's dead-letter queue, the reconnect loop, and the policy-defer producer, which stores milliseconds where seconds are read.
- The administrative requeue and clear of the in-memory list, and admission of entries whose attempts counter does not start at zero.
- Trimming of the Redis stream, and payload, error text and timestamps of its entries, which processing passes on unchanged.
- Eventual delivery by the poll loop: it is not guaranteed (`ReadAgainIff`).
- What a plan step does: templates, expression evaluation, timeouts of AI calls; the DLQ payload and a failing DLQ publisher, whose error is swallowed.
- Type and format checks of single plan and context fields, collapsed into flags; UUID version 4 of section 5.4 of RFC 9562 among them.
- Kill-switch changes made by another thread while an order is pending; error texts, durations and the execution log.
- Candles without a high or low, and prices that are not numbers.
- The histogram of R values and the per-session table of the replay runner, finite case analysis and another grouping loop.
- OrchestrationAdvanced.EventCorrelationManager.Oldest: ties in creation time may be broken either way, the source breaks them by insertion order; event state histories are left out.
- Session windows, event limits, quiet hours, routing, configuration, analytics and report services.
- Slack, Discord and Telegram message layout around the escaped text.
