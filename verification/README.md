# Verified model of the trading bot's core

A Dafny model of six parts of the repository and of the laws they are meant to
keep: the execution protocol, the ingestion of the JSONL stream, the derived
state, the contract lifecycle of trades, the risk gate with its paper-trading
loop, and the reconciliation of local and broker state.

Objects whose methods change their fields are classes here, and each of their
methods is proved against a specification: a step function of a small machine
(execution, ingestion), a function of the old state (journal, tables, lifecycle,
paper position) or a predicate on the result (stream validation, classification).
The main theorems are then about every run of the machine, every log, every
stream, every history or every input. Functions that methods and specifications
share are each fixed a second time, in values and fields of the inputs alone.

## How the files are laid out

| file | what it holds |
|---|---|
| `Common`, `Rounding`, `Sorting` | options and counters; `round()` half to even on reals; stable sorting by key |
| `ExecutionModels`, `ExecutionProtocol` | command states, transition table, retry classes; the protocol as a machine of small steps in which a crash may come between any two journal writes and broker calls, and every broker answer is chosen by an adversary |
| `ExecutionSafety`, `ExecutionTheorems`, `ExecutionProtection`, `ExecutionDepartures` | the inductive invariant; what holds over all runs; what a stored FILLED result vouches for and how commands rest; where the protocol falls short of its documentation, with the runs that show it |
| `ExecutionAnswers` | the protocol call by call in plain values: the row, audit lines and next question or result that every answer leads to; and what every returned result rests on, over all runs |
| `ExecutionEngine`, `SimulatedBroker` | the engine, journal and broker objects, whose methods perform only runs of that machine; the simulated executor |
| `Framing`, `Ingestion`, `IngestionObjects` | splitting bytes into lines; ingestion as a machine with appends, polls, kills and restarts; reader, pipeline and repository objects |
| `Events`, `Lifecycle`, `LifecyclePaths` | events; the trade automaton and stream validation; which flows and streams are accepted, said without the table |
| `Projection`, `ProjectionCells`, `StreamProjection`, `EventRepository`, `Checksum` | derived tables and replay; every cell by the payload that told it last, and the rows of closed trades; lifecycle and projection together; the transactional store; sealing |
| `RiskArithmetic`, `RiskGate`, `RiskBudget` | lot quantisation; validation, sizing and approval; approvals and refusals in figures of the inputs |
| `PaperLoop`, `PaperReports` | the simulated position and its tick loop; when a paper trade closes and what it reports, from approval and ticks alone |
| `Classifier`, `ClassifierTheorems`, `ClassifierFields` | the snapshot comparison; its meaning as sets of entities; its meaning on the rows' own fields |
| `ReconciliationRuns`, `RunRecords`, `ReconciliationService`, `LocalState` | the run history; what its rows say; the service; the local side of a comparison, read off the event log |

## Assumptions

* SQLite is a set of tables with unique keys, an append-only event table and transactions that happen or do not happen.
* Prices, volumes and money are exact reals; `round(x, n)` is half to even on them.
* Clocks, fresh ids, JSON parsing, schema validation and SHA-256 are parameters or given booleans. Where a theorem needs that two digests or two `uuid5` names (section 5.5 of RFC 9562) differ, it asks that only of the values at hand: that no two signatures of the history, or not these two contents, collide.
* The broker is arbitrary in the execution machine. Theorems that need it to be truthful name that hypothesis (`HonestRun`): "nothing found, and not ambiguous" is said only when no order has landed, and positions and attached stop-losses are reported as they are. `SimulatedExecutor.Query` is proved to meet it.
* An order that is going to land has landed by the time its submit call is answered; the machine has no later landing.

## Where the code departs from its documentation

The model follows the code. Each departure is a theorem below.

* **Recovery's silence is not a guarantee.** For a command that is not terminal and gets no advice, the fill is known to have been protected if and only if the journal stores a FILLED result for it, whatever its state (`SilenceGuaranteesIff`). The other half is three honest runs that end with a landed order, no stop-loss and advice `NONE`: a crash after `FULL_FILL` (`CrashLeavesFillUnprotected`), and two without any crash, a partial fill whose position shows no stop-loss (`PartialFillLeftUnprotected`) and an ambiguous submit reconciled to MODIFYING (`AdoptedModifyingUnprotected`). Without a crash these two are the only ways (`CrashFreeRest`).
* **A partial fill without a stop-loss raises.** There is no edge from `PARTIALLY_FILLED` on `SL_ATTACHING`, so the call dies before the first attach, exactly when the fill was partial (`MissingSlRaisesOnPartial`).
* **`RECONCILE` cannot be followed for `SUBMITTED`**: reconcile accepts `UNKNOWN` only (`ReconcileAdviceUsable`). A command at rest in `SUBMITTED`, `PARTIALLY_FILLED`, `FILLED` or `MODIFYING` is moved by nothing but `close` (`OnlyCloseMoves`). A crash during the first submit gets there (`CrashStrandsSubmit`), and from then on every reconcile raises and every later plan is kept out (`StrandedForGood`, `StrandedSubmitBlocksEntry`).
* **The simulator reports a cancelled partial fill as `REJECTED`** while its position is live; with refused closes in between, the engine takes that command off the books for good, without any crash (`PartialFillReportedRejected`, `PartialFillLost`).
* **Several lines followed by a partial line become one frame**; a poll frames single lines exactly when its buffer ends in a newline or holds at most one (`FramesAreLinesIffClean`).
* **A failed commit loses lines in process.** Handled frames tile the file exactly when no run committed past lines that a failed commit had dropped (`ExactlyOnceIff`); a process is ahead of its cursor exactly from a failed commit of its own to its next commit or its end (`GappedIff`, `SkipsIff`); a single failed commit between two lines is enough (`FailedCommitSkips`).
* **A file that shrinks into the held partial line and grows again is not taken for a new one**: the reader emits bytes the file no longer holds (`StalePartialIsEmitted`), exactly when the held partial is no longer what the file shows at the offset (`PollConservesIff`).
* **One undecodable line blocks the stream for good**, against the promise that a bad line cannot: with a complete line at the cursor, no run moves the cursor if and only if that line is undecodable (`BlockedIff`). One appended line gets there (`PoisonReached`).
* **The cursor's last event id is that of the process**, not of the stream: a line skipped after a restart erases it (`LastEventIsPerProcess`).
* **A stale `POSITION_OPENED` delivered again reopens the position**; a single replayed event is harmless exactly when its values still stand (`StaleOpenReopens`, `ReplayOneIff`).
* **`valid_flag` is always written, and always true** (`ValidFlagAlwaysTrue`).
* **Quantising down may round up** past the value: for a decimal step exactly when value / step is less than 5e-9 short of a whole number it has not reached, or exactly that much short (`ExceedsIff`; 0.009999999999 becomes 0.01, `StepCanRoundUp`), and for any step exactly when the steps the value counts as come, rounded, to more than it (`ExceedsAnyStepIff`). It may also lose: a lot of exactly n steps loses one of them exactly when n (1 − step · rounded inverse) > 5e-9 (`LosesAUnitIff`), which decimal steps never do and 0.03 does at n = 1000 (`StepCanLoseAUnit`).
* **`RISK_LIMIT` is a matter of rounding.** With decimal steps, some evaluation on a budget ends in it exactly when rounding budget / (1 − 5e-9) to four decimals exceeds 1.0001 times the budget (`RefusableIff`). No budget from 0.5 / 1.0001 on is such a budget, 0.49995 is one (`RiskLimitUnreachable`, `SmallBudgetRefused`).
* **Loss per lot divides points by the tick size**, which fits the money lost over the stop distance exactly when a tick is worth at least contract size × point × tick size (`LossPerLotIsPerPoint`, `LossFitsRiskIff`).
* **The end of a paper session closes at the first tick**, not the last (`SessionEndLosesTheSpread`, `SessionEndMissesTheFall`). A remark beside it: no caller passes holding nights, so swap is never charged in any mode (`SwapIsNeverCharged`).
* **Order conflicts never arise** on projected state: no event handler writes the requested lot or price of an order, and an absent field counts as equal (`OrdersNeverConflict`).
* **Outcomes A, B, A**: the third run leaves an event but no run row, and the shadow state stays at B, however often A is repeated (`ReturnLeavesOnlyEvents`, `ShadowFollowsIff`).

## Model

| member | source | states |
|---|---|---|
| ExecutionTheorems.WriteAheadSafety | execution/engine.py:161-281 | in every reachable state, crashes included, a command journaled CREATED or VALIDATED was never sent, and no command is sent more than 1 + submit_retries times over its whole life |
| ExecutionTheorems.SendOnlyWhenSubmitted | execution/engine.py:219-231 | whenever the broker's order entry is called, the journal already says SUBMITTED for that command |
| ExecutionTheorems.JournalTellsOneStory | execution/journal.py:165-202 | the projected state of a command is the state of its last audit line (CREATED if none), and the audit trail is a path of the transition graph whose only unlabelled step is SL_CONFIRMED from PARTIALLY_FILLED to FILLED; UNKNOWN is left only by RECONCILED |
| ExecutionTheorems.AuditOnlyGrows | execution/journal.py:37-84 | no operation rewrites or removes an audit line |
| ExecutionTheorems.OneSlotPerTrade | execution/journal.py:49-53 | of two commands of one trade at most one is not terminal, in every reachable state |
| ExecutionTheorems.OneUnsentCommand | execution/engine.py:120-155 | at most one command is CREATED or VALIDATED in any reachable state |
| ExecutionTheorems.NoEntryWhileBlocked | execution/engine.py:120-155 | over every run, crashes included, the commands on record are exactly those entered by a valid create call at a moment when no command was CREATED, VALIDATED, SUBMITTED or UNKNOWN and none was active for the trade |
| ExecutionTheorems.TerminalForever | execution/state_machine.py:107-132 | a terminal command keeps its state and its stored result through any further run, close() and resubmission included |
| ExecutionTheorems.AtMostOneOrder | execution/engine.py:223-281 | even with a broker that never deduplicates, every command has at most one landed order, and none before it is SUBMITTED, if the broker says "nothing" only when nothing has landed and no order lands after its submit was answered |
| ExecutionTheorems.OnePositionPerCommand | execution/engine.py:223-281 | and so at most one position, where positions are opened by landed orders, one each |
| ExecutionProtection.SlProtection | execution/engine.py:287-366 | whenever a call ends with status FILLED against an honest broker, replays of stored results included, the broker's position carried the command's stop-loss to within 1e-9: now, or for a replay at a moment of the run |
| ExecutionProtection.StoredFillIsVouched | execution/engine.py:325-352 | in every honest run, crashes included, a stored FILLED result means that the position carried the command's stop-loss when it was stored |
| ExecutionProtection.CrashFreeRest | execution/engine.py:287-366 | without a crash, a command at rest is FILLED only with a stored FILLED result, MODIFYING only as adopted by reconciliation, and PARTIALLY_FILLED only because its call raised on the missing edge |
| ExecutionTheorems.ExecutorBudgets | execution/engine.py:338-396 | at most sl_attach_retries + 1 attaches and close_retries + 1 closes per call; an emergency close comes once, after all attaches, and ends CLOSED or UNKNOWN |
| ExecutionAnswers.AnswersAccounted | execution/engine.py:223-590 | over every run, crashes included, whenever a call is about to return a result that is no replay, row, result and record of answers fit: FILLED if and only if the row is FILLED, with volume and price of the broker's last word and the stop-loss just seen or set; CLOSED, REJECTED, EXPIRED and FAILED rows carry a stored result of that status, which is the broker's reply or the fixed result of what it reported; UNKNOWN, SUBMITTED and MODIFYING rows answer UNKNOWN with the reason |
| ExecutionAnswers.StoredResultsAccounted | execution/journal.py:204-222 | over every run every stored result was accounted for in that sense when it was stored |
| ExecutionAnswers.ReplaysAreStored | execution/engine.py:174-175 | a replayed result was accounted for at some moment of the run |
| ExecutionAnswers.Edges | execution/state_machine.py:49-132 | the automaton state by state: every edge out of every state, none out of the four terminal ones, and RECONCILED out of UNKNOWN to whatever a broker may report |
| ExecutionAnswers.CreateTable | execution/engine.py:120-155 | a command is created exactly when its plan is valid and fresh, no command is CREATED, VALIDATED, SUBMITTED or UNKNOWN, its id is new and no other command of its trade is active; otherwise the error is the first of these that fails |
| ExecutionAnswers.SubmitTable | execution/engine.py:161-206 | what a submit call does first, for every state and stored result: replay, refuse, answer UNKNOWN, fail validation, or go on to the expiry clock |
| ExecutionAnswers.ClockTable | execution/engine.py:208-221 | an expired command ends EXPIRED unsent, a VALIDATED one goes on to be sent, from any other state the call dies |
| ExecutionAnswers.SentTable | execution/engine.py:223-281 | what each status of the executor's reply leads to: row, audit lines, result or next question; another look only after NETWORK_TIMEOUT or CLOSE_FAILED within the budget |
| ExecutionAnswers.LookUpTable | execution/engine.py:249-273 | after a timeout: UNKNOWN when ambiguous, resend when nothing was found, otherwise adoption of what was |
| ExecutionAnswers.TruthTable | execution/engine.py:474-590 | what each discovered state makes of an UNKNOWN command: its new state, its stored result and what is returned |
| ExecutionAnswers.PositionTable | execution/engine.py:307-336 | after a fill: UNKNOWN without a position, FILLED with the fill's volume and price when the stop-loss is within 1e-9, else an attach from FILLED and an exception from PARTIALLY_FILLED |
| ExecutionAnswers.AttachTable | execution/engine.py:337-366 | an attach that works ends FILLED, one that fails is repeated within the budget and then leads to the emergency close |
| ExecutionAnswers.UrgentCloseTable | execution/engine.py:368-396 | the emergency close ends CLOSED with the reply, or UNKNOWN |
| ExecutionAnswers.CloseTable | execution/engine.py:428-453 | a requested close, for every state: CLOSED, another attempt, UNKNOWN when the budget is spent, or an exception where the automaton has no edge |
| ExecutionAnswers.CloseAndReconcileTable | execution/engine.py:414-472 | close replays a completed close and refuses UNKNOWN; reconcile proceeds from UNKNOWN only |
| ExecutionAnswers.BookTable | execution/engine.py:223-231 | every answer is logged once, a submit counts once for its own command, and lands at most once |
| ExecutionSafety.Reachable | execution/engine.py:93-665 | the protocol invariant (journal and audit agree, entry gate, one active command per trade, bounded submits, and only lawful writes planned by a running call) holds after every run |
| ExecutionSafety.StepKeeps | execution/engine.py:632-665 | every single step keeps that invariant, whatever the broker answers |
| ExecutionDepartures.SilenceGuaranteesIff | execution/engine.py:592-615 | for a non-terminal command without advice, every honest run has seen its stop-loss in place if and only if the journal stores a FILLED result for it |
| ExecutionDepartures.MissingSlRaisesOnPartial | execution/engine.py:336 | at the position question, without a matching stop-loss the call raises before its first attach if and only if the fill was partial, leaving journal and position as they are |
| ExecutionDepartures.PartialFillLeftUnprotected | execution/state_machine.py:68-73 | from any fresh start there is an honest run without a crash in which a landed partial fill raises that way and rests PARTIALLY_FILLED, without a stop-loss and with the advice NONE |
| ExecutionDepartures.AdoptedModifyingUnprotected | execution/engine.py:545-586 | ... and one in which an ambiguous submit is reconciled to MODIFYING and rests there so |
| ExecutionDepartures.CrashLeavesFillUnprotected | execution/engine.py:592-615 | ... and one with a crash in which a landed fill rests FILLED so, with nothing stored |
| ExecutionDepartures.PartialFillLost | execution/engine.py:402-453 | ... and one without a crash in which a partial fill, its closes refused, goes UNKNOWN, is reconciled to a terminal state and stays there in every further run, while its position has no stop-loss and no close was ever answered CLOSED |
| ExecutionDepartures.ReconcileAdviceUsable | execution/engine.py:459-496 | of the commands recovery wants reconciled, reconcile proceeds exactly for the UNKNOWN ones and raises for the others |
| ExecutionDepartures.CrashStrandsSubmit | execution/engine.py:219-231 | a crash during the first submit leaves a landed order, SUBMITTED in the journal and the advice RECONCILE |
| ExecutionDepartures.StrandedForGood | execution/engine.py:459-496 | after that no run that does not close the command changes any row, and whenever the engine is idle a reconcile of it raises |
| ExecutionDepartures.OnlyCloseMoves | execution/engine.py:592-615 | a command at rest in SUBMITTED, PARTIALLY_FILLED, FILLED or MODIFYING keeps its row through every run that does not close it |
| ExecutionDepartures.StrandedSubmitBlocksEntry | execution/engine.py:625-630 | with a command stranded in SUBMITTED no run that does not close it creates another command |
| ExecutionDepartures.FirstSend | execution/engine.py:120-230 | every command can be brought by an honest run to its first submit, journaled SUBMITTED |
| Execution.ExecutionJournal.CreateCommand | execution/journal.py:141-163 | inserts a CREATED row exactly when the id is new and the trade has no active command |
| Execution.ExecutionJournal.Record | execution/journal.py:165-202 | projection and audit line change together |
| Execution.ExecutionJournal.StoreResult | execution/journal.py:204-216 | sets the result of a row and nothing else |
| Execution.ExecutionEngine.constructor | execution/engine.py:96-107 | an engine can be built over the journal any history of calls and crashes has left, and then stands where that history ended |
| Execution.ExecutionEngine.CreateCommand | execution/engine.py:120-155 | performs exactly one create call of the machine, up to a crash at any point |
| Execution.ExecutionEngine.Submit | execution/engine.py:161-281 | performs exactly one submit call of the machine, up to a crash at any point, and returns what that call returns |
| Execution.ExecutionEngine.SubmitLoop | execution/engine.py:223-281 | the bounded submit loop runs the machine to the end of the call |
| Execution.ExecutionEngine.ReconcileBeforeResend | execution/engine.py:243-281 | resends only after the broker was asked, and only in the machine's resend state |
| Execution.ExecutionEngine.PostFill | execution/engine.py:287-305 | a fill is followed through to protection, emergency close, UNKNOWN or the illegal transition |
| Execution.ExecutionEngine.EnsureSlProtection | execution/engine.py:307-366 | confirms or attaches the stop-loss as the machine does |
| Execution.ExecutionEngine.AttachSl | execution/engine.py:336-366 | the bounded attach loop, ending in protection or an emergency close |
| Execution.ExecutionEngine.EmergencyClose | execution/engine.py:368-396 | exactly one close, then CLOSED or UNKNOWN |
| Execution.ExecutionEngine.Close | execution/engine.py:402-453 | performs exactly one close call of the machine, up to a crash at any point |
| Execution.ExecutionEngine.CloseWithRetries | execution/engine.py:428-453 | the bounded close loop runs the machine to the end of the call |
| Execution.ExecutionEngine.Reconcile | execution/engine.py:459-496 | performs exactly one reconcile call of the machine, up to a crash at any point; CloseAndReconcileTable and TruthTable say what that call answers |
| Execution.ExecutionEngine.HeedTruth | execution/engine.py:475-496 | an ambiguous or empty answer leaves the command UNKNOWN, any other is adopted, as the machine does |
| Execution.ExecutionEngine.ResolveReconciliation | execution/engine.py:498-586 | adopts a discovered state as the machine does; TruthTable and LookUpTable say what becomes of each state |
| Execution.ExecutionEngine.Recover | execution/engine.py:592-615 | lists every non-terminal command: RECONCILE exactly for SUBMITTED and UNKNOWN, SUBMIT_SAFE exactly for CREATED and VALIDATED, and those were never sent; some advice is not NONE exactly when the entry gate is shut |
| SimulatedBroker.SimulatedExecutor.Submit | execution/simulated.py:132-253 | status and error of the reply in every mode; an order lands exactly in the landing modes, once per command id; a second submit is refused as a duplicate; fills are backed by a new position |
| SimulatedBroker.SimulatedExecutor.Unanswered | execution/simulated.py:199-220 | a timed-out submit has landed in full or not at all, an ambiguous one stays placed |
| SimulatedBroker.SimulatedExecutor.Fill | execution/simulated.py:222-253 | a full or partial fill opens one position with the reported volume and price, near the entry price moved by the slippage against the trader |
| SimulatedBroker.SimulatedExecutor.FillOrder | execution/simulated.py:374-407 | a fill makes one new position of the filled volume at the slipped, rounded price |
| SimulatedBroker.SimulatedExecutor.GetPosition | execution/simulated.py:255-268 | returns the live or closed position of the command, if it has one |
| SimulatedBroker.SimulatedExecutor.AttachSl | execution/simulated.py:270-301 | applies the level exactly to an open position with attaches working, and touches nothing else |
| SimulatedBroker.SimulatedExecutor.ClosePosition | execution/simulated.py:303-328 | closes exactly an open position with closes working, and touches nothing else |
| SimulatedBroker.SimulatedExecutor.Query | execution/simulated.py:330-355 | "none, not ambiguous" is said exactly when no order exists, so its answers are truthful in the sense AtMostOneOrder needs; otherwise the order's volume, price and state, or CLOSED with its position |
| SimulatedBroker.PartialFillReportedRejected | execution/simulated.py:409-423 | after a partial fill and a refused close the query reports REJECTED although an unprotected position is open, and with these replies the engine's run ends with the command terminal |
| Framing.LinesFacts | collector/adapters/reader.py:155-180 | lines and remainder reproduce the bytes, and none holds a newline |
| Framing.SplitConcat | collector/adapters/reader.py:155-180 | splitting does not depend on how the bytes were chunked at line ends |
| Framing.SplitJoin | collector/adapters/reader.py:155-180 | lines written out and split again are the same lines |
| Framing.FramesConserve | collector/adapters/reader.py:163-184 | emitted frames with their newlines and the held partial reproduce the buffer; the partial has no newline |
| Framing.FramesAreLinesIffClean | collector/adapters/reader.py:169-179 | every frame is one line if and only if the buffer ends in a newline or has at most one |
| Ingestion.Reachable | collector/adapters/pipeline.py:118-280 | after every run of appends, polls, commits, failures, kills and restarts the held partial is the file's bytes at the offset, the cursor is a position handled frames account for, and events are the accepted frames |
| Ingestion.ExactlyOnceIff | collector/adapters/pipeline.py:118-280 | handled frames tile the file up to the cursor without gap or overlap if and only if no commit went past lines dropped by a failed commit |
| Ingestion.GappedIff | collector/adapters/pipeline.py:218-229 | after any run a process is ahead of its cursor if and only if, appends and polls aside, the last thing that happened is a failed commit |
| Ingestion.SkipsIff | collector/adapters/runner.py:56-71 | a run skips no line if and only if it never commits one while the process is behind a failed commit of its own |
| Ingestion.EventsAreAcceptedFrames | collector/persistence/repository.py:332-349 | over every run, crashes included, stored events are exactly the accepted handled frames, in order, once each, with distinct ids |
| Ingestion.CleanPollsFrameLines | collector/adapters/reader.py:155-184 | if every poll met a clean buffer, every frame ever handled is one line, however the appends were chunked |
| Ingestion.StoredEventsAreTheFile | collector/adapters/runner.py:39-49 | with clean polls and no skipping commit, stored events are the accepted lines of the one-shot split of the file up to the cursor |
| Ingestion.LastEventIsPerProcess | collector/adapters/pipeline.py:254-266 | the stored cursor names an event exactly when the running process stored one |
| Ingestion.BlockedIff | collector/adapters/errors.py:8-12 | with a complete line at the cursor of a stopped process, no run ever moves the cursor if and only if that line is undecodable |
| Ingestion.PoisonBlocksForever | collector/adapters/pipeline.py:147-160 | an undecodable line at the cursor stops cursor and events for every further run |
| Ingestion.PoisonReached | collector/adapters/pipeline.py:147-160 | one appended undecodable line is enough to get there from an empty file |
| Ingestion.DecodableMoves | collector/adapters/pipeline.py:147-229 | from any other line at the cursor some run gets past it |
| Ingestion.FailedCommitSkips | collector/adapters/runner.py:63-67 | a commit that fails once in a process that goes on leaves the first of two lines unhandled for good, with the cursor behind both |
| IngestionObjects.JsonlFileReader.Poll | collector/adapters/reader.py:94-194 | the complete effect of a poll on lines, offset, partial, identity and gap, for missing, unreadable, replaced and grown files |
| IngestionObjects.JsonlFileReader.Reset | collector/adapters/reader.py:87-92 | forgets everything |
| IngestionObjects.PollConservesIff | collector/adapters/reader.py:132-186 | what a poll emits and holds is what the file shows from the offset on if and only if the held partial is still there |
| IngestionObjects.StalePartialIsEmitted | collector/adapters/reader.py:120-154 | a file that shrinks into the held partial and grows again with other bytes is not taken for a new one, and the old bytes are emitted |
| IngestionObjects.Frame | collector/adapters/reader.py:155-180 | frames a buffer as specified, with the mixed branch as it is |
| IngestionObjects.IngestionRepository.InsertEventWithCursor | collector/persistence/repository.py:332-349 | event and cursor together or neither |
| IngestionObjects.IngestionRepository.SaveIngestionCursor | collector/persistence/repository.py:327-330 | the cursor alone, or nothing |
| IngestionObjects.IngestionPipeline.ProcessOnce | collector/adapters/pipeline.py:118-141 | one poll cycle over whatever is at the path: its lines are those of the reader, what happens to them is a run of the machine, for a file that has only grown the poll is the machine's own, and the persisted counter counts exactly the new events |
| IngestionObjects.IngestionPipeline.HandleLines | collector/adapters/pipeline.py:138-141 | handles the lines of a poll in order up to the first failure |
| IngestionObjects.IngestionPipeline.ProcessLine | collector/adapters/pipeline.py:147-229 | one line is one operation of the machine, and the counters stay balanced |
| IngestionObjects.IngestionPipeline.PersistEvent | collector/adapters/pipeline.py:218-229 | an accepted line commits event and cursor together or neither |
| IngestionObjects.IngestionPipeline.SkipLine | collector/adapters/pipeline.py:268-280 | any other line commits the cursor alone |
| IngestionObjects.Start | collector/adapters/runner.py:39-49 | a new process resumes at the stored cursor, as the machine's restart does |
| Lifecycle.TradeLifecycle.ApplyEvent | shared/contracts/lifecycle.py:143-178 | accepts exactly the events the automaton accepts, which AcceptedIffOnPath says without its table; a refused event changes nothing |
| Lifecycle.ValidateSequence | collector/event_model/lifecycle.py:20-55 | the demultiplexing loop accepts a stream if and only if time does not run back, every event passes its guard, and every trade's own events are accepted by a fresh lifecycle; AcceptedStreams says which streams those are |
| Lifecycle.FoldPrefix | shared/contracts/lifecycle.py:143-162 | once a trade's events were refused, no continuation is accepted |
| Lifecycle.LaterIsAhead | shared/contracts/lifecycle.py:52-110 | along an accepted flow every trade event is strictly further on the path than all before it, but for the two repeatable kinds |
| Lifecycle.AtMostOnce | shared/contracts/lifecycle.py:52-76 | every trade event but POSITION_UPDATED and NET_PROFIT_POSITIVE occurs at most once in an accepted flow |
| Lifecycle.OpensOnlyAfterGate | shared/contracts/lifecycle.py:81-110 | everything after the risk gate, opening a position included, follows a gate that did not reject |
| LifecyclePaths.AcceptedIffOnPath | shared/contracts/lifecycle.py:52-178 | a flow is accepted if and only if its own events are a prefix of TRIGGER, optionally CONTEXT, AI_REQUEST, AI_RESPONSE, then GATE, SUBMITTED, ACKNOWLEDGED, FILLED, OPENED, updates and net-profit events with no two net-profit events in a row, EXIT, CLOSED, and none of them follows a rejecting gate, a close, an error, a timeout or a reconciliation of a submitted or acknowledged order |
| LifecyclePaths.FullPathAccepted | shared/contracts/lifecycle.py:52-76 | every whole life of a trade along that path is accepted and ends it, whatever ticks come between |
| LifecyclePaths.AcceptedStreams | collector/event_model/lifecycle.py:20-55 | a stream is acceptable if and only if time does not run back, triggers are correlated, the trade's own events name their trade and every trade keeps to that path |
| Projection.CellsHoldLastWrite | collector/persistence/records.py:18-50 | after projecting any log every merged cell but updated_at holds the last non-NULL value written to it, which CellsTell reads off the payloads |
| Projection.RowsHoldFirst | collector/persistence/projector.py:184-230 | every row of an insert-or-ignore table is the first one offered |
| Projection.ReplaySuffixHarmless | collector/persistence/repository.py:304-317 | replaying any suffix of a log, or all of it, changes no derived cell but updated_at |
| Projection.ReplayOneIff | collector/persistence/repository.py:314-317 | replaying one event changes nothing if and only if everything it would write still stands |
| Projection.StaleOpenReopens | collector/persistence/projector.py:84-118 | a POSITION_OPENED delivered again leaves its position open, whatever closed it |
| Projection.ValidFlagAlwaysTrue | collector/persistence/records.py:54-76 | after any log the valid flag of a trade is absent or true |
| ProjectionCells.CellsTell | collector/persistence/projector.py:43-181 | after any log every cell of orders, positions, trades and invalid trades, whatever the column, is the payload field of the last event that told it, and absent if none did |
| ProjectionCells.RowsTell | collector/persistence/projector.py:184-230 | a reconciliation or snapshot row exists exactly when an event named it, and every column of it is that of the first such event |
| ProjectionCells.StampTells | collector/persistence/records.py:18-50 | updated_at of a trade, order or position is the time of the last event about it; no other merged row has one |
| ProjectionCells.TradeRowTells | collector/persistence/projector.py:84-165 | a trade's row shows position, direction, lot, entry price and time of its last opening, mfe and mae of its last update, and exit price and time, net result, cost and reason of its last closing |
| ProjectionCells.PositionRowTells | collector/persistence/projector.py:84-165 | a position's row shows its last opening and its last closing, and the state is OPEN or CLOSED by the later of the two |
| ProjectionCells.OrderRowTells | collector/persistence/projector.py:43-81 | an order's row shows its last acknowledgement and its last fill, its state the later of the two |
| ProjectionCells.RefusalRowTells | collector/persistence/projector.py:168-181 | an invalid trade's row shows reason, time and payload of its last refusal |
| ProjectionCells.ClosedTradeShowsItself | collector/persistence/projector.py:84-165 | on an accepted stream every closed trade was opened before, and its row shows exactly its own opening and closing; where each trade has its own position so does the position's row, which is CLOSED |
| StreamProjection.OpenPositionsAreTheOpenTrades | collector/persistence/projector.py:84-165 | on a stream the lifecycle accepts, with one position per trade, the derived open positions are exactly those of trades that opened and did not close |
| StreamProjection.NoReopening | shared/contracts/lifecycle.py:143-162 | on an accepted stream a trade that closed never opens again |
| EventRepository.PersistenceRepository.InsertEventWithDerived | collector/persistence/repository.py:279-317 | new events are appended and projected, identical duplicates only projected; schema violations, broken seals, conflicting duplicates and failing transactions leave nothing behind; the tables stay the projection of all deliveries |
| EventRepository.PersistenceRepository.ApplyDerivedState | collector/persistence/projector.py:245-254 | writes the rows of an event one by one, as the projection says; CellsTell and RowsTell say what they hold |
| EventRepository.PersistenceRepository.UpsertRecord | collector/persistence/records.py:18-50 | merges the given columns into one row and touches nothing else |
| EventRepository.PersistenceRepository.InsertOrIgnore | collector/persistence/projector.py:184-207 | the first row of a key stays |
| EventRepository.PersistenceRepository.OpenPositions | collector/persistence/repository.py:472-476 | returns exactly the positions whose derived state is OPEN |
| EventRepository.PersistenceRepository.SaveReconciliationRun | collector/persistence/repository.py:486-509 | event, derived row, run and adoptions together or nothing |
| EventRepository.PersistenceRepository.WriteReconciliationRun | collector/persistence/reconciling.py:73-88 | insert or ignore by run id |
| EventRepository.PersistenceRepository.WriteReconciliationAdoptions | collector/persistence/reconciling.py:91-111 | insert or ignore by adoption id |
| EventRepository.DeliveredState | collector/persistence/repository.py:279-317 | after any accepted deliveries the tables are their projection, and every delivered event is stored with its checksum |
| EventRepository.RedeliveryAccepted | collector/persistence/repository.py:279-302 | delivering again what was delivered is accepted and leaves the event table alone |
| EventRepository.RedeliverSuffix | collector/persistence/repository.py:304-317 | redelivering any suffix changes neither events nor derived cells but updated_at |
| Checksum.StripIsBlindIff | collector/event_model/checksum.py:18-26 | two values strip to the same value if and only if they differ at most in checksum keys, at any depth |
| Checksum.StripIdempotent | collector/event_model/checksum.py:18-26 | stripping twice is stripping once |
| Checksum.SealedVerifies | collector/event_model/envelope.py:128-147 | a sealed event verifies |
| Checksum.SealVerifiesExactly | collector/event_model/checksum.py:44-56 | unless their digests collide, an event carrying the checksum of another verifies exactly when both are alike but for nested checksum keys |
| RiskArithmetic.QuantisationBounds | risk_engine/calculators.py:27-34 | the quantised lot exceeds the value by at most 5e-9·step·(value + 1) + 5e-9 and falls short by at most a step more than that |
| RiskArithmetic.DecimalStepIsExact | risk_engine/calculators.py:27-34 | for steps 1/k with k dividing 10^8 the result is a whole number of units of 1/k |
| RiskArithmetic.StepIdempotent | risk_engine/calculators.py:27-34 | quantising twice is quantising once, for decimal steps |
| RiskArithmetic.StepMonotone | risk_engine/calculators.py:27-34 | a larger value never quantises to less, for decimal steps |
| RiskArithmetic.ExceedsIff | risk_engine/calculators.py:27-34 | for decimal steps the result exceeds the value exactly when value / step is less than 5e-9 short of a whole number it has not reached, or exactly that much short, and then by at most 5e-9 steps |
| RiskArithmetic.ExceedsAnyStepIff | risk_engine/calculators.py:27-34 | for any step the result exceeds the value exactly when the value, in rounded inverse steps, counts as n steps that rounded to eight decimals come to more than it |
| RiskArithmetic.StepCanRoundUp | risk_engine/calculators.py:27-34 | 0.009999999999 is quantised down to 0.01 |
| RiskArithmetic.LosesAUnitIff | risk_engine/calculators.py:27-34 | a lot of exactly n steps is counted as fewer if and only if n (1 - step * rounded inverse) > 5e-9 |
| RiskArithmetic.DecimalStepKeepsUnits | risk_engine/calculators.py:27-34 | decimal steps lose none |
| RiskArithmetic.StepCanLoseAUnit | risk_engine/calculators.py:27-34 | with step 0.03 a lot of exactly 1000 units loses one |
| RiskGate.ApprovalIsSound | risk_engine/engine.py:81-239 | an approval bounds lot, exposure, free margin, risk, drawdown, positions, confidence and spread, and puts the stop-loss on the losing side at the greater of configured and broker distance, up to stated rounding |
| RiskGate.RefusalIsEmpty | risk_engine/engine.py:46-214 | every refusal carries zero lot, stop-loss, risk and exposure, and only approvals carry the reason APPROVED |
| RiskGate.SlOnLosingSide | risk_engine/calculators.py:37-64 | a computed stop-loss is on the losing side at no less than both distances, up to the fifth decimal |
| RiskGate.SizedPlanFacts | risk_engine/calculators.py:157-222 | a plan's lot is the greatest volume or the quantised budget, within the volume limits, and its figures are the rounded ones of that lot |
| RiskGate.LotRiskWithinBudget | risk_engine/calculators.py:157-199 | a lot of at least one decimal step quantised from a budget risks at most budget / (1 - 5e-9), so at most the budget and a hundred-millionth of it |
| RiskGate.RiskLimitUnreachable | risk_engine/engine.py:199-214 | with a decimal step, a minimum of at least one step and a budget of at least 0.5 / 1.0001, no evaluation is refused for RISK_LIMIT |
| RiskGate.RefusableIff | risk_engine/engine.py:199-214 | with a decimal step and a minimum of at least one step, some evaluation on a budget is refused for RISK_LIMIT if and only if budget / (1 - 5e-9), rounded to four decimals, exceeds 1.0001 times the positive budget |
| RiskGate.RoundingLiftsBudget | risk_engine/calculators.py:211-222 | every budget of n - 1/2 ten-thousandths, n even up to 5000, rounds to more than 1.0001 times itself and can be refused |
| RiskGate.SmallBudgetRefused | risk_engine/engine.py:199-214 | 0.49995 can be refused for RISK_LIMIT, and no budget from 0.5 / 1.0001 on can |
| RiskGate.LossPerLotIsPerPoint | risk_engine/calculators.py:136-159 | loss per lot times the point size is the loss over the distance in ticks |
| RiskBudget.ApprovalUsesBudget | risk_engine/engine.py:81-239 | every approval, in figures of its inputs: the lot is the greatest volume or within one step of budget / loss per lot, with its rounding; risk, percentage, exposure and stop-loss are those of that lot to within their rounding; all limits hold for them |
| RiskBudget.DecimalStepFillsBudget | risk_engine/calculators.py:157-199 | with a decimal step the lot is a whole number of steps, and one more step, less 5e-9 of it, would risk more than the budget, unless the lot is the greatest volume |
| RiskBudget.FirstFailureTells | risk_engine/validators.py:22-134 | the first failing check, in the source's order, is the reason of the refusal |
| RiskBudget.RefusalHasItsReason | risk_engine/engine.py:110-214 | acceptable inputs are approved, or refused because there is no capital, no room for the stop-loss, too little budget for the least volume, or because the planned lot breaks the exposure, margin or risk limit to within the rounding |
| PaperLoop.SimulatedPosition.CheckExit | paper_validation/execution_simulator.py:48-76 | exits exactly on stop or positive net profit, stop first, and keeps the excursions those of all ticks seen |
| PaperLoop.SimulatedPosition.Close | paper_validation/execution_simulator.py:78-111 | writes up price, costs, net result, realised risk and excursions at the closing tick |
| PaperLoop.Watch | paper_validation/scenario_runner.py:204-218 | closes at the first tick after entry that meets stop or profit, and at the entry tick when there is none |
| PaperLoop.RunScenario | paper_validation/scenario_runner.py:108-257 | refuses what the gate refuses, otherwise fills at the first tick and watches; the overrun flag is set exactly when realised risk exceeds 1.0001 times the approved risk |
| PaperLoop.ExcursionsBound | paper_validation/execution_simulator.py:55-59 | the excursions are the least and greatest of 0 and all gross results seen |
| PaperLoop.EndIsUnique | paper_validation/scenario_runner.py:204-218 | the end of a paper trade is determined by its ticks |
| PaperLoop.ProfitClosePays | paper_validation/execution_simulator.py:68-74 | a profit close reports no loss and no realised risk, and was not a stop |
| PaperLoop.SessionEndLosesTheSpread | paper_validation/scenario_runner.py:206-218 | without an exit the result is the entry tick's spread lost, though no later tick ever showed a net profit |
| PaperLoop.SessionEndMissesTheFall | paper_validation/scenario_runner.py:206-218 | a two-tick session that falls by almost five closes 0.1 down, at the price of its first tick |
| PaperLoop.ReportAddsUp | paper_validation/execution_simulator.py:78-111 | in every close report net is gross less commission, swap and slippage, realised risk is the net loss, and the total is the sum of the four costs, each up to its rounding |
| PaperLoop.LossFitsRiskIff | risk_engine/calculators.py:157-199 | the money lost over the stop distance is within the reckoned risk if and only if a tick is worth at least contract size × point × tick size |
| PaperLoop.LossWithinRisk | paper_validation/execution_simulator.py:78-111 | an approved trade closed without extra costs and not past its stop-loss realises at most the approved risk, up to lot × contract size × 1e-5 + 1e-4 |
| PaperLoop.ApprovedPlan | risk_engine/calculators.py:67-222 | behind every approval stands a stop distance that fixes both risk and stop-loss |
| PaperReports.PaperTradeTells | paper_validation/scenario_runner.py:185-225 | from approval and ticks alone: bought at the ask and sold at the bid of the first tick, closed at the first later tick that stops it or shows a net profit and else at the first again, with exit price, gross and net result, realised risk and every cost of the report |
| PaperReports.ExcursionsTell | paper_validation/execution_simulator.py:55-59 | the excursions are the least and greatest of 0 and the profits of the ticks looked at, to within their rounding |
| PaperReports.StopLoses | paper_validation/execution_simulator.py:61-66 | a stop loses at least the distance from entry to stop-loss |
| Sorting.SortSorts | collector/reconciliation/classifier.py:152-153 | sorting orders by key and keeps every element |
| Sorting.SortStable | collector/reconciliation/classifier.py:152-153 | elements with equal keys keep their order |
| Sorting.TextOrderMeans | collector/reconciliation/classifier.py:245 | ids compare by their first different character, a prefix first |
| Classifier.Classify | collector/reconciliation/classifier.py:134-291 | the loops compute the comparison: diffs in order, counters counted, precedence applied; DiffsTell and ResultTells say what it is on the rows |
| Classifier.CompareSeen | collector/reconciliation/classifier.py:155-215 | one diff per broker row, with the running counters right |
| Classifier.FindMissing | collector/reconciliation/classifier.py:217-243 | one diff per local row the broker does not show |
| Classifier.ById | collector/reconciliation/classifier.py:140-145 | a dictionary by id, last row wins, keys in order of first insertion |
| ClassifierTheorems.ClassifiesExactly | collector/reconciliation/classifier.py:134-291 | with unique broker ids: exactly the expected diff of every known entity (its fields are DiffsTell), strictly ordered, counters equal to the sizes of set differences and conflict set, and the result they call for |
| ClassifierTheorems.ResultMeaning | collector/reconciliation/classifier.py:248-284 | SYNCED exactly when both sides agree, that is when all counters are zero; ADOPTED_BROKER exactly with broker orphans, no conflict and no missing local position |
| ClassifierTheorems.OutcomeDetermined | collector/reconciliation/classifier.py:134-291 | the two sides by id determine the whole outcome |
| ClassifierTheorems.OrderDoesNotMatter | collector/reconciliation/classifier.py:134-291 | permuting any input list changes nothing |
| ClassifierTheorems.LocalsDetermine | collector/reconciliation/classifier.py:134-291 | for any snapshot, repeated ids included, the outcome depends on the local rows only through what they hold by id |
| ClassifierFields.DiffsTell | collector/reconciliation/classifier.py:81-243 | for any two sides, repeated ids included: the diffs are exactly those of the broker's rows against the last local row of their id, or adoptions, and of the local rows the broker does not show, with every field of class, reason and summaries in the rows' own values |
| ClassifierFields.DiffsInOrder | collector/reconciliation/classifier.py:245 | orders before positions, each by id |
| ClassifierFields.ResultTells | collector/reconciliation/classifier.py:247-291 | ESCALATED exactly with a conflict, a missing position, or a missing order and nothing unknown at the broker; otherwise ADOPTED_BROKER exactly with something unknown; each result with its action |
| ClassifierFields.ConflictEscalates | collector/reconciliation/classifier.py:81-109 | a position known to both has a diff that names the first of direction, volume and price that differs, and if one does the result is ESCALATED |
| ClassifierFields.SyncedPositionsAgree | collector/reconciliation/classifier.py:34-109 | when the result is SYNCED or ADOPTED_BROKER, every position known to both has equal directions and volume and open price within 1e-6, absolute or relative |
| ClassifierFields.SyncedOrdersAgree | collector/reconciliation/classifier.py:112-131 | orders likewise in volume and price |
| ClassifierFields.TokenMeans | collector/reconciliation/classifier.py:40-41 | a token is the text without the blanks around it, in upper case |
| Sorting.InsertAnyOrder | collector/reconciliation/classifier.py:245 | what a stable sort makes of elements with distinct keys does not depend on their order, whatever else is in the list |
| ReconciliationRuns.RunsAreFirstSightings | collector/reconciliation/reconciler.py:109-145 | over any history without colliding run ids the run table holds one row per distinct signature, that of its first sighting, in order |
| ReconciliationRuns.Sightings | collector/reconciliation/types.py:91-108 | first sightings cover exactly the observed signatures, each once, with increasing times |
| ReconciliationRuns.ShadowIsNewestSighting | collector/reconciliation/reconciler.py:94-99 | the shadow state is the result of the newest first-seen signature |
| ReconciliationRuns.ShadowFollowsIff | collector/reconciliation/reconciler.py:94-99 | a run shows in the shadow state exactly when its signature is new or the state already had its result |
| ReconciliationRuns.SilentIff | collector/reconciliation/reconciler.py:124-142 | a run writes nothing exactly when its signature is the newest first-seen one |
| ReconciliationRuns.RepeatIsSilent | collector/reconciliation/reconciler.py:124-142 | repeating a run right after its signature was new writes nothing |
| ReconciliationRuns.ReturnLeavesOnlyEvents | collector/persistence/reconciling.py:73-111 | runs that return to an older signature add events only: no run, no adoption, no change of shadow state |
| ReconciliationRuns.AdoptedOnRecord | collector/reconciliation/reconciler.py:263-325 | after any history the adoptions under a signature are exactly the entities it found unknown locally |
| ReconciliationRuns.LatestOfIncreasing | collector/persistence/reconciling.py:114-119 | with increasing times the newest run is the last one recorded |
| RunRecords.SignatureIsOutcome | collector/reconciliation/types.py:91-108 | two comparisons have the same signature if and only if trigger and whole outcome are the same |
| RunRecords.RunRowsTell | collector/reconciliation/reconciler.py:226-261 | every run row tells trigger, result, action, mismatch, time and signature of its first sighting |
| RunRecords.LatestMeans | collector/persistence/reconciling.py:114-119 | the latest run is the one of greatest time, and of greatest id among those |
| RunRecords.AdoptionsTell | collector/reconciliation/reconciler.py:263-325 | every adoption on record carries the broker's row, as the first comparison with its signature saw it, and the time of that comparison |
| ReconciliationService.Service.Reconcile | collector/reconciliation/reconciler.py:109-191 | compares the rows of the derived tables with the snapshot, repeated ids included, skips exactly what is unchanged, otherwise records; never changes orders, positions or trades |
| ReconciliationService.Service.Record | collector/reconciliation/reconciler.py:144-165 | records a run, its event and its adoptions, or nothing when refused |
| ReconciliationService.Service.RecordTimeout | collector/reconciliation/reconciler.py:197-224 | an unavailable snapshot leaves a TIMEOUT event at most |
| ReconciliationService.Service.ReconcileTwice | collector/reconciliation/reconciler.py:124-142 | the same trigger and snapshot, repeated ids included, right after a run with a new signature is skipped |
| ReconciliationService.Service.CurrentShadowState | collector/reconciliation/reconciler.py:94-99 | returns the shadow state of the history |
| ReconciliationService.BuildAdoptions | collector/reconciliation/reconciler.py:263-325 | one adoption per recoverable diff that the snapshot shows |
| ReconciliationService.KeepsTradingState | collector/persistence/projector.py:184-207 | projecting a reconciliation or timeout event touches no table but its own |
| ReconciliationService.ComparisonsAreGrounded | collector/reconciliation/reconciler.py:263-325 | everything an exact comparison wants adopted is in the snapshot |
| ReconciliationService.OrdersNeverConflict | collector/persistence/projector.py:43-81 | whatever the event log, projected orders carry neither lot nor price, so no order is ever in conflict |
| LocalState.OpenPositionsTell | collector/persistence/repository.py:472-476 | after any log a position is compared exactly when the last event naming it opened it, with that event's direction, volume and price |
| LocalState.OpenOrdersTell | collector/persistence/repository.py:478-484 | after any log an order is compared exactly when the last report of it is neither FILLED nor CANCELLED nor REJECTED, and nothing but that state is known of it |

## Left out

- SQLite, WAL, migrations, file handles, inode lookup and sleeping between polls: I/O; only atomic transactions, unique keys and append-only tables are kept.
- `ai_decision/`, metrics, evidence, export, integrity reports, settings, the MQL5 bridge and tick generation: transport, reporting or easy sums.
- ExecutionTheorems.AtMostOneOrder: orders that land after their submit was answered are not modelled; the source's look-up has the same blind spot.
- JSON parsing, schema validation, payload specifications and timestamp parsing: given predicates (`Judge`, `valid`, `planValid`, `stamped`).
- Payloads, timestamps and trade ids of audit lines, broker request ids and return codes, retry-after and messages of results: carried along, never decided on.
- `ExecutionStateMachine`: a holder of one state; the engine calls the transition function directly, as the model does.
- The hint branch of `_resolve_reconciliation`: no caller passes a hint that reaches it.
- Journal order: commands are listed in order of insertion, not of `created_ts`.
- Ingestion.StoredEventsAreTheFile: runs without rotation; a rotation starts a new stream at byte zero, as ProcessOnce states.
- Floating point: exact reals stand for doubles, so NaN, infinities and binary rounding are not modelled; comparisons with tolerances are.
- Text: case folding and blank trimming of tokens cover ASCII; summaries of entities are the fields they print, not the printed text.
- Direct writes to derived tables through `upsert_trade`, `upsert_order`, `upsert_position`, `insert_reconciliation` and `insert_invalid_trade`: the model's tables change through events and reconciliation runs only.
- ReconciliationRuns.RunsAreFirstSightings: run times are taken to increase strictly; two runs in one millisecond would be ordered by id.
- ClassifierTheorems.ClassifiesExactly: stated for snapshots with unique ids per kind; with repeated broker ids `Classify` still returns exactly `Comparison`, which then holds one diff per broker row.
- The order of rows returned by the open-position and open-order queries: the comparison does not depend on it.
