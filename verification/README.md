# Verified models of the Orion local worker, the self-hosted command worker and their tools

A Dafny 4.11 project beside the repository. It models the step-by-step protocols of the worker processes, the two
SQLite-to-Postgres migrations, the operations watchdog and four sequence and string cores, and proves what they
promise for every input, every interleaving and every run. `dafny verify dfyconfig.toml` checks everything.

| file | what it models |
|---|---|
| `Interrupts.dfy` | the interrupt controller shared by the control listener and the execution thread; each locked block is one atomic step, each kill a later one |
| `InterruptHistory.dfy` | the same controller told by the steps alone: which registration is in force, which request stands, which kills are decided |
| `ControlStream.dfy` | the parser of the control event stream and the printer of the proxy (sections 9.2.5 and 9.2.6 of the WHATWG HTML Standard, with two differences of the code: pending data is flushed at the end of the stream, and the id is reset with every event) |
| `Json.dfy`, `JsonReading.dfy` | JSON text as `json.dumps` writes it, and that it can be read back |
| `ControlListener.dfy` | the listener that reconnects with `since_sequence` |
| `ControlDelivery.dfy` | printer, connection, parser and listener together, with connections that end or break after any character |
| `FragmentEffects.dfy` | what the fragments that such connections hand on do to the interrupt controller |
| `LocalExecution.dfy` | a plan that is executed from a checkpoint, paused and resumed any number of times; the policy gate in front of it |
| `TurnOutcomes.dfy` | which operations start, finish, fail or are put off, and which rows the result lists, from the plan and the environment alone |
| `ResumeChains.dfy` | which operations a chain of pauses and resumes can finish, and with which browser checkpoint it comes to them |
| `InterruptedExecution.dfy` | the order of control readings and starts of bodies over a chain, with readings taken from the interrupt controller |
| `FileLock.dfy` | any number of processes that write, append to and delete one file under the advisory lock, with crashes, errors and timeouts |
| `FileOutcomes.dfy` | what these operations report, and that they get done |
| `CommandQueue.dfy`, `CommandWorker.dfy` | the self-hosted command worker and the cloud queue over a network that loses requests and responses; the worker and queue objects themselves |
| `QueueHistory.dfy`, `QueueAcks.dfy` | the queue told by the claims and reports that were delivered; acknowledged reports are final |
| `Migration.dfy` | the control-plane migration with its id cache |
| `MigrationRerun.dfy`, `MigrationGap.dfy` | running the migration again, and when its dry run is exact |
| `AuthMigration.dfy` | the auth-store migration with its set of session ids |
| `Watchdog.dfy` | failure threshold, cooldown and sliding-window rate limit of the operations daemon |
| `WatchdogRuns.dfy` | when a recovery is due, from the polls alone |
| `Cookies.dfy` | cookie headers in the frontend's proxy (cookie-string of section 4.2.1 of RFC 6265) |
| `FieldKinds.dfy` | what the names and nodes of those fields say: paths, form fields, credentials, walls |
| `FieldRuns.dfy` | splitting a channel's setup fields into primary and advanced ones |
| `ContentPlan.dfy` | the planner whose repair loops make topics, calls to action and headlines distinct |
| `ContentRules.dfy` | what such a plan keeps of its items and how it fills their blanks |
| `ContentDays.dfy` | the days of such a plan, which are not repaired |
| `CsvTable.dfy`, `CsvRules.dfy` | the CSV commands of the spreadsheet pack; what they answer and which tables they make |
| `Text.dfy` | stripping, lower-casing, string order |

What the outside world answers is a parameter everywhere: control readings, tools that fail, what Postgres rejects,
what the kernel decides, clock readings, where a connection drops, when a process crashes.

Contracts of the environment that the proofs rely on:

- The server's control log has strictly increasing positive sequence numbers, and `since_sequence` is exclusive
  (`ControlListener.Increasing`, `ControlListener.Served`).
- Control events are one-line JSON texts: they decode, and no proper prefix of one decodes (`ControlDelivery.Good`); no
  prefix of an object's text is the text of a value: `JsonReading.ObjectsHaveNoPrefix`.
- The stream name of a control event and its decoded fields agree on what kind of event it is
  (`FragmentEffects.SameKind`).
- A resumed run gets back the checkpoint it sent; a pause that carries no browser checkpoint leaves the previous one
  attached (`LocalExecution.Chain`).
- The watchdog's clock does not go backwards (`Watchdog.Monotone`).
- The queue is not reset while commands are under way.
- For running a migration again: a row that Postgres has rejected stays rejected as Postgres grows, unless its id appears
  (`MigrationRerun.Stable`, `AuthMigration.Stable`); unique indexes and constraints on the row itself do this
  (`MigrationRerun.UniqueIndexIsStable`, `AuthMigration.UniqueIndexIsStable`).

Where a promise does not hold of the code, the exact condition is proved, and a concrete failing case is given:

- A later interrupt request replaces a machine-wide one without comparing scopes: `Interrupts.LaterRequestReplaces`; a
  hard kill that is lost this way: `Interrupts.HardKillIsLost`.
- A connection that ends in good order inside an event's data hands on a fragment under the event's name before the
  reconnect delivers the whole: `ControlDelivery.OnceExactlyWithoutCuts`; a hard kill handed on twice:
  `ControlDelivery.HardKillTwice`.
- Such a fragment of a machine_resume clears the machine interrupt under the worker's own id, also when the event is
  meant for another machine: `FragmentEffects.DeliveredInterruptExactly`; a hard kill lifted this way:
  `FragmentEffects.ResumeElsewhereLifts`.
- `pause_for_human` saves its own index, so no chain of resumes gets past it: `ResumeChains.HumanPauseIsNeverPassed`; a
  page that is never finished: `ResumeChains.HumanPageIsNeverFinished`.
- A browser checkpoint is attached to every browser operation, not only to its own: `ResumeChains.SkipsExactly`; two
  pages of which the second is skipped: `ResumeChains.SecondPageIsSkipped`.
- A claimed command can get lost: `CommandQueue.ExecutableExactlyInReach`; lost with a response, and lost in a crash:
  `CommandQueue.LostWithResponse`, `CommandQueue.LostInCrash`.
- A completed command can be shown as failed: `CommandQueue.FailedShowsExactly`; a run in which it is:
  `CommandQueue.LostReportShowsFailed`.
- The report on a command whose first report threw goes to "unknown" if the command has no `id` field:
  `CommandWorker.SecondReportReaches`; such a command: `CommandWorker.SecondReportGoesAstray`.
- The dry run of the control-plane migration can report more than the apply run copies, because `remember` can create the
  id cache before it is seeded: `MigrationGap.DryRunIsExactWithoutGap`; an instance: `Migration.SeedingGap`. The class
  comment in the source describes the cache as seeded on first use; the model follows the code.
- Through the same gap an apply run sets optional references to NULL although Postgres has their targets:
  `MigrationGap.OptionalDroppedExactly`; an install that loses its profile: `MigrationGap.ProfileIsDropped`.
- Days of a content plan may repeat: `ContentDays.PlannedDaysDifferExactly`; a plan with two Tuesdays:
  `ContentDays.TuesdayTwice`.
- A CSV header with surrounding spaces is rewritten and its column loses its cells: `CsvTable.AppendKeepsHeader`,
  `CsvTable.AppendKeepsCell`, `CsvTable.UpdateKeepsCell`; an instance: `CsvTable.SpaceLosesCells`.

## Model

| member | source | states |
|---|---|---|
| `Interrupts.LockedBlockAnswersHits` | scripts/orion_local_worker_runtime.py:73-182 | every locked block that makes or leaves the stored interrupt applicable to the active process (or interrupt function) either found it so or decides on its kill (call) |
| `Interrupts.LockedBlockOnlyAtHits` | scripts/orion_local_worker_runtime.py:42-182 | a locked block decides on a kill or call only where the interrupt it leaves stored applies |
| `Interrupts.NextKeepsInv` | scripts/orion_local_worker_runtime.py:42-182 | every step, locked or not, keeps: decided effects = pending + carried out, every applicable interrupt is answered, outcomes match the effects carried out |
| `Interrupts.NoKillIsLost` | scripts/orion_local_worker_runtime.py:42-131 | in every interleaving, a process whose run the stored interrupt applies to was killed, has exited, the system refused to kill it, or a kill of it is pending; a supervisor function was called or is pending |
| `Interrupts.StoppedExactly` | scripts/orion_local_worker_runtime.py:52-71 | over every run a process has stopped if and only if it exited or a pending kill of it went through |
| `Interrupts.QuiescentMeansAnswered` | scripts/orion_local_worker_runtime.py:52-131 | with nothing pending, such a process has stopped or the system refused to kill it, and it has stopped if and only if it exited or some kill went through |
| `Interrupts.EveryEffectIsJustified` | scripts/orion_local_worker_runtime.py:73-151 | every kill or call ever decided goes back to a moment at which the stored interrupt applied to the run it was registered under |
| `Interrupts.KilledIsJustified` | scripts/orion_local_worker_runtime.py:52-131 | no process is killed without such a moment |
| `Interrupts.MachineInterruptPersists` | scripts/orion_local_worker_runtime.py:42-50 | a machine-wide interrupt is reported to every run until another request or a machine clear, whatever else happens |
| `Interrupts.LaterRequestReplaces` | scripts/orion_local_worker_runtime.py:73-108 | after a later request a run sees an interrupt exactly if that request is machine-wide or names the run |
| `Interrupts.HardKillIsLost` | scripts/orion_local_worker_runtime.py:73-108 | a run of two requests in which a machine-wide interrupt is lost to a request for another run |
| `InterruptHistory.KillOwedExactly` | scripts/orion_local_worker_runtime.py:73-131 | over every run, a kill of a process has been decided if and only if a registration of it and a request for its run or machine-wide came together: the request while it was registered, or the registration while the request stood |
| `InterruptHistory.KilledExactlyForRequests` | scripts/orion_local_worker_runtime.py:52-131 | such a process has stopped, could not be killed or has a kill pending, and no other process is killed |
| `InterruptHistory.CallOwedExactly` | scripts/orion_local_worker_runtime.py:73-161 | the same if and only if for the interrupt functions of supervisors |
| `InterruptHistory.ReportsExactly` | scripts/orion_local_worker_runtime.py:42-113 | a run is reported an interrupt if and only if a request for it stands that no later request or clear has lifted |
| `InterruptHistory.EventsMean` | scripts/orion_local_worker.py:757-773 | a hard kill concerns every run, a run interrupt exactly the run named, a machine resume lifts exactly the interrupts of its machine, other events do nothing |
| `Interrupts.RuntimeInterruptController.RequestInterrupt` | scripts/orion_local_worker_runtime.py:73-108 | the whole new state of the controller, and exactly which process and function the caller has to stop after the lock |
| `Interrupts.RuntimeInterruptController.InterruptSnapshot` | scripts/orion_local_worker_runtime.py:110-113 | the stored interrupt if it applies to the run, and nothing otherwise |
| `Interrupts.RuntimeInterruptController.RegisterProcess` | scripts/orion_local_worker_runtime.py:115-123 | the process becomes the active one, and is the victim exactly if the stored interrupt applies to its run |
| `Interrupts.RuntimeInterruptController.ClearProcess` | scripts/orion_local_worker_runtime.py:125-131 | only the process named is cleared; nothing else changes |
| `Interrupts.RuntimeInterruptController.RegisterSupervisorExecution` | scripts/orion_local_worker_runtime.py:133-151 | the function becomes the active one, and is to be called exactly if the stored interrupt applies to its run |
| `Interrupts.RuntimeInterruptController.ClearSupervisorExecution` | scripts/orion_local_worker_runtime.py:153-161 | cleared unless both request ids are given and differ |
| `Interrupts.RuntimeInterruptController.ClearRunInterrupt` | scripts/orion_local_worker_runtime.py:163-171 | only a run-scoped interrupt that applies to the run is removed |
| `Interrupts.RuntimeInterruptController.ClearMachineInterrupt` | scripts/orion_local_worker_runtime.py:173-182 | only a machine-wide interrupt, and not another machine's, is removed |
| `Interrupts.HandleControlEvent` | scripts/orion_local_worker.py:757-773 | one control event is exactly one step of the controller protocol, or none |
| `ControlStream.IterControlEvents` | scripts/orion_local_worker_runtime.py:694-740 | the loop over lines computes the parser function, with the flush at the end of the stream |
| `ControlStream.ParserMeansBlocks` | scripts/orion_local_worker_runtime.py:694-740 | for every stream the parser's events are those of its blocks: all data lines joined, under the last event name and the last id, none for a block without data |
| `ControlStream.ParseIsYieldAndFlush` | scripts/orion_local_worker_runtime.py:694-740 | for every stream, the events are those yielded at blank lines, then the one that the end of the stream flushes, if any |
| `ControlStream.CutAfterBlankLine` | scripts/orion_local_worker_runtime.py:694-740 | parsing a stream cut after a blank line is parsing the two parts and concatenating |
| `ControlStream.CommentsChangeNothing` | scripts/orion_local_worker_runtime.py:713-731 | a comment line inserted at any line start changes nothing |
| `ControlStream.PrintThenParse` | scripts/deepseek_anthropic_proxy.py:247-248 | printed events come back in order with their names and payloads |
| `ControlStream.RoundTrip` | scripts/deepseek_anthropic_proxy.py:247-248 | a list of events comes back unchanged if and only if every name is non-empty, stripped and without newline, there is no id, and the payload has no newline and no final carriage return |
| `ControlStream.JsonRoundTrip` | scripts/deepseek_anthropic_proxy.py:247-248 | what the printer prints, JSON payloads of any values, always comes back unchanged |
| `Json.DumpsIsAscii` | scripts/deepseek_anthropic_proxy.py:247-248 | the text of every JSON value is printable ASCII on one line |
| `JsonReading.TextsAreReadable` | scripts/deepseek_anthropic_proxy.py:247-248 | from a text that starts with the text of a value, the value and where its text ends are determined |
| `JsonReading.DumpsIsInjective` | scripts/deepseek_anthropic_proxy.py:247-248 | different values have different texts |
| `JsonReading.ObjectsHaveNoPrefix` | scripts/deepseek_anthropic_proxy.py:247-248 | no proper prefix of the text of an object is the text of a value |
| `ControlListener.Listen` | scripts/orion_local_worker_runtime.py:742-771 | the two nested loops compute `Delivered`, with `since_sequence` the maximum seen, for connections that end between events |
| `ControlListener.ServedIsNext` | scripts/orion_local_worker_runtime.py:742-771 | each connection continues exactly where the deliveries so far ended |
| `ControlListener.DeliveredOnceInOrder` | scripts/orion_local_worker_runtime.py:742-771 | over any number of drops between events the handler was handed a prefix of the log, nothing missing or repeated, and `since_sequence` is the last number handed |
| `ControlListener.UncutConnectionCatchesUp` | scripts/orion_local_worker_runtime.py:742-771 | one connection that is not cut completes the whole log |
| `ControlDelivery.CutEvent` | scripts/orion_local_worker_runtime.py:694-740 | what the parser yields for a printed event that is cut after any number of characters: nothing before its data field is complete, then an event with the part of the payload that is there |
| `ControlDelivery.CutYieldsNothing` | scripts/orion_local_worker_runtime.py:694-740 | an event that is not complete yields nothing before the end of the stream, so nothing if the connection breaks with an error |
| `ControlDelivery.ReceiveIsParse` | scripts/orion_local_worker_runtime.py:694-740 | for a whole stream of events that ends or breaks anywhere, which events are handed on, with each payload decoded |
| `ControlDelivery.WholeEventsOnceInOrder` | scripts/orion_local_worker_runtime.py:742-771 | over connections that end or break anywhere, the whole events handed on are a prefix of the log, each once and in order, and `since_sequence` is the last of them |
| `ControlDelivery.OnceExactlyWithoutCuts` | scripts/orion_local_worker_runtime.py:742-771 | the handler is called once per event, in order and for nothing else, if and only if no connection ends in good order inside an event's data |
| `ControlDelivery.HardKillTwice` | scripts/orion_local_worker_runtime.py:694-740 | a hard kill whose connection ends inside its data and is followed by another: a fragment is handed on, then the event |
| `FragmentEffects.ApplyIsLocked` | scripts/orion_local_worker_runtime.py:73-182 | the stored interrupt after a step, as used here, is what the controller's locked block stores |
| `FragmentEffects.SameInterruptExactly` | scripts/orion_local_worker.py:757-773 | once every fragment is followed by its event, fragments and events leave the same interrupt stored as the events alone if and only if no fragment of a machine_resume has cleared one that its event does not clear, with nothing since to replace or clear it |
| `FragmentEffects.DeliveredInOrder` | scripts/orion_local_worker_runtime.py:742-771 | over connections that end or break anywhere, each fragment handed on is one of the next event of the log |
| `FragmentEffects.DeliveredInterruptExactly` | scripts/orion_local_worker.py:757-773 | the same if and only if, from the stream to the controller, over connections that end or break anywhere |
| `FragmentEffects.ResumeElsewhereLifts` | scripts/orion_local_worker_runtime.py:173-182 | the fragment of a resume for another machine lifts the hard kill of this one, which the event leaves in place |
| `LocalExecution.BrowserCapture` | scripts/orion_local_worker_execution.py:865-926 | the action loop: readings, human pauses and failures at each action, and the index that is saved |
| `LocalExecution.RunTurn` | scripts/orion_local_worker_execution.py:2355-2592 | one turn of the pack loop: interrupt, pause, body, wait in the browser |
| `TurnOutcomes.VerdictExactly` | scripts/orion_local_worker_execution.py:2355-2592 | a turn ends as finished, failed, put off or waiting in the browser if and only if tool, readings, body and browser actions say so |
| `TurnOutcomes.TurnRecordsExactly` | scripts/orion_local_worker_execution.py:2355-2637 | every event of a turn, from the operation and the environment alone, both directions |
| `TurnOutcomes.SessionRecordsExactly` | scripts/orion_local_worker_execution.py:2308-2637 | every event of a session: those of the operations that it comes to |
| `TurnOutcomes.SessionEndsExactly` | scripts/orion_local_worker_execution.py:2308-2637 | a session completes, pauses or stops if and only if the operations up to there go on and that one waits, is put off or fails |
| `TurnOutcomes.ChainRecordsExactly` | scripts/orion_local_worker_execution.py:2308-2637 | an operation of a chain is recorded as started, finished, failed or suspended if and only if the pauses before lead a session to it and it then does so |
| `TurnOutcomes.RowsMean` | scripts/orion_local_worker_execution.py:2505-2632 | a step row is completed if and only if its operation finished or waits in the browser, failed if and only if it failed, as the error rows |
| `TurnOutcomes.SessionRowsExactly` | scripts/orion_local_worker_execution.py:2308-2637 | the rows of a session, in order, one for each operation that it comes to and that is not put off, with their marks, from the plan and the environment alone |
| `LocalExecution.ReadDecisions` | scripts/orion_local_worker_execution.py:1500-1530 | for every tool the last non-empty decision of the policy items |
| `LocalExecution.DecisionIsLast` | scripts/orion_local_worker_execution.py:1500-1512 | the decision for a tool is that of the last item that names it and decides; there is none exactly if no item does |
| `LocalExecution.GateRules` | scripts/orion_local_worker_execution.py:1518-1558 | an operation is blocked, or withheld, if and only if the last rule for its capability or its tool says so, or no rule decides and the evaluation at run time says so |
| `LocalExecution.PolicyGate` | scripts/orion_local_worker_execution.py:1500-1571 | clears a plan if and only if no operation of the whole plan is blocked or withheld; blocking wins, and the tools named are exactly the offenders |
| `LocalExecution.BuildLocalExecutionPackResult` | scripts/orion_local_worker_execution.py:2293-2667 | refused if and only if some operation is blocked or withheld, and then nothing happens; otherwise the session from the normalised resume index, with its step and error rows |
| `LocalExecution.ResumeIndex` | scripts/orion_local_worker_execution.py:373-379 | always within the plan, and the saved index itself if that is |
| `LocalExecution.SessionSettles` | scripts/orion_local_worker_execution.py:2308-2375 | a session settles consecutive operations from where it starts to where its checkpoint stands |
| `LocalExecution.ChainSettlesOnceInOrder` | scripts/orion_local_worker_execution.py:354-379 | over any chain of pauses and resumes, with any successes, failures and interrupts, the settled operations are consecutive, none skipped or repeated; a completed chain has settled the whole plan |
| `LocalExecution.ChainIsPaced` | scripts/orion_local_worker_execution.py:2541-2592 | across a whole chain an operation is entered again only at its own index right after it was suspended, and the next only right after this one is settled |
| `LocalExecution.PacedMeansOnce` | scripts/orion_local_worker_execution.py:2541-2592 | in such a history nothing about an operation follows its settling, and two starts of one body have a suspension between them |
| `LocalExecution.BodyNeedsClearReading` | scripts/orion_local_worker_execution.py:266-269 | in a session a body starts, acts or finishes only after a reading before it that reports neither interrupt nor pause, with `continue_on_error` on or off |
| `InterruptedExecution.MarksAreTrue` | scripts/orion_local_worker_execution.py:2308-2375 | the marks of a chain, readings and starts in the order in which they happen, have exactly the starts of its log |
| `InterruptedExecution.TurnReadsExactly` | scripts/orion_local_worker_execution.py:2355-2485 | which readings a turn takes: one before the operation, and in a body that starts one more of a guarded tool or those of the browser loop |
| `InterruptedExecution.BrowseReadsExactly` | scripts/orion_local_worker_execution.py:865-926 | the browser loop takes exactly the readings of the actions that it comes to, in order |
| `InterruptedExecution.InterruptStopsBodies` | scripts/orion_local_worker_execution.py:2308-2375 | from the first reading, before, inside or between actions of an operation, that reports an interrupt, while later ones do, no body starts over a whole chain |
| `InterruptedExecution.HardKillStopsTheWorker` | scripts/orion_local_worker.py:586-602 | from a handled hard kill until it is lifted, no body of any session starts whose reading is taken in that time, and the active process has a kill pending, was killed, has exited or could not be killed |
| `LocalExecution.SessionActs` | scripts/orion_local_worker_execution.py:807-958 | one session performs a consecutive range of the browser actions and saves where it ended |
| `LocalExecution.ChainActsOnceInOrder` | scripts/orion_local_worker_execution.py:807-958 | for plans with one capture_page operation, over any chain its actions are performed consecutively, each once, and all of them if it finishes |
| `LocalExecution.NothingBehindHumanPause` | scripts/orion_local_worker_execution.py:865-926 | no chain performs a human pause or anything behind it |
| `ResumeChains.ChainUnfolds` | scripts/orion_local_worker_execution.py:2308-2375 | a chain of sessions, turn by turn |
| `ResumeChains.FinishesExactly` | scripts/orion_local_worker_execution.py:2541-2592 | for every plan, some chain finishes an operation if and only if the plan lets a chain come to it with a checkpoint behind which it has no human pause |
| `ResumeChains.HumanPauseIsNeverPassed` | scripts/orion_local_worker_execution.py:865-926 | with one browser operation, some chain finishes it if and only if no human pause stands at or behind the checkpoint and no unsupported operation before it, unless errors are passed over |
| `ResumeChains.HumanPageIsNeverFinished` | scripts/orion_local_worker_execution.py:865-926 | a page with a human pause between two actions is finished by no chain |
| `LocalExecution.FinishedBrowserOpPerforms` | server_modules/browser_checkpoint_service.py:36-55 | a turn that finishes a browser operation performed its whole list if and only if the attached checkpoint is 0 or the list is empty |
| `ResumeChains.SkipsExactly` | server_modules/browser_checkpoint_service.py:36-55 | for every plan, some chain finishes a browser operation without its whole list if and only if the plan lets a chain come to it, non-empty, with a checkpoint above 0 behind which it has no human pause |
| `ResumeChains.SecondPageIsSkipped` | scripts/orion_local_worker_execution.py:2360-2371 | two pages, paused in the first and resumed: the second is finished without its action |
| `FileLock.NextKeepsInv` | scripts/orion_local_worker_execution.py:1611-1713 | every system call, timeout, error and crash keeps mutual exclusion, the history of changes and the file that goes with it |
| `FileLock.AtMostOneInside` | scripts/orion_local_worker_execution.py:1611-1666 | in every interleaving at most one process is between lock and unlock |
| `FileLock.WaiterReleasesNothing` | scripts/orion_local_worker_execution.py:1642-1666 | over every run the lock stays with its holder whatever the other processes do, the `finally` block and the closing of the lock file after a timeout included |
| `FileLock.FlagIsTrue` | scripts/orion_local_worker_execution.py:1642-1666 | in the `finally` block the `acquired` flag is true exactly for the holder of the lock |
| `FileLock.FileIsHistory` | scripts/orion_local_worker_execution.py:1966-2003 | the file always is the committed changes applied in lock order to the initial file, plus a prefix of the text during an append; each change is the one its operation asked for and was admissible when it happened |
| `FileLock.ReportsAreTrue` | scripts/orion_local_worker_execution.py:1966-2003 | a reported success took effect as a whole exactly once; a reported error changed nothing, or was an append cut short |
| `FileOutcomes.ReportsExactly` | scripts/orion_local_worker_execution.py:1966-2003 | an operation that went through the lock reported success if and only if the file as earlier operations left it admitted the change and no error hit it |
| `FileOutcomes.CanGoThrough` | scripts/orion_local_worker_execution.py:1966-2003 | a process that finds the lock free can go through alone: it makes its change and reports success if the file admits it, and else changes nothing and reports failure |
| `FileLock.OneCreatePerDelete` | scripts/orion_local_worker_execution.py:1966-2003 | between a write and a later successful write without overwrite there is a delete |
| `FileLock.CrashedWriteIsOldOrNew` | scripts/orion_local_worker_execution.py:1688-1704 | a write that crashes anywhere inside the lock leaves the file as it found it or the new content |
| `CommandQueue.NextKeepsInv` | scripts/empyralis_self_hosted_command_worker.py:539-654 | every step of workers, network and queue keeps: each claimed command is in one place, executions are allowed and single, success is only claimed for real completions |
| `CommandQueue.ExecutedAtMostOnceAfterGovernance` | scripts/empyralis_self_hosted_command_worker.py:539-654 | with lost or late requests and responses, retries and crashes, each command is executed at most once and only after governance allowed it |
| `CommandQueue.CompletedIsReal` | scripts/mock_empyralis_cloud.py:177-205 | the queue shows completed only for a command whose execution ended as completed |
| `QueueHistory.QueueExactly` | scripts/mock_empyralis_cloud.py:148-205 | after every run the queue has the commands put in; one is pending until a claim gets it, claimed until a report on it is delivered, and then completed or failed if and only if the last delivered report says so |
| `QueueHistory.TakesOldest` | scripts/mock_empyralis_cloud.py:149-175 | a claim gets the first pending commands, all of them or as many as it asks for |
| `QueueAcks.AcknowledgedIsFinal` | scripts/empyralis_self_hosted_command_worker.py:600-654 | once a worker has read the answer to its first report on a command, the queue shows that result in every continuation |
| `QueueHistory.RunKeepsAttempts` | scripts/empyralis_self_hosted_command_worker.py:121-132 | no worker goes beyond the retry limit |
| `CommandQueue.LostForever` | scripts/mock_empyralis_cloud.py:148-175 | a claimed, unexecuted command that no worker has or waits for is never executed and never pending again, in every continuation |
| `CommandQueue.ExecutableExactlyInReach` | scripts/empyralis_self_hosted_command_worker.py:628-654 | after every run, some continuation executes a claimed, unexecuted command if and only if a worker has it or waits for the response that brings it |
| `CommandQueue.LostWithResponse` | scripts/mock_empyralis_cloud.py:148-175 | a run in which a command is lost with the response to a claim |
| `CommandQueue.LostInCrash` | scripts/empyralis_self_hosted_command_worker.py:628-654 | a run in which a command is lost in a crash after the claim was read |
| `CommandQueue.FailedShowsExactly` | scripts/empyralis_self_hosted_command_worker.py:628-654 | after every run, some continuation shows an executed command as failed if and only if a failure of it is shown, under way, or can still be reported by the worker that reports on it |
| `CommandQueue.LostReportShowsFailed` | scripts/empyralis_self_hosted_command_worker.py:628-654 | a run in which the report of a completed execution is lost and the queue shows the command as failed |
| `QueueHistory.CompletedShowsExactly` | scripts/empyralis_self_hosted_command_worker.py:628-654 | after every run, some continuation shows an executed command as completed if and only if its success is shown, under way, or can still be reported |
| `CommandWorker.Retry` | scripts/empyralis_self_hosted_command_worker.py:121-132 | stops at the first success; an all-failing retry makes exactly `attempts` requests and sleeps backoff * (2^(attempts-1) - 1) |
| `CommandWorker.SleptIsSum` | scripts/empyralis_self_hosted_command_worker.py:121-132 | the pauses double, starting with the backoff |
| `CommandWorker.GateFailsClosed` | scripts/empyralis_self_hosted_command_worker.py:161-256 | the gate permits if and only if the kernel ran, exited with 0 and answered ok true with a decision other than block |
| `CommandWorker.ExecutesExactly` | scripts/empyralis_self_hosted_command_worker.py:539-626 | a command is executed if and only if it carries an id and a capability and the kernel permits it |
| `CommandWorker.SelfHostedCommandWorker.ProcessCommand` | scripts/empyralis_self_hosted_command_worker.py:539-626 | executes only permitted commands, reports success only for completed executions, raises at most one counter |
| `CommandWorker.SelfHostedCommandWorker.PollCycle` | scripts/empyralis_self_hosted_command_worker.py:628-654 | each well-formed command raises exactly one of the two counters exactly once and is reported on once, and once more as failed, under its `id` field or "unknown", if that throws |
| `CommandWorker.PollsAddUp` | scripts/empyralis_self_hosted_command_worker.py:628-654 | one poll of two lists of commands executes, reports and counts what two polls do |
| `CommandWorker.SecondReportReaches` | scripts/empyralis_self_hosted_command_worker.py:628-654 | the second report is about the command itself if and only if its `id` field holds the id, stripped, or its id is "unknown" |
| `CommandWorker.SecondReportGoesAstray` | scripts/empyralis_self_hosted_command_worker.py:628-654 | a command with only a `command_id` is processed under that id and reported on as "unknown" |
| `CommandWorker.SelectPending` | scripts/mock_empyralis_cloud.py:149-175 | the oldest pending commands, at most the maximum |
| `CommandWorker.CommandStore.ClaimCommands` | scripts/mock_empyralis_cloud.py:149-175 | exactly the commands handed out are marked as claimed |
| `CommandWorker.CommandStore.CompleteCommand` | scripts/mock_empyralis_cloud.py:178-205 | an unknown command changes nothing; a known one takes the reported state |
| `CommandWorker.HandleRequest` | scripts/mock_empyralis_cloud.py:149-205 | handling a request on the queue object is the step of the protocol: same state, same reply |
| `Migration.Migrator.MigrateRow` | scripts/migrate_sqlite_to_pg.py:249-309 | one row, in both modes, changes database, cache and counters as `StepRow` says |
| `Migration.Migrator.RunAll` | scripts/migrate_sqlite_to_pg.py:350-354 | the loop over the tables in migration order |
| `Migration.StepRowMeans` | scripts/migrate_sqlite_to_pg.py:249-309 | a row passes if and only if all required parents are known; the row inserted has exactly its unknown optional references dropped; seeding changes nothing that is known |
| `Migration.RowsAreCountedOnce` | scripts/migrate_sqlite_to_pg.py:249-309 | every row raises exactly one counter by one, the one for what it meets: an unknown required parent, a known id, a rejection, or none of these |
| `Migration.ApplyKeepsIntegrity` | scripts/migrate_sqlite_to_pg.py:212-309 | whatever Postgres rejects: no existing row changes, exactly the copied rows are added, their required parents exist and their optional references are null or exist |
| `Migration.CopiesAreWhole` | scripts/migrate_sqlite_to_pg.py:262-300 | every row that an apply run adds is the copy of a source row of its table: the same id and data, each reference as it was or NULL in an optional column |
| `Migration.CountsAreRows` | scripts/migrate_sqlite_to_pg.py:249-309 | the counter of copied rows is the number of rows added, in a dry run the counter of reported rows that of rows reported |
| `Migration.DryRunSimulates` | scripts/migrate_sqlite_to_pg.py:212-231 | a dry run writes nothing, and whatever an apply run copies it reported as would_copy |
| `Migration.DryRunIsExact` | scripts/migrate_sqlite_to_pg.py:249-309 | the two sets are equal when the migrated tables start empty and nothing is rejected |
| `MigrationRerun.SecondApplyChangesNothing` | scripts/migrate_sqlite_to_pg.py:350-354 | with stable rejections, also ones that depend on what Postgres holds, a second apply run copies nothing and leaves the database as it is |
| `MigrationRerun.UniqueIndexIsStable` | scripts/migrate_sqlite_to_pg.py:287-300 | unique indexes, any number on each table, together with constraints on the row itself, reject stably |
| `Migration.ControlPlaneIsWellOrdered` | scripts/migrate_sqlite_to_pg.py:65-160 | the tables and their order meet what the other results ask for: each once, parents first, disjoint columns |
| `Migration.SeedingGap` | scripts/migrate_sqlite_to_pg.py:224-231 | a parent only in Postgres is unknown to an apply run once its table's cache was created by `remember` |
| `MigrationGap.ApplyKnows` | scripts/migrate_sqlite_to_pg.py:212-231 | without rejections, what an apply run knows and copies after each table, from the two databases alone |
| `MigrationGap.DryRunIsExactWithoutGap` | scripts/migrate_sqlite_to_pg.py:212-231 | without rejections, the dry run is exact if and only if no reported row has a required parent that Postgres has, while its table has passing source rows and it is not among them |
| `MigrationGap.OptionalDroppedExactly` | scripts/migrate_sqlite_to_pg.py:262-270 | without rejections, an optional reference of a copied row whose target Postgres has is dropped if and only if the target's table has passing source rows and it is not among them; the dry run knows the target |
| `MigrationGap.ProfileIsDropped` | scripts/migrate_sqlite_to_pg.py:262-270 | an install whose profile is in Postgres is copied without it, because another profile was migrated before |
| `AuthMigration.AuthMigrator.MigrateTable` | scripts/migrate_auth_store_to_pg.py:128-189 | the row loop changes database, session ids and counters as `MoveRows` says |
| `AuthMigration.AuthMigrator.Run` | scripts/migrate_auth_store_to_pg.py:209-223 | the loop over the tables, starting with the session ids that Postgres has |
| `AuthMigration.EveryTableIsCounted` | scripts/migrate_auth_store_to_pg.py:118-189 | in both modes each table's counters add up to its rows |
| `AuthMigration.ApplyKeepsIntegrity` | scripts/migrate_auth_store_to_pg.py:149-189 | no row that was there changes, and every row added is unexpired, belongs to a user in Postgres and, where asked, to a session in Postgres |
| `AuthMigration.AppliedExactly` | scripts/migrate_auth_store_to_pg.py:128-189 | without rejections each table of the program's list ends with the rows it had and exactly the source rows with other ids that fit, as they are in the source |
| `AuthMigration.CountsMean` | scripts/migrate_auth_store_to_pg.py:149-189 | the copied counter is the number of rows added, the expired counter that of expired rows, and nothing is counted as rejected unless Postgres rejects |
| `AuthMigration.CopiedTokensAreLive` | scripts/migrate_auth_store_to_pg.py:70-115 | every refresh token that the program's own table list adds is unexpired and its user and session exist |
| `AuthMigration.DryRunReports` | scripts/migrate_auth_store_to_pg.py:149-189 | table by table would_copy is never less than copied + skipped_exists, whatever is rejected; it is equal if and only if no row of the table is rejected and no further parent is missing, and so if nothing is rejected up to there |
| `AuthMigration.DryRunWritesNothing` | scripts/migrate_auth_store_to_pg.py:168-175 | a dry run leaves Postgres as it is |
| `AuthMigration.SecondApplyChangesNothing` | scripts/migrate_auth_store_to_pg.py:209-223 | with stable rejections a second apply run, at the same time or later, copies nothing |
| `AuthMigration.UniqueIndexIsStable` | scripts/migrate_auth_store_to_pg.py:176-181 | unique indexes, any number on each table, together with constraints on the row itself, reject stably |
| `Watchdog.WatchdogState.Prune` | scripts/orion_ops_daemon.py:486-494 | keeps exactly the timestamps of the last hour, in order |
| `Watchdog.WatchdogState.RecordRecovery` | scripts/orion_ops_daemon.py:497-509 | the whole new state after a recovery |
| `Watchdog.WatchdogState.Loop` | scripts/orion_ops_daemon.py:512-546 | the polling loop computes `Run`, with the history of all recoveries |
| `Watchdog.TimestampsAreLastHour` | scripts/orion_ops_daemon.py:486-494 | after every poll the stored list is the full history filtered to the last hour |
| `Watchdog.CooldownHolds` | scripts/orion_ops_daemon.py:497-509 | successive recoveries are at least the cooldown apart, and the i-th and j-th at least j - i cooldowns |
| `Watchdog.RecoveryNeedsFailures` | scripts/orion_ops_daemon.py:512-546 | a recovery follows only at least threshold failing probes in a row |
| `WatchdogRuns.RecoversExactly` | scripts/orion_ops_daemon.py:512-546 | a poll makes a recovery if and only if it is due: enough failing polls in a row without a successful recovery, the cool-down over, fewer recoveries in the last hour than the maximum |
| `Watchdog.HourHoldsAtMost` | scripts/orion_ops_daemon.py:512-546 | any closed window of 3600 seconds holds at most the hourly maximum |
| `Watchdog.RateLimitHolds` | scripts/orion_ops_daemon.py:512-546 | in every run, any T seconds hold at most max * (T / 3600 + 1) recoveries |
| `Cookies.UpsertCookieHeader` | frontend/proxy.ts:92-106 | the loop that fills the map and the join compute `Upsert` |
| `Cookies.ParsedHeaderIsOk` | frontend/proxy.ts:92-101 | whatever the header, the cookies read have distinct names and can be carried by a header |
| `Cookies.PartMeans` | frontend/proxy.ts:92-101 | a part of a header reads as a cookie if and only if it is the name, '=' and the value with white space around them |
| `Cookies.HeaderMeans` | frontend/proxy.ts:92-101 | reading a header gives each name the value of the last part that reads as a cookie of that name |
| `Cookies.PrintThenParse` | frontend/proxy.ts:92-106 | writing a map of carryable cookies and reading it gives the same map, order included |
| `Cookies.UpsertMeansSet` | frontend/proxy.ts:92-106 | reading an upserted header gives the old map with just that name set if and only if name and value can be carried |
| `Cookies.SetIsUpdate` | frontend/proxy.ts:92-106 | setting gives the name its value, changes no other name, keeps first-seen order |
| `Cookies.SetCookieIsOk` | frontend/proxy.ts:80-90 | whatever a set-cookie header holds, the cookie read from it can be carried |
| `Cookies.SetCookieMeans` | frontend/proxy.ts:80-90 | a set-cookie header gives a name and value if and only if the text before its first ';' is the name, '=' and the value, with white space around them and behind the name |
| `Cookies.ApplySetCookies` | frontend/proxy.ts:238-246 | for every header and list, reading the result gives the old map updated by all readable set-cookie headers in order |
| `Cookies.SetAllMeans` | frontend/proxy.ts:238-246 | folding updates gives each name its last value, leaves all others, and keeps the old order in front |
| `FieldRuns.SplitPrimaryAndAdvanced` | scripts/generate_openclaw_channel_manifest.py:948-968 | the run-splitting loop returns exactly the fields for which some non-gated credential of the form has no closing field in between |
| `FieldRuns.CredentialFields` | scripts/generate_openclaw_channel_manifest.py:789-872 | every form field exactly once and none invented, each with its mark, in form order; nothing for a channel without a pasted credential; the path fields folded in |
| `FieldRuns.PrimaryFieldsComeFirst` | scripts/generate_openclaw_channel_manifest.py:871-872 | a sorted form lists all fields to fill in, then all advanced ones |
| `FieldRuns.GatedIsAdvanced` | scripts/generate_openclaw_channel_manifest.py:948-955 | every mode-gated secret of a form is advanced |
| `FieldRuns.TransparentFieldChangesNothing` | scripts/generate_openclaw_channel_manifest.py:951-966 | a field that is not in the form and closes no run separates nothing: declaring it anywhere leaves the same fields primary |
| `FieldRuns.CredentialIsPrimary` | scripts/generate_openclaw_channel_manifest.py:926-938 | a form field that is a credential and not gated is always primary |
| `FieldKinds.PathsMean` | scripts/generate_openclaw_channel_manifest.py:280 | a path field is one whose name ends in File, Path, Dir or Roots, up to a final line feed |
| `FieldKinds.VariantsMean` | scripts/generate_openclaw_channel_manifest.py:924-938 | a field has a file variant if and only if a non-empty end of its name, case aside, with `File` behind is a field |
| `FieldKinds.ChannelsMean` | scripts/generate_openclaw_channel_manifest.py:816-852 | a channel takes a pasted credential if and only if it has a secret or a field named with `File`; the folded path fields are those of form fields |
| `ContentPlan.KeyOfSuffix` | scripts/orion_local_worker_content.py:6-7 | a word put after a text is put after its normalized key |
| `ContentPlan.KeyIsGood` | scripts/orion_local_worker_content.py:6-7 | no two texts that one repair loop tries have the same key |
| `ContentPlan.Repair` | scripts/orion_local_worker_content.py:73-83 | the repair loops end, with the first text tried whose key is not used |
| `ContentPlan.RepairCta` | scripts/orion_local_worker_content.py:85-107 | the call to action: own text, cycle position, first free one round the cycle, first free numbered default |
| `ContentPlan.BuildCtaCycle` | scripts/orion_local_worker_content.py:27-42 | the cycle: non-blank candidates that read differently from those before |
| `ContentPlan.CtaCycleIsNotEmpty` | scripts/orion_local_worker_content.py:27-42 | the cycle is never empty, whatever the default |
| `ContentPlan.ApplyContentPlanVariation` | scripts/orion_local_worker_content.py:10-145 | for every input at most seven posts, one per item, with pairwise different topic, headline and call-to-action keys; each post is what the rules make of its item after the posts before it |
| `ContentPlan.NormalizeContentPlanItems` | scripts/orion_local_worker_content.py:148-186 | the same for whatever was written, with one post per record among the first seven entries, or per seed topic if there is none |
| `ContentRules.OwnTextsAreKept` | scripts/orion_local_worker_content.py:50-130 | over every plan: topic, headline, call to action and day of an item are kept if no earlier post reads like them, the format if the post before has another, channel and status always |
| `ContentRules.BlanksAreFilled` | scripts/orion_local_worker_content.py:50-145 | blanks are filled by position from weekdays, formats, seeds, cycle and templates; a repeated format or day is replaced by position |
| `ContentRules.TakenCtaMovesOn` | scripts/orion_local_worker_content.py:85-98 | a call to action that is taken is replaced by the next free entry of the cycle |
| `ContentRules.CycleMeans` | scripts/orion_local_worker_content.py:27-42 | the cycle has exactly the readings of the candidates that are not blank, each once, the default in front |
| `ContentRules.RecordIsFilled` | scripts/orion_local_worker_content.py:153-170 | a record that was written keeps its texts, stripped; its blanks get the defaults of its position |
| `ContentDays.DaysDifferExactly` | scripts/orion_local_worker_content.py:53-58 | the days of a plan all read differently if and only if, judged by the items alone, no item that cannot have its own day finds its weekday taken |
| `ContentDays.WeekdayTakenExactly` | scripts/orion_local_worker_content.py:53-58 | up to its own position a weekday is taken if and only if an earlier item asks for it by name |
| `ContentDays.PlannedDaysDifferExactly` | scripts/orion_local_worker_content.py:53-58 | for the planner's key and its at most seven posts: days repeat if and only if some item without a free day of its own has the weekday of its position asked for by an earlier item |
| `ContentDays.TuesdayTwice` | scripts/orion_local_worker_content.py:53-58 | the plan of two items that ask for Tuesday has Tuesday twice |
| `CsvTable.Spreadsheet.CreateFile` | scripts/orion_local_worker_spreadsheets.py:246-260 | create: answer and new file |
| `CsvTable.Spreadsheet.AppendRows` | scripts/orion_local_worker_spreadsheets.py:261-290 | append: answer and new file |
| `CsvTable.Spreadsheet.UpdateRow` | scripts/orion_local_worker_spreadsheets.py:291-317 | update: answer and new file |
| `CsvTable.WriteThenRead` | scripts/orion_local_worker_spreadsheets.py:91-103 | a line that was written reads back as its row, completed, whatever the columns |
| `CsvTable.SortedKeysMean` | scripts/orion_local_worker_spreadsheets.py:249-250 | new columns are exactly the payload's keys, ascending and without repetition |
| `CsvTable.CommandMeans` | scripts/orion_local_worker_spreadsheets.py:241-317 | on every file with stripped, non-empty column names, empty, short and overlong lines included, a command with such keys gives the same answer and the same table as on the abstract table, and the names stay proper |
| `CsvTable.CommandsMean` | scripts/orion_local_worker_spreadsheets.py:241-317 | the same for any sequence of commands |
| `CsvRules.AnswersExactly` | scripts/orion_local_worker_spreadsheets.py:241-317 | which commands are accepted, for which reason the others are refused, and what the answer counts |
| `CsvRules.CreatedTable` | scripts/orion_local_worker_spreadsheets.py:246-260 | the created table has the payload's keys ascending as columns, or `value`, and in each row the payload's last values, other cells empty |
| `CsvRules.AppendedTable` | scripts/orion_local_worker_spreadsheets.py:261-290 | the appended rows follow the old ones under the old columns, or new ones if there are none, with the payload's last values |
| `CsvTable.AppendKeepsTable` | scripts/orion_local_worker_spreadsheets.py:261-290 | append keeps the columns, keeps each old row if and only if it has exactly the columns, and adds one completed row per payload row |
| `CsvTable.AppendKeepsLines` | scripts/orion_local_worker_spreadsheets.py:261-290 | on a file, the row of an old line is kept if and only if the line is not overlong or a column is named `None` |
| `CsvTable.UpdateTouchesOneRow` | scripts/orion_local_worker_spreadsheets.py:291-317 | update keeps the columns in front, gives one row its new values, and changes no old cell of any other row |
| `CsvTable.RejectedChangesNothing` | scripts/orion_local_worker_spreadsheets.py:241-317 | a sequence of commands has the effect of those that are accepted, and these are all accepted when they come alone |
| `CsvTable.AppendKeepsHeader` | scripts/orion_local_worker_spreadsheets.py:261-290 | an append keeps a header with columns if and only if all its names are stripped and non-empty |
| `CsvTable.AppendKeepsCell` | scripts/orion_local_worker_spreadsheets.py:261-290 | whatever the header, an old cell is found under its name after an append, with its old text, if and only if the name is stripped and non-empty |
| `CsvTable.UpdateKeepsCell` | scripts/orion_local_worker_spreadsheets.py:291-317 | the same for an update, where a name that the update gives a value also survives; only the updated row has new text |
| `CsvTable.SpaceLosesCells` | scripts/orion_local_worker_spreadsheets.py:261-290 | a header with a leading space loses its column's cells at the next append |

## Left out

- Text.Lower: lower-cases the ASCII letters only; other scripts' case mappings are not modelled.
- ControlStream.IterControlEvents: works on decoded text; UTF-8 decoding and the JSON decoding of payloads are not
  modelled.
- ControlListener.Listen: does not model the pauses between reconnects, nor the stop flag, which ends the sequence of
  connections at any point; connections that end inside an event are modelled in ControlDelivery.
- ControlDelivery.ReceiveIsParse: what `json.loads` makes of a text is a parameter.
- FragmentEffects.DeliveredInterruptExactly: follows the steps that the listener makes; requests and clears from the
  execution thread in between are covered by Interrupts only.
- CommandQueue.FailedShowsExactly: commands carry their id in the `id` field, so that both reports are about them.
- FileLock.NextKeepsInv: models the POSIX lock only; the fallback with an exclusively created lock file for platforms
  without `fcntl`, parent directory creation and durability after power loss are not modelled.
- LocalExecution.ChainActsOnceInOrder: is stated for plans with one capture_page operation, because the checkpoint of
  one browser operation is attached to all of them.
- LocalExecution.BuildLocalExecutionPackResult: screenshots, artifacts, progress events and summaries of an operation
  are not part of its outcome here.
- Migration.Migrator.MigrateRow: values that `_convert` cannot convert abort the script and are not modelled; tables are
  maps from ids to rows, and a rejection is a predicate of database, table and row.
- MigrationGap.DryRunIsExactWithoutGap: is stated for source tables whose ids are distinct, as their primary keys are.
- AuthMigration.AuthMigrator.MigrateTable: rows carry the checked columns and the rest as text; an `expires_at` that is
  not a number aborts the script and is not modelled.
- CsvTable.Spreadsheet.AppendRows: files are lists of records; quoting, line ends and the encoding of the CSV text are
  not modelled, and how an overlong line's extra cells are written is a parameter. The preview in the answer is left out.
- ContentPlan.ApplyContentPlanVariation: item fields are strings; values of other types, which the source turns into
  strings first, are not modelled.
- FieldRuns.CredentialFields: the schema node is reduced to what the functions ask of it; recognising a secret reference
  inside a JSON schema node is not modelled, and the folded path fields are a set rather than a sorted list.
- Runtime registration, heartbeats and session persistence of the local worker, over HTTP and files.
- The browser engine, screenshots, computer control, subprocess output and telemetry.
- Shell pattern tables and protected paths of the command worker.
- The XLSX branches of the spreadsheet pack.
- The streaming body of the Anthropic proxy, of which only the event printer is modelled.
- The plugin partition check and the network readers of the manifest generator, the workflow-version report of the
  migration, and the remaining backfill, smoke and launcher scripts.
