# Leftovers: a verified model of its control plane

Leftovers admits agent runs against a token budget, drives each through planning, implementation,
verification and review, and may publish one draft pull request. This project models the parts in
which the hard promises live and proves them for all inputs, all interleavings or all runs:

- `ControllerRun`, `Containers`: the leased part of a controller cycle, with its repair loop, handlers
  and `finally` block, against an environment that may rewrite the workspace or raise at every step.
  What was seen and done is kept in a ghost log, and approval provenance is a statement about that log.
- `Publications`, `Budgets`: the two SQLite ledgers, one atomic step per `BEGIN IMMEDIATE` block, under
  every interleaving of controllers and every clock. `BudgetWindows`, `Deadlines`, `Workspaces`: the
  reset calendar, the deadline chain and the reaper that depend on them. `Calendar`, `Timestamps`: the
  text forms of instants that the SQL compares.
- `TelemetryStore`, `TelemetryInvariant`, `TelemetryHistory`: the five telemetry tables, the global
  invariant of every reachable state, and what no call can undo. `TelemetryWriters`: the writer object,
  whose methods are proved to be exactly the steps of the store. `TelemetryEffects`: what each call
  stores, field by field. `TelemetrySummary`, `TelemetryIsolation`, `TelemetryReports`: the reader's
  aggregates, whose rows they see, and what each field of a summary says.
- `AdapterTelemetry`: the incremental NDJSON monitor against a one-shot reading of the finished file.
- `Publisher`: publication over a remote on which a mutation may take effect and still report failure.
- `Json`, `Prompts`, `Journals`, `JsonLimits`: `json.dumps` and `json.loads`, the prompt envelopes, the
  hash-chained journal with its verifier, and the complexity visitor.
- `Drains`: the three bounded readers of child output.

Objects that the program updates in place are classes whose methods are tied to functions on their old
and new contents; the theorems are then about those functions. The environment is nondeterministic: a
clock, Git, a container runtime, an agent or GitHub may answer anything that its contract allows, and
concurrent use of a ledger is a sequence of steps in any order.

Six expectations turn out false of the code. Each has an input that shows it and the exact condition
under which the code does meet it:

- the `Z` text form misorders instants within one second, one of which is a whole second
  (`ZuluTextOrderFailure`, `ZuluTextMisorders`);
- the safety margin before the reset can be missed by the time that passes between clock reads: it is met
  iff the gaps fit in what truncation and the limits leave unused (`MarginExactlyWithinSlack`,
  `MarginCanBeMissed`), and always when the admission had that much to spare (`SpareMeetsMargin`);
- a reservation can stop protecting its workspace earlier than 6900 seconds past deadline and margin: it
  lasts so long iff the deadline was not set too late (`LiveForTheWholeGrace`, `GraceCanFallShort`);
- a doubtful publication is reported as `PUBLISH_PARTIAL` iff the audit append of the handler succeeded
  (`PartialIffAppended`, `PartialCanBeLost`);
- a pull request that is returned can be closed: it is open unless the last view showed it closed, which
  needs someone else to close it meanwhile (`GhPublisher.Publish`, `ClosedPullRequestIsReturned`);
- a finished telemetry run can still gain events: exactly through accepted and novel calls about its
  invocations and projections (`EventsOfTerminalRun`, `EventAfterFinish`).

Where the documentation says something else, the model follows the code: `docs/GITHUB_INTEGRATION.md:72`
has any publisher exception reported as `publish_partial`, but an OSError of the handler's own audit
append replaces that code; `docs/TELEMETRY.md:19-20` calls known usage the sum of accepted receipts, but
only exact and final ones are summed; and `docs/TELEMETRY.md:33-36` lists the usage receipt after the
heartbeats, but heartbeats are also accepted after it.

## Model

| member | source | states |
|---|---|---|
| RunModels.StageReads | src/leftovers/models.py:17-39 | a stored stage reads back as itself: no two stages share a text |
| Timestamps.IsoTextOrder | src/leftovers/state.py:58-71 | comparing two stored ledger timestamps as text is comparing the instants, in all of years 1 to 9999 and with the fraction printed or omitted |
| Timestamps.MicrosTextOrder | src/leftovers/telemetry.py:171-185 | the telemetry store's fixed-width text orders and identifies instants |
| Timestamps.ZuluTextOrderFailure | src/leftovers/models.py:13-14 | the `Z` form orders two instants correctly iff they are not distinct instants of one second of which one is the whole second |
| Timestamps.ZuluTextMisorders | src/leftovers/dashboard.py:232-236 | a concrete pair that the `Z` form misorders |
| Timestamps.TextsNameTheInstant | src/leftovers/state.py:58-71 | all three text forms name the date, the time of day and the fraction of the instant: read back as numbers, their fields add up to it |
| Calendar.DateOrder | src/leftovers/budget.py:23-33 | the civil calendar behind the keys: later days are later dates, both ways, over years 1 to 9999 |
| Calendar.DatesAreTheCalendar | src/leftovers/budget.py:23-33 | the dates are those of the civil calendar: day 0 is 1 January of year 1, each next day is the next date by month lengths and leap years, and every valid date occurs once |
| Calendar.DateTextReads | src/leftovers/budget.py:23-33 | the text of a date is its four-digit year, its month and its day |
| BudgetWindows.KeyNamesWindow | src/leftovers/budget.py:23-33 | two instants have one window key iff they have one window start |
| BudgetWindows.KeyReads | src/leftovers/budget.py:23-33 | a key is the word of its window kind and the civil date on which the window begins |
| BudgetWindows.WindowsAscend | src/leftovers/budget.py:23-69 | window starts never go back as time advances, and two instants share one iff the later precedes the reset of the earlier |
| BudgetWindows.WindowBounds | src/leftovers/budget.py:39-69 | every instant lies between the start of its window and its next reset, which is one day or one week after that start; both are at the reset hour, and a weekly window starts on the reset weekday |
| BudgetWindows.ResetIsLeastKeyChange | src/leftovers/budget.py:39-69 | the next reset is the least later instant whose key differs: the key is constant until it, and no later instant ever carries it again |
| Publications.CooldownMeansOlder | src/leftovers/state.py:44-75 | a slot is available iff the window is below its cap and every unreleased slot of the repository is more than the cooldown older, future-dated rows included; the cap is reported iff it is reached |
| Publications.CountIsCardinality | src/leftovers/state.py:48-53 | the count behind the cap is the number of the window's slots that are not released, no more and no fewer |
| Publications.ReserveExactly | src/leftovers/state.py:94-128 | a reservation adds the slot as requested iff the run is new, the window below its cap and the cooldown over; otherwise it adds nothing |
| Publications.PublicationLedger.AssertAvailable | src/leftovers/state.py:44-75 | the two queries decide availability as the specification does, with the same error |
| Publications.PublicationLedger.Reserve | src/leftovers/state.py:94-128 | one atomic reservation: the new table, when it succeeds, and that a known run id changes nothing |
| Publications.PublicationLedger.Finish | src/leftovers/state.py:130-135 | finishing rewrites the status and URL of the run's slot only |
| Publications.RunKeepsInv | src/leftovers/state.py:94-128 | in every reachable state the caps and the spacing hold and every granted run holds its slot |
| Publications.GrantsExactly | src/leftovers/orchestrator.py:1169-1197 | who is granted and who publishes after a step: a first reservation grants exactly what was available or already held, and only a granted run publishes |
| Publications.PublishesNeverExceedCap | src/leftovers/orchestrator.py:1169-1197 | over every interleaving and every clock, the runs that publish in one window number at most the cap |
| Publications.SpacedCount | src/leftovers/state.py:58-75 | n slots of one repository in an interval span at least n - 1 gaps longer than the cooldown |
| Publications.CooldownBoundsRate | src/leftovers/state.py:44-128 | in every reachable state, two slots of a repository are more than the cooldown apart, and an interval holds at most one plus its length over the gap |
| Budgets.TakeSnapshot | src/leftovers/budget.py:93-114 | a snapshot's spendable tokens are never negative and never above the maximum less the reserve |
| Budgets.SnapshotExactly | src/leftovers/budget.py:71-114 | when a snapshot is refused and with which error, and that what it can spend is what remains above the reserve, null iff the remainder is unknown |
| Budgets.PrecheckExactly | src/leftovers/budget.py:226-249 | the four refusals before the transaction, each with its exact condition and in their order |
| Budgets.AdmissionExactly | src/leftovers/budget.py:250-290 | a new run is admitted iff it passed the checks and what is free covers the minimum and the estimate times the safety multiplier; its row holds that product rounded up |
| Budgets.AdmissionGrowsWindow | src/leftovers/budget.py:250-290 | an admission adds exactly the tokens of its own row to its own window and nothing to another |
| Budgets.GateMatchesLedger | src/leftovers/budget.py:116-140 | whatever the ledger admits had passed the gate, and what passes the gate is admitted at once in an empty window |
| Budgets.BudgetLedger.Reserve | src/leftovers/budget.py:226-290 | the new table, the exact error, and a receipt that names a stored row, with the remaining value for a new and for a repeated run id; a new receipt holds at least the estimate times the safety multiplier and the window's total grows by it; a repeated run id adds nothing |
| Budgets.BudgetLedger.Finish | src/leftovers/budget.py:292-297 | only the status of the run's row changes |
| Budgets.BudgetLedger.ActiveRunIds | src/leftovers/budget.py:192-224 | the loop collects exactly the run ids of live rows, malformed and future-dated ones included |
| Budgets.LiveExactly | src/leftovers/budget.py:192-224 | which rows are live: reserved ones only, malformed and future-dated ones always, the others up to the run limit, the margin and 7200 seconds |
| Budgets.StepConserves | src/leftovers/budget.py:226-297 | no step lowers a window's total, and one raises it only for a new run within its own snapshot |
| Budgets.LargestStep | src/leftovers/budget.py:226-290 | the bound of the next row follows the admissions to the window and nothing else |
| Budgets.TotalsConserved | src/leftovers/budget.py:226-297 | over every interleaving a window holds at most the largest spendable value admitted in it and never less than earlier |
| Budgets.TotalsWithinMaximum | src/leftovers/budget.py:93-103 | with a configured maximum, a window never holds more than the maximum less the reserve |
| Budgets.ReleasedWouldFree | src/leftovers/orchestrator.py:1297 | why the stage text matters: a status of `released` would free the run's tokens |
| Deadlines.CommandStopsBeforeMargin | src/leftovers/orchestrator.py:785-796 | no command outlives the safety margin by more than the gaps between clock reads |
| Deadlines.CommandStopsAt | src/leftovers/orchestrator.py:785-796 | where every command stops, to the microsecond, relative to the safety margin |
| Deadlines.DeferredExactly | src/leftovers/orchestrator.py:785-796 | a run is deferred iff less than a second is left before the margin; otherwise its deadline lies within the run limit |
| Deadlines.TimeoutExactly | src/leftovers/runner.py:334-340 | a command is refused iff less than a second is left; otherwise it gets its own limit or all the whole seconds that are left |
| Deadlines.MarginExactlyWithinSlack | src/leftovers/runner.py:334-340 | for every command, the margin is met iff those gaps fit in the truncated fractions and the seconds that the limits leave unused |
| Deadlines.MarginCanBeMissed | src/leftovers/runner.py:334-340 | an admitted run on a real window whose command ends after the margin |
| Deadlines.SpareMeetsMargin | src/leftovers/budget.py:244-249 | a guard at admission: enough time to spare meets the margin for every command of the run |
| Deadlines.CommandStaysInReservedWindow | src/leftovers/budget.py:236-249 | from admission to the end of a command every instant carries the reserved window key, iff the gaps stay below the margin, the fractions and the unused seconds together |
| Deadlines.LiveBeyondDeadline | src/leftovers/budget.py:192-224 | an admitted row is live exactly until the margin, 6900 seconds and the grace left after the run deadline; the grace is not negative if the deadline was set within 300 seconds of the snapshot |
| Deadlines.LiveForTheWholeGrace | src/leftovers/budget.py:192-224 | a row is live until the margin and 6900 seconds past the deadline iff the deadline is within the run limit and 300 seconds of the snapshot |
| Deadlines.GraceCanFallShort | src/leftovers/budget.py:192-224 | an admitted run for which it is not |
| Deadlines.ReapableYetCounted | src/leftovers/budget.py:181-224 | past its horizon a row protects nothing but still counts |
| Workspaces.WorkspaceRoot.ReapExpired | src/leftovers/workspace.py:142-178 | exactly the expired, unprotected, marked directories are removed; on an error, none but those |
| Workspaces.AdmittedRunIsNotReaped | src/leftovers/workspace.py:169-173 | given the live run ids, the reaper is entitled to an admitted run's old directory exactly after that instant |
| Containers.AgentRunner.RemoveContainer | src/leftovers/runner.py:980-1016 | true means that no container of the run and stage is left; only such containers were removed; false means that a call failed |
| Containers.AgentRunner.CleanupJob | src/leftovers/runner.py:1018-1034 | true means that no container of the run is left; only containers with its exact labels were removed; false means that a call failed or a container has no stage label |
| ControllerRun.Controller.Verify | src/leftovers/orchestrator.py:889-946 | a passed verification leaves a log that ends with one diff gated, passed by every configured command, and read unchanged on the base |
| ControllerRun.Controller.RepairLoop | src/leftovers/orchestrator.py:886-1106 | the loop terminates, and ends normally only after an approving review that was given the verified diff; it gives up on a failed round or a rejected patch only when the repair budget is used up or the review abandons |
| ControllerRun.Controller.ReachApproval | src/leftovers/orchestrator.py:798-1116 | what is approved was reviewed and then read equal once more, on the base commit |
| ControllerRun.Controller.UpstreamChecks | src/leftovers/orchestrator.py:1137-1184 | publication goes on only after the four fresh checks, in order |
| ControllerRun.Controller.Handle | src/leftovers/orchestrator.py:1210-1242 | for every stage and fault the handlers record what the handler function says, and the strike that it is about is possible |
| ControllerRun.Controller.Finalize | src/leftovers/orchestrator.py:1243-1297 | the directory goes only when no container is left, the stage and the first failure code are as the cleanup function says, the budget row gets the final stage, and an unproven cleanup has a cause |
| ControllerRun.Controller.RunCycle | src/leftovers/orchestrator.py:798-1297 | approval provenance and the order of the whole log, bounded invocations, a reason in the log for every abort, the record of a struck and of an undisturbed cycle, which calls the publisher iff draft publication is asked for |
| ControllerRun.Controller.Run | src/leftovers/orchestrator.py:567-605 | the outcome of every run, struck or not; COMPLETE means a bundle, both removals proven and no failure code; `PUBLISH_PARTIAL` iff a doubtful fault struck and its audit append succeeded; a slot is taken and the publisher called only if publication is asked for and possible, and without a fault iff draft publication is asked for |
| ControllerRun.BundleComesFromOneCycle | src/leftovers/orchestrator.py:888-1133 | behind every bundle stand in order its diff read, gated, a round of all configured tests passed, gated again, the approving review that was given it, and a last reading; between them nothing else was read or approved and no implementation agent ran |
| ControllerRun.PublishingIsAskedFor | src/leftovers/orchestrator.py:1135-1184 | in every ordered log, a slot decision or a publisher call implies publication and draft mode, no human approval and a GitHub source |
| ControllerRun.TestedIsRound | src/leftovers/orchestrator.py:889-946 | a tested diff, read and gated again on the base, is a passed round iff all configured tests passed, and a failed one otherwise |
| ControllerRun.PartialIffAppended | src/leftovers/orchestrator.py:586-604 | over every stage, fault, append and cleanup, the reported code is `PUBLISH_PARTIAL` iff the fault is doubtful and the append of its handler succeeded |
| ControllerRun.PartialCanBeLost | src/leftovers/orchestrator.py:1223-1242 | the publisher raises, the append fails, and the run reports FAILED with AGENT_FAILED |
| ControllerRun.ClassifyExactly | src/leftovers/orchestrator.py:1223-1242 | which exceptions get which failure code |
| ControllerRun.ReportedExactly | src/leftovers/orchestrator.py:586-604 | the stage and code that a caller gets after every strike: the fault's own, the failed append's, or none for an unnamed exception |
| ControllerRun.InvocationKeysDistinct | src/leftovers/orchestrator.py:379-392 | no two invocations of a run share a (stage, attempt) key, and attempts are bounded by the calls made |
| ControllerRun.BundleKeepsProvenance | src/leftovers/orchestrator.py:1110-1133 | a bundle on a log that is ready for approval keeps provenance |
| ControllerRun.PublishKeepsProvenance | src/leftovers/orchestrator.py:1135-1197 | so does a publisher call right after the bundle and the fresh checks |
| Publisher.GhPublisher.EnsureFork | src/leftovers/publisher.py:314-351 | the fork request directly follows a passed approval check, and success means that the fork is there |
| Publisher.GhPublisher.EnsureBranch | src/leftovers/publisher.py:639-693 | so does the push of what the workspace then has checked out; success means that the branch is at the commit or was just pushed; it never creates a pull request |
| Publisher.GhPublisher.CreateAndVerify | src/leftovers/publisher.py:729-814 | at most one creation, none after a match, and the URL that is returned names a draft with the approved head, base, title and body, open unless the view showed it closed |
| Publisher.GhPublisher.CommitApproved | src/leftovers/publisher.py:520-573 | the commit holds the approved patch and leaves the tree clean, and before it the workspace was seen at the approved base with the approved patch |
| Publisher.GhPublisher.Publish | src/leftovers/publisher.py:507-820 | every success names the approved draft, open unless the last view showed it closed; every mutation directly follows a check that saw the commit, the approved patch and a clean tree; none happens unless a first listing was below the cap, and none after a listing that held a match; at most one creation; no file remains but a helper whose preparation raised |
| Publisher.GuardedStep | src/leftovers/publisher.py:576-584 | one more remote call keeps the guard discipline of the whole log |
| Publisher.PreflightExactly | src/leftovers/publisher.py:586-630 | publication goes on iff the listing is proper, below the cap and without a pull request of the branch; one is returned iff it is the only one and as approved |
| Publisher.Matching | src/leftovers/publisher.py:608-613 | exactly the listed pull requests of the approved branch and account |
| Publisher.ReconciliationIgnoresState | src/leftovers/publisher.py:403-435 | reconciliation does not depend on the state of a pull request |
| Publisher.ClosedPullRequestIsReturned | src/leftovers/publisher.py:437-473 | for every target, a closed pull request that the read-back returns |
| Publisher.GhPublisher.AuthenticatedGitEnv | src/leftovers/publisher.py:489-505 | a helper is left without a name exactly when its preparation raises after the file is there |
| AdapterTelemetry.SplitGluesBack | src/leftovers/runner.py:282-283 | the complete lines with their line feeds and the last fragment give back the bytes, and no piece holds a line feed |
| AdapterTelemetry.SplitIsUnique | src/leftovers/runner.py:282-283 | and no other division does both |
| AdapterTelemetry.SplitResumes | src/leftovers/runner.py:257-289 | splitting what follows after the kept fragment is splitting the whole |
| AdapterTelemetry.Monitor.ConsumeRaw | src/leftovers/runner.py:118-255 | one line advances the state as the specification says, or is refused, with its sequence number taken if it was the next one |
| AdapterTelemetry.LineExactly | src/leftovers/runner.py:118-130 | a line is taken iff it has 1 to 4096 bytes, decodes and fits; a refused one changes nothing but the sequence number, and that only if it was the next one |
| AdapterTelemetry.Monitor.Poll | src/leftovers/runner.py:257-304 | one poll of a changed file is one step of the stream, the first refused line and the final fragment included |
| AdapterTelemetry.ReadAcceptedExactly | src/leftovers/runner.py:257-289 | a poll goes on iff the file is regular, the one seen before, not shrunk and not too large, and its lines are accepted |
| AdapterTelemetry.StreamingEqualsBatch | src/leftovers/runner.py:257-289 | however the file grew between polls, verdict, accepted lines and events are those of one pass over the finished file |
| AdapterTelemetry.ConsumeKeepsProtocol | src/leftovers/runner.py:118-255 | an event is taken iff it extends the protocol stream so far, and the progress still describes that stream |
| AdapterTelemetry.AcceptedExactlyProtocol | src/leftovers/runner.py:118-255 | the accepted line sequences are exactly those that decode to a protocol stream |
| AdapterTelemetry.FileAcceptedExactly | src/leftovers/runner.py:118-289 | the accepted files are exactly those whose lines do so and that hold the required check-in and receipt |
| Drains.DrainTail | src/leftovers/runner.py:407-415 | for every chunking the buffer ends as the last N bytes |
| Drains.DrainTailFlagged | src/leftovers/publisher.py:246-255 | the same, and the flag is set iff more than N bytes arrived |
| Drains.DrainHead | src/leftovers/policy.py:245-254 | the buffer is the first N + 1 bytes that were read, and the flag is set iff more than N were |
| TelemetryWriters.TelemetryWriter.AppendEvent | src/leftovers/telemetry.py:456-477 | the event table and the run's counter advance together |
| TelemetryWriters.TelemetryWriter.StartRun | src/leftovers/telemetry.py:479-549 | one step of the store, and the sequence that is returned is the run's last |
| TelemetryWriters.TelemetryWriter.RecordEvent | src/leftovers/telemetry.py:551-577 | one step of the store: never on a terminal run |
| TelemetryWriters.TelemetryWriter.TransitionRun | src/leftovers/telemetry.py:579-608 | one step of the store, which stores the new stage (`TransitionExactly`): no terminal stage, no terminal run |
| TelemetryWriters.TelemetryWriter.SetRunTarget | src/leftovers/telemetry.py:610-649 | one step of the store: a target, once bound in any part, is bound for good |
| TelemetryWriters.TelemetryWriter.SetCleanupStatus | src/leftovers/telemetry.py:651-683 | one step of the store |
| TelemetryWriters.TelemetryWriter.FinishRun | src/leftovers/telemetry.py:685-750 | one step of the store: a terminal outcome is only ever repeated |
| TelemetryWriters.TelemetryWriter.RecordBudgetProjection | src/leftovers/telemetry.py:752-917 | one step of the store; a window bound before a later check raises is rolled back |
| TelemetryWriters.TelemetryWriter.StartModelInvocation | src/leftovers/telemetry.py:919-1006 | one step of the store: both keys are checked |
| TelemetryWriters.TelemetryWriter.RecordModelCheckin | src/leftovers/telemetry.py:1008-1069 | one step of the store; first time or replay, the returned identity is the verdict on the observation and the stored one |
| TelemetryWriters.TelemetryWriter.HeartbeatModel | src/leftovers/telemetry.py:1071-1114 | one step of the store, and it returns true iff it emitted an event |
| TelemetryWriters.TelemetryWriter.RefreshUsageStatus | src/leftovers/telemetry.py:1191-1213 | the loop's flags give the status of the receipts, and nothing else changes |
| TelemetryWriters.TelemetryWriter.RecordModelUsage | src/leftovers/telemetry.py:1215-1302 | one step of the store, and the returned status is the stored one |
| TelemetryWriters.TelemetryWriter.FinishModelInvocation | src/leftovers/telemetry.py:1304-1355 | one step of the store, and the returned status is the stored one |
| TelemetryEffects.StartRunExactly | src/leftovers/telemetry.py:479-549 | when a start is accepted, and every field of the row and the event that a new one stores |
| TelemetryEffects.RecordEventExactly | src/leftovers/telemetry.py:551-577 | accepted iff the run is open; only an event is stored, under the override or the run's stage |
| TelemetryEffects.TransitionExactly | src/leftovers/telemetry.py:579-608 | accepted iff the run is open and the stage not terminal; the new stage is stored, in the row and in the event, and nothing else changes |
| TelemetryEffects.StageIsTheLastGiven | src/leftovers/telemetry.py:479-750 | in every history, a run's stage is the one that its last accepted start, transition or finish gave |
| TelemetryEffects.SetTargetExactly | src/leftovers/telemetry.py:610-649 | accepted iff the run is open and unbound or bound to the same target; the three fields are stored and nothing else changes |
| TelemetryEffects.SetCleanupExactly | src/leftovers/telemetry.py:651-683 | accepted iff the run is open; the cleanup status is stored and nothing else changes |
| TelemetryEffects.FinishRunExactly | src/leftovers/telemetry.py:685-750 | accepted iff the stage is terminal and the outcome new or the stored one; the whole outcome is stored and target, window and kind stay |
| TelemetryEffects.HistoryShows | src/leftovers/telemetry.py:855-874 | the history of a reservation is empty iff no row names it, and ends with the state that its last row shows |
| TelemetryEffects.ProjectionExactly | src/leftovers/telemetry.py:818-917 | what an accepted projection fits: its own earlier row, its run's kind and window, its reservation's last state |
| TelemetryEffects.ProjectionStores | src/leftovers/telemetry.py:818-917 | and whatever fits is stored as given, with its run bound to the window and one event, and nothing else changed |
| TelemetryEffects.StartModelExactly | src/leftovers/telemetry.py:919-1006 | when an invocation is accepted, and every field of its row |
| TelemetryEffects.CheckInExactly | src/leftovers/telemetry.py:1008-1069 | when a check-in is accepted; the observation is stored, and it matches iff provider and model are those asked for |
| TelemetryEffects.HeartbeatExactly | src/leftovers/telemetry.py:1071-1114 | beats go to the controller's or the adapter's column and never back; an event is added iff it is the first or a minute later |
| TelemetryEffects.UsageExactly | src/leftovers/telemetry.py:1215-1302 | a receipt is accepted iff it is valid and fits, a repeated one only if it is the stored row; only the receipt, the status and one event are stored |
| TelemetryEffects.FinishModelExactly | src/leftovers/telemetry.py:1304-1355 | when the end of an invocation is accepted, and what it stores |
| TelemetryInvariant.AppendKeepsNumbering | src/leftovers/telemetry.py:456-477 | appending keeps every run's events numbered 1 to its last number |
| TelemetryInvariant.RefreshedIsClassified | src/leftovers/telemetry.py:1192-1213 | the code's three flags classify receipts as the definition does: exact iff all final and exact, estimated iff all final and inexact |
| TelemetryInvariant.HistoryContinues | src/leftovers/telemetry.py:855-874 | the permitted continuations of a reservation are exactly those of its life cycle |
| TelemetryInvariant.ProjectionKeepsInv | src/leftovers/telemetry.py:818-917 | a projection call keeps kinds, bound windows and reservation histories |
| TelemetryInvariant.UsageKeepsInv | src/leftovers/telemetry.py:1228-1302 | a receipt keeps every classification, that of other invocations included, and training isolation |
| TelemetryInvariant.EveryRunKeepsInv | src/leftovers/telemetry.py:551-1355 | after any sequence of calls, accepted or rejected, the whole invariant holds |
| TelemetryHistory.HistoryOnlyGrows | src/leftovers/telemetry.py:551-1355 | between any two points of a history: kinds, targets, windows, identities and terminal outcomes stay, beats never go back, tables only grow, finished invocations gain no receipt |
| TelemetryHistory.OutcomeIsFrozen | src/leftovers/telemetry.py:709-721 | a terminal run's stored outcome never changes |
| TelemetryHistory.FinishIsFinal | src/leftovers/telemetry.py:705-750 | the first accepted finish decides: every later state shows exactly the outcome that it gave |
| TelemetryHistory.ModelFinishIsFinal | src/leftovers/telemetry.py:1319-1355 | likewise for an invocation, whose whole row is frozen with a usage status that is no longer pending |
| TelemetryHistory.ReplaysAreHarmless | src/leftovers/telemetry.py:506-525 | an accepted keyed call, repeated at any later point and time, writes nothing |
| TelemetryHistory.ReplayWritesNothing | src/leftovers/telemetry.py:819-840 | and finishes and projections are accepted again |
| TelemetryHistory.EventsOfTerminalRun | src/leftovers/telemetry.py:1083-1113 | a terminal run gains an event exactly through an accepted and novel call about one of its invocations or projections |
| TelemetryHistory.EventExactlyWhenNovel | src/leftovers/telemetry.py:479-1355 | a call adds an event of a run exactly when it is accepted, about that run, and no replay or early heartbeat; otherwise no event is added |
| TelemetryHistory.FinishLeavesInvocationsOpen | src/leftovers/telemetry.py:705-750 | finishing a run leaves its open invocations open, and a first heartbeat of one becomes an event |
| TelemetryHistory.EventAfterFinish | src/leftovers/telemetry.py:705-750 | a history from the empty store in which a heartbeat becomes an event after the run has finished |
| TelemetryHistory.TargetReplayAddsAnEvent | src/leftovers/telemetry.py:631-649 | a target call is not idempotent: each accepted repetition adds exactly one event |
| TelemetrySummary.ModelTokensIsSum | src/leftovers/telemetry.py:1500-1512 | the guarded sums of the model query are the SQL sums of the invocation's rows, null included |
| TelemetrySummary.TokensNullIffNoReceipt | src/leftovers/telemetry.py:1579-1589 | the token sum of a scope is null iff it holds no final receipt of the asked exactness |
| TelemetrySummary.GroupsAddUp | src/leftovers/telemetry.py:1579-1589 | summing by any key, group by group, loses and repeats nothing |
| TelemetrySummary.TokensAreTheModelsTokens | src/leftovers/telemetry.py:1500-1589 | the aggregate is the sum of the per-invocation values in scope |
| TelemetrySummary.WindowsAddUp | src/leftovers/telemetry.py:1564-1589 | the per-window sums and the unbound runs add up to the total of the kind |
| TelemetrySummary.TokensNeverFall | src/leftovers/telemetry.py:1564-1589 | in a fixed scope, usage never falls along a history |
| TelemetryIsolation.LatestBudgetIsLatest | src/leftovers/telemetry.py:1559-1563 | the projection shown is the last of its kind by time, then by insertion |
| TelemetryIsolation.CoverageMeansReceipts | src/leftovers/telemetry.py:1590-1638 | coverage is complete iff every finished invocation in scope has receipts and all are exact and final |
| TelemetryReports.UsageFields | src/leftovers/telemetry.py:1564-1589 | in a summary, `known` is null iff no exact final receipt is in scope, `estimated` iff no inexact one is, and each is the sum of what the model list shows |
| TelemetryReports.RunFields | src/leftovers/telemetry.py:1572-1578 | active and terminal runs are counted by their flag, each run of the kind once |
| TelemetryReports.BudgetFields | src/leftovers/telemetry.py:1639-1666 | the projection shown, what it leaves to spend above its reserve, and what of that is not reserved yet |
| TelemetryReports.StaleIsSilent | src/leftovers/telemetry.py:1447-1462 | an open invocation is stale iff it has a beat and every beat lies longer ago than allowed |
| TelemetryReports.ModelFields | src/leftovers/telemetry.py:1603-1627 | counts of open invocations, of those that fell silent, and of those that answered as another model |
| TelemetryReports.CoverageFields | src/leftovers/telemetry.py:1590-1638 | counts of finished invocations in scope, of the fully exact ones and of those without any receipt, and the coverage that follows |
| TelemetryReports.CapFields | src/leftovers/telemetry.py:1609-1615 | each capped run in scope appears once, with the largest of its caps |
| TelemetryReports.EventField | src/leftovers/telemetry.py:1616-1620 | the latest event is the latest of the kind's runs, and null iff they have none |
| TelemetryIsolation.SummaryReadsOneKind | src/leftovers/telemetry.py:1547-1764 | a summary is a function of its own kind's rows: every join filters the other kind out |
| TelemetryIsolation.ApplyConfined | src/leftovers/telemetry.py:479-1355 | a call changes no run but its own and no row of another run |
| TelemetryIsolation.OtherKindUntouched | src/leftovers/telemetry.py:801-804 | an accepted call about one kind leaves the other kind's rows as they were |
| TelemetryIsolation.SummaryIsIsolated | src/leftovers/telemetry.py:1547-1764 | in every reachable state, a call about a training run leaves the production summary unchanged, and the other way round |
| Json.EscapeReads | src/leftovers/prompts.py:17-20 | in every style, what is written for a character reads back as that character, surrogate pairs included |
| Json.StringReads | src/leftovers/prompts.py:17-20 | in every style, a written string reads back as itself and ends at its own quote |
| Json.RoundTrip | src/leftovers/prompts.py:17-20 | every value, in the indented, spaced and compact styles alike, reads back as itself |
| Json.OnlyWholeTexts | src/leftovers/prompts.py:17-20 | and with more text after it reads as nothing, unless that is only space |
| Json.DumpsInjective | src/leftovers/audit.py:66-69 | in one style, one text is written for one value only |
| Json.ReadWriteRead | src/leftovers/rehearsal.py:537-553 | whatever a text reads as, duplicates and member order settled, is written so that it reads the same again |
| Json.LaterMemberWins | src/leftovers/rehearsal.py:537-540 | of two members with one key the later is kept, and the others stay |
| Json.NoControlInStrings | src/leftovers/rehearsal.py:537-540 | a string that is read holds no control character and ends at a quote |
| Json.EntryAndRemainder | src/leftovers/rehearsal.py:550-552 | a record is determined by its hash entry and by the record without it |
| Prompts.EscapedHasNoMarkup | src/leftovers/prompts.py:17-20 | no text at all keeps a markup character after the three replacements |
| Prompts.EscapedPrint | src/leftovers/prompts.py:17-20 | replacing in the finished text is escaping inside its strings |
| Prompts.EnvelopeRoundTrip | src/leftovers/prompts.py:17-20 | an envelope is free of `<`, `>` and `&` and still JSON for the same value |
| Prompts.PromptReads | src/leftovers/prompts.py:23-44 | a prompt exists iff the stage is known and there are exactly the two envelopes; it is the instructions, then a text in the trusted envelope that reads as the trusted data, and one in the untrusted envelope that reads as the untrusted data, both free of markup |
| Prompts.DivisionIsUnique | src/leftovers/prompts.py:31-43 | and a reader can divide it in one way only |
| Prompts.RStripExactly | src/leftovers/prompts.py:31-35 | the instructions lose their trailing space and nothing else |
| Prompts.PromptDeterminesData | src/leftovers/prompts.py:23-44 | so one prompt text carries one pair of envelopes: no data renders like other data |
| JsonLimits.Visitor.Visit | src/leftovers/runner.py:306-327 | the counting visitor fails iff the nodes are too many or some node is out of bounds, though it stops early |
| JsonLimits.ValidateJsonComplexity | src/leftovers/runner.py:306-327 | accepted iff within the node, depth, width and finiteness limits |
| JsonLimits.WithinExactly | src/leftovers/runner.py:306-327 | within the limits means that every node, listed with its depth, is no deeper than 20, holds no more than 100 members or 1000 items, and is finite |
| Journals.AuditJournal.Append | src/leftovers/audit.py:58-93 | through short writes and failures: success adds exactly the record and advances the chain; failure keeps the chain hash and at most a part of the line |
| Journals.AuditJournal.WriteAll | src/leftovers/audit.py:83-88 | the write loop terminates and leaves the old file followed by a prefix of the line, the whole line if it completes |
| Journals.VerifyAuditJournal | src/leftovers/rehearsal.py:521-558 | the verifier's loop accepts exactly the journals that the definition accepts and returns their records in order |
| Journals.CheckLine | src/leftovers/rehearsal.py:533-557 | one turn of the loop: a good record after the expected hash, and its own hash, or an error |
| Journals.GoodExactlyIfLinked | src/leftovers/rehearsal.py:541-557 | a good record is exactly one that the writer could have written: the five members, the expected link, and the hash of the other four |
| Journals.LinesGlueBack | src/leftovers/rehearsal.py:528 | splitting a journal into lines loses nothing but their ends, which are line feeds, carriage returns or both together |
| Journals.WrittenJournalIsAccepted | src/leftovers/audit.py:58-93 | every journal of successful appends to a fresh file is accepted, within the verifier's limits |
| Journals.WrittenRecordReadsBack | src/leftovers/audit.py:58-93 | what is read of each written record: the five keys, the entry's own time, event and payload, the hash of the record before it and its own |
| Journals.LastHashFixesJournal | src/leftovers/rehearsal.py:531-557 | with a collision-free hash, two accepted journals with one last hash hold the same records, one by one |
| Journals.ReopenedJournalIsRejected | src/leftovers/audit.py:52-56 | a second journal object on a file with records starts a new chain, and the verifier rejects what it appends |

## Left out

- The phases before the lease: authorization, budget check, discovery, scoring, candidate selection and the refusal to run as root.
- `diff_gate` and `candidate_gate` as pattern tables: the run protocol takes them as arbitrary predicates.
- Telemetry calls made by the controller, which are best effort, except the attempt counter.
- SQLite itself: each transaction is one step that commits or changes nothing.
- Subprocesses, Git, `gh`, container runtimes and threads: nondeterministic answers within honest contracts. A killed command is stopped at its deadline; the polling delay of the loop is not modelled.
- Clock discontinuities between the monotonic and the wall clock in `Deadlines`; daylight-saving gaps and folds: local time is in a fixed-offset zone.
- The safety multiplier is a real number where the source has a float.
- Shape checks by regular expression, string lengths, event detail documents and redaction: they only reject or shorten.
- The monitor's clock-driven aborts, and the clock-range check of `observed_at`, which is a fixed property of a line in the model.
- The health, list and single-run views of the telemetry reader; the summary's run caps are kept as the rows of the cap subquery, before their sum and count.
- Text that is not a sequence of Unicode scalar values: lone surrogates in strings, and journal bytes that are not UTF-8.
- The reading of numbers: a reader of number and literal texts is a parameter, assumed only to yield canonical texts that stand for themselves.
- SHA-256 is an arbitrary function; collision freedom is a stated assumption where it is needed.
- In the publisher: title shortening, identity lookup, approval expiry and commit construction beyond what is committed; an unlink that fails in its `finally` block.
- In the reaper: a marker that is JSON but not an object, which ends the walk with an error, and a removal that deletes part of a tree.
- Container identifiers are never reused, and the labels of a container never change.
- Dashboard, command line, onboarding, scoring and configuration parsing.
