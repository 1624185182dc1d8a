# AutoRunner control plane and runner: verified model

AutoRunner schedules SQL backups on customer machines. Its control plane keeps a table of
commands for the agents and an outbox of domain events, delivers those events to webhooks, and
guards its GraphQL endpoint; on each machine a runner executes the configured backup jobs. This
project models the parts of that system whose correctness spans many steps, and proves what they
promise on all inputs, in all runs and under all interleavings of their transactions.

- **Commands** (`Commands`, `CommandRuns`, `CommandEffects`, `CommandGuarantees`, `CommandStore`). The command
  table and its transactional outbox as a state, and one atomic step per SQL transaction:
  creation, dispatch claim, rejection of an unknown type, agent message, expiry sweep, agent
  revocation, and the clock. A message is sent only after its claim is committed and may be lost.
  The class `CommandTable` runs the operations as the services do; its history is a run, so
  every statement about runs is a statement about it. `CommandEffects` says what each step writes,
  column by column and in the constants of the table.
- **Webhooks** (`Webhooks`, `WebhookRuns`, `WebhookEffects`, `WebhookGuarantees`, `WebhookStore`). Outbox, markers,
  endpoints and deliveries; the materializer, any number of delivery workers that may crash
  between claim and result, and the retention cleanup.
- **Control plane** (`ControlPlane`). Both halves on one clock: every event that a command
  transaction appends is an event of the pipeline, so what endpoints learn about a command can be
  stated end to end.
- **Backup runner** (`RunnerPolicy`, `BackupRunner`). The job loop with retries, the pending
  pass, the preflight shortcut and the per-job state files, proved to refine the repository's
  own single-pass model of the policy.
- **Printers, parsers and scanners** (`ProcessArguments`, `SwitchScanner`, `CanonicalJson`,
  `SetupPayload`). Each is proved against an independent reader or writer.
- **Guards and logs** (`QueryBudget`, `RequestWindow`, `LogRotation`). The operation budget walk,
  the fixed-window limiter with its collector, and log rotation.

`Prelude` and `Text` hold the option type and character classes that the others share. Code that
updates state in place is a class or a method with loops, proved against a specification
function; the theorems are lemmas about those functions. Times are integers: microseconds for the
database, 100 ns ticks for the runner, milliseconds for the limiter.

Some statements a reader might expect are false of the code, and the model says exactly when they
hold:

- Folding the outbox fails to give a command's status if and only if some step revoked its agent
  while it was unstarted (`services/ms-a-rest/src/routes.ts:57`) or rejected it for its unknown
  type (`services/ms-c-realtime/src/agent-gateway.ts:79-84`); those two steps append no event of
  the command (`FoldFailsExactlyAfterUnrecordedEnd`, with a run of each kind in
  `RevocationFoolsTheFold` and `RejectionFoolsTheFold`). The revocation can happen at any time;
  the rejection needs another writer of the command table, because the routes create only the
  five known types (`services/ms-a-rest/src/routes.ts:59-70`).
- Not every webhook delivery ends: one that is marked as being delivered has nobody delivering it
  if and only if the worker that held it crashed (`StrandedExactlyByCrash`, with a run in
  `SomeRunStrands`), and then it stays so and keeps its event from retention
  (`StrandedForever`).
- The pending pass of the runner trims job names and the single-pass model does not; the two
  agree to the letter if and only if, with stop-on-failure, no job after one that fails has
  blanks around its name (`RefinesExactly`, with a run in which they differ in `TrimmingShows`).
- A child process sees its arguments if and only if none of them contains a NUL
  (`ChildSeesArguments`).
- The limiter lets at most twice its limit through in every interval of one window length if and
  only if the limit is at least one (`TwiceTheLimitExactlyIfPositive`). The configuration accepts
  a limit of zero or less (`services/shared/src/config.ts:12-18`, `56-57`), and then the first
  request of every window gets through all the same (`OneRequestBeatsLowLimits`).

Two more statements have a condition that the programs always meet:

- The bounded switch scanner is exact if and only if the wanted switch is at least two characters
  shorter than the buffer, or contains a quote (`ExactExactlyForShortSwitches`); every switch that
  the two programs ask for is that short (`ProgramSwitchesAreExact`).
- The installer finds what was appended to it unless the payload is empty
  (`InstallerFindsWhatWasBuilt`). Only the byte format admits an empty payload: the release build
  checks that its payload is a valid archive first (`build/Build-Release.py:302-306`).

## Model

| member | source | states |
|---|---|---|
| CommandRuns.StepActsOnRow | services/ms-c-realtime/src/agent-gateway.ts:30-175 | every transaction changes each existing command, and appends events for it, by that command's own step alone: no step touches another command or its history |
| CommandRuns.RowStepKeepsSound | services/ms-c-realtime/src/agent-gateway.ts:33-41 | every step on a row keeps which timestamps are set in which status, their order, and the spacing of dispatches inside the life of the command |
| CommandRuns.StatusChangesExactlyAlongEdges | services/ms-c-realtime/src/agent-gateway.ts:142-175 | a step takes a command to another status if and only if the status graph has that edge: which message, claim, sweep, rejection or revocation leads from which status to which |
| CommandRuns.TransitEffect | services/ms-c-realtime/src/agent-gateway.ts:142-175 | a message of the owner either changes nothing, or ends the command with the matching event, or accepts a queued or dispatched one, or marks it running without moving its start |
| CommandRuns.RowStepKeepsRecord | services/shared/src/events.ts:5-15 | whatever a step appends to the outbox continues the lifecycle queued, numbered dispatches, at most one acceptance, progress, at most one end |
| CommandRuns.SilentStepsEnd | services/ms-a-rest/src/routes.ts:57 | a step changes a command without an event of it if and only if it revokes the agent of an unstarted command or rejects a dispatched one of unknown type; it then ends the command |
| CommandGuarantees.EveryCommandIsSound | services/ms-c-realtime/src/agent-gateway.ts:33-41 | in every run: completed_at is set exactly in terminal states, dispatch stamps exactly when there were attempts, and created <= first dispatch <= last dispatch < expiry, last dispatch <= accepted <= started <= completed <= now |
| CommandGuarantees.NoEventsBeforeCreation | services/ms-a-rest/src/domain.ts:131-136 | in every run the outbox holds no command event of a command that is not in the table |
| CommandGuarantees.HistoryIsLifecycle | services/shared/src/events.ts:5-15 | in every run the events of a command are its whole lifecycle in order and without gaps, with as many dispatch events as attempts, an acceptance exactly when accepted_at is set, progress exactly when started_at is set |
| CommandGuarantees.FoldGivesStatus | services/ms-c-realtime/src/agent-gateway.ts:154-175 | in every run, folding the command events in commit order gives the status of the row unless some step revoked the command unstarted or rejected it for its type; then the row is terminal and the fold gives the live status it had before |
| CommandGuarantees.FoldFailsExactlyAfterUnrecordedEnd | services/ms-c-realtime/src/agent-gateway.ts:79-84 | in every run the fold differs from the status if and only if some step of the run was such a revocation or rejection |
| CommandGuarantees.RevocationFoolsTheFold | services/ms-a-rest/src/routes.ts:57 | a run where the fold fails: create, then revoke; the row is cancelled and the fold says queued |
| CommandGuarantees.RejectionFoolsTheFold | services/ms-c-realtime/src/agent-gateway.ts:79-84 | a run where the fold fails: create with an unknown type, claim, reject; the row is rejected and the fold says a live status |
| CommandGuarantees.DispatchEventsAreAttempts | services/ms-c-realtime/src/agent-gateway.ts:45-58 | dispatched plus redispatched events equal dispatch_attempts, the k-th carries attempt k, only the first is named dispatched, and there is exactly one queued event, the first |
| CommandGuarantees.AtMostOneEnd | services/ms-c-realtime/src/agent-gateway.ts:270-288 | a terminal event is the last event of its command and names the status of the row, so there is at most one |
| CommandGuarantees.StatusNeverMovesDown | services/ms-c-realtime/src/agent-gateway.ts:142-168 | from any moment of any run on: the command stays, its status never moves down, its request and its set timestamps never change, its history only grows, and once terminal row and history are frozen |
| CommandGuarantees.ForeignMessagesChangeNothing | services/ms-c-realtime/src/agent-gateway.ts:161-169 | a message of any other agent than the command's own leaves rows, outbox and clock as they are |
| CommandGuarantees.DispatchesAreBounded | services/ms-c-realtime/src/agent-gateway.ts:10-43 | in every run a command dispatched n >= 1 times satisfies 15 s * (n - 1) < its time to live, hence n <= 5760 |
| CommandGuarantees.TwoSweepsSettle | services/ms-c-realtime/src/agent-gateway.ts:270-288 | one sweep strictly after the expiry and a later one more than the running limit after it leave the command terminal, whatever happens before and in between |
| CommandGuarantees.EveryKeyHasOneCommand | services/ms-a-rest/src/domain.ts:125-132 | in every run each organization, actor and idempotency key has at most one command |
| CommandGuarantees.CreationIsIdempotent | services/ms-a-rest/src/domain.ts:119-138 | once a key is used, every later creation with it stores nothing and returns the first command if type, job and payload agree up to the order of object keys, and conflicts otherwise |
| CommandGuarantees.AsManyQueuedAsCommands | services/ms-a-rest/src/domain.ts:131-136 | in every run there are exactly as many queued events as commands |
| CommandEffects.ClaimsExactlyWhenDue | services/ms-c-realtime/src/agent-gateway.ts:30-62 | in every run a claim counts one more attempt, stamps it with the clock and appends its one event if and only if the command is live, and queued or sent more than 15 s ago; otherwise it changes nothing |
| CommandEffects.CreationStoresRequest | services/ms-a-rest/src/domain.ts:119-138 | a creation stores key, agent, machine, job, type and payload as given, with the asked life kept within 30 s and a day, if and only if the key has eight characters and is unused; otherwise nothing changes |
| CommandEffects.NewCommandHoldsRequest | services/ms-a-rest/src/domain.ts:123-132 | a new command holds every field of its request, lives as long as asked and has no history |
| CommandEffects.RepeatReturnsTheCommand | services/ms-a-rest/src/domain.ts:119-138 | in every run, the same call after a successful creation, at any later time, returns the command then created and stores nothing |
| CommandEffects.MessageColumns | services/ms-c-realtime/src/agent-gateway.ts:154-175 | which statuses take which message of the owner, the status, stamps, result, code and summary that the row then has, and the one event that announces it; any other message leaves the row as it is |
| CommandEffects.SweepColumns | services/ms-c-realtime/src/agent-gateway.ts:270-288 | the sweep ends exactly the unstarted commands past their expiry and those running beyond the limit, each with its own status, code, summary and event |
| CommandEffects.RevocationColumns | services/ms-a-rest/src/routes.ts:57 | a revocation ends exactly the unstarted commands of the agent, with its own code and summary and no event |
| CommandEffects.RejectionColumns | services/ms-c-realtime/src/agent-gateway.ts:79-84 | the rejection ends exactly a dispatched command of a type other than the five, with its own code and summary and no event |
| CommandEffects.KnownTypesHaveMessages | services/ms-c-realtime/src/agent-gateway.ts:20-28 | a command type has a message if and only if it is one of the five, and the message carries its name |
| CommandStore.SweepEventsInTwoParts | services/ms-c-realtime/src/agent-gateway.ts:270-288 | the events of the sweep step are those of the expired commands, then those of the lost ones, each command once |
| CommandStore.CommandTable.Create | services/ms-a-rest/src/domain.ts:119-138 | the creation stores the request as asked, with its one event, when it answers with a new command, and changes nothing otherwise; it makes the creation step of the protocol |
| CommandStore.CommandTable.ClaimDispatch | services/ms-c-realtime/src/agent-gateway.ts:30-62 | the claim succeeds if and only if the command is live, and queued or last sent more than 15 s ago; then attempts, stamps and outbox show one more dispatch at this moment and no other row changes, otherwise nothing does |
| CommandStore.CommandTable.RejectType | services/ms-c-realtime/src/agent-gateway.ts:78-85 | the rejection ends a dispatched command of unknown type, without an event, and changes no other row |
| CommandStore.CommandTable.CommandTransition | services/ms-c-realtime/src/agent-gateway.ts:154-175 | the message transaction makes the message step of the protocol |
| CommandStore.CommandTable.ExpireStaleCommands | services/ms-c-realtime/src/agent-gateway.ts:270-288 | two updates and two event loops, in whatever order the rows come, are one sweep step: every row is swept once and every event appended once |
| CommandStore.CommandTable.RevokeAgent | services/ms-a-rest/src/routes.ts:57 | the revocation cancels exactly the unstarted commands of the agent and appends one event of the agent |
| CommandStore.CommandTable.Candidates | services/ms-c-realtime/src/agent-gateway.ts:67-73 | the page holds at most fifty dispatchable commands of the agent, oldest first, and leaves none out that is older than one it holds, or any if it is not full |
| CommandStore.CandidatesAreDue | services/ms-c-realtime/src/agent-gateway.ts:67-73 | every command of the page is live, and queued or last sent more than 15 s ago |
| CommandStore.CommandTable.DispatchPage | services/ms-c-realtime/src/agent-gateway.ts:74-97 | every command up to the first message that cannot be sent is claimed again, and then sent or rejected; that one stays claimed, no other row changes, and the count is the number of messages sent |
| CommandStore.CommandTable.DispatchPending | services/ms-c-realtime/src/agent-gateway.ts:64-98 | without a session nothing happens; with one, the page of candidates is handled up to the first message that cannot be sent, and to its end if all can be |
| WebhookRuns.DeliveryStep | services/ms-b-query-events/src/webhooks.ts:36-82 | a delivery changes only by its own claim or by the report of the worker that holds it, and appears only by the materialization of its unmarked event |
| WebhookRuns.DeliveriesAreLinked | services/ms-b-query-events/src/webhooks.ts:102-107 | in every run no delivery dangles: its endpoint, its event and the marker exist, and it carries the type and payload of the event |
| WebhookRuns.MarkersHaveEvents | services/ms-b-query-events/src/webhooks.ts:102-107 | in every run every marker has its event |
| WebhookRuns.WorkersHold | services/ms-b-query-events/src/webhooks.ts:51-59 | in every run the delivery of a worker in flight, if it still exists, is being delivered and counts the attempt that the worker claimed |
| WebhookRuns.NoSharedDelivery | services/ms-b-query-events/src/webhooks.ts:51-59 | with any number of workers and crashes, no two workers in flight hold the same delivery |
| WebhookRuns.DeliveriesFit | services/ms-b-query-events/src/webhooks.ts:61-82 | in every run attempts stay within max(1, limit), pending means none, failed means below the limit, dead letter means the limit was reached, and completed_at is set exactly on succeeded and dead letters |
| WebhookRuns.WaitIsBounded | services/ms-b-query-events/src/webhooks.ts:11-14 | for every jitter the wait lies between four and six fifths of the base delay rounded up, and between 2 and 360 seconds |
| WebhookRuns.WaitsGrow | services/ms-b-query-events/src/webhooks.ts:11-14 | later attempts never have a shorter least wait, and the base delay stops at 300 s |
| WebhookEffects.BaseDelayDoubles | services/ms-b-query-events/src/webhooks.ts:11-14 | the base delay starts at two seconds with the first attempt and doubles up to five minutes |
| WebhookEffects.JitterScales | services/ms-b-query-events/src/webhooks.ts:11-14 | the jitter scales the base delay from four fifths up towards six fifths |
| WebhookEffects.SecondsRoundUp | services/ms-b-query-events/src/webhooks.ts:80-81 | the wait is rounded up to whole seconds |
| WebhookEffects.MaterializationColumns | services/ms-b-query-events/src/webhooks.ts:36-49 | materializing an unmarked event sets its marker and adds a new delivery, due at once, for exactly the endpoints that are enabled, of its organization and want its type; otherwise nothing changes |
| WebhookEffects.ClaimColumns | services/ms-b-query-events/src/webhooks.ts:51-59 | a claim counts one more attempt of a delivery if and only if it is pending or failed, due, and its endpoint enabled; otherwise nothing changes |
| WebhookEffects.SuccessColumns | services/ms-b-query-events/src/webhooks.ts:74-75 | a success completes the delivery with the response, drops its error and changes nothing else |
| WebhookEffects.FailureColumns | services/ms-b-query-events/src/webhooks.ts:77-81 | a failure is retried within the bounds of its wait if its attempt is below the limit, and is else a completed dead letter; nothing else changes |
| WebhookEffects.EndpointColumns | services/ms-a-rest/src/routes.ts:74-75 | an endpoint comes with an identifier of its own and goes with its deliveries; other endpoints stay as they are |
| WebhookEffects.RemovesExactlyWhatMayLeave | services/ms-b-query-events/src/webhooks.ts:85-107 | retention removes an event with its marker and its deliveries if and only if it is marked, all its deliveries have ended, and it is older than a day and than the configured days |
| WebhookEffects.EventsLeaveOnlyWhenOld | services/ms-b-query-events/src/webhooks.ts:85-107 | in every run an event leaves only by such a removal |
| WebhookGuarantees.EventsMaterializeOnce | services/ms-b-query-events/src/webhooks.ts:36-49 | in every run each event is materialized at most once, and exactly once if it carries the marker |
| WebhookGuarantees.MaterializesExactlyTheMatches | services/ms-b-query-events/src/webhooks.ts:36-49 | in every run the materialization of an event creates one pending delivery for each endpoint enabled and matching at that moment, no other one, and changes no existing delivery |
| WebhookGuarantees.DeliveriesWereMaterialized | services/ms-b-query-events/src/webhooks.ts:43-43 | in every run every delivery was created by a materialization of its event |
| WebhookGuarantees.DeliveriesAreNotLost | services/ms-b-query-events/src/webhooks.ts:102-107 | a delivery that was ever created is there until its endpoint is deleted or retention removes its event |
| WebhookGuarantees.ResultsAreFinal | services/ms-b-query-events/src/webhooks.ts:75-81 | from any moment of any run on, a succeeded or dead-letter delivery never changes; it can only be removed, and then never comes back |
| WebhookGuarantees.RemovalIsComplete | services/ms-b-query-events/src/webhooks.ts:85-107 | an event disappears only by retention, when it is old enough, marked and all its deliveries are resolved; its marker and its deliveries disappear with it |
| WebhookGuarantees.RemovedStaysRemoved | services/ms-b-query-events/src/webhooks.ts:102-107 | a removed event never comes back, and nothing is materialized, claimed or removed for it again |
| WebhookGuarantees.ClaimsAreBounded | services/ms-b-query-events/src/webhooks.ts:51-81 | over the whole run each endpoint is tried at most max(1, limit) times for each event, and the attempt count of a delivery is the number of its claims |
| WebhookGuarantees.AttemptsAreSpaced | services/ms-b-query-events/src/webhooks.ts:11-81 | any two attempts of a delivery: the later one has the higher number and comes after the least wait of the earlier one |
| WebhookGuarantees.CrashStrands | services/ms-b-query-events/src/webhooks.ts:51-59 | a crash between claim and result leaves a delivery marked as being delivered that nobody is delivering |
| WebhookGuarantees.StrandedForever | services/ms-b-query-events/src/webhooks.ts:53-53 | such a delivery never changes again and its event is never removed, in any continuation in which nobody deletes the endpoint |
| WebhookGuarantees.OnlyCrashesStrand | services/ms-b-query-events/src/webhooks.ts:61-82 | in every run, whatever is marked as being delivered has a worker that holds it unless its own holder crashed, whoever else crashes |
| WebhookGuarantees.StrandedExactlyByCrash | services/ms-b-query-events/src/webhooks.ts:51-82 | in every run a delivery marked as being delivered has no worker if and only if at some step the worker that held it crashed |
| WebhookGuarantees.SomeRunStrands | services/ms-b-query-events/src/webhooks.ts:51-59 | a run that strands a delivery: publish, subscribe, materialize, claim, crash |
| WebhookStore.SelectOldest | services/ms-b-query-events/src/webhooks.ts:38-38 | the batch holds the oldest of the given events, oldest first, up to the limit, and leaves none out if it is not full |
| WebhookStore.BatchSize | services/ms-b-query-events/src/webhooks.ts:38-38 | a batch is as large as the limit and the backlog allow, and what is left over is the rest |
| WebhookStore.WebhookTables.MaterializeWebhookDeliveries | services/ms-b-query-events/src/webhooks.ts:36-49 | the nested loops are one materialization step for each event of the batch, which is the oldest unmarked events up to the limit; a call marks min(limit, backlog) of them and leaves the rest, so calls without new events empty the backlog |
| WebhookStore.WebhookTables.ClaimDelivery | services/ms-b-query-events/src/webhooks.ts:51-59 | the claim takes the claimable delivery that has been due for longest, the older one among equals, and makes the claim step; it takes none only if none is claimable |
| WebhookStore.WebhookTables.ReportSuccess | services/ms-b-query-events/src/webhooks.ts:74-75 | the update after a success response is the success step of the worker |
| WebhookStore.WebhookTables.ReportFailure | services/ms-b-query-events/src/webhooks.ts:77-81 | the update after an error is the failure step of the worker: failed or dead letter by its attempt number, with the backoff |
| WebhookStore.BulkIsOneByOne | services/ms-b-query-events/src/webhooks.ts:102-107 | three deletions over a batch remove the same as removing its events one by one |
| WebhookStore.WebhookTables.CleanupRetainedOperationalData | services/ms-b-query-events/src/webhooks.ts:85-107 | the cleanup is one removal step for each event of the batch, which is the oldest events up to the limit of those that are marked, resolved and older than a day and than the configured days |
| ControlPlane.PlaneRunsBoth | services/shared/src/events.ts:5-15 | every run of the plane is a run of the commands and a run of the pipeline, so every statement about either holds of it |
| ControlPlane.TypeNamesAre | services/ms-c-realtime/src/agent-gateway.ts:45-175 | each event carries its own dotted name, by which endpoints ask for it |
| ControlPlane.OneClock | services/shared/src/events.ts:5-15 | in every run of the plane the commands and the pipeline tell the same time |
| ControlPlane.OutboxIsPublished | services/shared/src/events.ts:5-15 | in every run each event of the command outbox is in the event table with its type and the organization of its command, or a retention step of the run removed it, and at that step it was old enough, marked and all its deliveries were resolved |
| ControlPlane.EachEventIsDeliveredOnce | services/ms-b-query-events/src/webhooks.ts:36-82 | in every run different events of commands have different identifiers, each is materialized at most once, and each endpoint is tried for it at most max(1, limit) times |
| ControlPlane.EventsReachTheirOrganization | services/ms-b-query-events/src/webhooks.ts:39-46 | when the event of a command is materialized, exactly the enabled endpoints of that command's organization that want its type get a delivery, one each |
| ControlPlane.EndpointsLearnTheTrueEnd | services/ms-c-realtime/src/agent-gateway.ts:154-175 | in every run the outbox has at most one event of the end of a command, and each delivery of it carries the type of the final status of the row |
| RunnerPolicy.Run | tests/State-Machine-Fuzz.py:36-88 | the loop with its stopped flag computes the single pass and its exit codes |
| RunnerPolicy.LastAttemptDecides | tests/State-Machine-Fuzz.py:59-72 | attempts go on exactly while they may be retried, at most RetryCount + 1 of them, and the last one decides result and code |
| RunnerPolicy.PassKeepsPromises | tests/State-Machine-Fuzz.py:47-76 | one result per job in the order of the jobs, CLI calls are exactly the attempts, and with stop-on-failure nothing runs after the first failure |
| RunnerPolicy.ExitCodesSay | tests/State-Machine-Fuzz.py:78-87 | the process code is 0 exactly when no job failed and one succeeded or was skipped, 10 on partial failure, 11 otherwise; the state code is 12 exactly when all that counts was skipped |
| RunnerPolicy.NotRunExactlyAfterFailure | tests/State-Machine-Fuzz.py:47-50 | a job is not run if and only if stop-on-failure is set and some job before it is tried and fails |
| RunnerPolicy.ResultCodes | tests/State-Machine-Fuzz.py:47-76 | a job not run has code 14, a skipped one 12, a tried one the code of its last call or 98 if that threw, and it succeeded exactly with code 0 |
| RunnerPolicy.RetriesExactly | tests/State-Machine-Fuzz.py:59-72 | a call is followed by another if and only if retries are left and it threw, or failed with CLI retries on |
| BackupRunner.Runner.Attempt | scripts/Run-SQLBackupAndFTPJob.ps1:345-373 | the attempt loop makes the calls and gives the result of the policy's retry rule |
| BackupRunner.Runner.Preflight | scripts/Run-SQLBackupAndFTPJob.ps1:195-210 | the shortcut fires exactly when every job has a stored state within its interval |
| BackupRunner.Runner.ProcessJob | scripts/Run-SQLBackupAndFTPJob.ps1:308-395 | the body of the job loop fails a blank name, skips a job whose last success lies less than the interval back in a startup run that is not forced, or makes the attempts, and updates the state file |
| BackupRunner.Runner.RunJobs | scripts/Run-SQLBackupAndFTPJob.ps1:298-445 | the job loop, the pending pass and the counts compute the two-phase specification and update the state files |
| BackupRunner.Runner.Run | scripts/Run-SQLBackupAndFTPJob.ps1:195-445 | a whole run is the shortcut without any call or file change, or else the two phases, and continues every sequence of runs that led to the state files it finds |
| BackupRunner.TwoPhaseRefinesPolicy | scripts/Run-SQLBackupAndFTPJob.ps1:298-445 | given unique non-blank names the two phases give the results, calls and exit codes of the single-pass policy; only the names of jobs not run come out trimmed |
| BackupRunner.RefinesExactly | scripts/Run-SQLBackupAndFTPJob.ps1:398-411 | the results agree to the letter if and only if, with stop-on-failure, no job after one that is tried and fails has blanks around its name |
| BackupRunner.TrimmingShows | scripts/Run-SQLBackupAndFTPJob.ps1:398-411 | a run in which they differ: the first job fails and the second has a blank after its name |
| BackupRunner.PreflightRefinesTwoPhase | scripts/Run-SQLBackupAndFTPJob.ps1:195-222 | at a fixed instant the shortcut fires exactly when the two phases would skip every job, and then results, codes and the absence of calls are the same |
| BackupRunner.SkippingKeepsLastSuccess | scripts/Run-SQLBackupAndFTPJob.ps1:320-337 | a loop that skips every job leaves every recorded last success as it was, like the shortcut |
| BackupRunner.StoredIsLastSuccess | scripts/Run-SQLBackupAndFTPJob.ps1:375-389 | over any sequence of runs, with or without the shortcut, the stored last success of a job is its latest success, through any number of skips and failures |
| BackupRunner.GuardedRunsAreSpaced | modules/AutoRunner.Core.psm1:2368-2380 | over any sequence of runs, with or without the shortcut, a startup run that is not forced calls the CLI for a job only if the minimum interval has passed since each earlier success of that job |
| BackupRunner.SkippedExactlyWhenTooSoon | scripts/Run-SQLBackupAndFTPJob.ps1:320-351 | after any sequence of runs, a job with a name that the loop reaches is skipped if and only if the run is a startup run, not forced, with an interval, and the latest success of the job is less than the interval back; else its CLI is called, and the log and state file show it |
| BackupRunner.PreflightFiresExactlyWhenTooSoon | scripts/Run-SQLBackupAndFTPJob.ps1:195-210 | after any sequence of runs the shortcut fires if and only if the run is a startup run, not forced, with an interval, and every job has a name and a latest success less than the interval back |
| BackupRunner.BlankNamesFail | scripts/Run-SQLBackupAndFTPJob.ps1:308-318 | a job without a name fails with code 20 and no call |
| ProcessArguments.ConvertToProcessArgument | modules/AutoRunner.Core.psm1:394-415 | the character loop with its backslash counter computes the quoting function |
| ProcessArguments.SplitUndoesJoin | modules/AutoRunner.Core.psm1:394-420 | splitting the joined command line by the documented Microsoft C/C++ rules gives back every list of arguments |
| ProcessArguments.ChildSeesArguments | modules/AutoRunner.Core.psm1:394-420 | a child whose command line ends at the first NUL sees exactly the given arguments if and only if none of them contains a NUL |
| ProcessArguments.PlainExactlyWithoutBlanks | modules/AutoRunner.Core.psm1:394-397 | an argument is written as it is if and only if it is not empty and holds no white space and no quote |
| ProcessArguments.OthersStandInQuotes | modules/AutoRunner.Core.psm1:398-414 | every other argument stands between quotes |
| ProcessArguments.ArgumentsStandApart | modules/AutoRunner.Core.psm1:417-420 | two lists of arguments are joined by the join of each, one space apart |
| SwitchScanner.EqualsSwitch | native/setup.c:82-82 | the comparison of two NUL-terminated strings is equality up to ASCII case and reads neither past its end |
| Text.LowerAsciiLetters | native/setup.c:81-81 | exactly the 26 capital letters change, each to its small letter |
| SwitchScanner.CopyToken | native/setup.c:90-96 | the copy into the fixed buffer holds the token cut to the capacity and its terminator, and never overruns the buffer |
| SwitchScanner.HasExactArgument | native/setup.c:85-103 | the scan finds a switch exactly when some token after the first, cut to the capacity, equals it up to ASCII case |
| SwitchScanner.ShortSwitchesAreExact | native/setup.c:85-103 | for a switch at least two characters shorter than the buffer, truncation never creates or hides a match on any command line |
| SwitchScanner.ProgramSwitchesAreExact | native/setup.c:168-177 | both programs read every switch that they ask for exactly, on every command line |
| SwitchScanner.ExactExactlyForShortSwitches | native/msi-bridge.c:27-27 | the scanner is exact on every command line if and only if the switch is that short or contains a quote |
| SwitchScanner.LongSwitchIsMisread | native/msi-bridge.c:27-27 | for every longer switch without a quote there is a command line that the scanner misreads |
| CanonicalJson.StringParses | services/shared/src/crypto.ts:31-31 | an escaped string reads back by section 7 of RFC 8259 |
| CanonicalJson.StableJsonParses | services/shared/src/crypto.ts:30-35 | parsing the canonical text gives the value back with its object keys in order |
| CanonicalJson.CanonicalTextIdentifies | services/shared/src/crypto.ts:30-35 | two values print the same text if and only if they are equal up to the order of object keys, at any nesting |
| CanonicalJson.RequestTextIdentifies | services/shared/src/crypto.ts:37-39 | the hashed texts of two requests agree if and only if type, job and payload agree up to the order of object keys |
| CanonicalJson.KeyOrderIsUnitOrder | services/shared/src/crypto.ts:33-33 | object keys are ordered by their UTF-16 code units, as section 3.2.3 of RFC 8785 has it |
| CanonicalJson.EscapesAreShortest | services/shared/src/crypto.ts:31-31 | each character is written as itself, by its two-character escape if it has one, and else in lower-case hexadecimal |
| CanonicalJson.HashedObject | services/shared/src/crypto.ts:37-39 | what is hashed for a request reads back as the object of its type, its job or null, and its payload |
| SetupPayload.ReadSize | native/setup.c:150-150 | the byte loop reads the little-endian number of the last eight bytes |
| SetupPayload.MagicIsText | build/Build-Release.py:21-21 | the magic bytes are the ASCII text of the release format |
| SetupPayload.CopyPayload | native/setup.c:157-162 | the chunked copy writes a prefix of the payload, and the whole of it exactly when it reports success, however few bytes each read returns |
| SetupPayload.Extract | native/setup.c:141-163 | the installer gives the located payload or fails for the located reason, unless a read or write fails |
| SetupPayload.InstallerFindsWhatWasBuilt | build/Build-Release.py:308-315 | what the release build appends is what the installer finds, unless the payload is empty |
| SetupPayload.InstallerAcceptsOnlyBuilt | native/setup.c:145-153 | whatever payload the installer finds in a file, the file is a build with that payload |
| SetupPayload.TestSetupInstallerExecutable | scripts/Setup-Wizard.ps1:200-217 | the wizard keeps a file exactly when it is an executable in which the installer finds a payload |
| SetupPayload.WizardKeepsBuiltReleases | build/Build-Release.py:308-315 | the wizard's condition holds of every built release with an executable program if and only if its payload is not empty |
| QueryBudget.BudgetWalk.Walk | services/ms-b-query-events/src/server.ts:24-40 | the early-exit walk over a possibly cyclic document terminates, never counts more than the full walk, and counts exactly as much unless a limit is exceeded |
| QueryBudget.CheckOperation | services/ms-b-query-events/src/server.ts:22-43 | an error is reported exactly when the full walk exceeds a limit, and every reported error is justified |
| QueryBudget.FragmentTableIsTable | services/ms-b-query-events/src/server.ts:20-20 | the fragment table has a name if and only if some definition has it, with the selections of the last one |
| QueryBudget.TablesAgree | services/ms-b-query-events/src/server.ts:20-20 | the definitions determine that table |
| QueryBudget.OperationBudgetRule | services/ms-b-query-events/src/server.ts:17-46 | over any table that holds the last definition of each fragment name, the rule reports exactly the operations of the document whose full cost exceeds a limit, and each reported error names a limit that is exceeded |
| QueryBudget.CostIsExpandedSize | services/ms-b-query-events/src/server.ts:24-40 | the cost of an operation is the field count and the nesting of the document with its fragments written out |
| RequestWindow.Limiter.AllowRequest | services/ms-b-query-events/src/server.ts:14-14 | the request updates the window of its key and is allowed as the specification says |
| RequestWindow.Limiter.CollectWindows | services/ms-b-query-events/src/server.ts:15-15 | the collection removes exactly the windows started before the cutoff |
| RequestWindow.CollectionIsInvisible | services/ms-c-realtime/src/server.ts:13-14 | collections at whatever moments never change any decision |
| RequestWindow.RateBound | services/ms-b-query-events/src/server.ts:14-15 | in any run with a clock that does not go back, one key gets at most 2 * max(1, limit) requests through in any interval of one window length |
| RequestWindow.RateBoundIsReached | services/ms-b-query-events/src/server.ts:14-14 | the bound is sharp for every limit, also below one |
| RequestWindow.TwiceTheLimitExactlyIfPositive | services/ms-b-query-events/src/server.ts:14-14 | at most twice the limit gets through in every run with a clock that does not go back and every interval if and only if the limit is at least one |
| RequestWindow.OneRequestBeatsLowLimits | services/ms-c-realtime/src/server.ts:13-13 | with a limit below one a single request gets through, which is more than twice the limit |
| LogRotation.RotatingLog.ShiftFiles | modules/AutoRunner.Core.psm1:493-501 | the descending loop moves every numbered file up by one, drops only the oldest, and touches no file above it |
| LogRotation.BytesAddUp | modules/AutoRunner.Core.psm1:491-491 | the length of a file is the sum of the lengths of its lines |
| LogRotation.RotatingLog.Rotate | modules/AutoRunner.Core.psm1:470-510 | the rotation computes the specification: age rule, size check, shift |
| LogRotation.RunKeepsRecent | modules/AutoRunner.Core.psm1:488-504 | in every run each numbered file is the generation its number says, the most recent ones all exist unless they aged out, and closed files and current file together are everything written, in order |
| LogRotation.RetainedIsEndOfHistory | modules/AutoRunner.Core.psm1:493-504 | when nothing ages out, the numbered files and the current one are exactly the end of the history, and only generations beyond KeepFiles are missing |
| LogRotation.ClosedAtTheLimit | modules/AutoRunner.Core.psm1:490-491 | a file is closed with the first line that brings it to the limit, never earlier or later |

## Left out

- Overlapping transactions: each SQL transaction is atomic and its `now()` is the clock at its step; a clock that runs behind the commit order, and a materializer whose snapshot is older than another's commit, are not modelled.
- CommandStore.CommandTable.DispatchPending: runs without other steps in between; interleavings are covered by the lemmas about runs, whose steps are the single claims and rejections, and by `DispatchPage`, which takes a page that is out of date.
- CommandStore.CommandTable.Create: takes a new identifier for granted, as the random one of the database is; the requested time to live is an integer or absent.
- Removal of outbox rows by retention is part of the webhook model; the outbox of the command model is its history and only grows.
- The content of event payloads and the organization of an agent are given from outside in `ControlPlane`.
- Identifiers are natural numbers, and a drawn identifier is never drawn again.
- The payload hash is taken to be free of collisions: the model compares the hashed texts.
- Redaction is a given function: payloads, results and summaries are the redacted ones.
- CanonicalJson.StableJsonParses: the parser reads the compact text that the printer writes; insignificant white space, the formatting of numbers and lone surrogates are outside the model.
- Role checks, capabilities, audit rows and agent rows: short branch tables beside the state modelled here.
- Endpoints are never disabled by the code; the model lets an operator switch them, because the queries check it.
- The order of claims among deliveries due and created at the same instants, and of candidate commands created at the same instant, is left open, as in the queries.
- WebhookGuarantees.ResultsAreFinal: does not cover a success update that commits but whose acknowledgement is lost; it stands inside the `try` (`services/ms-b-query-events/src/webhooks.ts:74-81`), so the failure update would then overwrite the success. A worker's report is one atomic step of the model.
- WebhookRuns.WaitIsBounded: exact real arithmetic; the rounding of floating point is not modelled.
- Deletion of diagnostics in the cleanup (`services/ms-b-query-events/src/webhooks.ts:108-110`): an unrelated table.
- Network, sockets, DNS and notification timing: an attempt ends by success, failure or crash at any later step.
- The bootstrap gate of the runner, which refuses the schema that the installer writes (`scripts/Run-SQLBackupAndFTPJob.ps1:48`, `modules/AutoRunner.Core.psm1:5`): the runner model starts after it.
- The runner's service waits, discovery, artifact clean-up and unreadable state files; two names never share a state file.
- BackupRunner.Runner.Attempt: log lines never fail. In the code a log write that throws after the CLI returned 0, say because the log's mutex timed out, is caught by the attempt loop and leads to another call of the CLI (`scripts/Run-SQLBackupAndFTPJob.ps1:351-372`).
- Lower-casing of job names covers ASCII letters.
- LogRotation.RotatingLog.Rotate: which numbered files are past the retention days is given from outside.
- I/O errors during log rotation, which the code swallows, and waiting for the log's mutex.
- SetupPayload.CopyPayload: a failed read and a failed write are the same outcome.
- GraphQL pagination: the cursor writer and reader do not agree (`services/ms-b-query-events/src/resolvers.ts:94-100`), so a page walk does not work as written.
- Cryptography, certificates, registry, scheduler, user interfaces and deployment files.
