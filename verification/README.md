# Verified models of the Mini Ubuntu Server Panel

A Dafny project that models the stateful core of the panel's backend and proves what that core keeps over whole runs.
`dafny verify dfyconfig.toml` checks everything.

| part | files | what it models |
|---|---|---|
| notification engine | `Store`, `Like`, `Decimal`, `Alerts`, `Worker`, `Process`, `Refinement`, `Notifications` | the tables and SQL statements; the `Enqueue` transaction; the worker's statements interleaved with transactions, administrators' edits, errors, crashes and restarts; the service as a class |
| its theorems | `Lifecycle`, `Backoff`, `EventStatuses`, `Scopes`, `Pacing`, `Recovery`, `Fanout`, `Decisions`, `Drain`, `Progress` | what every run of that system satisfies, and what the undisturbed worker achieves |
| monitor | `Hysteresis`, `Watching`, `Containers`, `Monitors` | threshold counters, in-memory flags beside the stored alert states, Docker polls |
| terminal hub | `Terminal`, `TerminalHub` | one session's critical sections as steps, with the shell's output and every channel kept as history; the registry and its per-user limit |
| updater | `Backups`, `Updater` | backup, install, health check and rollback, where each operation may fail |
| file manager | `Text`, `Paths`, `Tree`, `FileManager` | path cleaning, the kernel's walk through links, and the operations below an allowed root |
| accounts | `Accounts` | user and session tables, with compensation when the system helper fails |
| secrets | `Secrets` | the writer and the reader of the environment file |

How the models are built:

* Code that changes state is a class (`Notifications.Service`, `Monitors.Monitor`, `TerminalHub.HubSession`,
  `TerminalHub.Hub`, `Updater.Host`, `FileManager.Disk`, `Accounts.Store`, `Secrets.SecretsFile`). Its methods are proved
  equal to functions on values, or directly against the promised outcome; lemmas then speak about those functions over all
  runs.
* A transaction is one step. `ProcessOnce` is not a transaction: each of its SQL statements is a step of its own
  (`Worker.Step`), and `Refinement` shows that one call, with whatever Enqueue calls and administrators' edits fall in
  between and whichever statement fails, is a run of those steps.
* Clocks, the success of `Send`, failing file operations, what a started service does to the database, and the reads of
  the shell are parameters, so every theorem holds for all of them.

Where the code differs from its comments or documentation the model follows the code:

* `docs/backend.md:112` lets a new signal through once the cooldown after a recovery is over. The code accepts it, but it
  reuses the scope's dedup key, finds the old row, and creates neither event nor delivery
  (`Fanout.RetriggerNotifiesNobody`, at fixed times `Fanout.RetriggerIsSilent` and `Fanout.RetriggerExample`).
  `Fanout.AlertNotifiesIffKeyIsFree` gives the exact condition under which an accepted alert reaches anybody; over runs with
  scope-specific keys a trigger does if and only if it is the first of its scope (`Fanout.TriggerNotifiesIffFirst`).
* The comment "two consecutive checks" (`monitor.go:263`) is not exact: a reading between the limit and five points below
  it keeps the count (`Hysteresis.AlarmWithoutConsecutiveHighs`, `Hysteresis.CounterMeans`).
* The recovery filter is a prefix match, so recovering one subject also resolves the events of subjects that continue its
  name, in either letter case (`Recovery.RecoveryReachesLongerSubjects`, `Recovery.RecoveringWebReachesWeb2`). An underscore
  in the name stands for any character there (`Recovery.RecoveryReachesExactly`, `Recovery.RecoveringUnderscoreReachesAny`).
* With the default sudoers path the base name of the sudoers file is that of the installed binary. On a host that has the
  sudoers file the backup can never be completed, so the update always stops before it installs anything
  (`Backups.DefaultSudoersBlocksBackup`); on one that has not, rolling back leaves the old binary at the sudoers path
  (`Backups.DefaultSudoersGetsBinary`).
* A rollback does not undo everything. A database file that was absent is absent again exactly when no stray file of its
  name is among the backups, because base names share one directory; a shipped file that was absent, exactly when in
  addition the update had not placed it (`Backups.RollbackRestores`, `Updater.Host.PerformUpdate`).
* `docs/backend.md:103` says that `..` is refused. The code refuses it only when the walk leaves the root
  (`Paths.CleanRelativeIsExact`): `a/../b` is accepted as `b` (`Paths.DotDotInsideIsAccepted`).
* `docs/backend.md:105` allows two terminal sessions a user; the code means eight, and holds to it only while no two
  Creates of the user overlap: with c in flight 7 + c sessions can be reached, and no more
  (`TerminalHub.LimitHoldsIffSerial`).
* The writer of the secrets file has no size limit and the reader has one: a token is read back exactly when the first line
  that sets it ends within the first 64 KiB (`Secrets.TokenReadBackIff`).

## Model

| member | source | states |
|---|---|---|
| Store.FindDedup | backend/internal/database/migrations/001_core.sql:30 | the row found for a dedup key holds that key; none is found only if no row holds it |
| Store.InsertDeliveries | backend/internal/notifications/service.go:194-198 | one batch insert adds exactly consecutive new rows, one pending row a recipient in order, and changes no other row |
| Store.FirstDue | backend/internal/notifications/service.go:204-207 | the row picked is due and no due row has a smaller id; none is picked only if none is due |
| Decimal.StampSplits | backend/internal/notifications/service.go:117 | a key stamped with a decimal time determines the key and the time, so stamped keys of different keys or times differ |
| Like.OwnPrefixMatches | backend/internal/notifications/service.go:149 | a key used as its own LIKE prefix matches itself and everything that extends it, even with % or _ inside |
| Like.PrefixMatches | backend/internal/notifications/service.go:149 | for a key without %, LIKE key% holds if and only if the text is long enough and agrees with the key place by place, ignoring case, where an underscore of the key agrees with anything |
| Like.PlainPrefixMatches | backend/internal/notifications/service.go:149 | without wildcards, LIKE key% holds if and only if the text starts with the key, ignoring case |
| Alerts.EnqueueEffect | backend/internal/notifications/service.go:65-199 | whatever a transaction decides, it adds at most one event, with its key, severity and time, and one pending delivery for each chosen recipient, resolves only what a recovery may resolve, and cancels only pending deliveries of events resolved now |
| Alerts.EnqueueKeeps | backend/internal/notifications/service.go:65-199 | every transaction keeps ids in range, dedup keys unique and at most one delivery for an event and recipient |
| Alerts.CreateEffect | backend/internal/notifications/service.go:131-141 | createEvent returns a row holding the dedup key: either the one that was there, nothing changed, or a fresh one with its deliveries |
| Alerts.ChosenDistinct | backend/internal/notifications/service.go:169-190 | the recipients chosen are distinct and known |
| Alerts.SelectionOverridesAudience | backend/internal/notifications/service.go:169-190 | recipients selected for a rule are exactly those chosen, whatever the audience; without a selection those who want the audience; disabled ones never |
| Worker.StepIsGood | backend/internal/notifications/service.go:201-271 | every step of the system, in any order, keeps the tables sound and the worker's copy of its row in agreement with the table |
| Worker.RunIsGood | backend/internal/notifications/service.go:201-287 | so does every run |
| Worker.EditIsExact | backend/internal/httpapi/notification_rules.go:51-93 | when a rule edit, a change of the recipients or of the retry count is accepted, and exactly what it changes: the rule with its own selection, the recipients with the selections of those removed, the count, and nothing else |
| Notifications.Service.Enqueue | backend/internal/notifications/service.go:65-129 | an invalid event is refused and changes nothing; any other leaves the tables and returns the id of the specified transaction, keeping them sound |
| Notifications.Service.Transact | backend/internal/notifications/service.go:75-127 | rule lookup with its default, the disabled rule, the instant event, and the stateful rest of the transaction |
| Notifications.Service.TransactScope | backend/internal/notifications/service.go:91-101 | the scope row, created when missing, and the branch between recovery and alert |
| Notifications.Service.TransactAlert | backend/internal/notifications/service.go:102-126 | suppression inside the repeat interval or the cooldown, else the accepted alert, as the transaction specifies |
| Notifications.Service.Accept | backend/internal/notifications/service.go:115-126 | an accepted alert inserts under the base key or a repeat key and makes the scope active, keeping the trigger time of an active one |
| Notifications.Service.CreateEvent | backend/internal/notifications/service.go:131-141 | the insertion with its dedup conflict branch |
| Notifications.Service.CreateDeliveries | backend/internal/notifications/service.go:169-199 | a loop that inserts one delivery a chosen recipient, or marks the event skipped |
| Notifications.Service.EnqueueRecovery | backend/internal/notifications/service.go:143-168 | nothing when inactive; else resolve, cancel, make the scope inactive and, if wanted, insert the recovery's own event |
| Notifications.Service.UpdateRule | backend/internal/httpapi/notification_rules.go:51-93 | replaces a known rule and its selection, or changes nothing when the rule or a selected recipient is unknown |
| Notifications.Service.UpdateRecipients | backend/internal/database/migrations/001_core.sql:31-36 | recipients change as far as the deliveries' foreign key allows, and selections of removed ones go with them |
| Notifications.Service.Interleave | backend/internal/notifications/service.go:65-129 | the transactions other goroutines run between two statements of the worker: Enqueue calls and administrators' edits |
| Notifications.Service.ProcessOnce | backend/internal/notifications/service.go:201-210 | tables and both results are those of the worker's steps for the same interleaving, sends and failures |
| Notifications.Service.Claim | backend/internal/notifications/service.go:211-217 | the conditional update from pending to sending; a row taken meanwhile counts as progress |
| Notifications.Service.LookUp | backend/internal/notifications/service.go:218-223 | the lookup of the event in a statement of its own, with transactions before it |
| Notifications.Service.LookUpRecipient | backend/internal/notifications/service.go:224-226 | the lookup of the recipient in a statement of its own |
| Notifications.Service.Send | backend/internal/notifications/service.go:227-230 | the settings row as read by its own statement, and the send |
| Notifications.Service.Record | backend/internal/notifications/service.go:231-248 | attempts, status, backoff or delivery time as recorded from the row that was read |
| Notifications.Service.UpdateEventStatus | backend/internal/notifications/service.go:251-255 | the count of open deliveries, and what follows, when either count or the write may fail |
| Notifications.Service.CountFailures | backend/internal/notifications/service.go:256-258 | the count of failed deliveries, with transactions between the two counts |
| Notifications.Service.WriteEventStatus | backend/internal/notifications/service.go:259-265 | the status written, unless the event is resolved |
| Notifications.Service.DrainQueue | backend/internal/notifications/service.go:282-284 | the inner loop ends after at most as many productive rounds as the pending deliveries have claims left, and then nothing is due |
| Notifications.Service.Round | backend/internal/notifications/service.go:282-284 | one round that progresses lowers the claims left, and one that does not fail either found nothing due |
| Notifications.Service.RecoverInFlight | backend/internal/notifications/service.go:268-271 | every sending row becomes pending and due now, every other row and every other table stays as it was |
| Refinement.ProcessKeeps | backend/internal/notifications/service.go:201-266 | whatever every machine step keeps, one ProcessOnce call keeps, for every interleaving and failure inside it |
| Refinement.ProcessIsRun | backend/internal/notifications/service.go:201-266 | one ProcessOnce call reaches only states that runs of the machine reach |
| Refinement.ProcessLowers | backend/internal/notifications/service.go:201-249 | an undisturbed call that made progress lowers the number of claims left; one that neither progressed nor failed found nothing due |
| Lifecycle.FinalIsForever | backend/internal/notifications/service.go:154-271 | delivered, failed and cancelled rows never change again over any run, and are never sent again |
| Lifecycle.SendsAreBounded | backend/internal/notifications/service.go:201-271 | with retry counts up to R and k restarts a delivery reaches Send at most R + 1 + k times and succeeds at most 1 + k times |
| Lifecycle.SendingMeansHeld | backend/internal/notifications/service.go:211-245 | as long as no call is cut short by an error or a crash, a delivery is in "sending" exactly while the worker holds it |
| Lifecycle.ReferencesHold | backend/internal/database/migrations/001_core.sql:32-33 | in every reachable state, whatever administrators edit, the event and the recipient of each delivery and every selected recipient exist, so the lookups after a claim fail by a database error only |
| Lifecycle.StrandedUntilRestart | backend/internal/notifications/service.go:204-229 | a row left in "sending" is neither sent nor cancelled nor retried over any run until the service restarts |
| Lifecycle.RestartFreesAll | backend/internal/notifications/service.go:268-274 | a restart whose recovery statement works leaves no row in "sending", makes those that were there due at once, and touches no other; one whose statement fails, which Run ignores, touches none |
| Backoff.SendsAreSpaced | backend/internal/notifications/service.go:204-238 | without a restart, send n + 1 of a delivery comes at least min(2^n, 3600) seconds after the clock reading of send n |
| Backoff.WaitingIsExact | backend/internal/notifications/service.go:196-245 | without a restart a waiting delivery is due exactly when its event was created, or after n sends exactly 2, 4, 8 and so on up to 2048 and then 3600 seconds after the clock reading of the last one; it is delivered if and only if a send succeeded, with the time of that send |
| Backoff.FailsExactly | backend/internal/notifications/service.go:231-235 | without a restart and under a retry count R it has failed if and only if it was sent R + 1 times without success |
| Backoff.FailingTakesTime | backend/internal/notifications/service.go:231-238 | a delivery that ends failed under a retry count R up to 10 was sent exactly R + 1 times, over at least 2^(R+1) - 2 seconds |
| EventStatuses.CountsGiveAggregate | backend/internal/notifications/service.go:251-264 | the two counts give the status that "some open, else some failed, else delivered" defines |
| EventStatuses.StatusMatchesDeliveries | backend/internal/notifications/service.go:143-154 | under strictly increasing transaction times an event neither resolved nor skipped is pending or has the aggregate of its deliveries, and exactly the aggregate unless a ProcessOnce owes it a write or was cut short before one |
| EventStatuses.ResolvedIsForever | backend/internal/notifications/service.go:143-265 | over any run an event keeps its rule, severity, dedup key and creation time, the time of its resolution never changes, and a resolved event stays resolved whatever the worker writes |
| Scopes.EnqueueState | backend/internal/notifications/service.go:95-126 | a transaction writes the state row of its own scope, as its verdict says, and no other |
| Scopes.EnqueueReports | backend/internal/notifications/service.go:119-122 | the event id an accepted alert stores is the id of a row with the alert's key |
| Scopes.EveryScopeHasShape | backend/internal/notifications/service.go:95-167 | in every reachable state an active scope has dedup key, event, trigger and notify times in order and no resolution; an inactive one with a history has a resolution and no key; accepted steps form (trigger repeat* recovery)* |
| Decisions.AcceptedIff | backend/internal/notifications/service.go:77-126 | in every reachable state an Enqueue is accepted if and only if it is valid and stateful, its rule enabled, and: for a recovery, the last accepted step of its scope was an alert; for an alert, there is none, or it was a recovery whose cooldown is over or an alert whose repeat interval is positive and over; without a stored rule the default one counts, with 600 and 1800 seconds |
| Decisions.EventIsAddedIff | backend/internal/notifications/service.go:77-198 | it inserts an event if and only if it is instant under an enabled rule or accepted (and, for a recovery, to be sent) and its dedup key is free: exactly one row, column by column, with one pending delivery, due now, for each recipient chosen; otherwise no row is added |
| Decisions.StateRowIs | backend/internal/notifications/service.go:95-167 | an accepted step writes the whole state row of its scope, column by column, pointing to the row with its dedup key; nothing else writes it; the rule in force is stored and no other rule changes |
| Decisions.OldRowsAre | backend/internal/notifications/service.go:143-156 | an Enqueue changes an existing event or delivery if and only if it is an accepted recovery that reaches it; then it resolves the event now, or cancels the pending delivery |
| Pacing.AlertsArePaced | backend/internal/notifications/service.go:99-126 | accepted repeats keep the repeat interval, triggers keep the cooldown after the recovery before them, and a window of width W holds at most W / min(R, C) + 1 alerts |
| Pacing.NoIntervalNoRepeats | backend/internal/notifications/service.go:102-104 | with a repeat interval of zero or less an active scope never alerts again |
| Recovery.RecoveryResolves | backend/internal/notifications/service.go:147-151 | an accepted recovery resolves an event if and only if it is unresolved, of the same key and, for a subject, LIKE the recovery's own key |
| Recovery.RecoveryCancelsExactly | backend/internal/notifications/service.go:154-156 | a delivery is cancelled if and only if it is pending on an event that the recovery resolves or that was resolved under the same key at the same instant; every other one stays |
| Recovery.RecoveryCancels | backend/internal/notifications/service.go:154-156 | so what was pending on an event it resolves is cancelled |
| Recovery.SameInstantCancels | backend/internal/notifications/service.go:154 | cancelling by resolution time also cancels what an earlier recovery of the same instant has queued |
| Recovery.RecoveryIsFramed | backend/internal/notifications/service.go:143-167 | its scope ends inactive, resolved now and pointing to the recovery's event if one is sent; no other scope's row and no event of another key changes; its own deliveries are the only new rows and pending |
| Recovery.RecoveryIsComplete | backend/internal/notifications/service.go:143-156 | after it no event its scope ever inserted is unresolved and none that it resolved has a pending delivery, whatever characters the subject holds, when the events of a subject carry one key; without a subject, whatever their keys |
| Recovery.RecoveryReachesLongerSubjects | backend/internal/notifications/service.go:148-150 | for keys without wildcards exactly the events whose key starts with it, ignoring case, are reached, those of longer subjects included |
| Recovery.RecoveryReachesExactly | backend/internal/notifications/service.go:148-150 | for a key without % exactly the unresolved events of the same rule whose key agrees with it place by place, underscores agreeing with anything, and may go on after it |
| Recovery.RecoveringUnderscoreReachesAny | backend/internal/notifications/service.go:148-150 | recovering the object a_b of any rule resolves an open event of its object axb |
| Recovery.RecoveringWebReachesWeb2 | backend/internal/notifications/service.go:148-150 | recovering the object web of any rule resolves an open event of its object web2 |
| Fanout.FanOutHappensOnce | backend/internal/notifications/service.go:131-199 | in every reachable state dedup keys are unique and an event has at most one delivery to a recipient |
| Fanout.DeliveriesComeWithTheirEvent | backend/internal/notifications/service.go:140-198 | a delivery appears only in the transaction that inserts its event, which serves exactly the chosen recipients |
| Fanout.AlertNotifiesIffKeyIsFree | backend/internal/notifications/service.go:133-140 | an accepted alert inserts an event with deliveries if and only if no row holds its dedup key; otherwise it notifies nobody |
| Fanout.RepeatsAreFresh | backend/internal/notifications/service.go:102-119 | under a non-decreasing clock and scope-specific keys every accepted repeat inserts a fresh row |
| Fanout.RetriggerNotifiesNobody | backend/internal/notifications/service.go:115-138 | a trigger after a recovery makes the scope active and adds neither event nor delivery |
| Fanout.RetriggerIsSilent | backend/internal/notifications/service.go:99-141 | any alert under the default rule, its recovery a nanosecond later, and the alert again after 601 seconds, past the cooldown: accepted, and no event and no delivery |
| Fanout.RetriggerExample | backend/internal/notifications/service.go:99-141 | the same for one alert on tables that hold nothing but one enabled recipient |
| Fanout.TriggerNotifiesIffFirst | backend/internal/notifications/service.go:115-141 | when a scope has one dedup key of its own, an accepted trigger inserts an event with deliveries if and only if the scope has accepted nothing before |
| Fanout.RecoveryNotifiesIffKeyIsFree | backend/internal/notifications/service.go:158-167 | a recovery that is to be sent inserts its event and deliveries if and only if no row holds its stamped key; otherwise no row is added |
| Fanout.RecoveriesAreFresh | backend/internal/notifications/service.go:161-164 | under strictly increasing transaction times and keys without a recovery stamp every accepted recovery that is to be sent inserts a fresh event |
| Drain.ClaimsAreBounded | backend/internal/notifications/service.go:201-249 | without new events the worker claims at most max(1, RetryCount + 1 - attempts) times a pending row, summed, whatever the clock reads |
| Drain.StepLowers | backend/internal/notifications/service.go:211-245 | each claim strictly lowers that measure and no other worker statement raises it |
| Progress.CallIsProcess | backend/internal/notifications/service.go:201-249 | an undisturbed call in which no statement fails is its statements run one after the other |
| Progress.CallIsExact | backend/internal/notifications/service.go:201-265 | such a call takes the first pending row that is due, sends it once and records it, column by column: delivered now, or one attempt more and due after 2, 4, 8 .. 3600 seconds, or failed beyond the retry count; its event gets the aggregate of its deliveries unless it is resolved; nothing else changes |
| Progress.IdleCallIsExact | backend/internal/notifications/service.go:204-207 | a call that finds nothing due changes nothing and reports neither progress nor an error |
| Progress.ResultsAre | backend/internal/notifications/service.go:201-266 | for every interleaving and failure a call reports progress if and only if it found a row that is due and neither the read nor the claim failed, and an error if and only if a statement that it reached failed |
| Progress.OneCall | backend/internal/notifications/service.go:201-249 | when all that is pending is due, such a call lowers the claims left unless there are none, cuts nothing short, and leaves whatever is pending due within an hour |
| Progress.QueueDrains | backend/internal/notifications/service.go:201-284 | from any reachable idle state with no row in "sending", undisturbed calls at least an hour apart, at least as many as there are claims left, make every delivery final and give every event, unless resolved, skipped or cut short before, the aggregate of its deliveries |
| Hysteresis.CounterMeans | backend/internal/monitor/monitor.go:264-279 | after any readings the counter is zero exactly when none, and at least two exactly when two, reached their limit since the last reading more than 5 below its limit |
| Hysteresis.BandChangesNothing | backend/internal/monitor/monitor.go:266-271 | a reading in the band changes neither whether an alert nor whether a recovery is due |
| Hysteresis.AlarmWithoutConsecutiveHighs | backend/internal/monitor/monitor.go:263 | 95, 87, 95 against a limit of 90 alarms although no two consecutive readings are high |
| Watching.FlagsDiffer | backend/internal/monitor/monitor.go:102 | flags of keys without the separator tell key and subject apart |
| Watching.SeedAgrees | backend/internal/monitor/monitor.go:139-149 | after a restart the flags are exactly those of the active per-object rows |
| Watching.RaiseAgrees | backend/internal/monitor/monitor.go:180-185 | raising keeps every active object flagged, whatever the rule decides |
| Watching.RaiseOutcome | backend/internal/monitor/monitor.go:180-185 | raising sets the flag and makes the row of the object active, under its own dedup key, if and only if it was active or its rule is enabled and no cooldown runs; no other row changes |
| Watching.ResolveSendsIffFlagged | backend/internal/monitor/monitor.go:187-195 | resolving clears the flag and sends a recovery, which resolves an active row now, if and only if the flag was set; no other row changes |
| Watching.MonitorKeysFit | backend/internal/monitor/monitor.go:180-195 | an alert and its recovery share scope and dedup key, and meet what the completeness of recoveries asks for |
| Watching.ResolveOutcome | backend/internal/monitor/monitor.go:187-195 | resolving leaves the row active if and only if it was active and its rule is disabled, and flags and rows stay in step exactly when it ends inactive |
| Watching.MonitorStaysInStep | backend/internal/monitor/monitor.go:139-195 | over every run of raises, resolves, restarts and foreign transactions an active stored alert about an object is flagged, if rules are enabled when their alerts are resolved |
| Watching.ResolvedObjectIsInactive | backend/internal/monitor/monitor.go:187-195 | so an object that is resolved always ends inactive |
| Containers.PollReports | backend/internal/monitor/monitor.go:205-232 | for every container and both alerts, what is outstanding after a poll in terms of what was before and of the two observed states |
| Containers.RunningMeansRecovered | backend/internal/monitor/monitor.go:213-231 | after a poll with both rules enabled no running container has a stored "stopped" alert and no healthy one an "unhealthy" one |
| Containers.PollStores | backend/internal/monitor/monitor.go:197-236 | the stored alerts about a listed container after a poll: "stopped" inactive when it runs, active when it went down and no cooldown runs, else as before; "unhealthy" active when it runs, Docker says so and no cooldown runs, inactive when it runs otherwise, else as before |
| Containers.RestartsAreReported | backend/internal/monitor/monitor.go:221-225 | a poll reports a restart, by an event of its own stamped with the clock reading, if and only if it lists the container as restarting and the last poll did not |
| Containers.StopReports | backend/internal/monitor/monitor.go:214-220 | the event that a container causes when it stops or runs again, column by column, and that nothing else does |
| Containers.RestartReports | backend/internal/monitor/monitor.go:221-225 | the same when it restarts |
| Containers.HealthReports | backend/internal/monitor/monitor.go:227-231 | the same about its health |
| Containers.StoppedMeans | backend/internal/monitor/monitor.go:197-236 | after any polls a "stopped" alert is outstanding exactly when two consecutive polls saw the container go down and none saw it running since, or it is older than the restart and no poll saw it running |
| Monitors.Monitor.SeedFlags | backend/internal/monitor/monitor.go:140-149 | containers and counters are forgotten and the flags rebuilt from the active rows |
| Monitors.Monitor.RaiseAlert | backend/internal/monitor/monitor.go:180-185 | the flag is set and the alert enqueued |
| Monitors.Monitor.ResolveAlert | backend/internal/monitor/monitor.go:187-195 | the flag is cleared, and a recovery enqueued exactly if it was set |
| Monitors.Monitor.CountReading | backend/internal/monitor/monitor.go:265-273 | each subject's counter is the count of its own readings, whatever is read of others in between |
| Monitors.Monitor.Threshold | backend/internal/monitor/monitor.go:264-279 | raise exactly when two readings reached the limit since the last low one, resolve exactly when none did, else nothing |
| Monitors.Monitor.CheckContainer | backend/internal/monitor/monitor.go:205-231 | the events one listed container causes |
| Monitors.Monitor.CheckDocker | backend/internal/monitor/monitor.go:197-236 | a poll handles every container that is not ignored in order and remembers exactly their states; a failing one changes nothing |
| Terminal.ReplayIsGapless | backend/internal/terminal/hub.go:78-148 | for every interleaving an attachment's replay and live chunks are one contiguous slice of the shell's output from max(0, h - 262144) to where it was closed, just before the dropped chunk if it was too slow |
| Terminal.SuccessorsMissNothing | backend/internal/terminal/hub.go:78-92 | two successive attachments, less their overlap, give one contiguous slice if at most 262144 bytes came between them |
| Terminal.TakeoverMissesNothing | backend/internal/terminal/hub.go:81-86 | an attachment that was taken over ends exactly where its successor begins |
| Terminal.ChannelsAreDisciplined | backend/internal/terminal/hub.go:78-148 | a channel is open exactly when it is the attached one, none is after exit, none buffers more than 256 chunks, and WasReplaced names the latest channel closed by a takeover and no other |
| Terminal.ClosedIsForever | backend/internal/terminal/hub.go:82-143 | over any continuation of a run a closed channel stays closed and nothing more is sent on it; what was sent stays in order |
| Terminal.ClosesIff | backend/internal/terminal/hub.go:78-148 | an open channel is closed by its own detach, a later attach, a chunk that finds 256 waiting, or the exit, and by nothing else; reason and output length are noted |
| Terminal.DetachCloses | backend/internal/terminal/hub.go:94-101 | after detaching, the channel is not open and not attached; it was closed only if it was attached, and no other channel nor the scrollback is affected |
| Terminal.AttachHandsOut | backend/internal/terminal/hub.go:78-103 | attaching closes the attached channel and hands out a fresh one with the scrollback, open unless the shell has exited |
| Terminal.DeliverHandsOver | backend/internal/terminal/hub.go:120-131 | a chunk goes to the attached channel, unless 256 are waiting there: then that channel is closed |
| Terminal.OutputIsWritten | backend/internal/terminal/hub.go:116-123 | the output is all that the shell wrote until its exit, and the scrollback its last 262144 bytes |
| Terminal.ExitedIff | backend/internal/terminal/hub.go:141-142 | the session has exited if and only if the exit happened |
| TerminalHub.HubSession.CloseChannel | backend/internal/terminal/hub.go:82-143 | only an open channel is ever closed |
| TerminalHub.HubSession.Attach | backend/internal/terminal/hub.go:78-103 | the takeover, the new channel, the replay, and the immediate close after exit |
| TerminalHub.HubSession.Detach | backend/internal/terminal/hub.go:94-101 | closes the channel only while it is still the attached one |
| TerminalHub.HubSession.WasReplaced | backend/internal/terminal/hub.go:106-110 | whether this channel was the last one taken over |
| TerminalHub.HubSession.Deliver | backend/internal/terminal/hub.go:118-132 | one chunk into the bounded scrollback and to the attached channel, or the drop of a full one |
| TerminalHub.HubSession.Take | backend/internal/terminal/hub.go:115-136 | one turn of the loop: an empty read delivers nothing, and bytes that come with an error are delivered |
| TerminalHub.HubSession.Pump | backend/internal/terminal/hub.go:112-148 | all bytes up to the first failing read are delivered in order, then the session exits |
| TerminalHub.ChunksAre | backend/internal/terminal/hub.go:114-138 | what the pump delivers are exactly the bytes of the reads up to the first failing one, its own included, in chunks of which none is empty |
| TerminalHub.HubSession.End | backend/internal/terminal/hub.go:140-146 | the exit closes the attached channel |
| TerminalHub.SessionsAreCapped | backend/internal/terminal/hub.go:163-188 | with at most c Creates of a user in flight, registered sessions and checked insertions together never exceed 7 + c |
| TerminalHub.CapIsReached | backend/internal/terminal/hub.go:163-188 | for every c of at least one there is a run with at most c Creates in flight after which the user has 7 + c sessions |
| TerminalHub.LimitHoldsIffSerial | backend/internal/terminal/hub.go:13-18 | the limit of eight holds on all runs with at most c Creates in flight if and only if c is at most one |
| TerminalHub.CreateSucceedsIff | backend/internal/terminal/hub.go:163-188 | a Create ends with a session of its user if and only if fewer than eight were registered when it looked; one refused or failing leaves nothing |
| TerminalHub.LeavingFreesPlace | backend/internal/terminal/hub.go:189-192 | an ended session is gone, frees exactly its own place, and leaves all others to their owners |
| TerminalHub.PlaceIsFreeAgain | backend/internal/terminal/hub.go:163-192 | after one of eight sessions has ended the next Create succeeds |
| TerminalHub.Hub.CountOwned | backend/internal/terminal/hub.go:165-170 | the loop counts exactly the user's sessions |
| TerminalHub.Hub.MayCreate | backend/internal/terminal/hub.go:164-174 | the check passes exactly below eight sessions |
| TerminalHub.Hub.Insert | backend/internal/terminal/hub.go:186-188 | the insertion, in a critical section of its own |
| TerminalHub.Hub.Remove | backend/internal/terminal/hub.go:189-192 | an ended session leaves the registry |
| TerminalHub.Hub.Get | backend/internal/terminal/hub.go:217-225 | a session is found by its own user only |
| Backups.BackupMeans | backend/internal/updater/maintenance.go:198-208 | a backup can complete exactly when all sources exist, their base names differ and are free in the backup directory, and then it holds each source's content and changed nothing else |
| Backups.RestoreDbMeans | backend/internal/updater/maintenance.go:402-419 | a restored database file exists exactly if its backup does, with that content |
| Backups.RestoreMeans | backend/internal/updater/maintenance.go:188-193 | whatever a restore writes comes from the backup of that base name, and a shipped file without one is left alone |
| Backups.StrayMeans | backend/internal/updater/maintenance.go:257-264 | a completed backup has a file of a given name exactly when one was left there or a file that existed has the name |
| Backups.RollbackRestores | backend/internal/updater/maintenance.go:183-196 | after a complete backup and any change to the touched files, restoring brings back the binary and every shipped file that existed; each database file, including its absence, exactly when no stray file has its name; and the absence of a shipped file exactly when, besides, the update had not placed it |
| Backups.DefaultSudoersBlocksBackup | backend/internal/updater/maintenance.go:91 | when the sudoers file exists under the binary's base name no backup can complete |
| Backups.DefaultSudoersGetsBinary | backend/internal/updater/maintenance.go:266-271 | when it does not exist, rolling back writes the old binary there |
| Updater.Host.CopyFile | backend/internal/updater/maintenance.go:421-452 | copies only onto a name that is free; a failure changes at most that name |
| Updater.Host.CopyFileAtomic | backend/internal/updater/maintenance.go:454-485 | replaces the destination whole, or changes nothing |
| Updater.Host.WriteFileAtomic | backend/internal/updater/maintenance.go:499-522 | installs the new content whole, or changes nothing |
| Updater.Host.BackupDatabase | backend/internal/updater/maintenance.go:387-400 | saves the database files that exist and changes nothing outside the backup directory; it stops exactly when an operation on one fails or a name is taken |
| Updater.Host.BackupAux | backend/internal/updater/maintenance.go:204-208 | saves the shipped files that exist; it stops exactly when an operation on one fails or a name is taken |
| Updater.Host.Backup | backend/internal/updater/maintenance.go:198-209 | completes if and only if no operation on a source fails and no name collides, and changes nothing outside the backup directory |
| Updater.Host.RestoreDatabaseBackup | backend/internal/updater/maintenance.go:402-419 | restores all three files if and only if no operation on them fails; else exactly those before the first failure, whose own file is removed unless removing it is what failed; nothing else is touched |
| Updater.Host.RestoreAuxFile | backend/internal/updater/maintenance.go:266-271 | restores a shipped file exactly if a file of its base name is among the backups and neither operation fails, else changes nothing |
| Updater.Host.Rollback | backend/internal/updater/maintenance.go:183-196 | stops the service; after a complete backup it tries each of the four restorations whatever became of the others, otherwise it touches no file; and it never touches anything an update does not touch |
| Updater.Host.RestoreFiles | backend/internal/updater/maintenance.go:188-193 | the binary, the database files, the sudoers file and the unit are restored independently of each other, each exactly if its own operations work |
| Updater.Host.Install | backend/internal/updater/maintenance.go:210-231 | succeeds if and only if every operation it reaches works, the reload, the start and the health check included; touches only the binary and the two shipped files, places exactly those it gets to; on success all that are shipped are new and the service was started on them |
| Updater.InstalledMeans | backend/internal/updater/maintenance.go:210-222 | file by file what is installed: the binary, the sudoers file and the unit that are shipped, and every other file as it was |
| Updater.Host.PerformUpdate | backend/internal/updater/maintenance.go:172-235 | succeeds if and only if the directory is made, the service stops, the backup completes and the installation works; then the service runs on what is installed, and only the backup directories it prunes are gone. After any failure behind the stop the service is started again on what the rollback left, and runs if and only if that start works; if the rollback's own operations work the files are rolled back, with the exact exceptions above; without a complete backup nothing outside the backup directory changed; a failing update changes nothing else |
| Text.JoinSplit | backend/internal/secrets/telegram.go:103-115 | joining what was split gives the text back |
| Text.SplitJoin | backend/internal/secrets/telegram.go:103-115 | splitting what was joined gives the parts back, if none holds the separator |
| Paths.ReduceMeans | backend/internal/files/files.go:227 | a cleaned relative path starts with ".." exactly when its walk goes above its start, and else has as many names as the walk is deep |
| Paths.SimplePathIsClean | backend/internal/files/files.go:223-235 | a path of simple names is accepted as it is |
| Paths.CleanRelativeIsExact | backend/internal/files/files.go:223-235 | accepted are exactly the relative paths without NUL whose walk never leaves the root; the result has simple names only and is a fixed point |
| Paths.DotDotInsideIsAccepted | backend/internal/files/files.go:223-235 | a/../b is accepted, as b |
| Tree.WalkOn | backend/internal/files/files.go:250-268 | a lookup goes on from a directory as if it had started there |
| Tree.WalkPlainly | backend/internal/files/files.go:250-268 | simple names below real directories lead where they say |
| Tree.CleanedPathIsWalked | backend/internal/files/files.go:223-235 | when a path as given passes only real directories up to its last component, the kernel walking it ends at the place that the cleaned names say |
| Tree.CleanedRootIsWalked | backend/internal/files/files.go:238 | the same for an absolute root |
| Tree.TargetIsWalked | backend/internal/files/files.go:237-269 | such a request is resolved to exactly the entry where the kernel would end; a link there is refused, and a missing entry unless that is allowed |
| Tree.LinkedRootIsRefused | backend/internal/files/files.go:238-242 | a root that is a link or no directory allows nothing |
| Tree.LookBelowRoot | backend/internal/files/files.go:254 | an lstat below the root sees exactly the entry named, following no link |
| Tree.AcceptedPathIsPhysical | backend/internal/files/files.go:237-269 | following links, an accepted path leads to the root's place extended by its cleaned names and nowhere else; its parents are real directories; only its last component may be missing, where that is allowed |
| Tree.RedirectedPathIsRefused | backend/internal/files/files.go:261-266 | a path that links would redirect is refused |
| Tree.EntryPathIs | backend/internal/files/files.go:290 | the path reported for an entry is the directory's path and the name |
| Tree.ListedPathResolvesBack | backend/internal/files/files.go:283-291 | each path list reports resolves back to its entry; exactly the links are refused |
| FileManager.Disk.Resolve | backend/internal/files/files.go:237-269 | accepts exactly the safe targets and returns the root's clean path extended by the cleaned names |
| FileManager.Disk.Components | backend/internal/files/files.go:250-268 | the loop accepts exactly when no component is a link, all parents are directories, and the last exists or may be missing |
| FileManager.Disk.Remove | backend/internal/files/files.go:396-408 | removes exactly the target, strictly below the root and never the root, if it is a file or an empty directory; reports a failing directory sync although it is gone |
| FileManager.Disk.Mkdir | backend/internal/files/files.go:375-394 | makes exactly one directory, at a free target strictly below the root; reports a failing sync although it is made |
| FileManager.Disk.Write | backend/internal/files/files.go:318-373 | replaces or creates exactly one regular file strictly below the root; reports a failing sync although it is in place |
| Accounts.OpKeepsAdmin | backend/internal/httpapi/user_handlers.go:161-167 | an operation that takes an active admin away leaves another |
| Accounts.AdminsSurvive | backend/internal/httpapi/user_handlers.go:131-297 | over every serial run, whoever acts, an active admin remains and sessions refer to existing users |
| Accounts.ActorStaysAdmin | backend/internal/httpapi/user_handlers.go:151-153 | an active admin cannot lose that standing by an own operation |
| Accounts.NoSessionOutlivesAccount | backend/internal/httpapi/user_handlers.go:177-179 | a disabled account has only revoked sessions and a deleted one none |
| Accounts.UpdateIsExact | backend/internal/httpapi/user_handlers.go:151-187 | an update is accepted if and only if the account exists, nobody gives up the own active admin standing, and an active admin remains if there was one; what it stores, column by column, and which sessions it revokes; which answer a refused one gets |
| Accounts.DeleteIsExact | backend/internal/httpapi/user_handlers.go:188-276 | when a deletion goes through, and that then exactly the account with its sessions is gone, or its sessions are revoked, or nothing changes |
| Accounts.DeleteAnswers | backend/internal/httpapi/user_handlers.go:212-267 | which answer a deletion that is not done gets, each if and only if its condition holds |
| Accounts.ResetIsExact | backend/internal/httpapi/user_handlers.go:298-331 | a reset stores the new hash, makes its owner change it and revokes the sessions of that account; of an unknown account nothing |
| Accounts.CreateIsExact | backend/internal/httpapi/user_handlers.go:68-76 | an account is created if and only if its id and its name are free, and nothing else changes |
| Accounts.Store.IsLastActiveAdmin | backend/internal/httpapi/user_handlers.go:370-374 | whether no other active admin exists |
| Accounts.Store.UpdateUser | backend/internal/httpapi/user_handlers.go:131-187 | which guard answers, and the row and sessions an accepted change leaves |
| Accounts.Store.RestoreSessions | backend/internal/httpapi/user_handlers.go:277-286 | all saved rows are back, or none |
| Accounts.Store.RestorePanelUser | backend/internal/httpapi/user_handlers.go:287-297 | the user and all its sessions are back, or nothing |
| Accounts.Store.DeleteUser | backend/internal/httpapi/user_handlers.go:188-276 | which guard answers; success deletes or revokes; a failing helper with a working restore leaves both tables exactly as they were |
| Accounts.Store.Compensate | backend/internal/httpapi/user_handlers.go:260-271 | both restore paths undo exactly the deletion or the revocation |
| Secrets.WriteKeepsOtherLines | backend/internal/secrets/telegram.go:103-115 | all lines that do not set the key keep their text and order |
| Secrets.WriteIsIdempotent | backend/internal/secrets/telegram.go:103-115 | writing the same value again changes nothing |
| Secrets.HasMeans | backend/internal/secrets/telegram.go:106 | a line sets a key if and only if it begins with the key and the sign, and the value is all that follows |
| Secrets.ReplacedIs | backend/internal/secrets/telegram.go:103-115 | line by line what is written: the assignment for each line that begins with the key and the sign, every other line in its place, and the assignment at the end if there was none |
| Secrets.ScannedIs | backend/internal/secrets/telegram.go:79-80 | the scanner sees exactly the lines written, up to 64 KiB |
| Secrets.TokenIsFirst | backend/internal/secrets/telegram.go:75-86 | of a file of at most 64 KiB the token is what the first line that sets it says, without the blanks around it |
| Secrets.EnvironmentCounts | backend/internal/secrets/telegram.go:87 | the process environment counts when no line sets it, also without blanks around |
| Secrets.TrimSpaceIs | backend/internal/secrets/telegram.go:84 | trimming takes exactly the blanks at both ends |
| Secrets.TokenReadBack | backend/internal/secrets/telegram.go:75-115 | for every file, exactly what is read back after a valid token is written: the token, the beginning of it, or the environment's, by where the first line that sets it ends |
| Secrets.TokenReadBackIff | backend/internal/secrets/telegram.go:75-115 | unless the environment holds it too, a valid token is read back if and only if the first line that sets it ends within 64 KiB |
| Secrets.TokenRoundTrip | backend/internal/secrets/telegram.go:75-115 | so it is read back whatever the file and the environment held, while the result fits 64 KiB |
| Secrets.SecretsFile.SetToken | backend/internal/secrets/telegram.go:60-73 | the privileged command stores the trimmed input if and only if it has at most 512 bytes and is a token; otherwise the file stays as it is |
| Secrets.TokenPattern | backend/internal/secrets/telegram.go:23 | which texts are tokens: 6 to 16 digits, a colon, 30 to 256 letters, digits, underscores or hyphens |
| Secrets.StoredTokenIsRead | backend/internal/secrets/telegram.go:60-88 | what the command has stored is what the panel then reads, within 64 KiB |
| Secrets.OversizedFileHidesToken | backend/internal/secrets/telegram.go:79 | a token appended behind the first 64 KiB is never read back: the environment's is |
| Secrets.SecretsFile.ReplaceEnvironmentValue | backend/internal/secrets/telegram.go:90-154 | the loop overwrites every assignment of the key or appends one; a failure up to the rename leaves the old file, a failing directory sync is reported with the new one in place |

## Left out

- Accounts.AdminsSurvive: stated for serial operations; the guard and the update are separate statements, so two concurrent demotions can both pass.
- Watching.MonitorStaysInStep: stated for object alerts; flags of per-rule alerts (empty subject) are not reloaded after a restart.
- Notifications.Service.Send: the settings row is always there, as the migration that creates the table inserts it and nothing deletes it (`001_core.sql:37`).
- Notifications.Service.Enqueue: does not model a database error inside the transaction, which rolls all of it back.
- FileManager.Disk.Mkdir: a directory whose owner cannot be set, and that cannot be removed again either, is not modelled.
- FileManager.Disk.Resolve: the tree does not change between the checks of one request and its operation.
- Notification columns that no decision reads: payload, last error, update times; message formatting and translation.
- Storage of times as text in SQLite; comparisons are on exact clock readings.
- HTTP routing, JSON, JWT, bcrypt, WebSocket framing, the PTY, Telegram HTTP, Docker, UFW, journald, systemd and /proc adapters.
- Input validation of user names, roles and display names, and the creation of system accounts.
- Floating point: readings and limits are reals; NaN is not modelled.
- Network downloads, checksums, archive extraction, staging of the sudoers candidate, file modes and ownership.
- Updater.Host.PerformUpdate: which older backup directories a successful update prunes is a parameter; the reload of a rollback, whose error is ignored, changes no file and is not modelled.
- The systemd and resource checks of the monitor beyond raise, resolve and threshold, which they only call.
- Listing order and limits, reading and content validation in the file manager; Unicode white space in the secrets reader.
- Terminal tickets, session titles, resize and keyboard input; the pull-job list, metrics, migrations and the web front end.
