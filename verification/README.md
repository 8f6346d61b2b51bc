# Charging-transaction engine: model and proofs

This project models the charging-transaction engine of the OCPP 1.6 central system in Dafny and proves
properties of it: the transaction store, the callback outbox, the live registry, the limit-stop loops, boot
recovery and the frontend transaction streams, together with the software charger that drives them.

`dafny verify dfyconfig.toml` checks everything.

## How it is built

Most operations are modelled twice. A *function* says what it does to values (`Rows.Apply`, `Outbox.Enqueue`,
`Registry.AfterStart`, `Handlers.HandleStop`, ...). A *method* of a class with the source's own fields does it
in place, loop by loop, and its contract equates the new state with that function of the old one. The
properties are lemmas about the functions and about runs of them, so a method that skipped a step or swapped
two values would no longer meet its contract, and a function that did would no longer meet the lemmas.

| part | files |
|---|---|
| meter arithmetic, row effects | `Meter`, `Rows` |
| the in-memory store, the publishing wrapper, the hub | `MemoryStore`, `ObservableStore`, `TransactionUpdates` |
| outbox, reconciliation, the hook manager | `Outbox`, `Reconcile`, `Hooks` |
| registry, handlers | `Registry`, `StatusText`, `Handlers`, `Starts` |
| agreement of registry and store | `Agreement`, `Undisturbed` (when nobody overtakes anybody), `Disagreement` (runs in which it is lost) |
| limit stops, streams, boot recovery | `LimitStop`, `Streams`, `Recovery`, `BootRecovery` |
| everything interleaved | `Engine` (the machine and its invariant), `EngineTheorems`, `CallbackTheorems`, `StreamTheorems` (what follows), `EngineRuns` (concrete runs) |
| Postgres, statement by statement | `PostgresOutbox`, `PostgresStops` |
| the charger as environment | `Simulator`, `Energy` |
| connections, analytics, durations | `Connections`, `Analytics`, `Duration`, `Decimal` |

`Engine` is one state machine. Handlers, limit-stop goroutines, the outbox worker, recovery goroutines and
streams each advance by one store call at a time and interleave freely: between a start, stop or forced close
and the enqueue of its callback, between listing and creating, between a claim and its marks, anything else may
happen, and so may a restart of the central system over a store that survives. `Engine.StepKeepsInv` shows that
every step by anyone keeps one invariant, and the theorem files draw the run theorems from it. They quantify
over every sequence of events from the empty engine.

`Agreement` is a second machine that tracks the live registry as well. There too every store access and every
registry access of a handler or of recovery is a step of its own, so that either may be overtaken by the other
between the two; the lemmas `UninterruptedStart`, `UninterruptedStop` and `UninterruptedMeter` tie a handler's
steps, taken without interruption, to the handler as a whole.

## Assumptions

- One store call of the in-memory store is one atomic step, as its mutex makes it; on Postgres each SQL
  statement or committed SQL transaction is.
- A charger has at most one StartTransaction, MeterValues or StopTransaction request outstanding (section
  4.1.1 of the OCPP-J 1.6 specification). Each of them is still several steps, with every other charger, worker
  and recovery step, of the same charger too, allowed in between.
- A handler's first registry access, the Touch that marks its charger online, moves no transaction and is part
  of the step that follows it.
- The limit stopper is set before the first callback is posted.
- A callback task takes less than 12 seconds, the HTTP client giving up after 10
  (`PostgresOutbox.PromptRunsAreTimely` only).
- Connections of one charger have distinct keys (needed: `Connections.ReusedKeyMisleads`).
- `float64` values are reals, times are whole seconds of a clock that does not run backwards in one process,
  random IDs and map order are arbitrary choices.
- In `Engine` the ID a meter value is booked on, and recovery's judgement whether a connector is free, are
  arbitrary: its theorems hold whatever the registry says. `Agreement` is where the registry is tracked.

## Where the code does less than one would hope

- A late MeterValues rewrites the meter and consumption of a closed transaction
  (`Rows.LateMeterRewritesClosedRow`); `Rows.ClosedRowChangesIff` says exactly which operations change a closed
  row, and `Rows.ClosedRowFrozen` that it is frozen otherwise.
- A completed callback is never accepted for a transaction whose start reading is more than one register turn
  above its stop reading (`Reconcile.RefusedIff`), so reconciliation lists it for ever
  (`Reconcile.RefusedStaysMissing`, with a run in `RefusedForEver`) and catches up exactly when there is none (`Reconcile.PassLowersCountIff`).
- On Postgres a forced close that comes second returns its own stop time, not the row's
  (`PostgresStops.ForceCloseReturnsItsOwnValues`; exactly when: `ForceCloseAnswersTheRowIff`).
- A worker that overruns the two-minute lease can reopen a callback another worker has sent
  (`PostgresOutbox.OverrunBreaksLease`); batches that keep to the HTTP client's timeout never do.
- The registry and the store part company in seven ways, each with a run in `Disagreement` whose steps but the
  last all behave. Three are messages: a meter value that names another transaction than the connector's open
  one (`MeterNamesAnother`), a stop whose callback is not enqueued (`StopWithoutCallback`), a repeated stop after
  the next start (`StaleStop`). Two are registry writes of recovery that a handler overtakes: a ghost close that
  arrives after the charger's stop and next start (`DelayedGhostClose`: an open transaction is forgotten), and a
  replay that arrives after the stop (`DelayedReplay`: a closed one is shown). Two are registry writes of a
  handler that recovery overtakes, by closing the transaction in between: of a repeated start (`DelayedStart`)
  and of a meter value without an ID (`DelayedMeter`); both show a closed transaction.
  `Agreement.AgreementKeptIff` is the exact condition, for every single access to store or registry.
  `Undisturbed.UndisturbedRunsAgree` shows that only the three messages are left if no handler call of a charger
  overlaps recovery's work on one of its transactions.
- A repeated start can be answered with a transaction that recovery has closed in between
  (`EngineRuns.RetriedStartOfClosed`): exactly if it force-closed it after the handler's listing
  (`EngineTheorems.RetriedStartIsOpenIff`).
- A claim whose release fails, or whose loop a restart kills, stays set, and no loop ever serves it again
  (`EngineRuns.RestartLosesTheLoop`); exactly these claims are without a loop
  (`EngineTheorems.ClaimWithoutLoopIff`). It is the last case of `EngineTheorems.NoMissedLimit`.
- A connect that falls between the two halves of a disconnect can leave a connected charger shown offline
  (`Connections.ConnectBetweenHalves`; exactly when: `OnlineFollowsTrackerIff`).
- The charger rounds its meter values and truncates its stop reading, so the registry's last step can show
  almost a whole register turn: exactly when the last value was rounded up (`Energy.StopShowsRolloverIff`, with
  a run in `ShortSessionShowsRollover`). The store's totals never do.
- A ghost close keeps the consumption of the version recovery read, not of a newer one
  (`Rows.GhostCloseKeepsConsumptionIff`, with a run in `GhostCloseLosesAReading`).

## Model

| member | source | states |
|---|---|---|
| `Meter.DeltaIsTheResidue` | internal/store/util.go:36-45 | On 32-bit register readings DeltaWh is the one value in [0, 2^32) congruent to the difference of the readings |
| `Meter.DeltaNegativeIff` | internal/store/util.go:36-45 | Outside the range it is negative exactly when the earlier reading is more than a whole turn above the later one |
| `Meter.StepsTelescope` | internal/state/registry.go:128-130 | Over any run of readings less than a turn apart, the per-step deltas add up to the energy that flowed, however often the register wrapped |
| `Meter.StartToLastIff` | internal/store/memory.go:83 | The store's start-to-last delta equals that sum exactly while less than one turn has flowed |
| `Registry.RegistryTelescopes` | internal/state/registry.go:111-144 | The consumptions the registry shows over a session add up to the session's energy |
| `Rows.FirstFreeIsFree` | internal/store/memory.go:41-70 | The ID search returns an unused ID in 1..2^31-1, and fails only if all 100 draws are taken |
| `Rows.ApplyKeepsInv` | internal/store/memory.go:41-142 | Every store operation keeps: IDs unique and in range, row IDs unique, meter and total set together and consistent, a closed row has both; and it never loses, renumbers or reopens a row |
| `Rows.OpsKeepInv` | internal/store/memory.go:41-142 | ... over every run of store operations |
| `Rows.ForeignCallChangesNothing` | internal/store/memory.go:72-87 | A call for an unknown transaction or another charger's leaves the table alone |
| `Rows.ClosedRowChangesIff` | internal/store/memory.go:72-110 | Exactly which operations still change a closed row: a different meter value for its charger, and a new limit |
| `Rows.ClosedRowFrozen` | internal/store/memory.go:89-110 | A closed row that no later meter value names keeps everything but its limit, over every run |
| `Rows.LateMeterRewritesClosedRow` | internal/store/memory.go:72-87 | Without that hypothesis a late meter value does change a closed row's consumption |
| `Rows.SecondStopChangesNothing` | internal/store/memory.go:89-110 | Stopping is idempotent, whatever runs between the two stops; the first stop time stays |
| `Rows.GhostCloseKeepsConsumptionIff` | internal/ocpp16hal/recovery.go:109-150 | A close with the last known meter books the consumption recovery read (0 if none), and keeps the row's own exactly if both readings give the same delta |
| `Rows.GhostCloseLosesAReading` | internal/ocpp16hal/recovery.go:109-120 | A run in which a meter value between read and close is lost |
| `MemoryStore.MemoryStore.CreateTransaction` | internal/store/memory.go:41-70 | The loop over candidate IDs files one new row under the first unused one, or fails |
| `MemoryStore.MemoryStore.UpdateLiveMeter` | internal/store/memory.go:72-87 | In place: the row effect, the clone returned, nothing else changed |
| `MemoryStore.MemoryStore.StopTransaction` | internal/store/memory.go:89-110 | In place: closes an open row once; a closed one is returned as it is |
| `MemoryStore.MemoryStore.ForceCloseTransaction` | internal/store/memory.go:136-142 | The same for a forced close |
| `MemoryStore.MemoryStore.GetByTransactionID` | internal/store/memory.go:112-122 | Returns the charger's row, or not found |
| `MemoryStore.MemoryStore.GetByTransactionIDAndIDTag` | internal/store/memory.go:124-134 | Returns the row for its own ID tag only |
| `MemoryStore.MemoryStore.ListOpenTransactionsByCharger` | internal/store/memory.go:144-165 | Returns each open row of the charger exactly once, in any order |
| `MemoryStore.MemoryStore.CheckAndMarkLimitStop` | internal/store/limit_stop_memory.go:5-32 | Claims exactly an open, unclaimed transaction over its limit |
| `MemoryStore.MemoryStore.ReleaseLimitStopRequest` | internal/store/limit_stop_memory.go:34-44 | Clears the claim of an open transaction only |
| `MemoryStore.MemoryStore.UpdateTransactionMaxKWh` | internal/store/outbox_memory.go:12-23 | Sets the limit and nothing else |
| `MemoryStore.MemoryStore.EnqueueCallback` | internal/store/outbox_memory.go:25-61 | Adds one fresh entry unless the dedupe key is there |
| `MemoryStore.MemoryStore.ClaimDueCallbacks` | internal/store/outbox_memory.go:63-95 | Whatever the map order: claims due entries only, at most the limit, all of them if fewer, and hands out their copies |
| `MemoryStore.MemoryStore.MarkCallbackSent` | internal/store/outbox_memory.go:97-106 | Marks one entry, in place |
| `MemoryStore.MemoryStore.MarkCallbackRetry` | internal/store/outbox_memory.go:108-120 | Reschedules one entry, in place |
| `MemoryStore.MemoryStore.MarkCallbackFatal` | internal/store/outbox_memory.go:122-132 | Gives one entry up, in place |
| `MemoryStore.MemoryStore.ListTransactionsMissingCallback` | internal/store/callback_reconcile_memory.go:21-47 | The nested scan returns distinct transactions without an entry of this kind, min(limit, missing) of them |
| `ObservableStore.ObservableTransactionStore.CreateTransaction` | internal/store/transaction_updates.go:78-84 | The row effect, then one publish exactly on success |
| `ObservableStore.ObservableTransactionStore.UpdateLiveMeter` | internal/store/transaction_updates.go:86-92 | The same for a meter value |
| `ObservableStore.ObservableTransactionStore.StopTransaction` | internal/store/transaction_updates.go:94-100 | The same for a stop |
| `ObservableStore.ObservableTransactionStore.ForceCloseTransaction` | internal/store/transaction_updates.go:102-108 | The same for a forced close |
| `ObservableStore.ObservableTransactionStore.UpdateTransactionMaxKWh` | internal/store/transaction_updates.go:110-116 | The same for a limit |
| `ObservableStore.ObservableTransactionStore.CheckAndMarkLimitStop` | internal/store/transaction_updates.go:118-124 | Publishes exactly when it claimed |
| `ObservableStore.ObservableTransactionStore.ReleaseLimitStopRequest` | internal/store/transaction_updates.go:126-132 | The same for a release |
| `TransactionUpdates.TransactionUpdates.Subscribe` | internal/store/transaction_updates.go:23-50 | A fresh, empty channel under a new subscription ID |
| `TransactionUpdates.TransactionUpdates.Cancel` | internal/store/transaction_updates.go:37-49 | Removes that subscription, and the transaction's entry with the last one |
| `TransactionUpdates.TransactionUpdates.Publish` | internal/store/transaction_updates.go:52-65 | After the loop every channel of the transaction holds a signal, every other is as before |
| `Streams.ChangeOwesPublication` | internal/store/transaction_updates.go:78-132 | Every operation that changes a row owes a publish for that row |
| `Streams.WriteKeepsHubInv` | internal/store/transaction_updates.go:86-92 | A store write keeps the stream invariant although its publish comes later |
| `Streams.HubStepKeepsInv` | internal/httpapi/frontend_transaction_ws.go:73-140 | So does every publish, subscribe, receive, re-read, send, resync and disconnect |
| `EngineTheorems.StreamsShowTheRow` | internal/httpapi/frontend_transaction_ws.go:73-140 | No lost update: at rest every stream's last snapshot is the stored row, in every reachable state |
| `EngineTheorems.StaleStreamHasNews` | internal/httpapi/frontend_transaction_ws.go:73-140 | A stream showing something else has its re-read pending, or a signal, or a publish owed |
| `EngineTheorems.StreamsNeverGoBack` | internal/httpapi/frontend_transaction_ws.go:176-203 | Snapshots of a stream keep the identity of one row and never go from COMPLETED back to RUNNING or to another stop time |
| `StreamTheorems.SnapshotsAreTheRowInOrder` | internal/httpapi/frontend_transaction_ws.go:73-140 | Each snapshot of a stream is the stored row after some number of events of the run, later ones after no fewer |
| `Outbox.KeyTextIdentifies` | internal/hooks/manager.go:91-99 | Dedupe key texts are equal exactly when kind and transaction are |
| `Outbox.EnqueueOnce` | internal/store/outbox_memory.go:25-61 | Enqueueing keeps keys unique, touches no entry, is idempotent |
| `Outbox.LifeSoFar` | internal/hooks/manager.go:212-240 | In the life of an entry, while it is pending its retries count its posts, all of which failed |
| `CallbackTheorems.EntryLives` | internal/hooks/manager.go:165-240 | Over every run of the engine every entry lives just that life: the answers marked from the worker's copies, each applied to an entry in processing |
| `Outbox.LifeIsBounded` | internal/hooks/manager.go:212-240 | That life has at most MaxRetries posts and at most 930 s (start) or 30660 s (completed) of backoff, and is settled after MaxRetries attempts |
| `CallbackTheorems.CallbackLifeIsBounded` | internal/hooks/manager.go:165-240 | So over every run of the engine: at most 6 or 10 posts, counting those whose mark fails or is lost in a restart, the backoff between them, and sent exactly if a success was answered within the budget before any rejection |
| `Outbox.SentIff` | internal/hooks/manager.go:212-240 | Such a life ends as sent exactly if a success comes within the budget and before any rejection |
| `Outbox.MarkHolds` | internal/store/outbox_memory.go:97-132 | Marking one task of a batch leaves the copies of the others current |
| `Outbox.PassSettles` | internal/hooks/manager.go:165-177 | A worker pass leaves nothing half-processed, touches no terminal entry, and spends retries as soon as it claims |
| `Outbox.OutboxDrains` | internal/hooks/manager.go:165-177 | With nothing new, as many due passes as there are retries left settle every entry |
| `Hooks.Manager.ProcessOnce` | internal/hooks/manager.go:165-177 | One tick is a legal reconciliation followed by a legal pass with the server's answers, and stores the answered limits |
| `Hooks.Manager.ProcessTask` | internal/hooks/manager.go:212-240 | Marks the task sent, fatal or due again with doubled backoff, by the answer |
| `Hooks.Manager.StoreLimit` | internal/hooks/manager.go:282-297 | A start callback's limit is stored and checked |
| `Hooks.Manager.ReconcileMissingCallbacks` | internal/hooks/manager.go:179-210 | Enqueues what the two listings found, refusing what the manager refuses |
| `Hooks.Manager.EnqueueStartTransaction` | internal/hooks/manager.go:71-100 | Refuses a transaction without a target URL, the single-session one first; else enqueues it |
| `Hooks.Manager.EnqueueCompletedTransaction` | internal/hooks/manager.go:102-143 | Refuses a transaction without target URL, stop time, meter or non-negative total; else enqueues it |
| `Hooks.OneMorePost` | internal/hooks/manager.go:174-176 | Processing claimed tasks one by one from their copies is settling them in the outbox |
| `Reconcile.RefusedIff` | internal/hooks/manager.go:102-120 | Of closed transactions exactly those are refused whose start reading is over a turn above the stop reading |
| `Reconcile.PassLowersCountIff` | internal/hooks/manager.go:179-210 | A pass lowers the missing count by min(25, missing) exactly if the manager, as configured, accepts all it listed |
| `Reconcile.ReconcileCatchesUp` | internal/hooks/manager.go:179-210 | Whatever was lost earlier, n passes lower both counts by 25n, down to 0 |
| `Reconcile.NothingMissingMeansExactlyOne` | internal/store/callback_reconcile_memory.go:21-47 | Then every transaction has exactly one start entry and every closed one exactly one completed entry |
| `Reconcile.RefusedStaysMissing` | internal/hooks/manager.go:102-120 | A refused transaction stays missing over every number of passes |
| `Reconcile.RefusedForEver` | internal/hooks/manager.go:118-120 | A start at 5,000,000,000 Wh and a stop at 0 make one, whatever is configured |
| `Starts.DecisionIndependentOfOrder` | internal/ocpp16hal/hal.go:528-565 | With one open transaction per connector, retry, refusal or creation does not depend on list order |
| `Starts.CreateKeepsStartInv` | internal/ocpp16hal/hal.go:531-582 | A create from a stale listing still leaves at most one open transaction per connector |
| `EngineTheorems.OneOpenPerConnector` | internal/ocpp16hal/hal.go:528-606 | In every reachable state each connector has at most one open transaction |
| `EngineTheorems.HistoryIsKept` | internal/store/memory.go:41-142 | Over every continuation no transaction is lost, renumbered or reopened, and stop times are set once |
| `EngineTheorems.StartOnBusyConnector` | internal/ocpp16hal/hal.go:528-575 | On a connector busy at the listing, whatever happens before the decision: no row changes; the same start goes on with the open transaction, a different one with nothing |
| `EngineTheorems.StartOnFreeConnector` | internal/ocpp16hal/hal.go:576-606 | On a connector free at the listing, whatever happens before the decision: exactly one open row is added and its callback owed, or IDs have run out |
| `EngineTheorems.OwedIsPaid` | internal/ocpp16hal/hal.go:564-600 | However late an owed callback is enqueued, it is there afterwards if the outbox takes it, once |
| `EngineTheorems.RetriedStartIsOpenIff` | internal/ocpp16hal/hal.go:557-573 | The transaction a repeated start is answered with is still open exactly if recovery did not force-close it after the listing |
| `EngineRuns.RetriedStartOfClosed` | internal/ocpp16hal/hal.go:557-573 | A run in which it did |
| `Handlers.HAL.OnStartTransaction` | internal/ocpp16hal/hal.go:528-606 | The handler over store, registry and outbox does what HandleStart says for some listing of the store |
| `Handlers.HAL.Examine` | internal/ocpp16hal/hal.go:536-560 | The loop over open transactions finds the first on the connector |
| `Handlers.HAL.OnMeterValues` | internal/ocpp16hal/hal.go:608-643 | Registry first, then store, then the limit check, with the named or the connector's transaction |
| `Handlers.HAL.BookMeter` | internal/ocpp16hal/hal.go:622-638 | The write and the check it owes, claiming exactly when the new reading reaches the limit |
| `Handlers.HAL.OnStopTransaction` | internal/ocpp16hal/hal.go:645-675 | Stop, callback, registry, in that order, the registry skipped if the callback fails |
| `Registry.Registry.ApplyStatusNotification` | internal/state/registry.go:55-83 | In place: status and error code, the transaction untouched |
| `Registry.Registry.ApplyStartTransaction` | internal/state/registry.go:85-109 | In place: the connector shows the transaction and its meter start |
| `Registry.Registry.ApplyMeterValue` | internal/state/registry.go:111-144 | In place: per-step consumption, and the given transaction if any |
| `Registry.Registry.ApplyStopTransaction` | internal/state/registry.go:146-173 | In place: last consumption, no transaction |
| `Registry.Registry.TransactionIDForConnector` | internal/state/registry.go:196-211 | The transaction shown on a connector |
| `Agreement.AgreementKeptIff` | internal/ocpp16hal/hal.go:528-675 | From agreement, a step (one store or registry access of a handler or of recovery) keeps registry and store in agreement exactly if it is well behaved; listings, decisions, connects, status messages, restarts and recovery's store side always are |
| `Agreement.StopAgreesIff` | internal/ocpp16hal/hal.go:645-672 | A stop keeps it exactly if its callback goes out or the registry does not show the open transaction it closes |
| `Agreement.HandlerShowsIff` | internal/ocpp16hal/hal.go:557-622 | The registry write of a start or meter value, however late, keeps it exactly if its transaction is still open, or recovery has closed it and is about to say so |
| `Agreement.EmptyingAgreesIff` | internal/ocpp16hal/hal.go:672 | The registry write of a stop or a ghost close, however late, keeps it exactly if it does not hide an open transaction, unless a start is about to show it again |
| `Agreement.ReplayAgreesIff` | internal/ocpp16hal/recovery.go:152-169 | A replay, however late, keeps it exactly if the row is still open, or a stop has closed it and is about to say so |
| `Agreement.RunKeepsAgreement` | internal/state/registry.go:85-211 | ... over every run |
| `Agreement.RegistryIsTheStore` | internal/state/registry.go:85-211 | Over every well-behaved run a connector's registry transaction is exactly the store's open one, or one whose close is about to be reported; absent only if what is open is about to be shown, or was not heard of since a restart |
| `Agreement.AtRestTheRegistryIsTheStore` | internal/state/registry.go:85-211 | With no handler call and no recovery under way for the charger: exactly the open one, or none but what was not heard of since a restart |
| `Agreement.EveryOpenIsShown` | internal/state/registry.go:85-211 | The other way round: every open transaction is shown on its connector, is about to be, or is unseen since a restart |
| `Agreement.UninterruptedStart` | internal/ocpp16hal/hal.go:528-606 | The steps of a StartTransaction with nothing in between are the handler as a whole |
| `Agreement.UninterruptedStop` | internal/ocpp16hal/hal.go:645-675 | So are those of a StopTransaction |
| `Agreement.UninterruptedMeter` | internal/ocpp16hal/hal.go:608-643 | ... and of a MeterValues, with the store write and limit check it owes |
| `Undisturbed.UndisturbedRunsAreValid` | internal/ocpp16hal/recovery.go:52-90 | If no handler call of a charger overlaps recovery's work on one of its transactions, only its messages themselves can misbehave |
| `Undisturbed.UndisturbedRunsAgree` | internal/ocpp16hal/recovery.go:52-90 | So over every such run from the start registry and store agree on every connector |
| `Agreement.HydrationRestoresIff` | internal/ocpp16hal/recovery.go:152-169 | Replaying the start makes the registry show the transaction again, rightly so exactly if it is still open or a stop of it is about to be told |
| `Agreement.NothingUnseenWithoutRestart` | internal/state/registry.go:196-211 | Without a restart nothing is unseen |
| `Disagreement.MeterNamesAnother` | internal/ocpp16hal/hal.go:615-622 | A run: a meter value that names another transaction |
| `Disagreement.StopWithoutCallback` | internal/ocpp16hal/hal.go:665-672 | A run: a stop whose callback is not enqueued |
| `Disagreement.StaleStop` | internal/ocpp16hal/hal.go:672 | A run: a repeated stop after the next start |
| `Disagreement.DelayedGhostClose` | internal/ocpp16hal/recovery.go:115-133 | A run: a ghost close overtaken by a stop and a new start makes the registry forget an open transaction |
| `Disagreement.DelayedReplay` | internal/ocpp16hal/recovery.go:152-169 | A run: a replay overtaken by a stop makes the registry show a closed transaction |
| `Disagreement.DelayedStart` | internal/ocpp16hal/hal.go:557-562 | A run: a repeated start overtaken by a ghost close makes the registry show a closed transaction |
| `Disagreement.DelayedMeter` | internal/ocpp16hal/hal.go:618-622 | A run: so does a meter value without an ID, overtaken between its registry read and write |
| `LimitStop.RequestLimitStopUntilClosed` | internal/ocpp16hal/limit_stop.go:46-105 | Against every environment a run of the step function of the interleaved model: ends when it sees the row closed, or exhausted after 6 stops and doubling pauses of 60 s in all |
| `LimitStop.WaitForTransactionClosed` | internal/ocpp16hal/limit_stop.go:127-137 | Looks every two seconds until it sees the row closed or the deadline has passed, as steps of the waiting loop |
| `LimitStop.DelayDoubles` | internal/ocpp16hal/limit_stop.go:98-104 | Pause k is min(2*2^(k-1), 30) |
| `LimitStop.WriteKeepsLimitInv` | internal/store/limit_stop_memory.go:5-44 | Writes by anyone keep the claim protocol's invariant, owing a check for a meter value or limit |
| `LimitStop.CheckKeepsLimitInv` | internal/ocpp16hal/limit_stop.go:17-40 | So does paying a check, claiming or not |
| `LimitStop.WorkerKeepsLimitInv` | internal/ocpp16hal/limit_stop.go:46-125 | So does every step of every loop, including the release of an exhausted one |
| `EngineTheorems.NoMissedLimit` | internal/ocpp16hal/hal.go:622-638 | No missed limit: an open transaction over its limit is claimed by a live loop, or owed a check, or was given up since its last meter or limit write, or its claim has lost its loop for good |
| `EngineTheorems.NoMissedLimitIfStoreWorks` | internal/store/limit_stop_memory.go:5-44 | ... and on a store that does not fail, without restarts: claimed, owed, or released by an exhausted loop since |
| `EngineTheorems.ExcusedMeansGivenUp` | internal/ocpp16hal/limit_stop.go:107-124 | Given up means: some earlier event of the run was an exhausted release, a failed check or a restart with the check owed, and no write came after |
| `EngineTheorems.ClaimWithoutLoopIff` | internal/ocpp16hal/limit_stop.go:107-117 | An open transaction's claim is without a loop exactly if an earlier event of the run was a failed release of it or a restart while its loop ran; no later event serves it again |
| `EngineRuns.RestartLosesTheLoop` | internal/ocpp16hal/limit_stop.go:17-44 | A run: start, limit, meter value, paid check, restart; the claim stays, unserved in every continuation |
| `EngineTheorems.LimitStopsAreExclusive` | internal/ocpp16hal/limit_stop.go:46-125 | At most one loop per transaction, its flag set while it runs, at most 6 stops and 60 s of pauses |
| `EngineTheorems.ClaimsAlternateWithReleases` | internal/store/limit_stop_memory.go:5-44 | Between two claims of a transaction there is a release; each claim sends at most 6 stops |
| `EngineTheorems.ClosedNeverClaimedAgain` | internal/store/limit_stop_memory.go:5-32 | Once closed a transaction is never claimed again, over every continuation |
| `Recovery.BootStepKeepsInv` | internal/ocpp16hal/recovery.go:20-90 | Every recovery step keeps: one goroutine per charger, working on its own snapshot only |
| `EngineTheorems.OneRecoveryPerCharger` | internal/ocpp16hal/recovery.go:20-50 | At most one recovery runs per charger |
| `EngineTheorems.RecoveryIsIsolated` | internal/ocpp16hal/recovery.go:52-90 | Recovery closes or stops only transactions that were open, and that charger's, in the table at its snapshot |
| `EngineTheorems.SnapshotsAreReal` | internal/ocpp16hal/recovery.go:26-28 | Every snapshot is the table at some earlier moment of the run |
| `EngineTheorems.WhoCloses` | internal/ocpp16hal/recovery.go:109-150 | A step closes a transaction only by its charger's stop or by a recovery of that charger |
| `EngineTheorems.GhostCloseKeepsConsumption` | internal/ocpp16hal/recovery.go:109-150 | A ghost close nothing overtook keeps the last known consumption, 0 if none |
| `BootRecovery.RemoteStopAndUnlockWithRetry` | internal/ocpp16hal/recovery.go:171-243 | Against every charger a run of the interleaved model's goroutine: ends at the first attempt whose stop and unlock are answered, gives up only at the deadline, asks at most nine times |
| `BootRecovery.NinePausesAreTooLong` | internal/ocpp16hal/recovery.go:14-18 | Eight pauses fit into the five minutes, nine do not |
| `BootRecovery.Recoverer.IsGhostAvailableTransaction` | internal/ocpp16hal/recovery.go:91-107 | The connector is known, Available up to space and case, and shows no other transaction |
| `BootRecovery.Recoverer.ForceCloseGhostTransaction` | internal/ocpp16hal/recovery.go:109-150 | Store, registry, callback, with the last known meter; nothing if the store does not know the transaction |
| `BootRecovery.Recoverer.HydrateOpenTransaction` | internal/ocpp16hal/recovery.go:152-169 | The registry is told the start and the last meter value again |
| `BootRecovery.Recoverer.RecoverOpenTransactions` | internal/ocpp16hal/recovery.go:52-90 | Works the snapshot off in order, each from a fresh read |
| `BootRecovery.RecoveryOnlyClosesItsOwn` | internal/ocpp16hal/recovery.go:52-90 | As a whole: no row comes or goes, a changed one was open, snapshotted and this charger's, and is closed with its last known consumption |
| `Engine.StepKeepsInv` | internal/ocpp16hal/hal.go:528-675 | Every step of the engine, by anyone, keeps the whole invariant |
| `Engine.RunKeepsInv` | internal/store/memory.go:41-142 | ... and so does every run, which only extends the table |
| `EngineTheorems.CallbacksMatchTransactions` | internal/store/outbox_memory.go:25-61 | Keys are unique, entries belong to known transactions, a completed entry never to an open one |
| `EngineTheorems.SettledStaysSettled` | internal/hooks/manager.go:212-240 | A sent or fatal entry never changes again, over every continuation: the marks, which check no status, only reach entries in processing |
| `PostgresOutbox.StolenIff` | internal/store/outbox_postgres.go:53-66 | A held row can be claimed by another worker exactly when its lease has run out |
| `PostgresOutbox.LeaseIsExclusive` | internal/store/outbox_postgres.go:46-157 | If batches finish inside the lease, no row is ever held twice and a settled row is never touched again, with any number of workers |
| `PostgresOutbox.PromptRunsAreTimely` | internal/hooks/manager.go:165-177 | Batches of at most ten tasks of under 12 s each do finish inside the 120 s |
| `PostgresOutbox.PromptWorkersAreExclusive` | internal/hooks/manager.go:165-177 | So from an empty outbox such workers never hold a row twice or touch a settled one |
| `PostgresOutbox.OverrunBreaksLease` | internal/store/outbox_postgres.go:53-66 | Without that two workers hold one row and a sent entry is reopened |
| `PostgresStops.ExactlyOneCloses` | internal/store/postgres.go:134-174 | Over every interleaving of reads and updates exactly one call closes the row and its stop time stays; every finished StopTransaction returned it |
| `PostgresStops.StopsReturnTheWinner` | internal/store/postgres.go:134-174 | Without late meter updates also the winning meter and consumption |
| `PostgresStops.LateLiveBreaksIff` | internal/store/postgres.go:107-132 | A late meter update changes the shown reading exactly if it differs |
| `PostgresStops.ForceCloseAnswersTheRowIff` | internal/store/postgres.go:309-340 | A forced close answers what the row holds exactly if it found it open or brought the same values |
| `PostgresStops.ForceCloseReturnsItsOwnValues` | internal/store/postgres.go:318-339 | A run in which it does not |
| `Simulator.Simulator.StartTransaction` | cmd/cpconsole/main.go:423-474 | Sends the truncated register, if it gets that far; the new state by the answers |
| `Simulator.Simulator.SendMeter` | cmd/cpconsole/main.go:476-527 | Adds the energy and sends the rounded register |
| `Simulator.Simulator.StopTransaction` | cmd/cpconsole/main.go:529-570 | Sends the truncated register and ends the session if answered |
| `Energy.EnergyIsConserved` | cmd/cpconsole/main.go:423-570 | Over any number of sessions, started locally or remotely and with any answers to Authorize and status calls, the stored totals add up to floor(final register) minus floor(initial register) |
| `Energy.SessionWithinOneWh` | cmd/cpconsole/main.go:529-570 | Each session's total is within 1 Wh of the energy that flowed in it |
| `Energy.LiveTotalIsPlainDifference` | internal/store/memory.go:72-87 | Live totals never take the rollover branch |
| `Energy.StopShowsRolloverIff` | cmd/cpconsole/main.go:541 | In every run the registry's last step of a session takes the rollover branch exactly when the last meter value was rounded up |
| `Energy.ShortSessionShowsRollover` | cmd/cpconsole/main.go:512-541 | A session of 0.6 Wh that is booked as 0 kWh and shown as 4294967.295 |
| `Energy.RunKeepsInv` | cmd/cpconsole/main.go:423-570 | Every step of charger and central system keeps sessions chained and correctly booked |
| `Connections.ConnectionTracker.Register` | internal/ocpp16hal/connections.go:32-54 | A new generation replaces the charger's record |
| `Connections.ConnectionTracker.UnregisterIfCurrent` | internal/ocpp16hal/connections.go:56-73 | Removes the record only under its own key |
| `Connections.AlwaysTracksLatest` | internal/ocpp16hal/connections.go:32-73 | After every sequence of connects and disconnects the record is that of the latest connection, present exactly while it lives |
| `Connections.TrackedGenerationIsLargest` | internal/ocpp16hal/connections.go:32-54 | Its generation is the largest the charger was given |
| `Connections.DisconnectEffectiveIff` | internal/ocpp16hal/hal.go:76-98 | A disconnect removes the record exactly when it is that of the living latest connection; any other changes nothing |
| `Connections.SecondHalfEffectiveIff` | internal/ocpp16hal/hal.go:79-106 | Its second half, whenever it comes, marks the charger offline exactly in that case |
| `Connections.OnlineFollowsTrackerIff` | internal/state/registry.go:36-52 | After every interleaving of the halves and other messages, a charger is online exactly while tracked, if and only if the last write of its flag agrees with the last change of its record, as it does if that write is that change's second half |
| `Connections.ConnectBetweenHalves` | internal/ocpp16hal/hal.go:52-106 | In whatever state: a connect between the halves of a disconnect can leave a tracked charger shown offline |
| `Connections.ReusedKeyMisleads` | internal/ocpp16hal/connections.go:56-73 | With a reused key a stale disconnect takes the new connection down |
| `Analytics.ComputeMemoryAnalytics` | internal/store/analytics_memory.go:51-151 | Count, kWh, occupied seconds and hourly histogram of exactly the rows that count, in any map order; the histogram sums to the count |
| `Analytics.Window` | internal/store/analytics_memory.go:51-100 | The default window admits exactly the rows it should |
| `Analytics.ChargerAnalytics` | internal/store/analytics_memory.go:11-49 | Totals over chargers are the totals over all their counted transactions, each once; "cumulative" gives no figures per charger |
| `Analytics.EveryTransactionCountsOnce` | internal/store/analytics_memory.go:11-151 | Without a window "all" counts the whole table |
| `Duration.FormatDuration` | internal/store/analytics_memory.go:193-238 | The loop's text reads back as the clamped rounded seconds |
| `Duration.FormatReadsBack` | internal/store/analytics_memory.go:193-238 | The text can be undone, for every input |
| `Duration.PrintAlikeIff` | internal/store/analytics_memory.go:193-238 | Two durations print alike exactly when their clamped rounded seconds agree |
| `Duration.BreakdownIsExact` | internal/store/analytics_memory.go:199-209 | The parts weigh the input, each lower unit inside its radix |

## Left out

- Posting callbacks, HTTP and JSON: a post is an answer (success with a limit, retryable error, rejection) given from outside.
- Handlers.HAL.EnqueueHook: whether the callback's target URL is configured is its parameter `hookOK`; Hooks.Manager models the configuration.
- Hooks.Manager.ProcessOnce: one tick by itself; how the worker's steps interleave with the rest is in Engine, CallbackTheorems and Reconcile.
- HTTP routing, API keys, CORS and payload reshaping: plumbing.
- SQL text, connections, migrations: only the row effect of each statement; the Postgres variants of the limit statements have the row effect of the in-memory ones, except that its lookups by transaction ID do not read limits back.
- Engine: its outbox is the in-memory one, so after a restart an entry left in processing stays there; on Postgres the lease frees it (PostgresOutbox).
- Goroutine scheduling and real time: explicit steps and a clock that moves between them.
- Float rounding, NaN, infinities and the 64-bit bounds of row IDs, counters and durations: reals and unbounded integers.
- extractMeterValueWh: the extracted reading, if any, is an input of the handler, since without an energy sample the code takes a sample of any kind.
- The single-session flag of a pending remote start: an input of the handler.
- UUIDs: an input of CreateTransaction. Drawn transaction IDs: an input of 100 numbers in range.
- Registry timestamps (last message, last meter value), snapshots and FindConnectorByTransactionID: read by the status pages only.
- BootRecovery.Recoverer.RecoverOpenTransactions: one goroutine by itself; interleaved in Recovery, Engine and Agreement.
- BootRecovery.RecoveryOnlyClosesItsOwn: about that goroutine by itself; EngineTheorems.RecoveryIsIsolated and EngineTheorems.WhoCloses are the interleaved counterparts.
- LimitStop.RequestLimitStopUntilClosed: ends before the release, which is MemoryStore.ReleaseLimitStopRequest; a release that fails is in LimitStop.OnWorker and Engine.
- Agreement: callbacks are not tracked there beyond whether a stop's goes out; Engine has them in steps.
- Analytics: average session, occupancy rate and peak-hours text, which are derived from the figures that are modelled; uptime is always 0 in the source.
- Simulator: ID tags are compared as given; auto mode, reset, diagnostics, firmware and the raw status command are not part of this model.
- Energy: StartTransaction, MeterValues and StopTransaction are always answered; without an answer a session's stop may be lost. The status notifications' effect on the registry is left out; it moves neither transaction nor meter (Agreement.StatusMovesNothing).
- Remote commands, configuration sync, charger directory, inactivity check, smoke clients: each only waits for the OCPP library.
