# Verified model of mini-sub2api

mini-sub2api is a relay between local API clients and an upstream model provider. A Go coordinator authenticates
requests, relays HTTP streams and WebSocket sessions, and keeps a usage ledger in SQLite; a Rust core rewrites requests.
This project models the parts in which a mistake would be hardest to see, and proves what each of them guarantees over
every input or every run.

* **WebSocket session** (`SessionState`, `SessionProtocol`, `SessionInvariant`, `SessionTheorems`, `WebSocketSession`).
  A client pump, a core pump and a run loop share an active operation, a failed operation and a few flags under one
  mutex. Each critical section is one atomic step, each pump has a program counter between its sections, and the
  theorems hold over every interleaving. The class `WebSocketSession.Session` has the critical sections as methods.
* **Usage ledger and credential fence** (`StoreState`, `StoreRuns`, `StoreLifecycle`, `StorePruning`,
  `CoordinatorStore`, `Timestamps`, `TextOrder`). Tables are maps and transactions are steps. A ghost history records
  what callers reported; the aggregates are compared with sums over that history. A fence is two steps with the write
  lock held in between.
* **SSE observer, relay and watchdog** (`SseEvents`, `ObserverState`, `ObserverTheorems`, `ResponseObserver`,
  `StreamRelay`, `StreamGuard`, `SupervisedStream`). A one-pass scanner with a two-bit line memory and a byte budget
  refines the division of the whole stream at blank lines. Only LF and CRLF end a line, as in the code; section 9.2.6
  of the WHATWG HTML Standard also has a lone CR.
* **JSON schema canonicaliser** (`Json`, `SchemaValid`, `SchemaSanitize`, `SchemaLowered`, `Reachability`, `SchemaPrune`,
  `SchemaOrder`, `SchemaEquivalence`, `SchemaReferences`, `SchemaCanonical`, `SchemaPruned`, `SchemaLasting`,
  `SchemaStability`, `SchemaAgreement`). Objects are lists of fields with distinct keys, because key order is observable.
* **Connection capacity** (`ConnectionCapacity`, `WebSocketManager`) and **ASCII JSON strings** (`AsciiJson`).

Code that updates state is a class or a method here, proved against a function on values; lemmas about that function state
what it is for. What the environment decides is a parameter or a nondeterministic step: clock readings, timers, the
result of a write, of a store transaction, of JSON decoding, of event classification, of percent-decoding, of the hash
lookup of a presented key, and the order in which a query lists rows.

What the proofs turned up about the code:

* `failedResponseObserved` is only ever set on a retired session, so its branch in `currentDeliveryFailure` never decides
  (`SafeRetryMeansIdle`), and `detachFailedOperation` never displaces an earlier failed operation (`FailedStandsAlone`).
* A terminal event that arrives while nothing is active can complete a create that is admitted between the observation and
  `completeActive` (`StrayTerminalCompletesLaterCreate`). It does so whenever `completeActive` then finds an operation, and
  with an active operation it never happens (`HandOffExact`).
* Detection of an undeclared stream depends on the chunking exactly if the body is over budget and its budgeted prefix is
  recognised (`DetectionChunkInvariance`).
* `sanitize` is idempotent exactly if no explicit null stands where it would fill in `properties` or `items`
  (`SanitizeTwice`). The canonical form of a schema that stays invalid need not be stable. It fails to be for such a null
  (`InvalidFormIsNotStable`), and also when one pass of `sanitize` is enough, because `order` drops a null `$ref` that kept
  `sanitize` from giving a type (`NullReferenceInput`); there is no other way (`StableExactly`), and the form of the form is
  always stable (`TwoPassesSuffice`).
* No reachable database has an unaggregated finished row, so the recovery loop of the prune has nothing to do there
  (`PruneIsInvisibleToLedger`). On other databases it is right exactly if the rows of a day and key are all inference
  (`LateRowsAreAggregated`): it does not look at the operation kind and counts a prewarm too (`LatePrewarmIsCounted`).
* A request is finalised once per admission (`FinalisedOncePerAdmission`), not once per id: the id of a pruned row is
  admitted again (`DeletedIdIsFree`).

## Model

| member | source | states |
|---|---|---|
| SessionTheorems.ExactlyOnce | src/coordinator/internal/httpapi/websocket_session.go:107-176 | In every interleaving, an operation the store accepted is active, failed, held by one thread, or finished, in exactly one of these; when the run loop and both pumps are done it was handed to finishOperation exactly once, and a refused one never. |
| SessionTheorems.DetachedEndsAsUpstreamError | src/coordinator/internal/httpapi/websocket_failure_tail.go:77-107 | Whoever finishes a detached operation, it is recorded only as an upstream error. |
| SessionTheorems.FailedStandsAlone | src/coordinator/internal/httpapi/websocket_failure_tail.go:20-35 | In every reachable state a failed operation means a retired session, nothing active and an equal generation; detaching never displaces an earlier failed operation. |
| SessionTheorems.SafeRetryMeansIdle | src/coordinator/internal/httpapi/websocket_session.go:422-449 | A client is told that a retry is safe exactly while the session is neither retired nor busy, and then nothing has failed; the failed-response flag implies retirement. |
| SessionTheorems.LaterInRun | src/coordinator/internal/httpapi/websocket_session.go:302-381 | Along every run, retirement, cancellation, the exit cause, a bound response, the first response time, detachment and recorded finishes are never taken back, and a retired or cancelled session starts nothing. |
| SessionTheorems.NoCreateAfterFailure | src/coordinator/internal/httpapi/websocket_core_pump.go:32-47 | Once an error or response.failed was observed, the session stays retired and no operation is created in any continuation of the run. |
| SessionTheorems.ReadyClosedOnce | src/coordinator/internal/httpapi/websocket_session.go:240-260 | terminalReady is closed exactly once, when an accepted operation leaves the active slot; a create that waits on it waits on a channel that is closed or on a pending active operation. |
| SessionTheorems.HandOff | src/coordinator/internal/httpapi/websocket_session.go:338-364 | After an operation was marked terminal-pending, completeActive takes that operation, or nothing because the session was cancelled; never a later create. |
| SessionTheorems.HandOffExact | src/coordinator/internal/httpapi/websocket_core_pump.go:32-66 | An operation that completeActive takes existed when the terminal event was observed if and only if an operation was active then, and in that case it is that one; with nothing active it was created after the observation. |
| SessionTheorems.StrayTerminalCompletesLaterCreate | src/coordinator/internal/httpapi/websocket_core_pump.go:32-66 | A concrete run in which a terminal event without an active operation completes a create admitted afterwards. |
| SessionTheorems.InterruptKeepsSessionOpen | src/coordinator/internal/httpapi/websocket_interrupt.go:4-16 | A response.incomplete classified as a requested interrupt does not retire the session, although classification and observation lock separately; the one exception is a session that was cancelled in between. |
| SessionTheorems.UsageFromOwnResponse | src/coordinator/internal/httpapi/websocket_failure_tail.go:37-66 | Every event that ever wrote the usage of an operation bound to a response carried that response id or none. |
| SessionInvariant.StepKeeps | src/coordinator/internal/httpapi/websocket_core_pump.go:11-68 | Every step of the three threads keeps the invariant on places, flags, channels and program counters. |
| SessionState.ParseWebSocketEvent | src/coordinator/internal/usage/websocket.go:17-76 | Kind and usage are the sender's; a response is named by the sender's identifier unless that is too long; an error waits for a failed response exactly if it does not say its status or the flex code; an interrupt comes only with an incomplete response. |
| WebSocketSession.Session.BeginOperation | src/coordinator/internal/httpapi/websocket_session.go:240-285 | The locked section admits, waits or refuses as the transition system does, and leaves the session as it says. |
| WebSocketSession.Session.ObserveServerEvent | src/coordinator/internal/httpapi/websocket_session.go:302-323 | Retirement, usage, response binding and the terminal mark are exactly those of the observation step. |
| WebSocketSession.Session.ObserveCoreResponse | src/coordinator/internal/httpapi/websocket_session.go:325-336 | Only the first response time of the active operation is recorded. |
| WebSocketSession.Session.TakeActive | src/coordinator/internal/httpapi/websocket_session.go:354-364 | The caller gets the active operation, its channel is closed, and the slot is empty. |
| WebSocketSession.Session.DetachFailedOperation | src/coordinator/internal/httpapi/websocket_failure_tail.go:20-35 | The active operation moves to the failed slot with the generation; an earlier failed operation goes to the caller. |
| WebSocketSession.Session.FailedServerEvent | src/coordinator/internal/httpapi/websocket_failure_tail.go:37-66 | The response.failed of the failed operation writes its usage and hands the operation over; its other events, and events of a foreign response, are told apart and change nothing. |
| WebSocketSession.Session.ExpireFailureTail | src/coordinator/internal/httpapi/websocket_failure_tail.go:96-107 | The failed operation is taken exactly when its deadline has passed. |
| WebSocketSession.Session.RequestInterrupt | src/coordinator/internal/httpapi/websocket_interrupt.go:4-10 | Only the active operation of that response is marked. |
| WebSocketSession.Session.FinishActive | src/coordinator/internal/httpapi/websocket_session.go:347-352 | Whatever the session holds is handed over once: the active operation with the status, the failed one as an upstream error; then it holds nothing, and other operations are untouched. |
| StoreRuns.LedgerConservation | src/coordinator/internal/storage/requests.go:62-137 | After every run, each daily aggregate is, column by column, the sum over the inference requests reported for that day and key since its last deletion; a day and key has an aggregate exactly if there is such a request; requests are completed plus errors plus disconnected. |
| StoreRuns.ExpectedAddsUp | src/coordinator/internal/storage/requests.go:86-137 | Adding requests one at a time, with deletions in between, gives the column sums over the requests that count. |
| StoreLifecycle.FinalisedOncePerAdmission | src/coordinator/internal/storage/requests.go:10-60 | In every run the admissions and finalisations of a request id alternate, each finalisation on the day, key and kind of its admission, so the admissions are the finalisations plus one while the request is in progress. |
| StoreLifecycle.FinishedForGood | src/coordinator/internal/storage/requests.go:62-84 | As long as the row of a finished request is there it never changes, and every attempt to finalise it fails without effect. |
| StoreLifecycle.InProgressStep | src/coordinator/internal/storage/requests.go:30-60 | A request in progress keeps its row unchanged until a finalisation of it; no transaction deletes it. |
| StoreLifecycle.DeletedIdIsFree | src/coordinator/internal/storage/keys.go:128-143 | After a prune deleted its row, the id of a request is admitted again for an eligible key. |
| StoreLifecycle.RowStep | src/coordinator/internal/storage/prune.go:58-61 | Any transaction leaves a row as it is, finalises it while in progress, or, being a prune with a later cutoff, deletes it when finished. |
| StoreRuns.StepKeeps | src/coordinator/internal/storage/credentials.go:84-147 | Every transaction keeps the agreement of ledger and history, the condition of an open fence, and every removed credential gone. |
| StorePruning.PruneIsInvisibleToLedger | src/coordinator/internal/storage/prune.go:37-74 | On every reachable database a prune changes no aggregate and deletes exactly the finished requests from before the cutoff. |
| StorePruning.PruneRemovesPrunable | src/coordinator/internal/storage/prune.go:58-61 | On any database a prune deletes exactly the finished requests from before the cutoff, including those it aggregates first, and leaves the other rows as they were. |
| StorePruning.LateRowsAreAggregated | src/coordinator/internal/storage/prune.go:45-56 | On any database, aggregating the listed rows late keeps a day and key in agreement with the history exactly if every listed row of that day and key is inference. |
| StorePruning.LatePrewarmIsCounted | src/coordinator/internal/storage/prune.go:97-123 | One unaggregated prewarm row, which the loop counts as a request although the history calls for none. |
| StoreRuns.FenceExcludesAdmission | src/coordinator/internal/storage/credentials.go:170-275 | While the callback of a fence runs, the credential is present, disabled and idle, for a removal also without active keys, and the only transaction that can come next is the one that closes the fence. |
| StoreRuns.RemovalIsFinal | src/coordinator/internal/storage/credentials.go:199-239 | A credential removed through the fence never changes again, and never again has an active key or a request in flight. |
| StorePruning.PreviewIsExact | src/coordinator/internal/storage/prune.go:15-35 | On any database the preview counts the details that a prune then deletes, and on every reachable one also the aggregates. |
| StorePruning.PrunesAgreeOnDays | src/coordinator/internal/cli/usage.go:173-204 | For a midnight cutoff, a finished request loses its details exactly if the aggregates of its day are deleted, for every key the day has any. |
| CoordinatorStore.Store.FinalizeRequest | src/coordinator/internal/storage/requests.go:10-60 | One step of the runs: the row, the aggregate and the history change together or not at all, and the ledger stays in agreement. |
| CoordinatorStore.Store.RecoverInFlight | src/coordinator/internal/storage/requests.go:163-192 | Succeeds exactly if the listed requests are distinct and in progress; then each is closed as an upstream error with status 503, entered once in the history, all other rows are untouched, and with a full listing none is left in progress. A failure has closed and entered exactly the requests before the first that could not be closed. |
| CoordinatorStore.Store.PruneDetailsBefore | src/coordinator/internal/storage/prune.go:37-74 | The loop and the deletion give the specified tables, the count is that of the prunable rows, and a consistent ledger keeps its aggregates. |
| CoordinatorStore.Store.DeleteAggregatesBefore | src/coordinator/internal/storage/prune.go:76-88 | Exactly the aggregates of earlier days go, and are counted; a missing or invalid day changes nothing. |
| CoordinatorStore.Store.RemoveCredentialWithMutationFence | src/coordinator/internal/storage/credentials.go:199-239 | Succeeds exactly if the credential is present, disabled, idle and without active keys and the callback succeeds; then it is gone; otherwise nothing changes. |
| CoordinatorStore.Store.WithCredentialMutationFence | src/coordinator/internal/storage/credentials.go:170-195 | The callback runs exactly on a present, disabled and idle credential; its failure is reported. |
| CoordinatorStore.Store.MutationTarget | src/coordinator/internal/storage/credentials.go:241-275 | Tells a missing credential from one that is not disabled or not idle. |
| CoordinatorStore.Store.SetCredentialEnabled | src/coordinator/internal/storage/credentials.go:84-98 | A step of the runs; fails exactly on a missing or deleted credential. |
| CoordinatorStore.Store.MarkCredentialRequiresLogin | src/coordinator/internal/storage/credentials.go:100-110 | A step of the runs; fails exactly on a missing or deleted credential. |
| CoordinatorStore.Store.CreateApiKey | src/coordinator/internal/storage/keys.go:14-69 | A step of the runs: a key is created only on a present, enabled credential. |
| CoordinatorStore.Store.RevokeApiKey | src/coordinator/internal/storage/keys.go:90-100 | A step of the runs; fails exactly on a missing or inactive key. |
| CoordinatorStore.Store.AuthenticateAndStart | src/coordinator/internal/storage/keys.go:102-143 | A step of the runs: a request starts only for an active key of an enabled credential. |
| CoordinatorStore.Store.StartWebSocketOperation | src/coordinator/internal/storage/keys.go:175-218 | A step of the runs: an operation starts only while the whole route still stands. |
| Timestamps.TimestampOrder | src/coordinator/internal/storage/store.go:84-86 | For UTC times of the years 0 to 9999, text order of stored timestamps is order in time. |
| Timestamps.DateOnlyOrder | src/coordinator/internal/storage/requests.go:128-128 | Text order of stored days is order of days. |
| Timestamps.MidnightCutoff | src/coordinator/internal/storage/prune.go:21-35 | For a midnight cutoff, comparing timestamps and comparing days select the same rows. |
| ObserverTheorems.StreamRefinesSplit | src/coordinator/internal/usage/observer.go:71-126 | For a declared stream and every chunking, the observer is in the state given by the events of the whole stream: those within the budget accepted in order, the unfinished rest buffered or dropped. |
| ObserverTheorems.EveryModeRefinesSplit | src/coordinator/internal/usage/observer.go:47-96 | For every content type and chunking, over budget or not: an observer that streams is in the state of the whole stream from its first byte; otherwise it gave up or holds the whole body. |
| SseEvents.SplitUnique | src/coordinator/internal/usage/observer.go:98-115 | Every byte stream has exactly one division into events that end at their first blank line and a rest without one. |
| SseEvents.BlankInStream | src/coordinator/internal/usage/observer.go:98-115 | A blank line seen in the whole stream is exactly an end of an event as seen from the start of that event. |
| ObserverTheorems.OversizedEventVanishes | src/coordinator/internal/usage/observer.go:71-96 | However the stream with an event over the budget and the stream without it are cut, the two observers are equal. |
| ObserverTheorems.LineDecides | src/coordinator/internal/usage/observer.go:98-115 | Length up to two and whether the first byte is CR decide whether a line feed ends a blank line. |
| ObserverTheorems.OtherBodyDisabledIffTooLong | src/coordinator/internal/usage/observer.go:47-67 | For a declared other type, every chunking holds the whole body, or is disabled exactly if the body exceeds the budget. |
| ObserverTheorems.DetectionWithinBudget | src/coordinator/internal/usage/observer.go:47-67 | Without a declared type and within the budget, every chunking reaches the decision of the whole body, and the state of a declared stream if it is one. |
| ObserverTheorems.DetectionChunkInvariance | src/coordinator/internal/usage/observer.go:146-149 | Detection is independent of the chunking exactly if the body fits the budget or its budgeted prefix is not recognised. |
| ObserverTheorems.TerminalIsJoin | src/coordinator/internal/usage/observer.go:187-204 | The terminal status is the maximum over the accepted events of unknown, completed, upstream error, in any order of events. |
| ObserverTheorems.CountersAreTallies | src/coordinator/internal/usage/sse_progress.go:14-27 | Every counter is the saturated number of accepted events of its classes. |
| ObserverTheorems.CountersAgree | src/coordinator/internal/usage/sse_progress.go:20-27 | Below saturation the events are the sum of the class counters; outputs never exceed events. |
| ResponseObserver.Observer.EventBoundary | src/coordinator/internal/usage/observer.go:98-115 | Finds the first end of an event in the chunk, continuing the line of earlier chunks, or none. |
| ResponseObserver.Observer.ObserveSse | src/coordinator/internal/usage/observer.go:71-96 | The chunk loop leaves the observer as feeding it the bytes one at a time would. |
| ResponseObserver.Observer.Observe | src/coordinator/internal/usage/observer.go:47-67 | Buffering, detection, disabling and scanning are those of the specified observer. |
| ResponseObserver.Observer.Finish | src/coordinator/internal/usage/observer.go:165-172 | Flushes the unfinished event or the held body once. |
| StreamRelay.RelayTurns | src/coordinator/internal/httpapi/stream.go:51-99 | The loop ends at the first failed write or ended read; bytes sent are a prefix of bytes received, equal unless a write failed, and then exactly what was sent before plus what that write delivered. |
| StreamRelay.StreamBody | src/coordinator/internal/httpapi/stream.go:37-140 | The outcome and usage are those of the observer of exactly the received bytes; a failed write is a client disconnect. |
| StreamRelay.CompleteIffCompletedAndNotFailed | src/coordinator/internal/httpapi/stream.go:132-140 | A stream, declared or detected, that ended by itself is reported complete exactly if an accounted event completes the response and none fails it; however it was stopped, it is never reported complete otherwise. |
| StreamRelay.TailVerdictRestsOnCompleteEvents | src/coordinator/internal/usage/observer.go:135-144 | After a forced close of the tail of a stream, declared or detected, the verdict depends on complete events only; pending data is an error. |
| StreamRelay.BodyVerdict | src/coordinator/internal/httpapi/stream.go:132-140 | A body that is not a stream and ended by itself fails exactly if it was held to its end and decodes to a failed response. |
| SupervisedStream.SilenceMeansNoTerminal | src/coordinator/internal/httpapi/stream.go:51-66 | In every run of relay and watchdog together, a stop for silence comes while no event that was reported to the guard is terminal, and a first-output stop while none is an output; at most one chunk is unreported then. |
| StreamGuard.ReasonIsFinal | src/coordinator/internal/httpapi/http_stream_timeout.go:98-104 | Over every timed run the stop reason is set at most once, and is final once the runner has exited. |
| StreamGuard.TimeoutsAreJustified | src/coordinator/internal/httpapi/http_stream_timeout.go:106-150 | An idle or output timeout means no terminal was reported and the silence since each report lasted; a first-output timeout means no output was. |
| StreamGuard.StopsWaited | src/coordinator/internal/httpapi/http_stream_timeout.go:106-150 | Every timeout waited its time since the start, a tail timeout since the first of the terminal reports; a cancelled stop follows a cancellation. |
| StreamGuard.TailDeadlineIsFixed | src/coordinator/internal/httpapi/http_stream_timeout.go:62-85 | The first terminal report fixes the tail deadline; nothing extends it. |
| StreamGuard.CheckFiresExactlyAtDeadline | src/coordinator/internal/httpapi/http_stream_timeout.go:106-130 | A check stops the stream exactly if the deadline in force has passed, with its reason. |
| StreamGuard.HttpStreamGuard.Check | src/coordinator/internal/httpapi/http_stream_timeout.go:110-130 | One pass of the runner picks the deadline and reason of the specification. |
| StreamGuard.HttpStreamGuard.Observe | src/coordinator/internal/httpapi/http_stream_timeout.go:62-85 | A report updates the clock readings only while no reason is set. |
| SchemaCanonical.CanonicalFormOfAcceptedInput | src/core/codex/src/request_emulation_schema.rs:285-292 | Every schema accepted by valid_input has a valid canonical form that canonicalising again leaves alone. |
| SchemaCanonical.CanonicalFormForgetsOnlyOrder | src/core/codex/src/request_emulation_schema.rs:33-97 | Two valid schemas have the same canonical form exactly if they agree under every lookup at schema positions; the form agrees with its schema. |
| SchemaCanonical.PermutedFieldsAgree | src/core/codex/src/request_emulation_schema.rs:89-97 | Objects with the same fields in another order agree, so they have one canonical form. |
| SchemaStability.InvalidFormIsNotStable | src/core/codex/src/request_emulation_schema.rs:4-13 | A concrete schema with null properties that stays invalid and whose canonical form changes when canonicalised again. |
| SchemaStability.FixedForms | src/core/codex/src/request_emulation_schema.rs:4-13 | Canonicalising leaves a schema alone exactly if it is in order and either valid, or lowered at every schema position with only reachable definitions. |
| SchemaStability.CanonicalTwice | src/core/codex/src/request_emulation_schema.rs:4-13 | Canonicalising twice is canonicalising once exactly if the form is valid or lowered. |
| SchemaStability.StableExactly | src/core/codex/src/request_emulation_schema.rs:4-13 | The same as a condition on the schema: the form is stable exactly if it is valid, or the schema has no null where lowering would fill in and no null reference or union that alone keeps lowering from giving a type, at every position that survives and in every definition that is reached. |
| SchemaStability.TwoPassesSuffice | src/core/codex/src/request_emulation_schema.rs:4-13 | For every schema, valid or not, the form of the form is stable. |
| SchemaLasting.FormLasts | src/core/codex/src/request_emulation_schema.rs:99-211 | The form of a schema that is not valid is lowered exactly under that condition on the schema. |
| SchemaStability.OrderLasts | src/core/codex/src/request_emulation_schema.rs:33-97 | Every schema in order meets the condition, because ordering drops nulls. |
| SchemaPruned.FormReachable | src/core/codex/src/request_emulation_schema.rs:213-281 | The form of a schema that is not valid has no empty definition table and only reachable definitions. |
| SchemaReferences.ReachableEquiv | src/core/codex/src/request_emulation_schema.rs:215-262 | Schemas that agree under lookups reach the same definitions, whatever the order of their fields. |
| SchemaStability.NullReferenceIsNotStable | src/core/codex/src/request_emulation_schema.rs:153-163 | A family of schemas that one lowering pass settles and whose form still changes: ordering drops the null reference that lowering kept. |
| SchemaStability.NullReferenceInput | src/core/codex/src/request_emulation_schema.rs:153-163 | One such schema, written out. |
| SchemaPruned.PruneFixed | src/core/codex/src/request_emulation_schema.rs:263-280 | Pruning leaves a schema alone exactly if no definition table is empty and every definition is reachable. |
| SchemaAgreement.AgreeingSchemasHaveOneForm | src/core/codex/src/request_emulation_schema.rs:4-13 | Raw schemas, valid or not, that agree under every lookup at the positions lowering visits have the same canonical form. |
| SchemaAgreement.FieldOrderIsForgotten | src/core/codex/src/request_emulation_schema.rs:89-97 | Raw objects with the same fields in another order have the same canonical form. |
| SchemaCanonical.Canonicalize | src/core/codex/src/request_emulation_schema.rs:4-13 | Lower and prune an invalid schema, then order: the canonical form. |
| SchemaCanonical.ValidInput | src/core/codex/src/request_emulation_schema.rs:285-292 | Accepts valid schemas, and those whose canonical form is valid and not of type null. |
| SchemaEquivalence.OrderIsCanonical | src/core/codex/src/request_emulation_schema.rs:33-87 | Ordering maps two schemas to the same result exactly if they agree under every lookup. |
| SchemaEquivalence.OrderIdempotent | src/core/codex/src/request_emulation_schema.rs:33-87 | An ordered schema is left alone. |
| SchemaEquivalence.OrderValid | src/core/codex/src/request_emulation_schema.rs:294-341 | Ordering keeps a schema valid. |
| SchemaPrune.FindReachable | src/core/codex/src/request_emulation_schema.rs:253-262 | The worklist terminates with exactly the reachable definitions. |
| Reachability.Explore | src/core/codex/src/request_emulation_schema.rs:253-262 | Over any finite graph the worklist finds exactly what chains from the start reach; the measure is unreached nodes, then pending length. |
| SchemaPrune.PruneIsExact | src/core/codex/src/request_emulation_schema.rs:263-280 | A definition is looked up as before if it is reachable and is absent otherwise; no other field changes. |
| SchemaPrune.PruneKeepsReachability | src/core/codex/src/request_emulation_schema.rs:215-252 | The pruned schema reaches exactly what the schema reached. |
| SchemaPrune.PruneIdempotent | src/core/codex/src/request_emulation_schema.rs:213-281 | A second prune removes nothing. |
| SchemaPrune.PruneDefinitions | src/core/codex/src/request_emulation_schema.rs:213-281 | Search and retention give the exactly pruned schema. |
| SchemaPrune.ReferenceRoundTrip | src/core/codex/src/request_emulation_schema.rs:215-252 | For every definition name, the reference written with the escapes of section 4 of RFC 6901 resolves to that name. |
| SchemaLowered.FixedPointsAreLowered | src/core/codex/src/request_emulation_schema.rs:99-211 | Lowering leaves a schema alone exactly if it is lowered at every schema position. |
| SchemaLowered.SanitizeLowers | src/core/codex/src/request_emulation_schema.rs:99-211 | One pass lowers a schema exactly if no surviving position of object or array type has an explicit null for `properties` or `items`. |
| SchemaLowered.SanitizeTwice | src/core/codex/src/request_emulation_schema.rs:194-210 | A second pass changes nothing under exactly that condition. |
| SchemaLowered.NullPropertiesNeedTwoPasses | src/core/codex/src/request_emulation_schema.rs:201-210 | The schema of type object with null properties, which a second pass changes. |
| SchemaSanitize.SanitizeWellFormed | src/core/codex/src/request_emulation_schema.rs:99-211 | Lowering never writes a key twice into an object. |
| ConnectionCapacity.CountersAreHolders | src/coordinator/internal/httpapi/websocket_manager.go:32-65 | In every interleaving of handlers the counters of a key are its live holders and live guardians, entries exist exactly for keys in use, and no key exceeds the limit. |
| ConnectionCapacity.GuardiansLeaveRoom | src/coordinator/internal/httpapi/websocket_handler.go:57-64 | Before shutdown an ordinary acquire is refused exactly if the key is full, and then a holder is not a guardian. |
| ConnectionCapacity.DrainIsExact | src/coordinator/internal/httpapi/websocket_manager.go:67-105 | The drain is signalled exactly when the manager is closing and no session is registered; from then on both stay so. |
| WebSocketManager.Manager.AcquireRole | src/coordinator/internal/httpapi/websocket_manager.go:32-43 | Admits exactly under the limits and counts the role. |
| WebSocketManager.Manager.ReleaseRole | src/coordinator/internal/httpapi/websocket_manager.go:49-65 | Undoes one acquire of that role and removes counters that reach zero. |
| WebSocketManager.Manager.Register | src/coordinator/internal/httpapi/websocket_manager.go:67-76 | Accepts exactly before shutdown. |
| WebSocketManager.Manager.Unregister | src/coordinator/internal/httpapi/websocket_manager.go:78-85 | The last session after shutdown signals the drain; the channel is never closed twice. |
| WebSocketManager.Manager.Shutdown | src/coordinator/internal/httpapi/websocket_manager.go:87-105 | Every registered session is listed for stopping once; without sessions the drain is signalled, never twice. |
| AsciiJson.WriteStringFragment | src/core/codex/src/ascii_json.rs:9-31 | Copying runs of bytes and escaping in between writes the escape of every character in order, and only ASCII. |
| AsciiJson.RoundTrip | src/core/codex/src/ascii_json.rs:21-26 | For every fragment without characters that JSON must escape, reading what was written, with surrogate pairs, gives the fragment back. |

## Left out

- Sockets, HTTP, TLS, processes, the command line, OAuth, cookies and the browser callback: input and output only.
- SQL text, drivers, schema migration and locking: write transactions are taken to be atomic and serialised.
- A standalone DeleteCredentialMetadata is a step of the runs, but the removal theorems are about the fence, which also excludes requests in flight.
- Integers: counters of the ledger are unbounded, so overflow of 64-bit sums is not modelled; the saturation of the progress counters is.
- JSON parsing, usage extraction from a decoded envelope, event classification, percent-decoding and date validation are parameters.
- Aliasing and update in place of JSON trees: `sanitize`, `order` and the retention of definitions are modelled on values.
- The order in which `reorder_preserving` leaves fields outside its list: at schema positions `order` has already removed them.
- Liveness: timers fire nondeterministically, and no theorem says that a session, a drain or a stream ends.
- StreamRelay.StreamBody: the stop reason is a parameter of the loop; what a stop for silence means for the relayed events is SupervisedStream.SilenceMeansNoTerminal.
- Diagnostics, progress reports, log lines and the text of error responses.
- StreamRelay.RelayTurns: a script of reads that runs out leaves the relay running; that a real body ends is not claimed.
- SessionState.ParseWebSocketEvent: decoding is a parameter, and the length of a response id is counted in characters where the code counts bytes.
- CoordinatorStore.Store.CreateApiKey: validation of the label and the drawing of the identifier and secret are left to the environment.
- CoordinatorStore.Store.RecoverInFlight: the listing is a parameter, because other transactions may run between the query and the loop.
- AsciiJson.RoundTrip: characters that JSON must escape are written by the serialiser before the fragment writer sees them, so they are outside the theorem.
- Rust identity resolution, wire identifiers, history import, rule tables and header lists.
