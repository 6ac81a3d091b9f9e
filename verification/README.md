# Record core lifecycle — a Dafny model

This project models `RecordCore`, the client-side engine behind one named,
versioned JSON record of the deepstream client. It covers the single-record
lifecycle: subscribe-and-read or cache load, then READY, then either
discard (UNSUBSCRIBING, UNSUBSCRIBED) or delete (DELETING, DELETED). It also
covers the three write shapes (full update, path patch, path erase) online
and offline, write-acknowledgement correlation ids, the ready gate, the
discard debounce and the completion hand-back to the owning registry.

The implementation file `src/record/record-core.ts` is not part of this
model. The behaviour comes from its test suite,
`src/record/record-core.spec.ts`, plus the design of the component where
the tests leave a choice open. Those choices are listed below.

Layout:

- `wrappers.dfy`: `Option`.
- `json.dfy`: the JSON tree, the `Write` shapes and `Apply`.
- `correlation.dfy`: correlation ids. They are the decimal rendering of a counter that starts at 1.
- `protocol.dfy`: the RECORD-topic envelope and the write messages.
- `record_core.dfy`: the state machine. `Next` maps a record and an `Event` to the new record plus the ordered `Effect`s it emits. Events are construction, the cache answer, an inbound message, `set`, `whenReady`, `discard`, a consumer attaching (`usages++`), the discard timer firing, `delete`, and the next scheduling tick.
- `lifecycle.dfy`: `Run` over event sequences, and the properties that hold over every run.
- `scenarios.dfy`: the online and offline test scripts replayed on the model.

Timers, promises and callbacks are modelled as effects and events, so nothing is concurrent:

- `StartDiscardTimer` and `CancelDiscardTimer` are effects, and `DiscardTimerFired` is an event.
- A ready waiter is released by a `ReadyCallback` or `ResolvePromise` effect.
- An offline write callback is queued. The `Tick` event later answers it with a `WriteAckCallback(cb, CLIENT_OFFLINE, name)` effect.
- The transport's `isConnected` is a flag fixed when the record is built.
- The local cache and the transport are effects (`CacheGet`, `CacheSet`, `CacheDelete`, `Send`) and events (`CacheLoaded`, `Receive`).

Choices made where the tests do not decide:

- When the transport is connected, the cache answer is ignored. The read response supersedes it.
- When offline, a cache miss loads as version 0 with an empty tree.
- The storage engine signals a miss with version -1 and no data. The model delivers that answer as `CacheMiss`, so a `CacheHit` always carries a version of 0 or more.
- A `set` is accepted while the record is ready (READY, UNSUBSCRIBING or DELETING). In any other state it is dropped.
- `discard` acts only on a READY record. It lowers `usages` without going below 0. When no usage is left, it starts the grace period.
- `delete` acts only on a READY record. A second `delete` is ignored.
- An unsolicited DELETED is honoured only while the record is ready, so no queued waiter can be stranded.
- Offline writes do not allocate correlation ids.

## Model

| member | source | states |
|---|---|---|
| Json.Apply | src/record/record-core.spec.ts:343-416 | A full update yields the new tree. A patch sets the path to the value and keeps every other key. An erase removes the path and keeps every other key. |
| Json.EraseUndoesPatch | src/record/record-core.spec.ts:393-400 | A law of the single-key merge these lines apply (no test asserts the law itself): erasing a path after patching it gives the tree that erasing it straight away gives. |
| Json.PatchRestoresErase | src/record/record-core.spec.ts:352-359 | A law of the single-key merge these lines apply (no test asserts the law itself): patching the erased value back at its path restores the original tree. |
| Json.WritesAreIdempotent | src/record/record-core.spec.ts:343-416 | A law of the merge the offline suite applies (no test asserts the law itself): applying the same write twice leaves the tree that one application leaves. |
| Correlation.Decimal | src/record/record-core.spec.ts:134 | A correlation id is a non-empty string of decimal digits with no leading zero. |
| Correlation.ParseDecimalInverse | src/record/record-core.spec.ts:134 | Reading a rendered id back gives the counter value it was rendered from. |
| Correlation.DecimalInjective | src/record/record-core.spec.ts:134 | Two counter values render to the same id exactly when they are equal. |
| Correlation.IdRangeDistinct | src/record/record-core.spec.ts:153 | The ids allocated over any stretch of the counter are pairwise distinct. |
| Protocol.Plain | src/record/record-core.spec.ts:31-35 | The subscribe, unsubscribe and delete envelopes carry only topic RECORD, the action and the name. |
| Protocol.WriteAction | src/record/record-core.spec.ts:88-175 | An update is sent as UPDATE, a patch as PATCH and an erase as ERASE, and only so. |
| Protocol.WriteAckRoundTrip | src/record/record-core.spec.ts:131-185 | Each write action has exactly one write-acknowledged variant, and dropping the marker gives the action back. |
| Protocol.WriteMessage | src/record/record-core.spec.ts:88-193 | A write envelope carries the name and the new version. An update carries the whole tree. A patch carries the path and the leaf value only. An erase carries the path and no data. With a correlation id the action is the write-acknowledged variant. |
| Protocol.WriteAckChangesOnlyActionAndId | src/record/record-core.spec.ts:123-158 | Asking for an acknowledgement changes only the action and adds the correlation id. |
| RecordCore.IsReady | src/record/record-core.spec.ts:195-300 | `isReady` holds in READY, UNSUBSCRIBING and DELETING and in no other state. Every state is exactly one of loading, ready or terminal. |
| RecordCore.Valid | src/record/record-core.spec.ts:195-237 | The record invariant: a live discard timer belongs to an unused ready record, and a ready or torn-down record holds no queued waiter. A torn-down record has no timer. |
| RecordCore.New | src/record/record-core.spec.ts:23-46 | A fresh record is VOID, unused, at version -1, with the id counter at 1, and satisfies the record invariant. |
| RecordCore.OnOpen | src/record/record-core.spec.ts:28-45 | Construction asks the cache for the name. Only when connected does it also send SUBSCRIBECREATEANDREAD, entering SUBSCRIBING; offline it enters LOADING. |
| RecordCore.OnCacheLoaded | src/record/record-core.spec.ts:316-341 | Offline, the cache answer makes the record READY with the cached version and tree, or version 0 and an empty tree on a miss, and releases the waiters. Online it changes nothing. |
| RecordCore.Release | src/record/record-core.spec.ts:68-75 | Releasing a queue emits one notification per waiter, in registration order, each carrying that waiter's context. |
| RecordCore.OfflineAcks | src/record/record-core.spec.ts:369-374 | Flushing the deferred callbacks calls each one once, in order, with CLIENT_OFFLINE and the record name. |
| RecordCore.BecomeReady | src/record/record-core.spec.ts:68-86 | The first read adopts the version and tree, enters READY, empties the queue and releases exactly the queued waiters in order. |
| RecordCore.OnReceive | src/record/record-core.spec.ts:260-300 | READ_RESPONSE makes a subscribing record ready. DELETE_SUCCESS in DELETING, or DELETED while ready, enters DELETED and completes once. Every other message is ignored. |
| RecordCore.OnSet | src/record/record-core.spec.ts:52-193 | Before ready a write has no effect at all. Once ready the version rises by one and the tree is the applied write. Online, exactly one message is sent, with a fresh id and a registered pending write when a callback is given. Offline, exactly one cache write of the merged tree is made and the callback is queued, not called. |
| RecordCore.OnWhenReady | src/record/record-core.spec.ts:334-341 | A ready record serves a waiter at once with its context. A loading record queues it. |
| RecordCore.OnDiscard | src/record/record-core.spec.ts:195-202 | Discarding an unused READY record enters UNSUBSCRIBING, still ready, and starts the discard timer. With other users left, only the usage count drops. |
| RecordCore.OnAttach | src/record/record-core.spec.ts:204-214 | A rise in usages during UNSUBSCRIBING cancels the timer and returns to READY. |
| RecordCore.OnDiscardTimerFired | src/record/record-core.spec.ts:216-237 | A live timer with no usage leads to UNSUBSCRIBED, not ready, sends UNSUBSCRIBE only when connected, and completes once. A cancelled timer does nothing. |
| RecordCore.OnDelete | src/record/record-core.spec.ts:239-258 | Deleting a READY record enters DELETING, still ready, and sends DELETE when connected. It does not complete yet. |
| RecordCore.OnTick | src/record/record-core.spec.ts:361-375 | The next tick answers every deferred offline callback with CLIENT_OFFLINE and the name, in order, and empties the queue. |
| RecordCore.Teardown | src/record/record-core.spec.ts:229-236 | Teardown ends in a terminal state, not ready, with the timer gone, and calls the completion callback with the name as its last effect. |
| RecordCore.Next | src/record/record-core.spec.ts:23-300 | The public calls and asynchronous completions dispatch to their handlers. No step changes the record's name, connectivity or discard timeout. |
| RecordCore.NextPreservesValid | src/record/record-core.spec.ts:195-214 | Every step keeps the record invariant. The timer runs exactly in UNSUBSCRIBING, with no usage. No waiter stays queued after loading. Pending ids lie below the counter. Offline records hold no pending writes and online ones no deferred callbacks. |
| Lifecycle.NextLaws | src/record/record-core.spec.ts:216-300 | Every step obeys five laws. It calls the completion callback with the name exactly when it enters UNSUBSCRIBED or DELETED, and terminal states are final. It sends exactly the correlation ids of the counter values it allocates. It releases or queues waiters without losing or repeating any. It answers or defers offline callbacks without losing or repeating any. Offline, it sends nothing. |
| Lifecycle.TerminalStepInert | src/record/record-core.spec.ts:216-300 | A step of an UNSUBSCRIBED or DELETED record keeps everything but its deferred offline callbacks, and its only effects are CLIENT_OFFLINE acknowledgements. |
| Lifecycle.TerminalIsInert | src/record/record-core.spec.ts:216-300 | Over any run of a torn-down record no message is sent, no cache write or delete is made, no waiter or owner is notified, and the state, version and data stay as they were. |
| Lifecycle.CompletesOnce | src/record/record-core.spec.ts:260-300 | Over any run, the completion callback is called exactly once with the name if the record ends terminal, and never otherwise. |
| Lifecycle.CorrelationIdsSequential | src/record/record-core.spec.ts:141-158 | The ids sent over any run are exactly the consecutive counter values it allocates, in order. |
| Lifecycle.CorrelationIdsUnique | src/record/record-core.spec.ts:177-193 | From a new record the first id sent is "1" and no id is sent twice. |
| Lifecycle.WaitersReleasedInOrder | src/record/record-core.spec.ts:68-86 | Over any run, the released waiters plus those still queued are exactly the registered waiters in registration order. Once loaded, all have been released. |
| Lifecycle.OfflineAcksAnsweredOnce | src/record/record-core.spec.ts:377-416 | Over any run, the callbacks answered with CLIENT_OFFLINE plus those still deferred are exactly the offline write callbacks, in order. |
| Lifecycle.NeverSendsOffline | src/record/record-core.spec.ts:303-332 | No run of an offline record sends any message. |
| Lifecycle.NextVersion | src/record/record-core.spec.ts:88-103 | After loading, a step never returns to loading and never lowers the version. |
| Lifecycle.VersionNeverDecreases | src/record/record-core.spec.ts:88-121 | After loading, the version never decreases over any run. |
| Lifecycle.WritesBeforeReadyDropped | src/record/record-core.spec.ts:52-66 | Any number of writes before the first read leave the record unchanged and emit nothing. |
| Lifecycle.WritesBumpVersion | src/record/record-core.spec.ts:88-121 | N writes on a ready record raise the version by exactly N, whatever their shapes. They leave the tree with all writes applied in turn and keep the state. Each emits one effect: N messages online, none offline. |
| Scenarios.ReadResponseFixture | src/record/record-core.spec.ts:487-494 | The fixture is a well-formed read response at version 1 with an empty tree. |
| Scenarios.OnlineWritesBeforeReadyDropped | src/record/record-core.spec.ts:52-66 | Online, construction sends one subscribe request. The cache miss changes nothing, and a write before the read emits nothing. |
| Scenarios.OnlineReadReleasesWaiter | src/record/record-core.spec.ts:68-86 | A waiter registered before the read is released once, with its context, by the read response. The record is then READY at version 1. |
| Scenarios.OnlineReady | src/record/record-core.spec.ts:88-89 | After the fixture read, the online record is valid, READY at version 1 with an empty tree, unused, and with the id counter at 1. |
| Scenarios.OnlineWriteAfterRead | src/record/record-core.spec.ts:88-193 | Once ready at version 1, every write sends exactly one message at version 2. It carries id "1" and the acknowledged action when a callback is given. |
| Scenarios.OnlineWriteEnvelopes | src/record/record-core.spec.ts:94-190 | The six write envelopes equal the ones the online suite expects, field for field. |
| Scenarios.DiscardQueued | src/record/record-core.spec.ts:195-202 | Discarding an unused ready record enters UNSUBSCRIBING, still ready, and starts the timer. |
| Scenarios.DiscardCancelledByUsage | src/record/record-core.spec.ts:204-214 | Discard then a new usage returns to READY, still ready. The timer is cancelled, and a late firing does nothing. |
| Scenarios.DiscardCompleted | src/record/record-core.spec.ts:437-448 | Discard then timeout ends UNSUBSCRIBED, not ready. UNSUBSCRIBE is sent only when connected, and the owner is told once. |
| Scenarios.DeleteConfirmed | src/record/record-core.spec.ts:239-282 | Delete sends DELETE and waits in DELETING, still ready and not completed. DELETE_SUCCESS then deletes the record and completes once. |
| Scenarios.DeletedRemotely | src/record/record-core.spec.ts:284-300 | An unsolicited DELETED deletes a ready record, which is no longer ready, and completes once. |
| Scenarios.OfflineReadyFromCache | src/record/record-core.spec.ts:334-341 | Offline, the cache load alone makes the record READY with the cached version and tree. A waiter is then served at once. |
| Scenarios.OfflineReady | src/record/record-core.spec.ts:320-326 | After the cache hit, the offline record is valid, READY at version 1 with the cached tree, and has nothing deferred. |
| Scenarios.OfflineWrite | src/record/record-core.spec.ts:343-416 | Offline, a write stores the merged tree at version 2 and nothing else. A callback is answered once, with CLIENT_OFFLINE and the name, on the next tick. |
| Scenarios.OfflineMergedTrees | src/record/record-core.spec.ts:347-408 | The cached trees are `{firstname: 'Bob'}` after an update or a patch, and `{}` after erasing the only key. |

## Left out

- Offline delete confirmation: `OnDelete` on an offline record emits `CacheDelete` and enters DELETING. The cache's confirmation is not modelled, because its tests (lines 450-483) are skipped.
- Inbound write acknowledgements: pending writes are recorded under their correlation id. Resolving them on an acknowledgement message is not modelled, because no behaviour for it is asserted.
- `recordReadTimeout` and `subscriptionInterval`: they are configured but no behaviour for them is asserted.
- Real timers, Bluebird promise scheduling and promise resolution are left out. They appear as events (`DiscardTimerFired`, `Tick`) and effects (`StartDiscardTimer`, `ResolvePromise`).
- The transport, the storage engine and the record registry are left out as external I/O. Only the messages sent and the cache calls made are modelled.
- Reconnection is left out: `connected` is fixed when the record is built.
- Paths are single top-level keys. Nested paths and array indices are not modelled.
- JSON numbers are modelled as integers. No floating point is modelled.
- OnDiscard: a discard on a record that is not READY is ignored. The implementation's handling of it is not visible.
- OnWhenReady: a `whenReady` on a torn-down record is ignored. The registry never hands one out.
- OnReceive: a DELETED notice that arrives before the first read is ignored.
