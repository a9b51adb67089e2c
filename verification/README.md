# Verified model of the assistant's coordination core

A Dafny model of the parts of the repository that coordinate everything else, with proofs about whole runs:

- the **event bus** and the **service registry** of the Rust supervisor;
- the **IPC protocol** between the Rust supervisor and the Python bridge, with its fail-closed gates;
- the **task store** and its transition log, permitted by a legacy matrix or by two policies written in Rust,
  and the **command router** with its audit log and challenge gate;
- the **proactive controller** with its three rate limits and its threshold calibration;
- the **energy manager**, the **scheduler**, the **thread limiter** and the **text bounds** of the reasoning engine.

Objects that the source updates in place are classes; each mutating method is proved against a specification function
or a step system on values, and the theorems over all runs are lemmas about those. Concurrency is modelled as step
systems in which every interleaving is a run: bus publishers and the dispatch thread, the two IPC parties, the
threads of the limiter. Every file is a module named after the component it models; `Common.dfy` and `Text.dfy` hold
shared vocabulary. `dafny verify dfyconfig.toml` checks the project.

Where the code does not do what its documentation says, the model follows the code and proves when the promise holds:

- The bus's recursion protection needs `max_hops <= 254`. At 255 the saturating hop count never exceeds the limit, and
  one publish can cause any number of dispatches (`CascadesBoundedExactly`).
- `stop_all` is documented to stop in reverse registration order; it reverses the order of a hash map, so any order is
  possible, and unless no running service has dependencies some order stops a dependency first (`StopOrderExactly`,
  `AnyOrderSafeExactly`). `stop_service` does not look at dependents either (`StopKeepsClosedExactly`).
- The thread limiter accepts a release from a thread that holds nothing. Its slot arithmetic survives that, but its limit
  on concurrent holders does not: it can be broken exactly as long as such a release is outstanding
  (`LimitBreakableExactly`, `OversubscriptionReachable`).
- A transition record is appended before the storage authority is asked to execute, so an authority that answers its
  preflight and its execution request differently leaves a record without its row change (`AgreementKeptExactly`,
  `InconsistentStorageOrphans`). The Rust policies do so only for an id the dispatcher refuses or still remembers
  (`WiredOrphansExactly`), so never under fresh ids (`WiredLogAgrees`).
- Archived tasks are immutable under the Rust policies; without a bridge `update_task` writes to archived rows unless
  storage authority is enforced (`UnbridgedFrozenExactly`).
- Acknowledgements of events are meant as state updates; Rust drops them as duplicates of its own ids
  (`AcknowledgementTakenExactly`).
- `route` is documented to return one structured result; it raises, without an audit event, on an intent that is not a
  mapping, on timestamps, numbers and ids that overflow, on values without a text (an integer of thousands of digits)
  as declared goal or as a key of sensitive entities, and on an explicit `None` as alignment score at the challenge
  gate (`RouteIntent`, `OverflowsEscape`). An unprintable key does so after the action was carried out
  (`EscapeChangesRowsExactly`, `HiddenCreation`).
- The Rust policies allow five transitions that the legacy matrix refuses, among them COMPLETED to ACTIVE
  (`WiringsCompared`).
- High acceptance can meet the override rule, and then the threshold rises although suggestions are accepted
  (`RulesExclusive`, `OverridesOutweighAcceptance`).

## Model

| member | source | states |
|---|---|---|
| `EventBuses.CascadeBound` | os/src/event_bus.rs:152-197 | For every interleaving, with any other publishes and cascades around, and every handler behaviour with at most k continuations per dispatched envelope: a trace started by one publish has at most G(max_hops) dispatches, with G(0) = 1 and G(n+1) = 1 + k G(n) |
| `EventBuses.EveryCascadeBound` | os/src/event_bus.rs:152-156 | If nobody chooses a trace id of their own, that bound holds for every publish of a run at once |
| `EventBuses.PublishesHaveOwnTraces` | os/src/event_bus.rs:152-156 | In such a run all publishes have different trace ids and hop zero |
| `EventBuses.CascadesBoundedExactly` | os/src/event_bus.rs:188-197 | Some finite bound on singly seeded cascades, over all runs, exists if and only if max_hops is at most 254 or no handler continues a trace; and then the bounds are exactly the numbers from G(max_hops) on |
| `EventBuses.BoundIsReached` | os/src/event_bus.rs:188-197 | A run with one publish, whose handlers make all their calls, has exactly G(max_hops) dispatches in its trace |
| `EventBuses.EndlessChain` | os/src/event_bus.rs:188-197 | With max_hops = 255 and a continuing handler, for every n there is a real run in which one publish has been dispatched n times |
| `EventBuses.OutstandingFalls` | os/src/event_bus.rs:261-279 | Termination measure: the queued, pending and still allowed work of a trace never rises outside a fresh publish, and falls at each dispatch of the trace |
| `EventBuses.RunCost` | os/src/event_bus.rs:159-197 | Over every run, dispatches of a trace plus its outstanding work never exceed the cost of the publishes that seeded it |
| `EventBuses.StepCost` | os/src/event_bus.rs:159-197 | Each step of any thread keeps that account, for every trace at once |
| `EventBuses.FifoDelivery` | os/src/event_bus.rs:208-279 | Dispatches follow send order without loss or repetition; when the dispatcher exits it has handled exactly what was sent before Stop; the trace buffer is the last trace_capacity dispatched envelopes |
| `EventBuses.RunOrdered` | os/src/event_bus.rs:261-309 | In every reachable state the taken commands and the queue make up what was sent, the queue respects its capacity, ids are unique, and no queued envelope is over the hop limit |
| `EventBuses.RemoveSubscription` | os/src/event_bus.rs:136-149 | Whatever order the map is scanned in, the result is every list without the id, and true is returned exactly if some list held it |
| `EventBuses.WithoutAt` | os/src/event_bus.rs:142-147 | Removing the first match removes every occurrence, since ids are handed out once |
| `EventBuses.SubscribeKeepsUnique` | os/src/event_bus.rs:114-134 | A new id from the shared counter keeps ids unique within and across all event lists |
| `EventBuses.EventBus.constructor` | os/src/event_bus.rs:91-112 | Capacity, hop limit and trace capacity are at least one, and the bus starts in the initial state of the step system |
| `EventBuses.EventBus.Subscribe` | os/src/event_bus.rs:115-134 | Fails only after shutdown; otherwise appends a fresh id to that event's list alone |
| `EventBuses.EventBus.Unsubscribe` | os/src/event_bus.rs:137-149 | Removes exactly the entry with this id, wherever it is |
| `EventBuses.EventBus.Transmit` | os/src/event_bus.rs:182-185 | The blocking send: disconnected, sent, or left waiting in a full channel |
| `EventBuses.EventBus.Unblock` | os/src/event_bus.rs:182-185 | A waiting sender completes once there is room or the channel is gone; it is the send step of the step system |
| `EventBuses.EventBus.PublishWithTrace` | os/src/event_bus.rs:159-186 | AlreadyShutdown after shutdown, else RecursionLimitExceeded over the limit, else ChannelDisconnected after exit; otherwise the stamped envelope is at the end of the queue, or waits if that is full; the model moves by the admit step and, unless blocked, the send step |
| `EventBuses.EventBus.PublishEvent` | os/src/event_bus.rs:152-156 | The trace id is fresh, the envelope gets the next id and hop zero, also if the send blocks; the model moves by the fresh-trace step and its send |
| `EventBuses.EventBus.ContinueTrace` | os/src/event_bus.rs:188-197 | For any parent envelope: the child carries its trace and the saturated next hop, or RecursionLimitExceeded over the limit on a live bus; for a dispatched parent the model uses up one of its calls |
| `EventBuses.EventBus.RequestShutdown` | os/src/event_bus.rs:208-227 | The first call sends Stop once, or waits with it in a full channel; later calls do nothing; the model moves by the shutdown step and its send |
| `EventBuses.EventBus.DispatchOne` | os/src/event_bus.rs:261-309 | One turn of the loop is one delivery step; the subscribed handlers are returned in subscription order |
| `ServiceRegistries.ServiceRegistry.StartRecursive` | os/src/runtime/service_registry.rs:115-148 | Terminates; Ok exactly when everything reachable is registered, acyclic, not in progress and startable; `visiting` is restored on success; every start() call happens with all transitive dependencies running; an error is a true diagnosis |
| `ServiceRegistries.ServiceRegistry.EnsureStarted` | os/src/runtime/service_registry.rs:137-147 | start() is called only if needed and only with all transitive dependencies running |
| `ServiceRegistries.ServiceRegistry.StartService` | os/src/runtime/service_registry.rs:62-65 | The same with nothing in progress, and dependency closure survives every exit, errors included |
| `ServiceRegistries.ServiceRegistry.StartAll` | os/src/runtime/service_registry.rs:89-95 | For every order of the hash map: the same verdict, all services running on Ok and nothing else changed, a true diagnosis on error, closure kept |
| `ServiceRegistries.AllStartableExactly` | os/src/runtime/service_registry.rs:89-95 | That verdict is Ok exactly if the registry is complete, acyclic and has no failing service left to start |
| `ServiceRegistries.StartableUnfold` | os/src/runtime/service_registry.rs:120-135 | Global startability (reachability, cycles, missing entries) equals the recursive check with the set of services in progress |
| `ServiceRegistries.StartRunKeepsClosed` | os/src/runtime/service_registry.rs:132-147 | However a sequence of legal starts ends, no running service lacks a dependency |
| `ServiceRegistries.ClosedMeansReady` | os/src/runtime/service_registry.rs:132-147 | In a closed registry a running service has its whole transitive closure running |
| `ServiceRegistries.CycleDiagnosisIsReal` | os/src/runtime/service_registry.rs:120-122 | A reported cycle names a reachable service with a path back to itself |
| `ServiceRegistries.ServiceRegistry.RegisterService` | os/src/runtime/service_registry.rs:39-59 | Duplicates and direct self-dependencies are refused, in that order; otherwise only this entry is added |
| `ServiceRegistries.ServiceRegistry.StopService` | os/src/runtime/service_registry.rs:68-80 | ServiceNotFound for an unknown name, the service's own failure for a running one that does not stop, and neither changes anything; otherwise only this service is down |
| `ServiceRegistries.StopKeepsClosedExactly` | os/src/runtime/service_registry.rs:68-80 | Stopping a service keeps dependency closure if and only if no other running service depends on it |
| `ServiceRegistries.StopMayBreakClosure` | os/src/runtime/service_registry.rs:68-80 | A concrete registry in which stopping one service leaves a running one without its dependency |
| `ServiceRegistries.ServiceRegistry.RestartService` | os/src/runtime/service_registry.rs:83-86 | A failed stop changes nothing; otherwise the verdict, legal starts and diagnosis of a start from the stopped state. Success keeps closure; a failed start leaves the service down and keeps closure if and only if no other running service depends on it |
| `ServiceRegistries.ServiceRegistry.StopAll` | os/src/runtime/service_registry.rs:98-105 | For every order: Ok exactly if every single stop would succeed, and then everything is stopped; on error exactly the services visited before the failing one are stopped; every exit keeps closure if dependents come first |
| `ServiceRegistries.StopOrderExactly` | os/src/runtime/service_registry.rs:98-105 | A stop-all passes through closed states only, if and only if its order stops no service before a running dependent |
| `ServiceRegistries.AnyOrderSafeExactly` | os/src/runtime/service_registry.rs:97-105 | Every hash map order is safe if and only if no running service has a dependency other than itself; in any other registry some order stops a dependency first |
| `ServiceRegistries.ReverseRegistrationIsSafe` | os/src/runtime/service_registry.rs:97-105 | The documented reverse registration order would be safe for a registry filled dependencies first |
| `Ipc.IpcQuiescence` | os/src/ipc.rs:152-184 | Over every interleaving and tracker size: deliveries plus remaining weight are at most twice the letters sent unprompted, every answer has its cause, replies never outnumber requests, no id is acknowledged twice |
| `Ipc.DeliveryLowersWeight` | os/src/ipc.rs:324-580 | Every delivery strictly lowers the weight of the two pipes, whatever the tracker has forgotten |
| `Ipc.DeliveryKeepsCauses` | services/ipc/rust_bridge.py:428-482 | Each reply carries the id, the authority and the decision on the very body of a request Python sent unprompted, each acknowledgement the id of an event Rust sent unprompted; so answers never cause answers |
| `Ipc.DeliveryKeepsSparing` | services/ipc/rust_bridge.py:434-437 | Replies plus undelivered requests never exceed the requests sent, and the unbounded memory acknowledges an id once |
| `Ipc.AcknowledgementTakenExactly` | os/src/ipc.rs:152-159 | Rust marks the ids it sends, so the acknowledgement of an event is taken as a state update if and only if its id is valid and was forgotten, after at least max_entries later acceptances; until the tracker overflows it is always dropped as a duplicate |
| `Ipc.PromptAcknowledgementDropped` | os/src/ipc.rs:330-333 | For every tracker size a run in which an acknowledgement is dropped as a duplicate |
| `Ipc.LateAcknowledgementTaken` | os/src/ipc.rs:335-339 | With a tracker of one entry, a run in which an acknowledgement is taken |
| `Ipc.CorrelationTracker.constructor` | os/src/ipc.rs:90-96 | A tracker always remembers at least one id |
| `Ipc.CorrelationTracker.MarkSeen` | os/src/ipc.rs:99-111 | Refinement: the queue is the last max_entries accepted ids, the set its elements without duplicates, and true is returned exactly if the id is not among them |
| `Ipc.CorrelationTracker.EvictOldest` | os/src/ipc.rs:105-109 | The eviction loop leaves the newest max_entries ids and keeps set and queue in agreement |
| `Ipc.RepeatsAreFarApart` | os/src/ipc.rs:99-111 | For all offered ids, two acceptances of one id are separated by at least max_entries acceptances of other ids |
| `Ipc.TransitionsMoveForward` | os/src/runtime/lifecycle.rs:37-81 | The lifecycle authority allows exactly strict forward moves between two known states |
| `Ipc.TransitionReply` | os/src/ipc.rs:374-400 | The reply to a transition request allows exactly pending to completed or archived and completed to archived, current first, by name; and the reason of each refusal |
| `Ipc.EnergyReply` | os/src/ipc.rs:401-433 | The reply to an energy request allows background work from 50 percent of battery, model and proactive work from 20, reminders and voice always |
| `Ipc.AuthReply` | os/src/ipc.rs:350-373 | The reply to an authorization request is the access policy on this user, tier, session and action |
| `Ipc.StorageReply` | os/src/ipc.rs:434-513 | The reply to a storage request carries each field of the policy on the request's own fields, or names the first unknown word |
| `Ipc.MemoryReply` | os/src/ipc.rs:515-577 | The same for a memory request |
| `Ipc.MalformedReply` | os/src/ipc.rs:350-362 | A request whose payload is not of its type is denied under the name of its type |
| `Ipc.RustDispatcher.DispatchIncoming` | os/src/ipc.rs:324-580 | Type by type and exactly: a remembered id is ignored as a duplicate, a request gets its own decision back under its id, a state update is accepted, a known event is forwarded |
| `Ipc.RustDispatcher.SendEnvelope` | os/src/ipc.rs:152-159 | Sending marks the id, which changes nothing for a remembered one; it is the send step of the two-party system in every state that remembers the same |
| `Ipc.RustDispatcher.ReadAndDispatch` | os/src/ipc.rs:162-184 | An id that is blank or over 128 bytes leaves no trace; otherwise one dispatch and its reply together move the tracker by one id; it is the delivery step to Rust, with the same reply, in every state that remembers the same |
| `Ipc.PythonBridge.ProcessLine` | services/ipc/rust_bridge.py:428-482 | Only a new EVENT is answered, with a state update of the same id; every accepted id is remembered for good; it is the delivery step to Python in every state that has seen the same |
| `BridgeGates.ParseAfterBuild` | services/ipc/rust_bridge.py:356-408 | Parsing a built result returns the decision for the same authority and id, and nothing for any other id |
| `BridgeGates.BuiltFields` | services/ipc/rust_bridge.py:226-293 | Every field of a decision is found under its own key |
| `BridgeGates.UnderstoodExactly` | services/ipc/rust_bridge.py:296-408 | Any JSON value is understood as a yes exactly if it is an object of the expected type, with this id, well-typed fields and `allowed` true |
| `BridgeGates.GateIsFailClosed` | services/ipc/rust_bridge.py:702-886 | For every transport: the gate opens exactly on such a permission, through the request, rebuild and reparse chain |
| `BridgeGates.RefusalReasons` | services/ipc/rust_bridge.py:484-886 | The reason of every refusal, for each authority: no transport, no result for this request, or the result's own reason, else the default |
| `BridgeGates.ValidateAndMaybeExecute` | services/ipc/rust_bridge.py:858-886 | The callback runs exactly once if permitted and never otherwise; a refusal comes with the gate's reason |
| `BridgeGates.RustAnswerSurvives` | services/ipc/rust_bridge.py:795-856 | A decision of the Rust side reaches the Python caller unchanged if the dispatcher accepts the id and does not remember it, and as a refusal otherwise |
| `BridgeGates.WiredGateFollowsPolicy` | services/ipc/rust_bridge.py:763-793 | Across both languages, for all five authorities and every id: the guarded callback runs exactly when the dispatcher accepts the id, does not remember it, and its policy allows the request |
| `BridgeGates.TransportFollowsSystem` | os/src/ipc.rs:324-345 | The transport these results speak of answers a request exactly as the two-party system does in the same state |
| `Policies.ArchivedByName` | os/src/secure_storage.rs:148-150 | Of the four state names only ARCHIVED counts as archived, after trimming and case folding |
| `Policies.StorageAllowedExactly` | os/src/secure_storage.rs:87-126 | The early returns amount to one condition: keyed, no deletion, archived tasks only archived again, no model writes outside Strategic |
| `Policies.StorageReasons` | os/src/secure_storage.rs:87-126 | Reason, retention and encryption flags of every storage decision, each by its own condition |
| `Policies.MemoryAllowedExactly` | os/src/runtime/memory_authority.rs:79-144 | The same for memory transitions; a permission always names a target, and none reactivates an archived task without the flag |
| `Policies.MemoryReasons` | os/src/runtime/memory_authority.rs:79-144 | Reason, target, retention and tier flags of every memory decision, each by its own condition |
| `TaskStores.TaskStore.CreateTask` | core/memory/task_store.py:103-129 | Blank titles and a refusing storage authority change nothing; else one CREATED row under a fresh id |
| `TaskStores.TaskStore.UpdateTask` | core/memory/task_store.py:149-187 | Error precedence, the gate asked for the current state, and only the given fields of one row changed |
| `TaskStores.TaskStore.TransitionTask` | core/memory/task_store.py:189-218 | The outcome specification on values, error paths and the early log entry included |
| `TaskStores.CreateReadsBack` | core/memory/task_store.py:262-299 | A created task holds each field of the draft under its own name, stripped where it is free text, in state CREATED; no other row changes |
| `TaskStores.CreateFails` | core/memory/task_store.py:103-129 | Which error a failed creation gives, in order, and that it changes nothing |
| `TaskStores.UpdateReadsBack` | core/memory/task_store.py:149-187 | Each given value reads back from its own field, fields not given keep their value, state and creation and archive times stay; no other row changes |
| `TaskStores.UpdateFails` | core/memory/task_store.py:160-187 | Which error a failed update gives, in order, and that it changes nothing |
| `TaskStores.MoveReadsBack` | core/memory/task_store.py:189-218 | A task that moved has the new state and times, keeps its contents, and its move is the newest record; no other row changes |
| `TaskStores.MoveFails` | core/memory/task_store.py:189-218 | Which error a failed transition gives, in order; rows never change then |
| `TaskStores.StorageGateFails` | core/memory/task_store.py:465-490 | A missing storage authority is told apart from a refusing one |
| `TaskStores.LifecycleDecides` | core/memory/lifecycle_manager.py:137-162 | Without a bridge a transition is authorized exactly if nothing is enforced and the authorizer says yes, as a decision or a bare boolean, or, without one, the matrix may be used and lists the pair |
| `TaskStores.RequestsAsked` | core/memory/task_store.py:353-371 | Which operation the two authorities are asked about, for which state, under which id, settings and flags; and whose bridge is used |
| `TaskStores.AgreementKeptExactly` | core/memory/task_store.py:427-442 | For every wiring and operation: log and rows stay in agreement if and only if the operation is not a transition to another state that is authorized and then refused by storage |
| `TaskStores.NoBridgeLogAgrees` | core/memory/task_store.py:384-394 | From a fresh store without a bridge, under any authorizer and flags, each task's records lead without a gap from CREATED to its state; enforcement without a bridge admits no row |
| `TaskStores.LegacyHistories` | core/memory/lifecycle_manager.py:27-32 | Under the legacy matrix each task's records are a legal path of at most three steps to its state, and `archived_at` is set exactly for ARCHIVED |
| `TaskStores.LegalWalkLength` | core/memory/lifecycle_manager.py:27-32 | A legal path is no longer than the rank of the state it ends in |
| `TaskStores.WiredStorage` | core/memory/task_store.py:444-490 | With Rust policies behind the bridge, preflight and execution request get the same answer, and which one |
| `TaskStores.CallIdsValid` | core/memory/task_store.py:410-410 | Whatever uuids a call draws, its three correlation ids differ and pass the dispatcher's validation |
| `TaskStores.NewIdsAreHeard` | core/memory/task_store.py:444-490 | Ids never marked before are heard, whatever the tracker's size and whatever else went into it; so freshly drawn ids meet the hypothesis of the results on both bridges |
| `TaskStores.WiredAuthorization` | core/memory/task_store.py:396-425 | Whatever ids are drawn, the two policies together allow exactly: preflight and memory request heard, settings in order, not Silent, not to CREATED, and from ARCHIVED only to ARCHIVED |
| `TaskStores.WiredTransitionExactly` | core/memory/task_store.py:189-218 | End to end, exactly when a transition succeeds; a refused one leaves neither record nor row change |
| `TaskStores.WiredOrphansExactly` | core/memory/task_store.py:427-442 | With the Rust policies behind the bridge, however the tracker moves on between the three requests of a call, a record is orphaned if and only if the dispatcher remembers the id of the execution request and heard the two before it |
| `TaskStores.AllowedTargetIsDestination` | os/src/runtime/memory_authority.rs:79-144 | Whenever the memory policy allows a transition it names that very destination as target |
| `TaskStores.WrittenStateIsTarget` | core/memory/task_store.py:353-371 | Every state written is the target state of the memory decision that allowed it |
| `TaskStores.ArchivedForEver` | core/memory/task_store.py:149-218 | Over every run with both bridges and fresh ids, with settings, energy mode and tracker changing in between: ARCHIVED is absorbing, archived contents never change, CREATED is never re-entered, no row disappears |
| `TaskStores.WiredLogAgrees` | core/memory/task_store.py:427-442 | Over every such run from a fresh store no record is logged without its row change |
| `TaskStores.NoOrphanWhenConsistent` | core/memory/task_store.py:396-442 | For arbitrary transports, a storage authority that answers consistently and a memory authority that honours it leave no orphan record |
| `TaskStores.InconsistentStorageOrphans` | core/memory/task_store.py:427-442 | A storage authority that grants the preflight and fails the execution request parts log and rows on every move to another state that the memory policy allows |
| `TaskStores.FrozenExactly` | core/memory/task_store.py:149-187 | For every wiring: no update ever changes an archived row if and only if the storage gate refuses to update it on every call |
| `TaskStores.UnbridgedFrozenExactly` | core/memory/task_store.py:465-475 | Without a bridge that is: if and only if storage authority is enforced |
| `TaskStores.WiredFrozen` | os/src/secure_storage.rs:102-113 | With the Rust policies behind the bridge archived rows are always frozen, whatever ids are drawn |
| `TaskStores.WiringsCompared` | core/memory/task_store.py:373-442 | Replacing the legacy matrix by the configured Rust policies keeps every successful transition, with the same row and record, and adds exactly five: CREATED to COMPLETED, COMPLETED to ACTIVE, and staying put outside CREATED |
| `ChallengeLogics.ChallengeLogic.Evaluate` | core/cognition/challenge_logic.py:27-66 | A challenge is due exactly for an unanswered, unchallenged, not overridden key below the threshold, and is remembered |
| `ChallengeLogics.ChallengeLogic.RecordResponse` | core/cognition/challenge_logic.py:61-66 | Only rejections are remembered |
| `CommandRouters.RouteAccounts` | core/cognition/command_router.py:98-296 | Each route that returns appends exactly one audit event, successful exactly if executed; any other status leaves all rows alone; audited states are the row's, and no other row changes. An escaping exception leaves no audit event, and changes nothing at all unless it comes from building the audit event |
| `CommandRouters.OverflowsEscape` | core/cognition/command_router.py:366-453 | Inputs of every kind that raises: a timestamp or due date outside the calendar, a confidence or alignment score no float holds, a task id SQLite cannot hold, a declared goal without a text, sensitive entities with a key without a text |
| `CommandRouters.IntentChecks` | core/cognition/command_router.py:366-410 | Exactly which intents pass the first check and which let an exception through |
| `CommandRouters.CreateChecks` | core/cognition/command_router.py:424-437 | Exactly which entities pass for a creation |
| `CommandRouters.ReferenceChecks` | core/cognition/command_router.py:440-453 | Exactly which entities pass for a completion or cancellation |
| `CommandRouters.RegisteredExactly` | core/cognition/command_router.py:322-364 | The six registered names, in any case and with blanks around them, and no others, each with its action |
| `CommandRouters.ResolveExactly` | core/cognition/command_router.py:511-532 | Which task is meant: the one of this id, or the only one whose title is this text but for case and outer blanks |
| `CommandRouters.ExecutedLeaves` | core/cognition/command_router.py:455-509 | Under every wiring an executed completion leaves and audits COMPLETED, a cancellation ARCHIVED, of the task meant; a creation leaves a CREATED row with each field the intent named |
| `CommandRouters.HandlerCodes` | core/cognition/command_router.py:237-296 | The error code of every failing handler |
| `CommandRouters.RejectionsExactly` | core/cognition/command_router.py:106-215 | The result of every intent that is not executed, in the order of the checks |
| `CommandRouters.ChallengeDueExactly` | core/cognition/command_router.py:534-558 | A challenge is due exactly if the gate is on, the task is known, the score given is below the threshold, the user did not override, and the task's complete_task or cancel_task was neither challenged nor rejected before |
| `CommandRouters.RejectionSilences` | core/cognition/challenge_logic.py:61-66 | A rejected response silences the challenge of this task and action; an accepted one changes nothing |
| `CommandRouters.EscapeOnlyHides` | core/cognition/command_router.py:588-597 | A key without a text in sensitive entities takes away the result and the audit event of a call and none of its other effects |
| `CommandRouters.EscapeChangesRowsExactly` | core/cognition/command_router.py:226-235 | A call that raises has changed rows if and only if its audit event could not be built and would have told of a new task or a new state |
| `CommandRouters.HiddenCreation` | core/cognition/command_router.py:226-276 | A creation that commits its row, returns nothing and is not audited |
| `CommandRouters.RespondChallenges` | core/cognition/command_router.py:195-215 | A challenge is returned only for a task and action not challenged before, and is then remembered |
| `CommandRouters.RouterAccounting` | core/cognition/command_router.py:98-296 | Over every run of intents, responses and store operations, each under the wiring of its moment: audit and results correspond one to one, and at most one challenge is ever returned per task and action |
| `CommandRouters.WiredRouteExactly` | core/cognition/command_router.py:195-296 | Across router, challenge gate, store, bridge and Rust policies: which completions and cancellations are executed, that the row is then COMPLETED or ARCHIVED, and that any other leaves store and log untouched |
| `CommandRouters.AuditIsTheLog` | core/cognition/command_router.py:217-296 | Over every run of intents and responses under any, changing wirings: the transition log is exactly the executed, not idempotent completions and cancellations of the audit log, with tasks and states, in order, if and only if no record was logged silently (orphaned, or its audit event raised); otherwise it is longer by exactly those |
| `CommandRouters.HonestRunsAudited` | core/cognition/command_router.py:217-236 | Without a bridge and enforcement, or with both bridges and new ids, in any mixture, and with keys that have texts, no record is logged silently |
| `CommandRouters.EnforcedRunsEmpty` | core/memory/task_store.py:472-474 | Nor is one if storage authority is enforced without a bridge: no row is ever admitted |
| `CommandRouters.AliasesShareAction` | core/cognition/command_router.py:322-364 | Each pair of intent aliases maps to one action, hence to one challenge key |
| `CommandRouters.HandleAccounts` | core/cognition/command_router.py:455-509 | Every default handler reports the true states before and after and touches one row, or fails and touches none |
| `CommandRouters.CommandRouter.ResolveTaskReference` | core/cognition/command_router.py:511-532 | The scan finds the one task meant: by id, or by the only title that matches; missing and ambiguous names are told apart |
| `CommandRouters.CommandRouter.EvaluateChallenge` | core/cognition/command_router.py:534-558 | The gate consults the challenge logic only for challengeable actions on a resolvable task; it raises exactly on a task id SQLite cannot hold, an explicit None score, a declared goal without a text, or a due challenge whose audit event cannot be built |
| `CommandRouters.CommandRouter.RunHandler` | core/cognition/command_router.py:455-509 | The imperative handlers compute the handler specification |
| `CommandRouters.CommandRouter.ExecuteAction` | core/cognition/command_router.py:217-296 | Reply and audit event for success and each error class; if the audit event cannot be built, the second attempt of the error path raises as well and the handler's effects stay |
| `CommandRouters.CommandRouter.RouteIntent` | core/cognition/command_router.py:98-296 | The imperative router, check by check, computes the route specification and raises exactly if: the intent is no mapping, its timestamp leaves the calendar, its confidence, alignment score or due date overflows when looked at, the challenge gate raises, or its audit event cannot be built |
| `ProactiveControllers.RateLimits` | core/cognition/proactive_controller.py:78-119 | Over every run with arbitrary days, modes, thresholds and candidates: at most max_suggestions_per_window in any window of consecutive evaluations, at most daily_limit on any day, equal keys more than the cooldown apart |
| `ProactiveControllers.RunKeepsLimits` | core/cognition/proactive_controller.py:78-119 | The three limits as one invariant of every run |
| `ProactiveControllers.SpacedBoundsWindow` | core/cognition/proactive_controller.py:154-160 | Spacing between suggestions bounds every window, not only those ending now |
| `ProactiveControllers.BooksDecide` | core/cognition/proactive_controller.py:148-166 | Counter, deque and dictionary answer exactly the questions about budget, window and repetition that the whole history answers |
| `ProactiveControllers.ChooseIsGrow` | core/cognition/proactive_controller.py:101-117 | Selecting by the books is selecting by the history, and keeps the books in agreement with it |
| `ProactiveControllers.GrowIsMaximal` | core/cognition/proactive_controller.py:101-117 | Nothing is withheld without cause: for a confident candidate the day or the window is full in the end, or its key was suggested within the cooldown |
| `ProactiveControllers.GrowOnlyConfident` | core/cognition/proactive_controller.py:101-117 | Only ranked candidates at or above the threshold are suggested, in this evaluation and on this day |
| `ProactiveControllers.ProactiveController.EvictOldWindowEntries` | core/cognition/proactive_controller.py:154-157 | Eviction drops exactly the steps that left the window |
| `ProactiveControllers.ProactiveController.Select` | core/cognition/proactive_controller.py:101-119 | The loop with its breaks and continues computes the selection specification |
| `ProactiveControllers.ProactiveController.Evaluate` | core/cognition/proactive_controller.py:78-119 | The suggestions returned are exactly what the history specification adds for this request; none in silent or restricted mode, and only for confident candidates |
| `ProactiveControllers.ProactiveController.RecalibrateThreshold` | core/cognition/proactive_controller.py:136-146 | The threshold moves by the calibration rule on the totals of all records and ends within bounds |
| `ProactiveControllers.ProactiveController.RecordOutcome` | core/cognition/proactive_controller.py:121-130 | An unsupported outcome changes nothing; any other is recorded once, and the threshold becomes the calibration of the old one on all records including this |
| `AcceptanceTrackers.AttemptsEqualRecords` | core/behavior/acceptance_tracker.py:54-75 | Attempts over all days equal the number of recorded outcomes: none lost, none counted twice |
| `AcceptanceTrackers.EmptyDaysCountNothing` | core/behavior/acceptance_tracker.py:48-52 | Buckets created by merely reading a day change no total |
| `AcceptanceTrackers.SumBuckets` | core/behavior/acceptance_tracker.py:54-60 | Summing the buckets in any order gives the counts over the whole record |
| `AcceptanceTrackers.AcceptanceTracker.RecordOutcome` | core/behavior/acceptance_tracker.py:32-46 | Exactly the counter of this outcome, and of overrides if it was one, goes up by one on this day, and none on any other; unsupported outcomes are refused |
| `AcceptanceTrackers.AcceptanceTracker.DailyMetrics` | core/behavior/acceptance_tracker.py:48-52 | The metrics of the records of that day, also for a day never seen |
| `AcceptanceTrackers.AcceptanceTracker.TotalMetrics` | core/behavior/acceptance_tracker.py:54-75 | The three outcome totals add up to the number of accepted record calls |
| `Calibration.SteadyFeedback` | core/behavior/calibration_engine.py:43-73 | n recalibrations while the metrics point the same way give clamp(clamp(t) + n * d), clamping once |
| `Calibration.ThresholdBounded` | core/behavior/calibration_engine.py:58-73 | After one recalibration the threshold is within bounds for good, whatever the metrics |
| `Calibration.RulesExclusive` | core/behavior/calibration_engine.py:66-70 | On tracker metrics high acceptance never meets high rejection; the rules collide exactly when overrides are high |
| `Calibration.LimitsInTenths` | core/behavior/calibration_engine.py:66-93 | On tracker counts: too many rejections are more than six tenths of the attempts rejected or four tenths overridden, well accepted is more than seven tenths accepted |
| `Calibration.OverridesOutweighAcceptance` | core/behavior/calibration_engine.py:66-70 | A concrete tracker state with full acceptance that raises the threshold |
| `Calibration.Normalize` | core/behavior/calibration_engine.py:115-125 | Any configuration becomes a usable one, and a usable one is kept |
| `Calibration.UpdateThreshold` | core/behavior/calibration_engine.py:43-73 | From any current value the result is within bounds; exactly when it is higher and exactly when lower than the clamped one, and then by one step or up to the bound |
| `EnergyManagers.WorseHistoryNeverGains` | os/src/energy_manager.rs:198-253 | For two runs, the second pointwise worse: at every step its mode ranks at least as high, it grants nothing the first denies and demands all the first demands |
| `EnergyManagers.StepMonotone` | os/src/energy_manager.rs:198-253 | One evaluation preserves that ordering and the ordering of the recovery states behind it |
| `EnergyManagers.RunsStayBehind` | os/src/energy_manager.rs:274-298 | The worse run is at every point at least as far from thermal recovery |
| `EnergyManagers.ThermalClosedForm` | os/src/energy_manager.rs:274-298 | After any history the thermal mode follows from the last sample and the number of cool samples since the last hot one |
| `EnergyManagers.PolicyClosedForm` | os/src/energy_manager.rs:198-253 | After any history the whole policy follows from the samples: each flag exactly by thresholds, external power and cooling time; proactive work is enabled exactly with the language model |
| `EnergyManagers.RecoveryTracksHistory` | os/src/energy_manager.rs:287-295 | Flag and counter remember exactly how many samples ago the last hot one was, up to the limit |
| `EnergyManagers.SleepEventsAlternate` | os/src/energy_manager.rs:226-235 | Over any history SleepEntered and SleepExited strictly alternate, starting with SleepEntered, and the flag is the latest decision |
| `EnergyManagers.EventsExactly` | os/src/energy_manager.rs:206-242 | Exactly when each event is emitted, at most once per evaluation and in a fixed order |
| `EnergyManagers.AuthorizationIsThreshold` | os/src/energy_manager.rs:80-121 | Each execution class runs exactly up to its own mode rank, so a higher mode never allows what a lower one denies; and the reason of each decision |
| `EnergyManagers.BatteryAsByte` | os/src/energy_manager.rs:213-213 | The cast is the floor within range and saturates outside |
| `EnergyManagers.MaxMode` | os/src/energy_manager.rs:131-137 | The result has the larger of the two ranks |
| `EnergyManagers.EnergyManager.EvaluateThermalMode` | os/src/energy_manager.rs:274-298 | The imperative hysteresis computes the specification of mode, counter and flag |
| `EnergyManagers.EnergyManager.EvaluateSample` | os/src/energy_manager.rs:198-253 | The imperative evaluation computes the specification of state, policy and event order |
| `Schedulers.NeverEarly` | os/src/scheduler.rs:63-76 | For all poll times: firings happen at polls, and each gap, the first from registration, is at least the interval |
| `Schedulers.NeverLate` | os/src/scheduler.rs:63-76 | With polls at most g apart each gap is below interval + g, and nothing due is left unfired |
| `Schedulers.FiringCount` | os/src/scheduler.rs:36-76 | n firings by time t satisfy n interval <= t - t0 < n (interval + g) + interval |
| `Schedulers.Scheduler.constructor` | os/src/scheduler.rs:26-33 | The tick is never below ten milliseconds |
| `Schedulers.Scheduler.RegisterTask` | os/src/scheduler.rs:36-53 | The effective interval is at least the tick and the first firing is one interval away |
| `Schedulers.Scheduler.Poll` | os/src/scheduler.rs:63-76 | Exactly the due tasks fire, in registration order, and every task has followed its own specification |
| `ThreadLimiters.SlotAccounting` | core/behavior/thread_limiter.py:19-39 | For every interleaving, unmatched releases included: slots are conserved, the count stays in range, the bounded semaphore is never over-released, and by how much available_slots overstates |
| `ThreadLimiters.HoldersExceedCountByThefts` | core/behavior/thread_limiter.py:28-34 | Granted slots exceed the count by exactly the unmatched releases not yet absorbed |
| `ThreadLimiters.LimitBreakableExactly` | core/behavior/thread_limiter.py:19-34 | After any run, some continuation in which only holders release exceeds the limit if and only if an unmatched release is still outstanding; their number is never negative |
| `ThreadLimiters.FillUp` | core/behavior/thread_limiter.py:19-26 | From any state, finishing the calls in progress and acquiring reaches max_threads in use without a release |
| `ThreadLimiters.MatchedReleasesKeepLimit` | core/behavior/thread_limiter.py:19-34 | If only holders ever release, holders equal the count and never exceed the limit |
| `ThreadLimiters.UnmatchedReleaseOversubscribes` | core/behavior/thread_limiter.py:28-34 | With every slot taken, one release by a stranger lets a newcomer in above the limit |
| `ThreadLimiters.OversubscriptionReachable` | core/behavior/thread_limiter.py:28-34 | For every limit such a run exists from the start |
| `ThreadLimiters.ThreadLimiter.AcquireSlot` | core/behavior/thread_limiter.py:19-26 | Granted exactly while fewer than max_threads are in use; the call is the two steps of its thread in the step system |
| `ThreadLimiters.ThreadLimiter.ReleaseSlot` | core/behavior/thread_limiter.py:28-34 | Gives back at most what is in use, as the two steps of its thread in the step system |
| `ThreadLimiters.ThreadLimiter.AvailableSlots` | core/behavior/thread_limiter.py:36-39 | Between calls it is the semaphore's value |
| `ReasoningText.BoundTextSpec` | core/cognition/reasoning_engine.py:204-219 | A tidy prefix of the normalised text within the limit; nothing that fits is cut; a cut keeps at least half the limit and stops at a word end unless the second half has no blank |
| `ReasoningText.BoundTextIdempotent` | core/cognition/reasoning_engine.py:204-219 | Bounding twice is bounding once |
| `ReasoningText.TruncateSpec` | core/cognition/reasoning_engine.py:210-219 | The same guarantee for the three cutting rules alone, on any tidy text and limit |
| `ReasoningText.CutPrefersSentences` | core/cognition/reasoning_engine.py:210-219 | Where a cut falls: after the last sentence with its mark if one ends past half the limit, else before the last blank past half, else at the limit |
| `ReasoningText.CutPrefersStops` | core/cognition/reasoning_engine.py:211-214 | A cut after a sentence prefers a full stop to an exclamation mark and that to a question mark |
| `ReasoningText.CompactIsTidy` | core/cognition/reasoning_engine.py:206-206 | Normalisation leaves single blanks inside and none at the ends, and is idempotent |
| `ReasoningText.CompactKeepsVisible` | core/cognition/reasoning_engine.py:206-206 | Normalisation loses, adds and moves no visible character |
| `ReasoningText.ExtractSteps` | core/cognition/reasoning_engine.py:221-231 | The loop with its break yields the first five chunks that hold text, in order |
| `ReasoningText.ChunksPartition` | core/cognition/reasoning_engine.py:223-223 | Splitting loses nothing but full stops and newlines and leaves none inside a chunk |
| `ReasoningText.FirstStepsAreFirst` | core/cognition/reasoning_engine.py:225-231 | The steps are the leading chunks with a visible character: none skipped, order kept |
| `ReasoningText.StepsWithinLimit` | core/cognition/reasoning_engine.py:134-144 | At most five non-empty tidy steps, together with separators at most 420 characters |
| `ReasoningText.LowEnergySummaryExact` | core/cognition/reasoning_engine.py:187-202 | The second bounding never cuts: prefix, blank and step exactly, at most 161 characters |
| `ReasoningText.AssembleWithinLimit` | core/cognition/reasoning_engine.py:134-144 | Whatever was generated, summary and joined steps are within the limit, in both energy modes |
| `ReasoningText.AssembleExactly` | core/cognition/reasoning_engine.py:134-202 | What is shown: the first step above all steps, or in low energy the prefix and the first step alone; the fixed texts if there is none |
| `Text.StripAndTrimExactly` | core/cognition/reasoning_engine.py:214-219 | Both runtimes' trimming takes away their own blanks at both ends, all of them, and nothing else |
| `Text.BlanksExactly` | core/cognition/reasoning_engine.py:206-206 | The blanks of Rust and of Python, code point by code point |
| `Text.EqIgnoreCaseExactly` | os/src/secure_storage.rs:148-150 | Equality up to the case of ASCII letters, character by character |
| `Text.Utf8LengthExactly` | os/src/ipc.rs:582-585 | The byte length adds up over the characters, one to four bytes each by their ranges |

## Left out

- JSON text, serde, pipes, child processes, line length limits and logging: envelopes are values with a typed or malformed payload.
- SQLite beyond its 64-bit integers, and the encryption layer: the table is a map from id to plaintext row.
- Wall clocks, uuids and timestamp parsing: times and correlation ids are inputs, and a timestamp carries whether it parses and stays within the calendar.
- Freshness of uuids: results about the two bridges ask that the Rust tracker does not remember the ids of a call when they arrive.
- Objects with special methods of their own: intents and entities are built of Python's built-in values, each of which has a text or raises under `str`. Lone surrogates in texts are not modelled.
- Enumerated strings on the wire (operations, modes, execution types): modelled as already parsed, `None` when unknown.
- Case beyond ASCII: `lower` and case-insensitive comparison fold ASCII letters only. Blanks are Unicode's, as each runtime has them.
- Floating-point rounding, NaN and infinities: floats are reals; that a NaN score passes every range check is not shown.
- 64-bit wrap-around of bus ids, mutex poisoning, handler panics, exceptions thrown by transports, `Drop`.
- Deadlock freedom of the bus: a send into a full channel waits until another thread's step makes room or disconnects it; that such a step comes is not claimed.
- `publish` takes its trace id and its envelope id in two steps; the step system takes both at once, and `TakeId` steps of other threads do the rest.
- How `start()` and `stop()` of a service decide: each service carries what they would answer, and a failing call leaves it as it was.
- Construction errors (limits below one, thresholds outside [0, 1]): constructors require what the source checks.
- Tier tables and access control: the access policy is an arbitrary function. Identity, voice, hardware, model management, bootstrap, configuration loading, command line: tables, devices or plumbing.
- Pattern detection and suggestion scoring: the ranked candidates are an arbitrary input. The suggestion text, and the dictionary entry that reading a budget creates, are not modelled.
- Safety filters and prompt construction of the reasoning engine: regular expressions over fixed tables.
- Audit events keep action, states and success; their ids, timestamps and entities, the challenge's text, and falsy description or goal values that are not strings are not modelled. Handlers registered at run time are not modelled.
- Scheduler threads (`start`, `stop`): the polling loop is a sequence of polls at given times; a task's action takes no time.
