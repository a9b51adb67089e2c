/**
 Authority-gated task store (core/memory/task_store.py, core/memory/lifecycle_manager.py): rows whose state
 transitions are logged and permitted by a legacy matrix, an external authorizer, or the memory and storage
 authorities behind a bridge. The table is a map from id to row; times and correlation ids are inputs.
 */
module TaskStores {
  import opened Common
  import opened Text
  import opened EnergyManagers
  import opened Policies
  import opened Ipc
  import opened BridgeGates

  datatype Row = Row(
    title: string, description: Option<string>, goal: Option<string>, dueAt: Option<string>, priority: int,
    state: TaskState, createdAt: int, updatedAt: int, archivedAt: Option<int>)

  datatype Record = Record(taskId: nat, from: TaskState, to: TaskState)

  datatype Store = Store(rows: map<nat, Row>, nextId: nat, log: seq<Record>)

  const FRESH_STORE := Store(map[], 1, [])

  datatype StoreError =
    | KeyError
    | ValueError
    | InvalidTransition
    | RuntimeError(reason: string)
    | OverflowError
    | DatabaseFull

  /** The integers an SQLite column or parameter can hold. */
  predicate IsSqlInteger(n: int) { -0x8000_0000_0000_0000 <= n < 0x8000_0000_0000_0000 }

  /** Looking up an id that has no row: not found, or not even an SQLite integer. */
  function Missing(id: int): StoreError { if IsSqlInteger(id) then KeyError else OverflowError }

  // ---- Wiring ---------------------------------------------------------------------------

  datatype Bridge = Bridge(storage: Option<Transport>, memory: Option<Transport>, general: Option<Transport>)

  /** What an injected authorizer may return: a decision, a bare boolean, or something else. */
  datatype ExternalAnswer = Decided(allowed: bool) | Bare(allowed: bool) | NotADecision

  datatype Wiring = Wiring(
    storageBridge: Option<Bridge>, configuredMemoryBridge: Option<Bridge>, enforceStorage: bool, enforceMemory: bool,
    storageMode: Option<EnergyMode>, execution: Option<ExecutionType>, memoryMode: Option<EnergyMode>, keyId: string,
    authorizer: Option<(nat, TaskState, TaskState) -> ExternalAnswer>, legacyFallback: bool)
  {
    /** The memory bridge defaults to the storage bridge. */
    function MemoryBridge(): Option<Bridge> {
      if configuredMemoryBridge.Some? then configuredMemoryBridge else storageBridge
    }
  }

  predicate IsUuidChar(c: char) { '0' <= c <= '9' || 'a' <= c <= 'f' || c == '-' }

  /** The text of a uuid. */
  type Uuid = s: string | |s| == 36 && forall i | 0 <= i < |s| :: IsUuidChar(s[i])
    witness "00000000-0000-4000-8000-000000000000"

  const NIL_UUID: Uuid := "00000000-0000-4000-8000-000000000000"

  /** The clock and the uuids one call draws for its correlation ids. */
  datatype Call = Call(now: int, storageUuid: Uuid, preflightUuid: Uuid, memoryUuid: Uuid, stamp: real)
  {
    function StorageId(): string { "storage-" + storageUuid }

    function PreflightId(): string { "storage-preflight-" + preflightUuid }

    function MemoryId(): string { "memory-" + memoryUuid }
  }

  lemma PrefixedUuidAccepted(prefix: string, u: Uuid)
    requires 0 < |prefix| <= 92 && forall i | 0 <= i < |prefix| :: 'a' <= prefix[i] <= 'z' || prefix[i] == '-'
    ensures RustAccepts(prefix + u)
  {
    var id := prefix + u;
    assert forall i | 0 <= i < |id| :: id[i] == if i < |prefix| then prefix[i] else u[i - |prefix|];
    AsciiLength(id);
    StripKeeps(id);
  }

  /** Whatever is drawn, the three ids differ and are valid for the dispatcher. */
  lemma CallIdsValid(call: Call)
    ensures call.StorageId() != call.PreflightId() && call.PreflightId() != call.MemoryId()
    ensures call.MemoryId() != call.StorageId()
    ensures RustAccepts(call.StorageId()) && RustAccepts(call.PreflightId()) && RustAccepts(call.MemoryId())
  {
    assert |call.StorageId()| == 44 && |call.PreflightId()| == 54 && |call.MemoryId()| == 43;
    PrefixedUuidAccepted("storage-", call.storageUuid);
    PrefixedUuidAccepted("storage-preflight-", call.preflightUuid);
    PrefixedUuidAccepted("memory-", call.memoryUuid);
  }

  predicate LegacyAllowed(from: TaskState, to: TaskState) {
    match from
    case CREATED => to == ACTIVE || to == ARCHIVED
    case ACTIVE => to == COMPLETED || to == ARCHIVED
    case COMPLETED => to == ARCHIVED
    case ARCHIVED => false
  }

  predicate LifecycleAllows(w: Wiring, id: nat, from: TaskState, to: TaskState) {
    if w.authorizer.Some? then
      match w.authorizer.value(id, from, to) case Decided(ok) => ok case Bare(ok) => ok case NotADecision => false
    else w.legacyFallback && LegacyAllowed(from, to)
  }

  function StorageOperationFor(to: TaskState): StorageOperation {
    if to == ARCHIVED then ArchiveTask else StorageOperation.UpdateTask
  }

  function MemoryOperationFor(from: TaskState, to: TaskState): MemoryOperation {
    match to
    case ACTIVE => PromoteToActive
    case COMPLETED => DemoteToDormant
    case ARCHIVED => if from == ARCHIVED then FinalizeArchive else ArchiveItem
    case CREATED => RetentionTrigger
  }

  function StorageRequest(w: Wiring, id: string, op: StorageOperation, state: TaskState): Letter {
    Letter(Request(Storage), id,
           StorageBody(Some(op), StateName(state), w.storageMode, w.execution, true, Some(w.keyId)))
  }

  function MemoryRequest(w: Wiring, id: string, from: TaskState, to: TaskState, permission: bool): Letter {
    Letter(Request(Memory), id,
           MemoryBody(StateName(from), Some(MemoryOperationFor(from, to)), w.memoryMode, permission,
                      MemoryFlags(false, false, to == ARCHIVED)))
  }

  /** _validate_storage_and_maybe_execute, up to the callback. */
  function StorageGate(w: Wiring, call: Call, op: StorageOperation, state: TaskState): Result<(), StoreError> {
    if w.storageBridge.None? then
      if w.enforceStorage then Err(RuntimeError("Storage authority unavailable")) else Ok(())
    else
      var b := w.storageBridge.value;
      match Gate(Storage, b.storage, b.general, StorageRequest(w, call.StorageId(), op, state), call.stamp)
      case Execute => Ok(())
      case Refuse(reason) => Err(RuntimeError("Storage authority denied: " + reason))
  }

  /** _request_storage_permission: the preflight answer, read from the rebuilt response. */
  function StoragePreflight(w: Wiring, call: Call, op: StorageOperation, state: TaskState): bool {
    if w.storageBridge.None? then !w.enforceStorage
    else
      var b := w.storageBridge.value;
      var request := StorageRequest(w, call.PreflightId(), op, state);
      var response := RequestValidation(Storage, b.storage, b.general, request, call.stamp);
      Get(Get(response.fields, PayloadKey).fields, AllowedKey) == JBool(true)
  }

  /** Does the lifecycle or memory authority let the transition through (the record is then logged)? */
  predicate TransitionAuthorized(w: Wiring, call: Call, id: nat, from: TaskState, to: TaskState) {
    if w.MemoryBridge().None? then !w.enforceMemory && LifecycleAllows(w, id, from, to)
    else
      var b := w.MemoryBridge().value;
      var permission := StoragePreflight(w, call, StorageOperationFor(to), from);
      Gate(Memory, b.memory, b.general, MemoryRequest(w, call.MemoryId(), from, to, permission), call.stamp).Execute?
  }

  // ---- Operations -----------------------------------------------------------------------

  function Moved(row: Row, to: TaskState, now: int): Row {
    row.(state := to, updatedAt := now, archivedAt := if to == ARCHIVED then Some(now) else row.archivedAt)
  }

  type StoreResult = Result<Row, StoreError>

  function TransitionOutcome(w: Wiring, s: Store, id: nat, to: Option<TaskState>, call: Call): (Store, StoreResult) {
    if id !in s.rows then (s, Err(Missing(id)))
    else if to.None? then (s, Err(InvalidTransition))
    else
      var from := s.rows[id].state;
      if !TransitionAuthorized(w, call, id, from, to.value) then (s, Err(InvalidTransition))
      else
        var logged := s.(log := s.log + [Record(id, from, to.value)]);
        var gate := StorageGate(w, call, StorageOperationFor(to.value), from);
        if gate.Err? then (logged, Err(gate.error))
        else
          var row := Moved(s.rows[id], to.value, call.now);
          (logged.(rows := s.rows[id := row]), Ok(row))
  }

  datatype Draft = Draft(
    title: string, description: Option<string>, goal: Option<string>, dueAt: Option<string>, priority: int)

  /** Optional text is stripped when given and not empty; an empty one is dropped. */
  function StripGiven(s: Option<string>): Option<string> {
    if s.Some? && s.value != "" then Some(Strip(s.value)) else None
  }

  function CreateOutcome(w: Wiring, s: Store, d: Draft, call: Call): (Store, StoreResult) {
    if IsBlank(d.title) then (s, Err(ValueError))
    else
      var gate := StorageGate(w, call, WriteTask, CREATED);
      if gate.Err? then (s, Err(gate.error))
      else if !IsSqlInteger(d.priority) then (s, Err(OverflowError))
      else if !IsSqlInteger(s.nextId) then (s, Err(DatabaseFull))
      else
        var row := Row(Strip(d.title), StripGiven(d.description), StripGiven(d.goal), d.dueAt, d.priority,
                       CREATED, call.now, call.now, None);
        (s.(rows := s.rows[s.nextId := row], nextId := s.nextId + 1), Ok(row))
  }

  /** Fields to change; `None` leaves a field as it is. */
  datatype Patch = Patch(
    title: Option<string>, description: Option<string>, goal: Option<string>, dueAt: Option<string>,
    priority: Option<int>)

  function Patched(row: Row, p: Patch, now: int): Row {
    row.(title := if p.title.Some? then Strip(p.title.value) else row.title,
         description := if p.description.Some? then Some(Strip(p.description.value)) else row.description,
         goal := if p.goal.Some? then Some(Strip(p.goal.value)) else row.goal,
         dueAt := if p.dueAt.Some? then p.dueAt else row.dueAt,
         priority := if p.priority.Some? then p.priority.value else row.priority,
         updatedAt := now)
  }

  function UpdateOutcome(w: Wiring, s: Store, id: nat, p: Patch, call: Call): (Store, StoreResult) {
    if id !in s.rows then (s, Err(Missing(id)))
    else
      var row := Patched(s.rows[id], p, call.now);
      if row.title == "" then (s, Err(ValueError))
      else
        var gate := StorageGate(w, call, StorageOperation.UpdateTask, s.rows[id].state);
        if gate.Err? then (s, Err(gate.error))
        else if !IsSqlInteger(row.priority) then (s, Err(OverflowError))
        else (s.(rows := s.rows[id := row]), Ok(row))
  }

  datatype Op = Create(draft: Draft, call: Call) | Update(id: nat, patch: Patch, call: Call)
              | MoveTo(id: nat, to: Option<TaskState>, call: Call)

  function Apply(w: Wiring, s: Store, op: Op): Store {
    match op
    case Create(d, call) => CreateOutcome(w, s, d, call).0
    case Update(id, p, call) => UpdateOutcome(w, s, id, p, call).0
    case MoveTo(id, to, call) => TransitionOutcome(w, s, id, to, call).0
  }

  ghost function ApplyAll(w: Wiring, s: Store, ops: seq<Op>): Store {
    if ops == [] then s else Apply(w, ApplyAll(w, s, ops[..|ops| - 1]), ops[|ops| - 1])
  }

  // ---- The store object -----------------------------------------------------------------

  class TaskStore {
    const wiring: Wiring
    var rows: map<nat, Row>
    var nextId: nat
    var transitionLog: seq<Record>

    ghost function View(): Store
      reads this
    {
      Store(rows, nextId, transitionLog)
    }

    constructor (w: Wiring)
      ensures wiring == w && View() == FRESH_STORE
    {
      wiring := w;
      rows, nextId, transitionLog := map[], 1, [];
    }

    method CreateTask(d: Draft, call: Call) returns (r: StoreResult)
      modifies this
      ensures (View(), r) == CreateOutcome(wiring, old(View()), d, call)
    {
      var cleaned := Strip(d.title);
      if cleaned == "" {
        return Err(ValueError);
      }
      var gate := StorageGate(wiring, call, WriteTask, CREATED);
      if gate.Err? {
        return Err(gate.error);
      }
      if !IsSqlInteger(d.priority) {
        return Err(OverflowError);
      }
      if !IsSqlInteger(nextId) {
        return Err(DatabaseFull);
      }
      var row := Row(cleaned, StripGiven(d.description), StripGiven(d.goal), d.dueAt, d.priority,
                     CREATED, call.now, call.now, None);
      rows := rows[nextId := row];
      nextId := nextId + 1;
      return Ok(row);
    }

    method UpdateTask(id: nat, p: Patch, call: Call) returns (r: StoreResult)
      modifies this
      ensures (View(), r) == UpdateOutcome(wiring, old(View()), id, p, call)
    {
      if id !in rows {
        return Err(Missing(id));
      }
      var row := Patched(rows[id], p, call.now);
      if row.title == "" {
        return Err(ValueError);
      }
      var gate := StorageGate(wiring, call, StorageOperation.UpdateTask, rows[id].state);
      if gate.Err? {
        return Err(gate.error);
      }
      if !IsSqlInteger(row.priority) {
        return Err(OverflowError);
      }
      rows := rows[id := row];
      return Ok(row);
    }

    /** The record is appended before the storage authority is asked to execute. */
    method TransitionTask(id: nat, to: Option<TaskState>, call: Call) returns (r: StoreResult)
      modifies this
      ensures (View(), r) == TransitionOutcome(wiring, old(View()), id, to, call)
    {
      if id !in rows {
        return Err(Missing(id));
      }
      if to.None? {
        return Err(InvalidTransition);
      }
      var current := rows[id];
      var operation := StorageOperationFor(to.value);
      var bridge := wiring.MemoryBridge();
      if bridge.None? {
        if wiring.enforceMemory || !LifecycleAllows(wiring, id, current.state, to.value) {
          return Err(InvalidTransition);
        }
      } else {
        var permission := StoragePreflight(wiring, call, operation, current.state);
        var verdict := Gate(Memory, bridge.value.memory, bridge.value.general,
                            MemoryRequest(wiring, call.MemoryId(), current.state, to.value, permission), call.stamp);
        if verdict.Refuse? {
          return Err(InvalidTransition);
        }
      }
      transitionLog := transitionLog + [Record(id, current.state, to.value)];
      var gate := StorageGate(wiring, call, operation, current.state);
      if gate.Err? {
        return Err(gate.error);
      }
      var row := Moved(current, to.value, call.now);
      rows := rows[id := row];
      return Ok(row);
    }
  }

  // ---- What the calls do, field by field ------------------------------------------------

  /** Only this row differs. */
  ghost predicate OnlyRow(s: Store, s': Store, id: nat) {
    id in s'.rows && forall k | k != id :: (k in s.rows <==> k in s'.rows) && (k in s.rows ==> s'.rows[k] == s.rows[k])
  }

  /** A created task holds what the draft gave, each field its own, stripped where it is text of the user's. */
  lemma CreateReadsBack(w: Wiring, s: Store, d: Draft, call: Call)
    requires CreateOutcome(w, s, d, call).1.Ok?
    ensures var (s', r) := CreateOutcome(w, s, d, call); var row := r.value;
      && OnlyRow(s, s', s.nextId) && s'.rows[s.nextId] == row && s'.nextId == s.nextId + 1 && s'.log == s.log
      && row.title == Strip(d.title) != ""
      && row.description == (if d.description.None? || d.description == Some("") then None
                             else Some(Strip(d.description.value)))
      && row.goal == (if d.goal.None? || d.goal == Some("") then None else Some(Strip(d.goal.value)))
      && row.dueAt == d.dueAt && row.priority == d.priority && row.state == CREATED
      && row.createdAt == row.updatedAt == call.now && row.archivedAt == None
  {
  }

  /** Why a creation fails, the first that applies; nothing has changed then. */
  lemma CreateFails(w: Wiring, s: Store, d: Draft, call: Call)
    ensures var (s', r) := CreateOutcome(w, s, d, call);
      var gate := StorageGate(w, call, WriteTask, CREATED);
      && (r.Err? ==> s' == s)
      && (Strip(d.title) == "" ==> r == Err(ValueError))
      && (Strip(d.title) != "" && gate.Err? ==> r == Err(gate.error))
      && (Strip(d.title) != "" && gate.Ok? && !(-0x8000_0000_0000_0000 <= d.priority <= 0x7FFF_FFFF_FFFF_FFFF) ==>
            r == Err(OverflowError))
      && (Strip(d.title) != "" && gate.Ok? && IsSqlInteger(d.priority) && s.nextId > 0x7FFF_FFFF_FFFF_FFFF ==>
            r == Err(DatabaseFull))
      && (r.Ok? <==> Strip(d.title) != "" && gate.Ok? && IsSqlInteger(d.priority) && IsSqlInteger(s.nextId))
  {
  }

  /** An updated task holds each given value under its own field, and keeps the fields not given. */
  lemma UpdateReadsBack(w: Wiring, s: Store, id: nat, p: Patch, call: Call)
    requires UpdateOutcome(w, s, id, p, call).1.Ok?
    ensures var (s', r) := UpdateOutcome(w, s, id, p, call); var row := r.value;
      && id in s.rows && OnlyRow(s, s', id) && s'.rows[id] == row && s'.nextId == s.nextId && s'.log == s.log
      && row.title == (if p.title.Some? then Strip(p.title.value) else s.rows[id].title) != ""
      && row.description == (if p.description.Some? then Some(Strip(p.description.value)) else s.rows[id].description)
      && row.goal == (if p.goal.Some? then Some(Strip(p.goal.value)) else s.rows[id].goal)
      && row.dueAt == (if p.dueAt.Some? then p.dueAt else s.rows[id].dueAt)
      && row.priority == (if p.priority.Some? then p.priority.value else s.rows[id].priority)
      && row.state == s.rows[id].state && row.createdAt == s.rows[id].createdAt
      && row.archivedAt == s.rows[id].archivedAt && row.updatedAt == call.now
  {
  }

  /** Why an update fails, the first that applies; nothing has changed then. */
  lemma UpdateFails(w: Wiring, s: Store, id: nat, p: Patch, call: Call)
    ensures var (s', r) := UpdateOutcome(w, s, id, p, call);
      && (r.Err? ==> s' == s)
      && (id !in s.rows ==> r == Err(if id <= 0x7FFF_FFFF_FFFF_FFFF then KeyError else OverflowError))
      && (id in s.rows ==>
            var blank := (if p.title.Some? then Strip(p.title.value) else s.rows[id].title) == "";
            var gate := StorageGate(w, call, StorageOperation.UpdateTask, s.rows[id].state);
            var number := if p.priority.Some? then p.priority.value else s.rows[id].priority;
            && (blank ==> r == Err(ValueError))
            && (!blank && gate.Err? ==> r == Err(gate.error))
            && (!blank && gate.Ok? && !IsSqlInteger(number) ==> r == Err(OverflowError))
            && (r.Ok? <==> !blank && gate.Ok? && IsSqlInteger(number)))
  {
  }

  /** A task that moved has the new state and its times, and keeps its contents; the move is logged. */
  lemma MoveReadsBack(w: Wiring, s: Store, id: nat, to: Option<TaskState>, call: Call)
    requires TransitionOutcome(w, s, id, to, call).1.Ok?
    ensures var (s', r) := TransitionOutcome(w, s, id, to, call); var row := r.value;
      && id in s.rows && to.Some? && OnlyRow(s, s', id) && s'.rows[id] == row && s'.nextId == s.nextId
      && s'.log == s.log + [Record(id, s.rows[id].state, to.value)]
      && row.state == to.value && row.updatedAt == call.now && row.createdAt == s.rows[id].createdAt
      && row.archivedAt == (if to.value == ARCHIVED then Some(call.now) else s.rows[id].archivedAt)
      && row.title == s.rows[id].title && row.description == s.rows[id].description && row.goal == s.rows[id].goal
      && row.dueAt == s.rows[id].dueAt && row.priority == s.rows[id].priority
  {
  }

  /** Why a transition fails, the first that applies; rows never change then, and the log only by an orphan. */
  lemma MoveFails(w: Wiring, s: Store, id: nat, to: Option<TaskState>, call: Call)
    ensures var (s', r) := TransitionOutcome(w, s, id, to, call);
      && (r.Err? ==> s'.rows == s.rows && s'.nextId == s.nextId)
      && (id !in s.rows ==> s' == s && r == Err(if id <= 0x7FFF_FFFF_FFFF_FFFF then KeyError else OverflowError))
      && (id in s.rows && to.None? ==> s' == s && r == Err(InvalidTransition))
      && (id in s.rows && to.Some? ==>
            var from := s.rows[id].state;
            var op := if to.value == ARCHIVED then ArchiveTask else StorageOperation.UpdateTask;
            var gate := StorageGate(w, call, op, from);
            && (!TransitionAuthorized(w, call, id, from, to.value) ==> s' == s && r == Err(InvalidTransition))
            && (TransitionAuthorized(w, call, id, from, to.value) && gate.Err? ==> r == Err(gate.error))
            && (r.Ok? <==> TransitionAuthorized(w, call, id, from, to.value) && gate.Ok?))
  {
  }

  /** A refusing storage authority is told apart from a missing one. */
  lemma StorageGateFails(w: Wiring, call: Call, op: StorageOperation, state: TaskState)
    ensures var gate := StorageGate(w, call, op, state);
      && (w.storageBridge.None? && w.enforceStorage ==> gate == Err(RuntimeError("Storage authority unavailable")))
      && (w.storageBridge.None? && !w.enforceStorage ==> gate.Ok?)
      && (w.storageBridge.Some? && gate.Err? ==>
            exists reason :: gate == Err(RuntimeError("Storage authority denied: " + reason)))
  {
  }

  /** Who decides without a memory bridge: the authorizer if there is one, else the matrix if it may. */
  lemma LifecycleDecides(w: Wiring, call: Call, id: nat, from: TaskState, to: TaskState)
    requires w.configuredMemoryBridge.None? && w.storageBridge.None?
    ensures TransitionAuthorized(w, call, id, from, to) <==>
      && !w.enforceMemory
      && if w.authorizer.Some? then
           var answer := w.authorizer.value(id, from, to); answer == Decided(true) || answer == Bare(true)
         else
           && w.legacyFallback
           && ((from, to) in {(CREATED, ACTIVE), (CREATED, ARCHIVED), (ACTIVE, COMPLETED), (ACTIVE, ARCHIVED),
                              (COMPLETED, ARCHIVED)})
  {
  }

  /** What the authorities are asked: which operation, about which state, with which settings. */
  lemma RequestsAsked(w: Wiring, call: Call, from: TaskState, to: TaskState, permission: bool)
    ensures call.PreflightId() == "storage-preflight-" + call.preflightUuid
    ensures w.MemoryBridge() == if w.configuredMemoryBridge.Some? then w.configuredMemoryBridge else w.storageBridge
    ensures StorageOperationFor(to) == if to == ARCHIVED then ArchiveTask else StorageOperation.UpdateTask
    ensures var m := MemoryRequest(w, call.MemoryId(), from, to, permission);
      && m.kind == Request(Memory) && m.id == "memory-" + call.memoryUuid && m.body.MemoryBody?
      && m.body.state == StateName(from) && m.body.mode == w.memoryMode && m.body.storagePermission == permission
      && !m.body.flags.criticalReminder && !m.body.flags.allowArchivedReactivation
      && (m.body.flags.retentionDue <==> to == ARCHIVED)
      && m.body.memoryOperation == Some(match to
                                        case CREATED => RetentionTrigger
                                        case ACTIVE => PromoteToActive
                                        case COMPLETED => DemoteToDormant
                                        case ARCHIVED => if from == ARCHIVED then FinalizeArchive else ArchiveItem)
    ensures var m := StorageRequest(w, call.StorageId(), StorageOperationFor(to), from);
      && m.kind == Request(Storage) && m.id == "storage-" + call.storageUuid && m.body.StorageBody?
      && m.body.operation == Some(StorageOperationFor(to)) && m.body.state == StateName(from)
      && m.body.mode == w.storageMode && m.body.execution == w.execution
      && m.body.encryptionPresent && m.body.keyId == Some(w.keyId)
  {
  }

  // ---- Log and rows ---------------------------------------------------------------------

  ghost function Trail(log: seq<Record>, id: nat): seq<Record> {
    if log == [] then []
    else Trail(log[..|log| - 1], id) + if log[|log| - 1].taskId == id then [log[|log| - 1]] else []
  }

  lemma TrailAppend(log: seq<Record>, r: Record, id: nat)
    ensures Trail(log + [r], id) == Trail(log, id) + if r.taskId == id then [r] else []
  {
    assert (log + [r])[..|log|] == log;
  }

  /** The records lead from CREATED to `end` without a gap. */
  ghost predicate Walk(trail: seq<Record>, end: TaskState) {
    if trail == [] then end == CREATED
    else trail[|trail| - 1].to == end && Walk(trail[..|trail| - 1], trail[|trail| - 1].from)
  }

  /** Every task's records lead to its state, and only existing tasks have records. */
  ghost predicate LogAgrees(s: Store) {
    && (forall id | id in s.rows :: id < s.nextId && Walk(Trail(s.log, id), s.rows[id].state))
    && (forall id | id !in s.rows :: Trail(s.log, id) == [])
  }

  /** A transition that is logged although its row change is then refused. */
  ghost predicate Orphans(w: Wiring, s: Store, op: Op) {
    op.MoveTo? && op.id in s.rows && op.to.Some?
    && TransitionAuthorized(w, op.call, op.id, s.rows[op.id].state, op.to.value)
    && StorageGate(w, op.call, StorageOperationFor(op.to.value), s.rows[op.id].state).Err?
  }

  lemma WalkExtends(trail: seq<Record>, r: Record)
    requires Walk(trail, r.from)
    ensures Walk(trail + [r], r.to)
  {
    assert (trail + [r])[..|trail|] == trail;
  }

  lemma MovedRowAgrees(s: Store, s': Store, r: Record, row: Row)
    requires LogAgrees(s) && r.taskId in s.rows && r.from == s.rows[r.taskId].state && row.state == r.to
    requires s' == s.(log := s.log + [r], rows := s.rows[r.taskId := row])
    ensures LogAgrees(s')
  {
    forall id ensures Trail(s'.log, id) == Trail(s.log, id) + if id == r.taskId then [r] else [] {
      TrailAppend(s.log, r, id);
    }
    WalkExtends(Trail(s.log, r.taskId), r);
    forall id | id in s'.rows && id != r.taskId ensures Walk(Trail(s'.log, id), s'.rows[id].state) {
      assert Trail(s'.log, id) == Trail(s.log, id);
    }
    forall id | id !in s'.rows ensures Trail(s'.log, id) == [] {
      assert Trail(s.log, id) == [];
    }
  }

  lemma MoveKeepsAgreement(w: Wiring, s: Store, op: Op)
    requires op.MoveTo? && LogAgrees(s) && !Orphans(w, s, op)
    ensures LogAgrees(Apply(w, s, op))
  {
    var (s', r) := TransitionOutcome(w, s, op.id, op.to, op.call);
    if r.Ok? {
      MoveReadsBack(w, s, op.id, op.to, op.call);
      MovedRowAgrees(s, s', Record(op.id, s.rows[op.id].state, op.to.value), r.value);
    } else {
      MoveFails(w, s, op.id, op.to, op.call);
    }
  }

  /** `s'` is `s` with one more record, for `r.taskId`. */
  lemma LoggedTrails(s: Store, s': Store, r: Record)
    requires s' == s.(log := s.log + [r])
    ensures forall id | id != r.taskId :: Trail(s'.log, id) == Trail(s.log, id)
    ensures Trail(s'.log, r.taskId) == Trail(s.log, r.taskId) + [r]
  {
    forall id ensures Trail(s'.log, id) == Trail(s.log, id) + if id == r.taskId then [r] else [] {
      TrailAppend(s.log, r, id);
    }
  }

  lemma WalkEnds(trail: seq<Record>, end: TaskState, other: TaskState)
    requires Walk(trail, end)
    ensures Walk(trail, other) <==> other == end
  {
  }

  lemma OrphanWalks(s: Store, s': Store, r: Record)
    requires LogAgrees(s) && s' == s.(log := s.log + [r]) && r.taskId in s.rows && r.from == s.rows[r.taskId].state
    ensures LogAgrees(s') <==> r.to == r.from
  {
    LoggedTrails(s, s', r);
    WalkExtends(Trail(s.log, r.taskId), r);
    WalkEnds(Trail(s'.log, r.taskId), r.to, r.from);
  }

  lemma CreateKeepsAgreement(w: Wiring, s: Store, d: Draft, call: Call)
    requires LogAgrees(s)
    ensures LogAgrees(CreateOutcome(w, s, d, call).0)
  {
    var s' := CreateOutcome(w, s, d, call).0;
    assert s'.log == s.log;
    assert s.nextId !in s.rows;
  }

  /** An update does nothing at all, or the gate let it through and one row is patched. */
  lemma UpdateOnlyPatches(w: Wiring, s: Store, id: nat, p: Patch, call: Call)
    requires id in s.rows
    ensures var s' := UpdateOutcome(w, s, id, p, call).0;
      || s' == s
      || (s' == s.(rows := s.rows[id := Patched(s.rows[id], p, call.now)])
          && StorageGate(w, call, StorageOperation.UpdateTask, s.rows[id].state).Ok?)
  {
  }

  lemma PatchKeepsAgreement(s: Store, id: nat, row: Row)
    requires LogAgrees(s) && id in s.rows && row.state == s.rows[id].state
    ensures LogAgrees(s.(rows := s.rows[id := row]))
  {
  }

  lemma UpdateKeepsAgreement(w: Wiring, s: Store, id: nat, p: Patch, call: Call)
    requires LogAgrees(s)
    ensures LogAgrees(UpdateOutcome(w, s, id, p, call).0)
  {
    if id in s.rows {
      UpdateOnlyPatches(w, s, id, p, call);
      PatchKeepsAgreement(s, id, Patched(s.rows[id], p, call.now));
    }
  }

  /**
   Log and rows stay in step under every operation except one: a transition to another state that is logged and
   then refused by the storage authority, and that one always breaks them apart.
   */
  lemma AgreementKeptExactly(w: Wiring, s: Store, op: Op)
    requires LogAgrees(s)
    ensures LogAgrees(Apply(w, s, op)) <==> !(Orphans(w, s, op) && op.to.value != s.rows[op.id].state)
  {
    match op
    case MoveTo(id, to, call) =>
      if Orphans(w, s, op) {
        OrphanWalks(s, Apply(w, s, op), Record(id, s.rows[id].state, to.value));
      } else {
        MoveKeepsAgreement(w, s, op);
      }
    case Create(d, call) => CreateKeepsAgreement(w, s, d, call);
    case Update(id, p, call) => UpdateKeepsAgreement(w, s, id, p, call);
  }

  // ---- No bridge ------------------------------------------------------------------------

  ghost predicate NoBridge(w: Wiring) { w.storageBridge.None? && w.configuredMemoryBridge.None? }

  /** From a fresh store without a bridge, whatever the authorizer and enforcement flags, log and rows never part. */
  lemma {:induction false} NoBridgeLogAgrees(w: Wiring, ops: seq<Op>)
    requires NoBridge(w)
    ensures LogAgrees(ApplyAll(w, FRESH_STORE, ops))
    ensures w.enforceStorage ==> ApplyAll(w, FRESH_STORE, ops).rows == map[]
    decreases |ops|
  {
    if ops != [] {
      NoBridgeLogAgrees(w, ops[..|ops| - 1]);
      AgreementKeptExactly(w, ApplyAll(w, FRESH_STORE, ops[..|ops| - 1]), ops[|ops| - 1]);
    }
  }

  ghost function Rank(s: TaskState): nat {
    match s case CREATED => 0 case ACTIVE => 1 case COMPLETED => 2 case ARCHIVED => 3
  }

  ghost predicate AllLegal(log: seq<Record>) { forall r | r in log :: LegacyAllowed(r.from, r.to) }

  lemma {:induction false} TrailIsSublog(log: seq<Record>, id: nat)
    ensures forall r | r in Trail(log, id) :: r in log
    decreases |log|
  {
    if log != [] { TrailIsSublog(log[..|log| - 1], id); }
  }

  lemma {:induction false} LegalWalkLength(trail: seq<Record>, end: TaskState)
    requires Walk(trail, end) && AllLegal(trail)
    ensures |trail| <= Rank(end)
    decreases |trail|
  {
    if trail != [] {
      var last := trail[|trail| - 1];
      assert last in trail;
      LegalWalkLength(trail[..|trail| - 1], last.from);
    }
  }

  ghost predicate ArchiveStamps(s: Store) {
    forall id | id in s.rows :: s.rows[id].archivedAt.Some? <==> s.rows[id].state == ARCHIVED
  }

  lemma LegacyMove(w: Wiring, s: Store, id: nat, to: Option<TaskState>, call: Call)
    requires NoBridge(w) && w.authorizer.None? && AllLegal(s.log) && ArchiveStamps(s)
    ensures var s' := TransitionOutcome(w, s, id, to, call).0; AllLegal(s'.log) && ArchiveStamps(s')
  {
  }

  lemma LegacyUpdate(w: Wiring, s: Store, id: nat, p: Patch, call: Call)
    requires ArchiveStamps(s)
    ensures var s' := UpdateOutcome(w, s, id, p, call).0; s'.log == s.log && ArchiveStamps(s')
  {
    if id in s.rows { UpdateOnlyPatches(w, s, id, p, call); }
  }

  lemma LegacyCreate(w: Wiring, s: Store, d: Draft, call: Call)
    requires ArchiveStamps(s)
    ensures var s' := CreateOutcome(w, s, d, call).0; s'.log == s.log && ArchiveStamps(s')
  {
  }

  lemma {:induction false} LegacyRunInvariant(w: Wiring, ops: seq<Op>)
    requires NoBridge(w) && w.authorizer.None?
    ensures var s := ApplyAll(w, FRESH_STORE, ops); AllLegal(s.log) && ArchiveStamps(s)
    decreases |ops|
  {
    if ops != [] {
      var s := ApplyAll(w, FRESH_STORE, ops[..|ops| - 1]);
      LegacyRunInvariant(w, ops[..|ops| - 1]);
      match ops[|ops| - 1]
      case MoveTo(id, to, call) => LegacyMove(w, s, id, to, call);
      case Update(id, p, call) => LegacyUpdate(w, s, id, p, call);
      case Create(d, call) => LegacyCreate(w, s, d, call);
    }
  }

  /** Under the legacy matrix each task's records are a legal path from CREATED to its state, at most three long. */
  lemma LegacyHistories(w: Wiring, ops: seq<Op>, id: nat)
    requires NoBridge(w) && w.authorizer.None?
    requires id in ApplyAll(w, FRESH_STORE, ops).rows
    ensures var s := ApplyAll(w, FRESH_STORE, ops); var trail := Trail(s.log, id);
      && Walk(trail, s.rows[id].state) && AllLegal(trail) && |trail| <= 3
      && (s.rows[id].archivedAt.Some? <==> s.rows[id].state == ARCHIVED)
  {
    var s := ApplyAll(w, FRESH_STORE, ops);
    NoBridgeLogAgrees(w, ops);
    LegacyRunInvariant(w, ops);
    TrailIsSublog(s.log, id);
    LegalWalkLength(Trail(s.log, id), s.rows[id].state);
  }

  // ---- Both bridges answered by the Rust policies ----------------------------------------

  /**
   The Rust side during a call: its access policy, its clock, and what its tracker remembers when each request arrives.
   The tracker may move on between the requests of one call; their ids always differ.
   */
  datatype RustSide = RustSide(access: AccessPolicy, stamp: real, tracked: Tracked)
  {
    /** A request under this id is answered, not refused or taken for a duplicate. */
    predicate Hears(id: string) { RustAccepts(id) && id !in tracked(id) }

    function Transport(): Transport { RustTransport(access, stamp, tracked) }
  }

  /** Storage and memory requests reach the Rust dispatcher. */
  ghost predicate Bridged(w: Wiring, rust: RustSide) {
    && w.storageBridge.Some? && w.storageBridge.value.storage == Some(rust.Transport())
    && w.MemoryBridge().value.memory == Some(rust.Transport())
  }

  /** They do so under ids new to it, as freshly drawn ones are. */
  ghost predicate RustWired(w: Wiring, rust: RustSide, call: Call) {
    Bridged(w, rust) && rust.Hears(call.PreflightId()) && rust.Hears(call.MemoryId()) && rust.Hears(call.StorageId())
  }

  /** A uuid that never went into the tracker before is heard, whatever its size and whatever did. */
  lemma NewIdsAreHeard(w: Wiring, rust: RustSide, call: Call, n: nat, marked: Tracked)
    requires Bridged(w, rust)
    requires forall id | id in {call.PreflightId(), call.MemoryId(), call.StorageId()} ::
               id !in marked(id) && rust.tracked(id) == LastN(Accepted(n, marked(id)), n)
    ensures RustWired(w, rust, call)
  {
    CallIdsValid(call);
    AcceptedWereMarked(n, marked(call.PreflightId()));
    AcceptedWereMarked(n, marked(call.MemoryId()));
    AcceptedWereMarked(n, marked(call.StorageId()));
  }

  /** The store's own settings let the storage authority say yes at all. */
  ghost predicate StorageConfigured(w: Wiring) {
    && w.storageMode.Some? && w.execution.Some? && Trim(w.keyId) != ""
    && (w.storageMode.value == Strategic || w.execution.value != LLM)
  }

  ghost predicate StoragePermits(w: Wiring, op: StorageOperation, state: TaskState) {
    StorageConfigured(w) && op != DeleteTask && (state == ARCHIVED ==> op == ArchiveTask)
  }

  /** The storage policy on the store's own requests. */
  lemma StorageAnswer(access: AccessPolicy, w: Wiring, id: string, op: StorageOperation, state: TaskState)
    ensures Answer(access, Storage, StorageRequest(w, id, op, state).body).allowed <==> StoragePermits(w, op, state)
  {
    ArchivedByName(state);
  }

  lemma WiredStorageGate(w: Wiring, rust: RustSide, call: Call, op: StorageOperation, state: TaskState)
    requires Bridged(w, rust)
    ensures StorageGate(w, call, op, state).Ok? <==> rust.Hears(call.StorageId()) && StoragePermits(w, op, state)
  {
    var body := StorageRequest(w, call.StorageId(), op, state).body;
    StorageAnswer(rust.access, w, call.StorageId(), op, state);
    WiredGateFollowsPolicy(rust.access, Storage, call.StorageId(), body, w.storageBridge.value.general, rust.tracked,
                           rust.stamp, call.stamp);
  }

  lemma BuiltAllowed(a: Authority, id: string, timestamp: real, d: Decision)
    ensures BuildResult(a, id, timestamp, d).JObject?
    ensures Get(BuildResult(a, id, timestamp, d).fields, PayloadKey).JObject?
    ensures Get(Get(BuildResult(a, id, timestamp, d).fields, PayloadKey).fields, AllowedKey) == JBool(d.allowed)
  {
  }

  lemma WiredPreflight(w: Wiring, rust: RustSide, call: Call, op: StorageOperation, state: TaskState)
    requires Bridged(w, rust)
    ensures StoragePreflight(w, call, op, state) <==> rust.Hears(call.PreflightId()) && StoragePermits(w, op, state)
  {
    var body := StorageRequest(w, call.PreflightId(), op, state).body;
    StorageAnswer(rust.access, w, call.PreflightId(), op, state);
    RustAnswerSurvives(rust.access, Storage, call.PreflightId(), body, w.storageBridge.value.general, rust.tracked,
                       rust.stamp, call.stamp);
    BuiltAllowed(Storage, call.PreflightId(), call.stamp, Answer(rust.access, Storage, body));
    BuiltAllowed(Storage, call.PreflightId(), call.stamp, InvalidResponse(Storage));
  }

  /** Preflight and execution request are answered alike, by the store's settings, the operation and the state. */
  lemma WiredStorage(w: Wiring, rust: RustSide, call: Call, op: StorageOperation, state: TaskState)
    requires RustWired(w, rust, call)
    ensures StorageGate(w, call, op, state).Ok? <==> StoragePermits(w, op, state)
    ensures StoragePreflight(w, call, op, state) <==> StoragePermits(w, op, state)
  {
    WiredStorageGate(w, rust, call, op, state);
    WiredPreflight(w, rust, call, op, state);
  }

  /** What the two policies together allow. */
  ghost predicate WiredAllows(w: Wiring, from: TaskState, to: TaskState) {
    && StorageConfigured(w) && w.memoryMode.Some? && w.memoryMode.value != Silent
    && to != CREATED && (from == ARCHIVED ==> to == ARCHIVED)
  }

  /** The memory policy on the store's own requests. */
  lemma MemoryAnswer(access: AccessPolicy, w: Wiring, id: string, from: TaskState, to: TaskState, permission: bool)
    ensures Answer(access, Memory, MemoryRequest(w, id, from, to, permission).body).allowed
       <==> w.memoryMode.Some? && permission && w.memoryMode.value != Silent && to != CREATED
            && !(from == ARCHIVED && to == ACTIVE)
  {
    ArchivedByName(from);
  }

  lemma WiredMemoryGate(w: Wiring, rust: RustSide, call: Call, from: TaskState, to: TaskState, permission: bool)
    requires Bridged(w, rust)
    ensures var b := w.MemoryBridge().value; var m := MemoryRequest(w, call.MemoryId(), from, to, permission);
      (Gate(Memory, b.memory, b.general, m, call.stamp).Execute?
       <==> rust.Hears(call.MemoryId()) && Answer(rust.access, Memory, m.body).allowed)
  {
    var b := w.MemoryBridge().value;
    var m := MemoryRequest(w, call.MemoryId(), from, to, permission);
    WiredGateFollowsPolicy(rust.access, Memory, call.MemoryId(), m.body, b.general, rust.tracked,
                           rust.stamp, call.stamp);
  }

  /** Exactly when the two authorities together authorize a transition, whatever ids the call draws. */
  lemma WiredAuthorization(w: Wiring, rust: RustSide, call: Call, id: nat, from: TaskState, to: TaskState)
    requires Bridged(w, rust)
    ensures TransitionAuthorized(w, call, id, from, to)
       <==> rust.Hears(call.PreflightId()) && rust.Hears(call.MemoryId()) && WiredAllows(w, from, to)
  {
    WiredPreflight(w, rust, call, StorageOperationFor(to), from);
    var permission := StoragePreflight(w, call, StorageOperationFor(to), from);
    MemoryAnswer(rust.access, w, call.MemoryId(), from, to, permission);
    WiredMemoryGate(w, rust, call, from, to, permission);
  }

  /** Exactly when a transition goes through, end to end, and that a refused one leaves no trace at all. */
  lemma WiredTransitionExactly(w: Wiring, rust: RustSide, s: Store, id: nat, to: Option<TaskState>, call: Call)
    requires RustWired(w, rust, call)
    ensures var (s', r) := TransitionOutcome(w, s, id, to, call);
      && (r.Ok? <==> id in s.rows && to.Some? && WiredAllows(w, s.rows[id].state, to.value))
      && (r.Err? ==> s' == s)
      && (r.Ok? ==> s' == s.(rows := s.rows[id := Moved(s.rows[id], to.value, call.now)],
                             log := s.log + [Record(id, s.rows[id].state, to.value)]))
  {
    if id in s.rows && to.Some? {
      var from := s.rows[id].state;
      WiredAuthorization(w, rust, call, id, from, to.value);
      WiredStorageGate(w, rust, call, StorageOperationFor(to.value), from);
    }
  }

  /**
   With the Rust policies behind the bridge, whatever its tracker does between the requests, a record is orphaned in
   one case only: the dispatcher remembers the id drawn for the execution request, while it heard the two before it.
   */
  lemma WiredOrphansExactly(w: Wiring, rust: RustSide, s: Store, op: Op)
    requires Bridged(w, rust)
    ensures Orphans(w, s, op) <==>
      && op.MoveTo? && op.id in s.rows && op.to.Some? && WiredAllows(w, s.rows[op.id].state, op.to.value)
      && rust.Hears(op.call.PreflightId()) && rust.Hears(op.call.MemoryId())
      && op.call.StorageId() in rust.tracked(op.call.StorageId())
  {
    CallIdsValid(op.call);
    if op.MoveTo? && op.id in s.rows && op.to.Some? {
      WiredAuthorization(w, rust, op.call, op.id, s.rows[op.id].state, op.to.value);
      WiredStorageGate(w, rust, op.call, StorageOperationFor(op.to.value), s.rows[op.id].state);
    }
  }

  /** A transition the memory authority allows is one to the very state it names as target. */
  lemma AllowedTargetIsDestination(from: TaskState, to: TaskState, mode: EnergyMode, permission: bool)
    ensures var d := DetermineMemoryTransition(StateName(from), mode, permission, MemoryOperationFor(from, to),
                                               MemoryFlags(false, false, to == ARCHIVED));
      d.allowed ==> d.target == Some(StateName(to))
  {
    ArchivedByName(from);
  }

  lemma MemoryTarget(access: AccessPolicy, w: Wiring, id: string, from: TaskState, to: TaskState)
    requires w.memoryMode.Some? && Answer(access, Memory, MemoryRequest(w, id, from, to, true).body).allowed
    ensures Answer(access, Memory, MemoryRequest(w, id, from, to, true).body).extra.MemoryExtra?
    ensures Answer(access, Memory, MemoryRequest(w, id, from, to, true).body).extra.target == Some(StateName(to))
  {
    AllowedTargetIsDestination(from, to, w.memoryMode.value, true);
  }

  /** The state written is the target the memory authority itself named. */
  lemma WrittenStateIsTarget(w: Wiring, rust: RustSide, s: Store, id: nat, to: Option<TaskState>, call: Call)
    requires RustWired(w, rust, call) && TransitionOutcome(w, s, id, to, call).1.Ok?
    ensures id in s.rows && to.Some? && w.memoryMode.Some?
    ensures var m := MemoryRequest(w, call.MemoryId(), s.rows[id].state, to.value, true);
      var d := Answer(rust.access, Memory, m.body);
      && d.allowed && d.extra.MemoryExtra?
      && d.extra.target == Some(StateName(TransitionOutcome(w, s, id, to, call).0.rows[id].state))
  {
    WiredTransitionExactly(w, rust, s, id, to, call);
    MemoryAnswer(rust.access, w, call.MemoryId(), s.rows[id].state, to.value, true);
    MemoryTarget(rust.access, w, call.MemoryId(), s.rows[id].state, to.value);
  }

  /** The fields update_task writes. */
  ghost predicate SameContents(before: Row, after: Row) {
    && after.title == before.title && after.description == before.description && after.goal == before.goal
    && after.dueAt == before.dueAt && after.priority == before.priority
  }

  /** What an archived task must never lose. */
  ghost predicate Preserved(before: Row, after: Row) {
    && (before.state == ARCHIVED ==> after.state == ARCHIVED && after.archivedAt.Some? && SameContents(before, after))
    && (before.state != CREATED ==> after.state != CREATED)
    && after.createdAt == before.createdAt
  }

  ghost predicate Sane(s: Store) {
    forall id | id in s.rows :: id < s.nextId && (s.rows[id].state == ARCHIVED ==> s.rows[id].archivedAt.Some?)
  }

  ghost predicate StepPreserves(s: Store, s': Store) {
    Sane(s') && forall id | id in s.rows :: id in s'.rows && Preserved(s.rows[id], s'.rows[id])
  }

  lemma MovedPreserves(s: Store, id: nat, to: TaskState, now: int, log: seq<Record>)
    requires Sane(s) && id in s.rows && to != CREATED && (s.rows[id].state == ARCHIVED ==> to == ARCHIVED)
    ensures StepPreserves(s, s.(rows := s.rows[id := Moved(s.rows[id], to, now)], log := log))
  {
  }

  lemma WiredMovePreserves(w: Wiring, rust: RustSide, s: Store, id: nat, to: Option<TaskState>, call: Call)
    requires RustWired(w, rust, call) && Sane(s)
    ensures StepPreserves(s, TransitionOutcome(w, s, id, to, call).0)
  {
    WiredTransitionExactly(w, rust, s, id, to, call);
    if TransitionOutcome(w, s, id, to, call).1.Ok? {
      MovedPreserves(s, id, to.value, call.now, s.log + [Record(id, s.rows[id].state, to.value)]);
    }
  }

  lemma PatchPreserves(s: Store, id: nat, row: Row)
    requires Sane(s) && id in s.rows && s.rows[id].state != ARCHIVED
    requires row.state == s.rows[id].state && row.createdAt == s.rows[id].createdAt
    ensures StepPreserves(s, s.(rows := s.rows[id := row]))
  {
  }

  lemma WiredUpdatePreserves(w: Wiring, rust: RustSide, s: Store, id: nat, p: Patch, call: Call)
    requires RustWired(w, rust, call) && Sane(s)
    ensures StepPreserves(s, UpdateOutcome(w, s, id, p, call).0)
  {
    if id in s.rows {
      UpdateOnlyPatches(w, s, id, p, call);
      WiredStorageGate(w, rust, call, StorageOperation.UpdateTask, s.rows[id].state);
      if UpdateOutcome(w, s, id, p, call).0 != s {
        PatchPreserves(s, id, Patched(s.rows[id], p, call.now));
      }
    }
  }

  lemma CreatePreserves(w: Wiring, s: Store, d: Draft, call: Call)
    requires Sane(s)
    ensures StepPreserves(s, CreateOutcome(w, s, d, call).0)
  {
  }

  lemma WiredStepPreserves(w: Wiring, rust: RustSide, s: Store, op: Op)
    requires RustWired(w, rust, op.call) && Sane(s)
    ensures StepPreserves(s, Apply(w, s, op))
  {
    match op
    case MoveTo(id, to, call) => WiredMovePreserves(w, rust, s, id, to, call);
    case Update(id, p, call) => WiredUpdatePreserves(w, rust, s, id, p, call);
    case Create(d, call) => CreatePreserves(w, s, d, call);
  }

  /** One operation under the wiring of its moment: settings, energy mode and the Rust tracker may change in between. */
  datatype Turn = Turn(wiring: Wiring, op: Op)

  ghost predicate WiredTurn(turn: Turn) {
    exists rust :: RustWired(turn.wiring, rust, turn.op.call)
  }

  ghost function ApplyTurns(s: Store, turns: seq<Turn>): Store {
    if turns == [] then s
    else Apply(turns[|turns| - 1].wiring, ApplyTurns(s, turns[..|turns| - 1]), turns[|turns| - 1].op)
  }

  /**
   Over every run of store operations with both bridges answered by the Rust policies: ARCHIVED is absorbing,
   an archived task's contents are frozen, CREATED is never re-entered, and no row disappears.
   */
  lemma {:induction false} ArchivedForEver(s: Store, turns: seq<Turn>, id: nat)
    requires Sane(s) && id in s.rows && forall i | 0 <= i < |turns| :: WiredTurn(turns[i])
    ensures var s' := ApplyTurns(s, turns); Sane(s') && id in s'.rows && Preserved(s.rows[id], s'.rows[id])
    decreases |turns|
  {
    if turns != [] {
      var before, last := turns[..|turns| - 1], turns[|turns| - 1];
      ArchivedForEver(s, before, id);
      var rust :| RustWired(last.wiring, rust, last.op.call);
      WiredStepPreserves(last.wiring, rust, ApplyTurns(s, before), last.op);
    }
  }

  /** With both bridges wired, log and rows agree after every run from a fresh store. */
  lemma {:induction false} WiredLogAgrees(turns: seq<Turn>)
    requires forall i | 0 <= i < |turns| :: WiredTurn(turns[i])
    ensures LogAgrees(ApplyTurns(FRESH_STORE, turns)) && Sane(ApplyTurns(FRESH_STORE, turns))
    decreases |turns|
  {
    if turns != [] {
      var before, last := turns[..|turns| - 1], turns[|turns| - 1];
      var s := ApplyTurns(FRESH_STORE, before);
      WiredLogAgrees(before);
      var rust :| RustWired(last.wiring, rust, last.op.call);
      WiredStepPreserves(last.wiring, rust, s, last.op);
      WiredOrphansExactly(last.wiring, rust, s, last.op);
      AgreementKeptExactly(last.wiring, s, last.op);
    }
  }

  // ---- When archived contents are frozen ------------------------------------------------

  /** No update changes the contents of this row, whatever it asks for and whenever it comes. */
  ghost predicate Frozen(w: Wiring, s: Store, id: nat)
    requires id in s.rows
  {
    forall p: Patch, call: Call :: SameContents(s.rows[id], UpdateOutcome(w, s, id, p, call).0.rows[id])
  }

  /** Whatever the wiring: an archived row is frozen exactly if the storage gate refuses to update it on every call. */
  lemma FrozenExactly(w: Wiring, s: Store, id: nat)
    requires id in s.rows && s.rows[id].state == ARCHIVED
    ensures Frozen(w, s, id) <==> forall call: Call :: StorageGate(w, call, StorageOperation.UpdateTask, ARCHIVED).Err?
  {
    var row := s.rows[id];
    var p := Patch(Some("t"), None, None, None, Some(if row.priority == 0 then 1 else 0));
    StripKeeps("t");
    forall call: Call | StorageGate(w, call, StorageOperation.UpdateTask, ARCHIVED).Ok? ensures !Frozen(w, s, id) {
      assert UpdateOutcome(w, s, id, p, call).0.rows[id] == Patched(row, p, call.now);
      assert !SameContents(row, UpdateOutcome(w, s, id, p, call).0.rows[id]);
    }
  }

  /** Without a bridge that is: exactly if storage authority is enforced. */
  lemma UnbridgedFrozenExactly(w: Wiring, s: Store, id: nat)
    requires NoBridge(w) && id in s.rows && s.rows[id].state == ARCHIVED
    ensures Frozen(w, s, id) <==> w.enforceStorage
  {
    FrozenExactly(w, s, id);
    var call := Call(0, NIL_UUID, NIL_UUID, NIL_UUID, 0.0);
    assert StorageGate(w, call, StorageOperation.UpdateTask, ARCHIVED).Err? <==> w.enforceStorage;
  }

  /** With the Rust policies behind the bridge, always, even for ids they refuse. */
  lemma WiredFrozen(w: Wiring, rust: RustSide, s: Store, id: nat)
    requires Bridged(w, rust) && id in s.rows && s.rows[id].state == ARCHIVED
    ensures Frozen(w, s, id)
  {
    FrozenExactly(w, s, id);
    forall call: Call ensures StorageGate(w, call, StorageOperation.UpdateTask, ARCHIVED).Err? {
      WiredStorageGate(w, rust, call, StorageOperation.UpdateTask, ARCHIVED);
    }
  }

  // ---- The two wirings compared ---------------------------------------------------------

  /** Where the two wirings part: what the legacy matrix refuses and the Rust policies allow. */
  ghost predicate OnlyWired(from: TaskState, to: TaskState) {
    || (from == CREATED && to == COMPLETED) || (from == COMPLETED && to == ACTIVE)
    || (from == to && from != CREATED)
  }

  /**
   Moving from the legacy matrix to the Rust policies: with settings in order and energy not Silent, every transition
   that succeeded still succeeds with the same row and record, and exactly these new ones are added.
   */
  lemma WiringsCompared(v: Wiring, w: Wiring, rust: RustSide, s: Store, id: nat, to: TaskState, call: Call)
    requires NoBridge(v) && v.authorizer.None? && v.legacyFallback && !v.enforceMemory && !v.enforceStorage
    requires RustWired(w, rust, call) && StorageConfigured(w) && w.memoryMode.Some? && w.memoryMode.value != Silent
    requires id in s.rows
    ensures var before := TransitionOutcome(v, s, id, Some(to), call);
      var after := TransitionOutcome(w, s, id, Some(to), call);
      && (before.1.Ok? ==> after == before)
      && (after.1.Ok? && before.1.Err? <==> OnlyWired(s.rows[id].state, to))
  {
    WiredTransitionExactly(w, rust, s, id, Some(to), call);
  }

  // ---- Arbitrary transports -------------------------------------------------------------

  /** The storage authority gives the preflight and the execution request the same answer. */
  ghost predicate StorageConsistent(w: Wiring, call: Call, op: StorageOperation, state: TaskState) {
    StoragePreflight(w, call, op, state) <==> StorageGate(w, call, op, state).Ok?
  }

  /** The memory authority refuses whenever it is told that storage said no. */
  ghost predicate MemoryHonoursStorage(w: Wiring, call: Call, from: TaskState, to: TaskState) {
    w.MemoryBridge().Some? &&
    var b := w.MemoryBridge().value;
    Gate(Memory, b.memory, b.general, MemoryRequest(w, call.MemoryId(), from, to, false), call.stamp).Refuse?
  }

  /** For any transports: a consistent storage authority and an honest memory authority leave no orphan record. */
  lemma NoOrphanWhenConsistent(w: Wiring, s: Store, op: Op)
    requires op.MoveTo? && op.id in s.rows && op.to.Some?
    requires StorageConsistent(w, op.call, StorageOperationFor(op.to.value), s.rows[op.id].state)
    requires MemoryHonoursStorage(w, op.call, s.rows[op.id].state, op.to.value)
    ensures !Orphans(w, s, op)
  {
  }

  /** A storage transport that grants the preflight `yes` and fails the execution request. */
  ghost function Fickle(grant: string): Transport {
    (m: Letter) =>
      if m.id == grant then BuildResult(Storage, m.id, 0.0, Decision(true, None, StorageExtra(false, true))) else JNull
  }

  lemma FickleStorage(w: Wiring, call: Call, op: StorageOperation, state: TaskState)
    requires w.storageBridge.Some? && w.storageBridge.value.storage == Some(Fickle(call.PreflightId()))
    ensures StoragePreflight(w, call, op, state) && StorageGate(w, call, op, state).Err?
  {
    var b := w.storageBridge.value;
    CallIdsValid(call);
    ParseAfterBuild(Storage, call.PreflightId(), 0.0, Decision(true, None, StorageExtra(false, true)));
    GateIsFailClosed(Storage, b.storage, b.general, StorageRequest(w, call.StorageId(), op, state), call.stamp);
  }

  /** Such an inconsistent authority parts the log from the rows on every transition the memory policy allows. */
  lemma InconsistentStorageOrphans(w: Wiring, rust: RustSide, s: Store, op: Op)
    requires w.storageBridge.Some? && w.MemoryBridge().value.memory == Some(rust.Transport())
    requires op.MoveTo? && w.storageBridge.value.storage == Some(Fickle(op.call.PreflightId()))
    requires rust.Hears(op.call.MemoryId())
    requires w.memoryMode.Some? && w.memoryMode.value != Silent
    requires LogAgrees(s) && op.id in s.rows && op.to.Some? && op.to.value != s.rows[op.id].state
    requires op.to.value != CREATED && !(s.rows[op.id].state == ARCHIVED && op.to.value == ACTIVE)
    ensures Orphans(w, s, op) && !LogAgrees(Apply(w, s, op))
  {
    var b, from, to := w.MemoryBridge().value, s.rows[op.id].state, op.to.value;
    var m := MemoryRequest(w, op.call.MemoryId(), from, to, true);
    FickleStorage(w, op.call, StorageOperationFor(to), from);
    MemoryAnswer(rust.access, w, op.call.MemoryId(), from, to, true);
    WiredGateFollowsPolicy(rust.access, Memory, op.call.MemoryId(), m.body, b.general, rust.tracked,
                           rust.stamp, op.call.stamp);
    AgreementKeptExactly(w, s, op);
  }
}
