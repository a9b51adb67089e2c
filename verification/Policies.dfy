/**
 The two policies the Rust supervisor answers with: memory transitions (os/src/runtime/memory_authority.rs)
 and storage mutations (os/src/secure_storage.rs). Both are pure.
 */
module Policies {
  import opened Common
  import opened Text
  import opened EnergyManagers

  datatype TaskState = CREATED | ACTIVE | COMPLETED | ARCHIVED

  function StateName(s: TaskState): string {
    match s
    case CREATED => "CREATED"
    case ACTIVE => "ACTIVE"
    case COMPLETED => "COMPLETED"
    case ARCHIVED => "ARCHIVED"
  }

  predicate IsArchivedState(state: string) { EqIgnoreCase(Trim(state), "ARCHIVED") }

  lemma ArchivedByName(s: TaskState)
    ensures IsArchivedState(StateName(s)) <==> s == ARCHIVED
    ensures StateName(CREATED) == "CREATED" && StateName(ACTIVE) == "ACTIVE"
    ensures StateName(COMPLETED) == "COMPLETED" && StateName(ARCHIVED) == "ARCHIVED"
  {
    StripKeeps(StateName(s));
    assert |Lower("ARCHIVED")| == 8;
    assert s != ARCHIVED ==> |StateName(s)| != 8;
  }

  // ---- Memory ---------------------------------------------------------------------------

  datatype MemoryOperation =
    PromoteToActive | DemoteToDormant | ArchiveItem | FinalizeArchive | RetentionTrigger | VectorTierShift

  datatype MemoryFlags = MemoryFlags(criticalReminder: bool, allowArchivedReactivation: bool, retentionDue: bool)

  datatype MemoryDecision = MemoryDecision(
    allowed: bool, reason: string, target: Option<string>, retentionApplied: bool, tierChanged: bool)

  function DetermineMemoryTransition(
    state: string, mode: EnergyMode, storagePermission: bool, operation: MemoryOperation,
    flags: MemoryFlags): MemoryDecision
  {
    var archived := IsArchivedState(state);
    if !storagePermission then MemoryDecision(false, "STORAGE_PERMISSION_REQUIRED", None, false, false)
    else if mode == Silent && !flags.criticalReminder then
      MemoryDecision(false, "SILENT_MODE_MEMORY_RESTRICTED", None, false, false)
    else if archived && operation == PromoteToActive && !flags.allowArchivedReactivation then
      MemoryDecision(false, "ARCHIVED_REACTIVATION_DENIED", None, true, false)
    else match operation
      case PromoteToActive => MemoryDecision(true, "", Some("ACTIVE"), false, true)
      case DemoteToDormant => MemoryDecision(true, "", Some("COMPLETED"), false, true)
      case ArchiveItem => MemoryDecision(true, "", Some("ARCHIVED"), true, !archived)
      case FinalizeArchive =>
        if archived then MemoryDecision(true, "", Some("ARCHIVED"), true, false)
        else MemoryDecision(false, "FINALIZE_REQUIRES_ARCHIVED_STATE", Some("ARCHIVED"), true, false)
      case RetentionTrigger =>
        if flags.retentionDue then MemoryDecision(true, "", Some("ARCHIVED"), true, true)
        else MemoryDecision(false, "RETENTION_WINDOW_NOT_REACHED", Some("ARCHIVED"), false, false)
      case VectorTierShift => MemoryDecision(true, "", Some("DORMANT"), false, true)
  }

  // ---- Storage --------------------------------------------------------------------------

  datatype StorageOperation = WriteTask | UpdateTask | ArchiveTask | DeleteTask | VectorWrite | VectorDelete

  datatype StorageDecision = StorageDecision(
    allowed: bool, reason: string, retentionApplied: bool, encryptionVerified: bool)

  function DetermineStoragePolicy(
    operation: StorageOperation, state: string, mode: EnergyMode, execution: ExecutionType,
    encryptionPresent: bool, keyId: Option<string>): StorageDecision
  {
    var keyPresent := keyId.Some? && Trim(keyId.value) != "";
    if !(encryptionPresent && keyPresent) then StorageDecision(false, "ENCRYPTION_METADATA_MISSING", false, false)
    else if operation == DeleteTask then StorageDecision(false, "RETENTION_DELETE_DENIED", true, true)
    else if IsArchivedState(state) && operation != ArchiveTask then
      StorageDecision(false, "ARCHIVED_STATE_IMMUTABLE", true, true)
    else if mode != Strategic && execution == LLM then
      StorageDecision(false, "LLM_STORAGE_BLOCKED_RESTRICTED_ENERGY", false, true)
    else StorageDecision(true, "", operation == ArchiveTask, true)
  }

  /** The storage policy as one condition: keyed, no deletion, archived tasks frozen, no model writes on low energy. */
  lemma StorageAllowedExactly(
    operation: StorageOperation, state: string, mode: EnergyMode, execution: ExecutionType, present: bool,
    key: Option<string>)
    ensures DetermineStoragePolicy(operation, state, mode, execution, present, key).allowed
       <==> present && key.Some? && Trim(key.value) != "" && operation != DeleteTask
            && (IsArchivedState(state) ==> operation == ArchiveTask) && (execution == LLM ==> mode == Strategic)
  {
  }

  /** What a storage decision says besides yes or no. */
  lemma StorageReasons(
    operation: StorageOperation, state: string, mode: EnergyMode, execution: ExecutionType, present: bool,
    key: Option<string>)
    ensures var d := DetermineStoragePolicy(operation, state, mode, execution, present, key);
      var keyed := present && key.Some? && Trim(key.value) != "";
      && d.encryptionVerified == keyed
      && (d.reason == "" <==> d.allowed)
      && (!keyed ==> d.reason == "ENCRYPTION_METADATA_MISSING" && !d.retentionApplied)
      && (keyed && operation == DeleteTask ==> d.reason == "RETENTION_DELETE_DENIED" && d.retentionApplied)
      && (keyed && operation != DeleteTask && IsArchivedState(state) && operation != ArchiveTask ==>
            d.reason == "ARCHIVED_STATE_IMMUTABLE" && d.retentionApplied)
      && (keyed && operation != DeleteTask && (IsArchivedState(state) ==> operation == ArchiveTask) && !d.allowed ==>
            d.reason == "LLM_STORAGE_BLOCKED_RESTRICTED_ENERGY" && !d.retentionApplied)
      && (d.allowed ==> (d.retentionApplied <==> operation == ArchiveTask))
  {
  }

  /** The memory policy as one condition, and a target is named exactly when nothing general stands in the way. */
  lemma MemoryAllowedExactly(
    state: string, mode: EnergyMode, permission: bool, operation: MemoryOperation, flags: MemoryFlags)
    ensures var d := DetermineMemoryTransition(state, mode, permission, operation, flags);
      && (d.allowed <==>
            && permission && (mode == Silent ==> flags.criticalReminder)
            && (operation == PromoteToActive && IsArchivedState(state) ==> flags.allowArchivedReactivation)
            && (operation == FinalizeArchive ==> IsArchivedState(state))
            && (operation == RetentionTrigger ==> flags.retentionDue))
      && (d.allowed ==> d.target.Some? && d.reason == "") && (!d.allowed ==> d.reason != "")
      && (d.allowed && IsArchivedState(state) && d.target == Some("ACTIVE") ==> flags.allowArchivedReactivation)
  {
  }

  /** What a memory decision says besides yes or no: the three general refusals first, then the operation's own. */
  lemma MemoryReasons(state: string, mode: EnergyMode, permission: bool, operation: MemoryOperation, flags: MemoryFlags)
    ensures var d := DetermineMemoryTransition(state, mode, permission, operation, flags);
      var archived, quiet := IsArchivedState(state), mode == Silent && !flags.criticalReminder;
      var held := archived && operation == PromoteToActive && !flags.allowArchivedReactivation;
      && (!permission ==> d == MemoryDecision(false, "STORAGE_PERMISSION_REQUIRED", None, false, false))
      && (permission && quiet ==> d == MemoryDecision(false, "SILENT_MODE_MEMORY_RESTRICTED", None, false, false))
      && (permission && !quiet && held ==>
            d == MemoryDecision(false, "ARCHIVED_REACTIVATION_DENIED", None, true, false))
      && (permission && !quiet && !held ==>
            && d.target == Some(if operation == PromoteToActive then "ACTIVE" else if operation == DemoteToDormant then
                                "COMPLETED" else if operation == VectorTierShift then "DORMANT" else "ARCHIVED")
            && (d.retentionApplied <==>
                  operation == ArchiveItem || operation == FinalizeArchive
                  || (operation == RetentionTrigger && flags.retentionDue))
            && (d.tierChanged <==>
                  d.allowed && operation != FinalizeArchive && !(operation == ArchiveItem && archived))
            && (!d.allowed ==> d.reason == if operation == FinalizeArchive then "FINALIZE_REQUIRES_ARCHIVED_STATE"
                                           else "RETENTION_WINDOW_NOT_REACHED"))
  {
  }
}
