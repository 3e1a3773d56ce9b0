/**
 * The workflow operation-mode validator: before a create, update or
 * conflict-resolve write reaches storage, the persistence layer checks that
 * the write mode agrees with the states of the execution records it touches.
 * The rules are the decision tables of the validator's table-driven test
 * suite; the tables themselves are kept here as data (the `stateToError`
 * maps of that suite) and the lemmas at the end tie the validator to them.
 */
module OperationModeValidator {
  import opened Wrappers

  /** The state of one workflow execution record. */
  datatype WorkflowState = Created | Running | Completed | Zombie

  /** How a new execution is created. Zombie creates a shadow record that never becomes current. */
  datatype CreateWorkflowMode = BrandNew | WorkflowIdReuse | ContinueAsNew | Zombie

  /** How an update treats the current-execution pointer. */
  datatype UpdateWorkflowMode = UpdateCurrent | BypassCurrent | IgnoreCurrent

  /** How a conflict resolution (history reset) treats the current-execution pointer. */
  datatype ConflictResolveWorkflowMode = UpdateCurrent | BypassCurrent

  /** A live execution: one that may be (or become) the current execution. */
  predicate IsLive(s: WorkflowState) {
    s == Created || s == Running
  }

  /** The create modes that install the new execution as the current one. */
  predicate InstallsCurrent(mode: CreateWorkflowMode) {
    mode != CreateWorkflowMode.Zombie
  }

  /**
   * ValidateCreateWorkflowModeState: `accepted` is true exactly when the
   * validator returns no error for a create of an execution in `newState`.
   */
  function ValidateCreateWorkflowModeState(mode: CreateWorkflowMode, newState: WorkflowState): (accepted: bool)
    // a create that takes the current pointer installs a live execution
    ensures accepted && InstallsCurrent(mode) ==> IsLive(newState)
    // a zombie create writes a zombie record and nothing else
    ensures accepted && !InstallsCurrent(mode) ==> newState == WorkflowState.Zombie
  {
    match mode
    case BrandNew | WorkflowIdReuse | ContinueAsNew => IsLive(newState)
    case Zombie => newState == WorkflowState.Zombie
  }

  /**
   * ValidateUpdateWorkflowModeState: the update mutates the current
   * execution (in `currentState`) and may attach a new execution
   * (`newState`, the continue-as-new case).
   */
  function ValidateUpdateWorkflowModeState(
    mode: UpdateWorkflowMode, currentState: WorkflowState, newState: Option<WorkflowState>
  ): (accepted: bool)
    // a new execution is attached only after the mutated one has stopped
    ensures accepted && newState.Some? ==> !IsLive(currentState) && mode != UpdateWorkflowMode.IgnoreCurrent
    // the execution left holding the current pointer is never a zombie
    ensures accepted && mode == UpdateWorkflowMode.UpdateCurrent ==>
      if newState.Some? then IsLive(newState.value) else currentState != WorkflowState.Zombie
    // bypassing the current pointer never introduces a live execution
    ensures accepted && mode == UpdateWorkflowMode.BypassCurrent ==>
      !IsLive(currentState) && (newState.Some? ==> newState.value == WorkflowState.Zombie)
  {
    match mode
    case UpdateCurrent =>
      (match newState
       case None => currentState != WorkflowState.Zombie
       case Some(n) => !IsLive(currentState) && IsLive(n))
    case BypassCurrent =>
      (match newState
       case None => !IsLive(currentState)
       case Some(n) => !IsLive(currentState) && n == WorkflowState.Zombie)
    case IgnoreCurrent =>
      newState.None?
  }

  /**
   * ValidateConflictResolveWorkflowModeState: the resolution rewrites the
   * reset execution (`resetState`), may attach a new execution (`newState`)
   * and may mutate the current execution (`currentState`).
   */
  function ValidateConflictResolveWorkflowModeState(
    mode: ConflictResolveWorkflowMode, resetState: WorkflowState,
    newState: Option<WorkflowState>, currentState: Option<WorkflowState>
  ): (accepted: bool)
    // the execution that ends up current is never a zombie, and a new
    // execution replaces a reset execution that has completed
    ensures accepted && mode == ConflictResolveWorkflowMode.UpdateCurrent ==>
      if newState.Some? then IsLive(newState.value) && resetState == Completed
      else resetState != WorkflowState.Zombie
    // a current execution that is mutated as well has stopped
    ensures accepted && currentState.Some? ==> !IsLive(currentState.value)
    // bypassing the current pointer never introduces or leaves a live contender
    ensures accepted && mode == ConflictResolveWorkflowMode.BypassCurrent ==>
      !IsLive(resetState) && currentState.None? &&
      (newState.Some? ==> newState.value == WorkflowState.Zombie)
  {
    match mode
    case UpdateCurrent =>
      (match newState
       case None => resetState != WorkflowState.Zombie
       case Some(n) => resetState == Completed && IsLive(n))
      && (currentState.Some? ==> !IsLive(currentState.value))
    case BypassCurrent =>
      currentState.None? &&
      (match newState
       case None => !IsLive(resetState)
       case Some(n) => resetState == Completed && n == WorkflowState.Zombie)
  }

  // The five state-to-error tables the test suite uses, as data: a state maps
  // to true when the validator must reject a participant in that state.

  /** Error unless Created or Running. */
  const ErrorUnlessLive: map<WorkflowState, bool> :=
    map[Created := false, Running := false, Completed := true, WorkflowState.Zombie := true]

  /** Error unless Zombie. */
  const ErrorUnlessZombie: map<WorkflowState, bool> :=
    map[Created := true, Running := true, Completed := true, WorkflowState.Zombie := false]

  /** Error exactly for Zombie. */
  const ErrorIfZombie: map<WorkflowState, bool> :=
    map[Created := false, Running := false, Completed := false, WorkflowState.Zombie := true]

  /** Error exactly for Created and Running. */
  const ErrorIfLive: map<WorkflowState, bool> :=
    map[Created := true, Running := true, Completed := false, WorkflowState.Zombie := false]

  /** Error unless Completed. */
  const ErrorUnlessCompleted: map<WorkflowState, bool> :=
    map[Created := true, Running := true, Completed := false, WorkflowState.Zombie := true]

  /** The live create modes accept exactly the states their table marks error-free. */
  lemma CreateModeUpdateCurrentTable(mode: CreateWorkflowMode, s: WorkflowState)
    requires mode in {BrandNew, WorkflowIdReuse, ContinueAsNew}
    ensures ValidateCreateWorkflowModeState(mode, s) == !ErrorUnlessLive[s]
  {
  }

  /** The zombie create mode accepts exactly the Zombie state. */
  lemma CreateModeBypassCurrentTable(s: WorkflowState)
    ensures ValidateCreateWorkflowModeState(CreateWorkflowMode.Zombie, s) == !ErrorUnlessZombie[s]
  {
  }

  /** No state is accepted both by a create that installs the current pointer and by a zombie create. */
  lemma CreateModesExclusive(mode: CreateWorkflowMode, s: WorkflowState)
    requires InstallsCurrent(mode)
    ensures !(ValidateCreateWorkflowModeState(mode, s) && ValidateCreateWorkflowModeState(CreateWorkflowMode.Zombie, s))
  {
  }

  /** Update with UpdateCurrent: current alone, then current with a new execution (rejection is the disjunction). */
  lemma UpdateModeUpdateCurrentTable(s: WorkflowState, current: WorkflowState, next: WorkflowState)
    ensures ValidateUpdateWorkflowModeState(UpdateWorkflowMode.UpdateCurrent, s, None) == !ErrorIfZombie[s]
    ensures ValidateUpdateWorkflowModeState(UpdateWorkflowMode.UpdateCurrent, current, Some(next))
         == !(ErrorIfLive[current] || ErrorUnlessLive[next])
  {
  }

  /** Update with BypassCurrent: current alone, then current with a new execution that must be a zombie. */
  lemma UpdateModeBypassCurrentTable(s: WorkflowState, current: WorkflowState, next: WorkflowState)
    ensures ValidateUpdateWorkflowModeState(UpdateWorkflowMode.BypassCurrent, s, None) == !ErrorIfLive[s]
    ensures ValidateUpdateWorkflowModeState(UpdateWorkflowMode.BypassCurrent, current, Some(next))
         == !(ErrorIfLive[current] || ErrorUnlessZombie[next])
  {
  }

  /** Update with IgnoreCurrent: accepted without a new execution, rejected with one, whatever the states. */
  lemma UpdateModeIgnoreCurrentTable(current: WorkflowState, next: WorkflowState)
    ensures ValidateUpdateWorkflowModeState(UpdateWorkflowMode.IgnoreCurrent, current, None)
    ensures !ValidateUpdateWorkflowModeState(UpdateWorkflowMode.IgnoreCurrent, current, Some(next))
  {
  }

  /** Conflict resolution with UpdateCurrent: the four participant combinations of the suite. */
  lemma ConflictResolveModeUpdateCurrentTable(
    s: WorkflowState, reset: WorkflowState, next: WorkflowState, current: WorkflowState)
    ensures ValidateConflictResolveWorkflowModeState(ConflictResolveWorkflowMode.UpdateCurrent, s, None, None)
         == !ErrorIfZombie[s]
    ensures ValidateConflictResolveWorkflowModeState(ConflictResolveWorkflowMode.UpdateCurrent, reset, Some(next), None)
         == !(ErrorUnlessCompleted[reset] || ErrorUnlessLive[next])
    ensures ValidateConflictResolveWorkflowModeState(ConflictResolveWorkflowMode.UpdateCurrent, reset, None, Some(current))
         == !(ErrorIfZombie[reset] || ErrorIfLive[current])
    ensures ValidateConflictResolveWorkflowModeState(ConflictResolveWorkflowMode.UpdateCurrent, reset, Some(next), Some(current))
         == !(ErrorUnlessCompleted[reset] || ErrorUnlessLive[next] || ErrorIfLive[current])
  {
  }

  /** Conflict resolution with BypassCurrent: reset alone, then reset with a new execution. */
  lemma ConflictResolveModeBypassCurrentTable(s: WorkflowState, reset: WorkflowState, next: WorkflowState)
    ensures ValidateConflictResolveWorkflowModeState(ConflictResolveWorkflowMode.BypassCurrent, s, None, None)
         == !ErrorIfLive[s]
    ensures ValidateConflictResolveWorkflowModeState(ConflictResolveWorkflowMode.BypassCurrent, reset, Some(next), None)
         == !(ErrorUnlessCompleted[reset] || ErrorUnlessZombie[next])
  {
  }
}
