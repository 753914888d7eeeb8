/** The `StateMachine` of src/shared/StateMachine.py: a current state that
    starts unset, the registry of state names (which omits "inactive"), the
    guarded `transition_to`, the unchecked `set_state`, the state derivation of
    `set_initial_state`/`update_state`, `validate_task_processing` and
    `resolve_error`. A call that raises returns `Err` and the caller keeps the
    machine it had. */
module StateMachines {
  import opened Wrappers
  import opened States
  import opened Values

  /** The machine's only data: its current state, `None` before the first
      transition. */
  datatype Machine = Machine(current: Option<State>)

  /** `StateMachine()`. */
  const Initial: Machine := Machine(None)

  datatype MachineError =
    | NotRecognized(name: string)            // ValueError: state not recognized
    | InvalidTransition(from: string, to: string)  // ValueError: invalid transition
    | InvalidState(state: Option<State>)     // InvalidStateException
    | NoneHasNoName                          // AttributeError: `None` has no `name`

  /** A dependency record as `set_initial_state` reads it: `dep["resolved"]`. */
  datatype DependencyRecord = DependencyRecord(id: string, resolved: bool)

  /** The `states` dictionary: the registered names and their state objects.
      InactiveState is not imported, so "inactive" is not registered. */
  function Registered(name: string): Option<State>
  {
    if name == "waiting" then Some(Waiting)
    else if name == "processing" then Some(Processing)
    else if name == "ready" then Some(Ready)
    else if name == "error" then Some(Error)
    else None
  }

  /** The registry holds exactly the states other than Inactive, under their names. */
  lemma RegisteredStates(name: string)
    ensures Registered(name).Some? ==> Name(Registered(name).value) == name
    ensures forall s :: Registered(Name(s)) == (if s == Inactive then None else Some(s))
    ensures Registered(name).None? <==> name !in {"waiting", "processing", "ready", "error"}
  {
  }

  /** Whether the machine currently reports the named state. */
  predicate IsIn(m: Machine, name: string)
  {
    m.current.Some? && Name(m.current.value) == name
  }

  /** `transition_to(state_name, reason)`; the reason only reaches the log. */
  function TransitionTo(m: Machine, name: string): (r: Result<Machine, MachineError>)
    ensures IsIn(m, name) ==> r == Ok(m)
    ensures r.Ok? <==>
      IsIn(m, name) ||
      (Registered(name).Some? && (m.current.None? || CanTransitionTo(m.current.value, name)))
    ensures r.Ok? ==> IsIn(r.value, name) && r.value.current.Some?
    ensures r.Err? && Registered(name).None? ==> r.error == NotRecognized(name)
    ensures r.Err? && Registered(name).Some? ==>
      m.current.Some? && r.error == InvalidTransition(Name(m.current.value), name)
  {
    if IsIn(m, name) then Ok(m)
    else if Registered(name).None? then Err(NotRecognized(name))
    else if m.current.Some? && !CanTransitionTo(m.current.value, name) then
      Err(InvalidTransition(Name(m.current.value), name))
    else Ok(Machine(Registered(name)))
  }

  /** `set_state(state_name)`: the registry is consulted, the table is not. */
  function SetState(m: Machine, name: string): (r: Result<Machine, MachineError>)
    ensures r.Ok? <==> Registered(name).Some?
    ensures r.Ok? ==> IsIn(r.value, name)
    ensures r.Err? ==> r.error == NotRecognized(name)
  {
    match Registered(name)
    case None => Err(NotRecognized(name))
    case Some(s) => Ok(Machine(Some(s)))
  }

  /** Some dependency record has `resolved` false. */
  predicate SomeUnresolved(deps: seq<DependencyRecord>)
  {
    exists i :: 0 <= i < |deps| && !deps[i].resolved
  }

  /** `set_initial_state(dependencies, task)`: Waiting while a record is
      unresolved, otherwise Processing with a task and Ready without one,
      reached through `transition_to`. */
  function SetInitialState(m: Machine, deps: seq<DependencyRecord>, task: Option<string>)
    : (r: Result<Machine, MachineError>)
    ensures r.Ok? ==> (r.value.current == Some(Waiting) <==> SomeUnresolved(deps))
    ensures r.Ok? ==> (r.value.current == Some(Processing) <==> !SomeUnresolved(deps) && Filled(task))
    ensures r.Ok? ==> (r.value.current == Some(Ready) <==> !SomeUnresolved(deps) && !Filled(task))
    ensures r.Err? <==>
      !SomeUnresolved(deps) && Filled(task) && m.current in {Some(Error), Some(Inactive)}
    ensures r.Err? ==> r.error == InvalidTransition(Name(m.current.value), "processing")
  {
    if SomeUnresolved(deps) then TransitionTo(m, "waiting")
    else if Filled(task) then TransitionTo(m, "processing")
    else TransitionTo(m, "ready")
  }

  /** `update_state(dependencies, task)` delegates to `set_initial_state`. */
  function UpdateState(m: Machine, deps: seq<DependencyRecord>, task: Option<string>)
    : (r: Result<Machine, MachineError>)
    ensures r.Ok? ==> (r.value.current == Some(Waiting) <==> SomeUnresolved(deps))
    ensures r.Ok? ==> (r.value.current == Some(Processing) <==> !SomeUnresolved(deps) && Filled(task))
    ensures r.Ok? ==> (r.value.current == Some(Ready) <==> !SomeUnresolved(deps) && !Filled(task))
    ensures r.Err? <==>
      !SomeUnresolved(deps) && Filled(task) && m.current in {Some(Error), Some(Inactive)}
    ensures r.Err? ==> r.error == InvalidTransition(Name(m.current.value), "processing")
  {
    SetInitialState(m, deps, task)
  }

  /** `validate_task_processing()` as written: with no current state the
      message's `self.current_state.name` raises AttributeError before the
      InvalidStateException can be built. */
  function ValidateTaskProcessingAsWritten(m: Machine): (r: Result<(), MachineError>)
    ensures r.Ok? <==> m.current in {Some(Ready), Some(Processing)}
    ensures m.current.None? ==> r == Err(NoneHasNoName)
  {
    match m.current
    case None => Err(NoneHasNoName)
    case Some(s) => if CanProcessTask(s) then Ok(()) else Err(InvalidState(m.current))
  }

  /** `validate_task_processing()` as intended: every refusal is an
      InvalidStateException. */
  function ValidateTaskProcessing(m: Machine): (r: Result<(), MachineError>)
    ensures r.Ok? <==> m.current in {Some(Ready), Some(Processing)}
    ensures r.Err? ==> r.error == InvalidState(m.current)
  {
    if m.current.Some? && CanProcessTask(m.current.value) then Ok(())
    else Err(InvalidState(m.current))
  }

  /** The written check on a fresh machine raises the wrong exception. */
  lemma ValidateUnsetRaisesAttributeError()
    ensures ValidateTaskProcessingAsWritten(Initial) == Err(NoneHasNoName)
    ensures ValidateTaskProcessing(Initial) == Err(InvalidState(None))
  {
  }

  /** Wherever a state is set, the written and the intended check agree. */
  lemma ValidateAgreesOnceSet(m: Machine)
    requires m.current.Some?
    ensures ValidateTaskProcessingAsWritten(m) == ValidateTaskProcessing(m)
  {
  }

  /** `resolve_error()`: Error moves to Ready; any other state is kept. It
      never raises, because Error lists "ready". */
  function ResolveError(m: Machine): (r: Result<Machine, MachineError>)
    ensures r.Ok?
    ensures r.value.current == if m.current == Some(Error) then Some(Ready) else m.current
  {
    if m.current == Some(Error) then TransitionTo(m, "ready") else Ok(m)
  }

  /** Among registered states, the one refused move is Error to Processing. */
  lemma OnlyErrorToProcessingRefused(m: Machine, name: string)
    requires m.current != Some(Inactive)
    requires Registered(name).Some?
    ensures TransitionTo(m, name).Err? <==> m.current == Some(Error) && name == "processing"
  {
  }

  /** "inactive" is never entered: neither entry point accepts it. */
  lemma InactiveUnreachable(m: Machine)
    ensures TransitionTo(m, "inactive").Ok? ==> TransitionTo(m, "inactive") == Ok(m)
    ensures SetState(m, "inactive") == Err(NotRecognized("inactive"))
  {
  }

  /** `set_state` ignores the table: Error goes to Processing, which
      `transition_to` refuses. */
  lemma SetStateBypassesTable()
    ensures SetState(Machine(Some(Error)), "processing") == Ok(Machine(Some(Processing)))
    ensures TransitionTo(Machine(Some(Error)), "processing") == Err(InvalidTransition("error", "processing"))
  {
  }

  /** A failed derivation: Error with everything resolved and a task. */
  lemma UpdateFromErrorWithTaskFails(deps: seq<DependencyRecord>, task: string)
    requires forall i :: 0 <= i < |deps| ==> deps[i].resolved
    requires task != ""
    ensures UpdateState(Machine(Some(Error)), deps, Some(task)).Err?
  {
  }
}
