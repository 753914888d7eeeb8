/** The `handle_task` behaviour of each state in src/shared/state.py. The
    handlers read `state_machine.node`, which the constructor never sets; the
    facts they read from it are given explicitly as a `NodeView`. */
module StateHandlers {
  import opened Wrappers
  import opened States
  import opened Values
  import opened StateMachines
  import Dicts

  /** What a handler reads from the node: its dependency ids, its
      `check_dependency` answer for each, its task, and the record its
      `process_task` returns. */
  datatype NodeView = NodeView(
    dependencies: seq<string>,
    checkDependency: string -> bool,
    task: Option<string>,
    processResult: Value)

  /** The dependencies that fail `check_dependency`, in their original order. */
  function Unresolved(deps: seq<string>, check: string -> bool): (r: seq<string>)
    ensures |r| <= |deps|
    ensures forall d :: d in r <==> d in deps && !check(d)
  {
    if deps == [] then []
    else (if check(deps[0]) then [] else [deps[0]]) + Unresolved(deps[1..], check)
  }

  /** Filtering distributes over concatenation, so the failing dependencies
      keep their relative order. */
  lemma {:induction false} UnresolvedAppend(a: seq<string>, b: seq<string>, check: string -> bool)
    ensures Unresolved(a + b, check) == Unresolved(a, check) + Unresolved(b, check)
  {
    if a == [] {
      assert a + b == b;
    } else {
      assert (a + b)[1..] == a[1..] + b;
      UnresolvedAppend(a[1..], b, check);
    }
  }

  /** A dependency list whose members all pass has nothing unresolved, and a
      list with a failing member reports it. */
  lemma UnresolvedEmpty(deps: seq<string>, check: string -> bool)
    ensures Unresolved(deps, check) == [] <==> forall i :: 0 <= i < |deps| ==> check(deps[i])
  {
    if Unresolved(deps, check) != [] {
      assert Unresolved(deps, check)[0] in Unresolved(deps, check);
    }
  }

  /** WaitingState.handle_task: report the failing dependencies and stay, or
      re-run `update_state()` with no arguments, which derives Ready. */
  function HandleWaiting(m: Machine, node: NodeView): (r: (Value, Machine))
    ensures Unresolved(node.dependencies, node.checkDependency) != [] ==>
      && Field(r.0, "status") == Some(Str("waiting"))
      && Field(r.0, "unresolved_dependencies")
           == Some(List(Strs(Unresolved(node.dependencies, node.checkDependency))))
      && r.1 == m
    ensures Unresolved(node.dependencies, node.checkDependency) == [] ==>
      Field(r.0, "status") == Some(Str("state_updated")) && r.1.current == Some(Ready)
  {
    var unresolved := Unresolved(node.dependencies, node.checkDependency);
    if unresolved != [] then
      var entries := [("status", Str("waiting")),
                      ("message", Str("Dependencies are unresolved.")),
                      ("unresolved_dependencies", List(Strs(unresolved)))];
      assert Dicts.Get(entries[2..], "unresolved_dependencies") == Some(List(Strs(unresolved)));
      assert Dicts.Get(entries[1..], "unresolved_dependencies") == Dicts.Get(entries[2..], "unresolved_dependencies");
      (Dict(entries), m)
    else
      (StatusRecord("state_updated", "Dependencies resolved. State updated."),
       UpdateState(m, [], None).value)
  }

  /** ReadyState.handle_task: without a task `update_state()` re-derives Ready;
      with one, `set_state("processing")` and the node's `process_task` result. */
  function HandleReady(m: Machine, node: NodeView): (r: (Value, Machine))
    ensures !Filled(node.task) ==>
      Field(r.0, "status") == Some(Str("no_task")) && r.1.current == Some(Ready)
    ensures Filled(node.task) ==>
      r.0 == node.processResult && r.1.current == Some(Processing)
  {
    if !Filled(node.task) then
      (StatusRecord("no_task", "No task assigned. State re-evaluated."),
       UpdateState(m, [], None).value)
    else
      (node.processResult, SetState(m, "processing").value)
  }

  /** ProcessingState.handle_task: without a task `set_state("error")`; with
      one, the node's `process_task` result and no change. */
  function HandleProcessing(m: Machine, node: NodeView): (r: (Value, Machine))
    ensures !Filled(node.task) ==>
      Field(r.0, "status") == Some(Str("error")) && r.1.current == Some(Error)
    ensures Filled(node.task) ==> r == (node.processResult, m)
  {
    if !Filled(node.task) then
      (StatusRecord("error", "Processing state reached without a task. Transitioned to error."),
       SetState(m, "error").value)
    else
      (node.processResult, m)
  }

  /** `handle_task()` of the state object `s` bound to machine `m`: the
      returned record and the machine afterwards. No handler raises; Error
      and Inactive refuse and never move. */
  function HandleTask(s: State, m: Machine, node: NodeView): (r: (Value, Machine))
    ensures s == Error ==> Field(r.0, "status") == Some(Str("error")) && r.1 == m
    ensures s == Inactive ==> Field(r.0, "status") == Some(Str("inactive")) && r.1 == m
    ensures m.current != Some(Inactive) ==> r.1.current != Some(Inactive)
  {
    match s
    case Waiting => HandleWaiting(m, node)
    case Ready => HandleReady(m, node)
    case Processing => HandleProcessing(m, node)
    case Error => (StatusRecord("error", "Task processing not allowed in error state."), m)
    case Inactive => (StatusRecord("inactive", "Node is inactive. Task processing is not allowed."), m)
  }

  /** One call a caller can make on a machine. */
  datatype Command =
    | Transition(name: string)
    | Force(name: string)
    | Update(deps: seq<DependencyRecord>, task: Option<string>)
    | Resolve
    | Handle(handler: State, node: NodeView)

  /** The machine after one command; a command that raises leaves it as it was. */
  function Step(m: Machine, c: Command): (m': Machine)
    ensures m.current != Some(Inactive) ==> m'.current != Some(Inactive)
  {
    match c
    case Transition(name) =>
      var r := TransitionTo(m, name);
      if r.Ok? then r.value else m
    case Force(name) =>
      var r := SetState(m, name);
      if r.Ok? then r.value else m
    case Update(deps, task) =>
      var r := UpdateState(m, deps, task);
      if r.Ok? then r.value else m
    case Resolve => ResolveError(m).value
    case Handle(handler, node) => HandleTask(handler, m, node).1
  }

  /** The machine after a sequence of commands. */
  function Run(m: Machine, cs: seq<Command>): Machine
    decreases |cs|
  {
    if cs == [] then m else Run(Step(m, cs[0]), cs[1..])
  }

  /** No sequence of calls ever puts a fresh machine into Inactive. */
  lemma {:induction false} NeverInactive(m: Machine, cs: seq<Command>)
    requires m.current != Some(Inactive)
    ensures Run(m, cs).current != Some(Inactive)
    decreases |cs|
  {
    if cs != [] {
      NeverInactive(Step(m, cs[0]), cs[1..]);
    }
  }

  lemma FreshMachineNeverInactive(cs: seq<Command>)
    ensures Run(Initial, cs).current != Some(Inactive)
  {
    NeverInactive(Initial, cs);
  }
}
