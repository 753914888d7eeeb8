# node_network: node lifecycle, registry and orchestration in Dafny

This project models the node-lifecycle core of node_network, a Python framework for AI
"nodes" that take tasks, move through a small lifecycle, and are coordinated by orchestrators.
The model covers:

- the five lifecycle states (Waiting, Ready, Processing, Error, Inactive): their successor
  tables, their task-processing flags, their names and their `handle_task` outcomes;
- the `StateMachine` that holds the current state: guarded transitions, the unchecked
  `set_state`, the state derived from dependency records and a task, validation and error
  recovery;
- the `AI_Node` record with its priority invariant, and `GPTNode`'s prompt and the
  exception-to-error boundary in its `process_task`;
- the `NodeRegistry` map from id to node;
- the base `Orchestrator`, with its roster, its task assignment, the sweep that collects
  responses and its append-only activity log;
- the team-level `LocalOrchestrator` and the `GlobalOrchestrator` above the teams;
- the `NodeMessage` records and their `to_dict` serialisation.

Everything is a pure function over immutable datatypes, with three exceptions
written as methods:
- `Orchestrators.SweepResponses`, the loop of `collect_responses`, checked against
  the reference definition `Orchestrators.Responses`;
- `Orchestrators.CollectResponses`, which runs that loop;
- `Orchestrators.TwoNodeWorkflow`, the integration workflow built on it.

- A Python dictionary is an insertion-ordered association list (`Dicts.Dict`).
  - Assigning an existing key replaces its value in place; assigning a new key appends it.
  - `Dicts.Get` is `dict.get`.
- Python values that cross interfaces (result records, payloads, context entries) are `Values.Value`.
- Python truthiness of a task or an id is `Values.Filled`: present and non-empty.
- A call that raises is an `Err` of a `Result`. A mutating method returns the new object.
- Things the model cannot compute are parameters:
  - the clock (`now`) and generated ids;
  - the text `str()` gives a value (`repr`);
  - calls into code that is not defined anywhere in the repository.

Modules, in dependency order: `Wrappers`, `Dicts`, `Values`, `States` (state.py), `StateMachines`
(StateMachine.py), `StateHandlers` (the `handle_task` methods of state.py), `AiNodes` (AI_Node.py),
`GptNodes` (GPTNode.py), `NodeRegistries` (NodeRegistry.py), `Orchestrators` (Orchestrator.py),
`LocalOrchestrators` (LocalOrchestrator.py), `GlobalOrchestrators` (GlobalOrchestrator.py),
`NodeMessages` (NodeMessage.py).

## Model

| member | source | states |
|---|---|---|
| States.NameIsLoweredClassName | src/shared/state.py:10-12 | The name of every state is its class name with "State" removed and then lower-cased. For example, "ProcessingState" becomes "processing". |
| States.NameInjective | src/shared/state.py:10-12 | Distinct states have distinct names. |
| States.TransitionTable | src/shared/state.py:33-35 | Each state may move to every other state, except that Error and Inactive may not go to Processing. No state lists itself as a successor. The lines cited are WaitingState's table; the tables of the other states are at lines 62-63, 86-87, 109-110 and 128-129. |
| States.SuccessorsAreStateNames | src/shared/state.py:34-35 | Every name a successor table accepts is the name of one of the five states. |
| States.ProcessingStates | src/shared/state.py:65-67 | `can_process_task` holds for Ready and Processing, and for no other state. Lines 37-39, 89-91, 112-114 and 131-133 give the flag for the other states. |
| StateMachines.RegisteredStates | src/shared/StateMachine.py:14-19 | The `states` dictionary holds Waiting, Processing, Ready and Error under their own names. It does not hold Inactive, and it holds no other name. |
| StateMachines.TransitionTo | src/shared/StateMachine.py:45-67 | Asking for the state the machine is already in is a no-op. An unregistered name raises "not recognized". A registered name that the current state's table refuses raises "invalid transition" and names both states. From the unset initial state, any registered name is accepted. On success, the machine is in the named state. |
| StateMachines.OnlyErrorToProcessingRefused | src/shared/StateMachine.py:59-62 | From any reachable state, the only registered target that `transition_to` refuses is Error to "processing". |
| StateMachines.SetState | src/shared/StateMachine.py:89-95 | `set_state` succeeds exactly for a registered name and puts the machine in that state. For any other name it raises "not recognized". |
| StateMachines.SetStateBypassesTable | src/shared/StateMachine.py:89-95 | `set_state` moves Error to Processing, which `transition_to` refuses. |
| StateMachines.InactiveUnreachable | src/shared/StateMachine.py:1-19 | Neither `transition_to` nor `set_state` can enter Inactive, because InactiveState is never imported or registered. |
| StateMachines.SetInitialState | src/shared/StateMachine.py:22-37 | After success, the state is Waiting iff some dependency record is unresolved. Otherwise it is Processing iff a task is present, and Ready otherwise. It fails exactly when the target is "processing" and the current state is Error or Inactive; the error is an invalid transition to "processing". |
| StateMachines.UpdateState | src/shared/StateMachine.py:39-43 | After an update the state is Waiting iff some dependency is unresolved, Processing iff all are resolved and there is a truthy task, and Ready otherwise. It fails, with the invalid-transition error from the current state to "processing", exactly when processing is asked for from Error or Inactive. |
| StateMachines.UpdateFromErrorWithTaskFails | src/shared/StateMachine.py:30-33 | From Error, with every record resolved and a task present, `update_state` fails. |
| StateMachines.ValidateTaskProcessingAsWritten | src/shared/StateMachine.py:69-77 | The check as written: it passes iff the state is Ready or Processing. With no state set, the failure is the AttributeError raised while the message is being formatted. |
| StateMachines.ValidateUnsetRaisesAttributeError | src/shared/StateMachine.py:74-76 | On a fresh machine, the check as written fails with the AttributeError, while the intended check fails with InvalidStateException. |
| StateMachines.ValidateTaskProcessing | src/shared/StateMachine.py:69-77 | The check as intended: it passes iff the state is Ready or Processing, and every refusal is an InvalidStateException that carries the current state. |
| StateMachines.ValidateAgreesOnceSet | src/shared/StateMachine.py:74-77 | Once any state is set, the written check and the intended check give the same result. |
| StateMachines.ResolveError | src/shared/StateMachine.py:79-87 | Error moves to Ready. Every other state is left unchanged. The call never raises. |
| StateHandlers.Unresolved | src/shared/state.py:43-46 | The unresolved list holds exactly the dependencies that fail `check_dependency`, and it is never longer than the dependency list. |
| StateHandlers.UnresolvedAppend | src/shared/state.py:43-46 | Filtering distributes over concatenation, so the unresolved dependencies keep their original order. |
| StateHandlers.UnresolvedEmpty | src/shared/state.py:43-47 | The unresolved list is empty iff every dependency passes `check_dependency`. |
| StateHandlers.HandleWaiting | src/shared/state.py:41-58 | If some dependency is unresolved, the handler returns status "waiting", lists exactly the failing dependencies in order, and leaves the state unchanged. Otherwise it calls `update_state()` with no arguments, which reaches Ready, and returns status "state_updated". |
| StateHandlers.HandleReady | src/shared/state.py:69-82 | With no task, it returns "no_task" and the machine stays Ready. With a task, the state is forced to Processing and the node's `process_task` result is returned. |
| StateHandlers.HandleProcessing | src/shared/state.py:93-105 | With no task, it returns "error" and the state is forced to Error. With a task, it returns the node's `process_task` result and changes nothing. |
| StateHandlers.HandleTask | src/shared/state.py:116-143 | The Error handler returns "error" and the Inactive handler returns "inactive"; neither moves the machine. No handler puts the machine into Inactive. |
| StateHandlers.Step | src/shared/StateMachine.py:45-95 | No single machine call (transition, forced state, update, resolve or handler) enters Inactive from another state. |
| StateHandlers.NeverInactive | src/shared/StateMachine.py:14-19 | No sequence of machine calls ever enters Inactive from another state. |
| StateHandlers.FreshMachineNeverInactive | src/shared/StateMachine.py:12-19 | A newly built machine never reaches Inactive, whatever calls follow. |
| AiNodes.SetPriority | src/shared/AI_Node.py:92-98 | A priority of at least 1 is stored and nothing else changes. A smaller one raises ValueError, and the node is left as it was. |
| AiNodes.ChooseId | src/shared/AI_Node.py:32-34 | A truthy supplied id is kept. Otherwise the generated id is used. |
| AiNodes.NewNode | src/shared/AI_Node.py:7-39 | Construction succeeds iff the priority is at least 1, and every constructed node then has priority at least 1. The fields are as given, and the id is chosen as in `ChooseId`. |
| AiNodes.SetTask | src/shared/AI_Node.py:88-90 | The task is overwritten without any check, and no other field changes. |
| AiNodes.SetStatus | src/shared/AI_Node.py:62-75 | Only the status changes. |
| AiNodes.GetDetails | src/shared/AI_Node.py:41-60 | The details have exactly the keys node_id, description, priority, status, purpose and task, in that order. Each value is the current field. |
| AiNodes.DetailsRoundTrip | src/shared/AI_Node.py:53-60 | Reading a node back from its details recovers every field except the name. |
| GptNodes.GenerateTaskPrompt | src/shared/GPTNode.py:6-10 | With no task, it raises "No task assigned to generate a task prompt.". If formatting the identity raises, that error propagates. Otherwise the prompt starts with "System: " and ends with "\nTask: " followed by the task. |
| GptNodes.SuccessRecord | src/shared/GPTNode.py:25-33 | The success record has the keys status, node_id, task, output and timestamp, with status "success" and output "GPT response for: " followed by the task. |
| GptNodes.ErrorRecord | src/shared/GPTNode.py:37-39 | The error record has exactly the keys status and message, with status "error". |
| GptNodes.ProcessTask | src/shared/GPTNode.py:12-39 | The result is "success" exactly when there is a task, the identity formats and activity logging completes. Every other outcome is an error record carrying the message: "No task assigned." or the raised exception's text. Nothing propagates, and the node is not changed. |
| NodeRegistries.GetNodeById | src/shared/NodeRegistry.py:34-38 | It finds a node iff the id is present and returns None otherwise. In a well-formed registry, the node found has that id. |
| NodeRegistries.RegisterNode | src/shared/NodeRegistry.py:19-24 | Afterwards the node is found under its id (last writer wins). Every other id is unchanged, and the well-formed invariant is kept. |
| NodeRegistries.RegisterKeepsValid | src/shared/NodeRegistry.py:23 | Storing a node under its own id keeps the keys unique and each key equal to its node's id. |
| NodeRegistries.DeregisterNode | src/shared/NodeRegistry.py:26-32 | Afterwards the id is absent, every other id is unchanged, and an absent id is a no-op. |
| NodeRegistries.GetAllNodes | src/shared/NodeRegistry.py:40-44 | The map returned has the same keys as the registry and answers every lookup as `get_node_by_id` does. |
| Orchestrators.LogActivity | src/shared/Orchestrator.py:31-34 | It appends exactly one {activity, timestamp} entry, keeps the earlier entries in order, and leaves the roster unchanged. |
| Orchestrators.RegisterNode | src/shared/Orchestrator.py:9-11 | The node is stored under its id and overwrites any previous entry. Other ids are unchanged, and nothing is logged. |
| Orchestrators.AssignTask | src/shared/Orchestrator.py:13-19 | An unregistered id raises and logs nothing. For a registered id, exactly that node gets the task, the set of ids is unchanged, and exactly one entry, "Task assigned to …", is logged. Distinct ids stay distinct, and every node stays stored under its own id. |
| Orchestrators.AssignKeepsKeyed | src/shared/Orchestrator.py:17-18 | Setting the task of the node found under an id keeps the ids distinct and keeps every node stored under its own id. |
| Orchestrators.ResponseLogAt | src/shared/Orchestrator.py:28 | The sweep logs one entry per response, in response order: entry i reads "Response from <id>: <response>" for the i-th response. Every entry carries the one clock reading the model gives the sweep. |
| Orchestrators.CollectResponses | src/shared/Orchestrator.py:21-29 | The responses equal the reference sweep over the roster. The response keys are exactly the ids of the tasked nodes, in roster order. Each tasked node's response is its `process_task` result, and untasked nodes get no response. The log grows by one entry per response, and the roster is unchanged. |
| Orchestrators.TwoNodeWorkflow | tests/test_integration_workflow.py:53-71 | Two nodes with distinct ids are registered, and each is assigned a non-empty task. Both then answer, under their ids in registration order, with their own `process_task` results. The activity log ends with four entries: two assignments and two responses. |
| Orchestrators.ResponsesKeys | src/shared/Orchestrator.py:23-29 | The keys of the collected responses are exactly the ids of the tasked nodes, in roster order. |
| Orchestrators.ResponsesLookup | src/shared/Orchestrator.py:24-27 | On a roster with distinct ids, an id has a response iff its node has a truthy task, and that response is the node's `process_task` result. |
| Orchestrators.ResponsesMeaning | src/shared/Orchestrator.py:23-29 | On a roster with distinct ids, there is one response per tasked node, keyed by the tasked ids in roster order. Each response is that node's result, and untasked ids have none. |
| Orchestrators.ResponsesStep | src/shared/Orchestrator.py:24-27 | Visiting one more roster entry adds its response, under an id that has no response yet, exactly when the node has a task. |
| Orchestrators.SweepResponses | src/shared/Orchestrator.py:23-29 | The loop yields the reference responses for the roster. It logs one entry per response after the earlier log, and it leaves the roster unchanged. |
| Orchestrators.TwoRegistered | tests/test_integration_workflow.py:53-55 | Registering two nodes with distinct ids lists them in registration order and logs nothing. |
| Orchestrators.TwoNodesAssigned | tests/test_integration_workflow.py:53-59 | Both assignments succeed. Each node holds its own task, the ids stay in registration order, and two entries are logged. |
| Orchestrators.TaskedIdsInKeys | src/shared/Orchestrator.py:24-25 | Only roster ids can be tasked ids. |
| LocalOrchestrators.FindFrom | src/shared/LocalOrchestrator.py:16-22 | The search from a given roster position returns the first suitable node at or after it, or None iff no node from that position on qualifies. |
| LocalOrchestrators.FindSuitableNode | src/shared/LocalOrchestrator.py:16-22 | It returns the first node in roster order that supports the task and has status "idle", and None iff no node qualifies. |
| LocalOrchestrators.AssignTask | src/shared/LocalOrchestrator.py:7-14 | Only the node chosen by `find_suitable_node` gets the task, and one entry naming it is logged. With no candidate, no node changes and only the refusal is logged. Distinct ids stay distinct, and every node stays stored under its own id. |
| LocalOrchestrators.Progress | src/shared/LocalOrchestrator.py:26 | The progress map pairs each roster id, in order, with that node's status. |
| LocalOrchestrators.ProgressLookup | src/shared/LocalOrchestrator.py:26 | The progress map has the roster's keys. Looking up an id gives the status of the node stored under it, and nothing for an absent id. |
| LocalOrchestrators.ReportProgress | src/shared/LocalOrchestrator.py:24-28 | The report has exactly the keys team_name and progress, holding the team name and the progress map. One "Progress report: …" entry is logged. |
| LocalOrchestrators.ReceiveData | src/shared/LocalOrchestrator.py:30-34 | The data is stored in the context under "received_data", and other context keys are unchanged. Only a truthy sending team is logged. |
| GlobalOrchestrators.BreakDownGoal | src/shared/GlobalOrchestrator.py:16-22 | Whatever the goal, the plan is Team_A → "Design website layout" and then Team_B → "Write website content". |
| GlobalOrchestrators.ForwardOne | src/shared/GlobalOrchestrator.py:9-14 | A registered team receives the task through its own `assign_task`. A missing team only gets a "not found!" log entry. No other team changes. |
| GlobalOrchestrators.ForwardSubTasks | src/shared/GlobalOrchestrator.py:8-14 | Forwarding keeps the set of teams and the context. Teams not named in the plan are untouched, and the earlier log entries are kept. |
| GlobalOrchestrators.AssignHighLevelGoal | src/shared/GlobalOrchestrator.py:6-14 | The goal is logged first. Only Team_A and Team_B can change; the global roster, the context and the set of teams stay as they were. |
| GlobalOrchestrators.HighLevelGoalReachesTeams | src/shared/GlobalOrchestrator.py:6-14 | Each of Team_A and Team_B, if registered, gets its fixed task through its own `assign_task`. A missing team stays missing and adds one "not found!" entry after the goal entry, Team_A's first. |
| GlobalOrchestrators.ForwardTwoTeams | src/shared/GlobalOrchestrator.py:8-14 | Forwarding a two-team plan to distinct teams assigns each registered team its task and logs each missing team, in plan order. |
| GlobalOrchestrators.CollectFrom | src/shared/GlobalOrchestrator.py:24-28 | Each team is replaced by its state after reporting. Each team's report is stored in the context under its name, and context keys that are not team names are unchanged. |
| GlobalOrchestrators.CollectTeamUpdates | src/shared/GlobalOrchestrator.py:24-28 | Every team reports once, in team order, and its report lands in the context under the team's name. The global log and the team ids are unchanged. |
| GlobalOrchestrators.MediateTeamInteraction | src/shared/GlobalOrchestrator.py:30-35 | A registered target receives the data with the source as its sender, and nothing else changes. A missing target only gets a "not found." log entry. |
| NodeMessages.OrElse | src/shared/NodeMessage.py:12-13 | Python's `x or fallback`: a truthy value is kept, and otherwise the fallback is used. |
| NodeMessages.NewMessage | src/shared/NodeMessage.py:9-13 | A truthy caller-supplied message id or timestamp is kept. Otherwise one is generated. |
| NodeMessages.NewTaskMessage | src/shared/NodeMessage.py:36-51 | The id and timestamp are always generated. Falsy dependencies become an empty list. |
| NodeMessages.NewStatusUpdateMessage | src/shared/NodeMessage.py:68-73 | The id and timestamp are always generated, and the fields are as given. |
| NodeMessages.NewDependencyRequestMessage | src/shared/NodeMessage.py:89-92 | The id and timestamp are always generated, and the fields are as given. |
| NodeMessages.NewDependencyResponseMessage | src/shared/NodeMessage.py:106-109 | The id and timestamp are always generated, and the fields are as given. |
| NodeMessages.TaskPayload | src/shared/NodeMessage.py:53-60 | The payload has exactly task_id, description, priority, deadline and dependencies, each holding its field. |
| NodeMessages.StatusUpdatePayload | src/shared/NodeMessage.py:75-81 | The payload has exactly task_id, status, progress and issues, each holding its field. |
| NodeMessages.PairPayload | src/shared/NodeMessage.py:94-98 | A two-key payload has task_id and the kind's data key. The dependency-response payload at lines 111-115 has the same shape. |
| NodeMessages.GetPayload | src/shared/NodeMessage.py:26-115 | A bare NodeMessage raises NotImplementedError. Every subclass returns a dictionary carrying its task_id. A task or status-update message returns exactly its full payload record. A dependency request or response has exactly the keys task_id and required_data or provided_data, holding its fields. |
| NodeMessages.ToDict | src/shared/NodeMessage.py:15-24 | The dictionary has exactly message_id, sender, recipient, type, timestamp and payload, in that order, with type set to the class name. For a bare NodeMessage, it fails. |
| NodeMessages.ToDictRoundTrip | src/shared/NodeMessage.py:15-24 | Every message that serialises can be recovered exactly from its dictionary. |
| Dicts.Put | src/shared/NodeRegistry.py:23 | Assignment stores the value under the key and leaves other keys unchanged. An existing key keeps its position, and a new key is appended. |
| Dicts.Remove | src/shared/NodeRegistry.py:30-31 | Deletion removes the key, leaves other keys unchanged and keeps keys unique. Deleting an absent key changes nothing. |

## Left out

- Logging: `log_debugger`, `log_error` and `log_node_event` (src/shared/logger_manager.py), and the `print` calls in StateMachine.py, only write text. The model does not represent them. The transition `reason` argument only reaches that text, so it is dropped.
- Clock and ids: `get_current_timestamp` and `uuid.uuid4()` are parameters. The source reads the clock once per log entry (`log_activity`, src/shared/Orchestrator.py:33), so one call that logs several entries may stamp them with different times. The model takes a single reading `now` per call and stamps all of that call's entries with it. This affects `collect_responses` (one entry per response), `assign_high_level_goal` (the goal entry, each missing team and each team's `assign_task`) and `collect_team_updates`.
- Orchestrators.CollectResponses: all response entries carry one timestamp `now`, whereas the source reads the clock again for each entry.
- GlobalOrchestrators.AssignHighLevelGoal: the goal entry, the "not found!" entries and the teams' own assignment entries all carry one timestamp `now`, whereas the source reads the clock again for each entry.
- `get_unique_id`: NodeMessage.py imports it, but utils.py does not define it, so the module as shipped fails on import. The model takes the generated id as a parameter.
- StateMachine.py imports `src.shared.State`, while the file is `state.py`. The model assumes the import resolves.
- `StateMachine()` never sets `node`, although every handler reads `state_machine.node`. The facts a handler reads are passed in as `StateHandlers.NodeView`.
- Dependency records without a "resolved" key raise KeyError in `set_initial_state`. `StateMachines.DependencyRecord` always carries the flag, so that error is not modelled.
- `BaseState.handle_task` (the "not_allowed" record) is not modelled, because every state class overrides it. Also not modelled:
  - `get_state` and `AI_Node.__str__`, which only read or format;
  - `NodeRegistry.debug_registry`, which only logs.
- `AI_Node.process_task` is a logging stub that returns a constant string. Wherever a node's `process_task` is called, it is a parameter: `NodeView.processResult`, or `process` in `Orchestrators.CollectResponses`. `GptNodes.ProcessTask` is the one implementation modelled.
- GptNodes.ProcessTask: `identity_prompt` and `log_activity` are not defined on `AI_Node`, so the model takes two inputs instead: the identity formatting's result or error, and whether the activity-log call completed.
- Constructors of the team orchestrators are not modelled:
  - src/shared/LocalOrchestrator.py:1 and src/shared/GlobalOrchestrator.py:1 subclass `Orchestrator` without importing it, so both modules fail with NameError on import, before any constructor runs.
  - Even with the import, `LocalOrchestrator.__init__` passes `name=` to the argument-less `Orchestrator.__init__`, which raises TypeError.
  - `GlobalOrchestrator.__init__` passes its name positionally to the same argument-less constructor, which also raises TypeError.
  - The model builds the records directly.
- `update_context` is defined nowhere. The context of each orchestrator is a dictionary field, written with dictionary assignment.
- LocalOrchestrators.FindSuitableNode: nodes define neither `is_task_supported` nor `get_status`. Support is the `supports` parameter, and the status is the node's `status` field.
- LocalOrchestrators.FindSuitableNode returns the roster position of the node rather than the node object.
- Object aliasing is not modelled: a Python node object shared between rosters would see a task set through either roster. The model's records are values.
- Python's `str()` of dictionaries and lists inside log text is the `repr` parameter.
- Values are not type-checked as Python would check them at run time. A node's task is an optional string, its priority an integer, and its status and description strings.
- Some tests expect behaviour the source does not have. The model follows the source:
  - an error from `set_state`;
  - a reachable "inactive" state;
  - `resolve_error` going to Waiting;
  - rejection of unsupported tasks.
- The legacy prototypes `src/shared/node.py`, `shared/node.py` and `src/tasks/task.py` call helpers that do not exist. `main.py` only bootstraps. None of them is modelled.

## Findings

| source | as written | input that shows it | evidently intended | confidence | as-written member | corrected member |
|---|---|---|---|---|---|---|
| src/shared/StateMachine.py:74-77 | The refusal message formats `self.current_state.name` even when `current_state` is None. | `StateMachine().validate_task_processing()` on a fresh machine raises AttributeError ("'NoneType' object has no attribute 'name'") instead of InvalidStateException. | Every refusal, including the unset state, raises InvalidStateException. | high; not executed | StateMachines.ValidateTaskProcessingAsWritten (with StateMachines.ValidateUnsetRaisesAttributeError) | StateMachines.ValidateTaskProcessing |
