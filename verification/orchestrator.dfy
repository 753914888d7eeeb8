/** `Orchestrator` of src/shared/Orchestrator.py: a roster of nodes keyed by
    id, task assignment, the response sweep and the append-only activity log.
    Each call is given one clock reading, `now`, for every entry it logs;
    the source reads the clock once per entry.
    The text Python's `str()` gives a response dictionary is the `repr`
    parameter, and a node's `process_task` is the `process` parameter. */
module Orchestrators {
  import opened Wrappers
  import opened Values
  import opened AiNodes
  import Dicts

  /** One `{"activity": ..., "timestamp": ...}` log record. */
  datatype LogEntry = LogEntry(activity: string, timestamp: string)

  datatype Orchestrator = Orchestrator(nodes: Dicts.Dict<string, AiNode>, activityLogs: seq<LogEntry>)

  /** `Orchestrator()`. */
  const Empty: Orchestrator := Orchestrator([], [])

  /** ValueError(f"Node {node_id} not registered."). */
  datatype OrchestratorError = NotRegistered(nodeId: string)

  /** `log_activity(a)`: appends one entry and keeps the earlier ones in order. */
  function LogActivity(o: Orchestrator, activity: string, now: string): (r: Orchestrator)
    ensures r.nodes == o.nodes
    ensures |r.activityLogs| == |o.activityLogs| + 1
    ensures r.activityLogs[..|o.activityLogs|] == o.activityLogs
    ensures r.activityLogs[|o.activityLogs|] == LogEntry(activity, now)
  {
    o.(activityLogs := o.activityLogs + [LogEntry(activity, now)])
  }

  /** Logging only ever appends the one new entry. */
  lemma LogAppends(o: Orchestrator, activity: string, now: string)
    ensures LogActivity(o, activity, now).activityLogs == o.activityLogs + [LogEntry(activity, now)]
  {
  }

  /** `register_node(n)`: stores the node under its id, last writer wins,
      and logs nothing. */
  function RegisterNode(o: Orchestrator, n: AiNode): (r: Orchestrator)
    ensures Dicts.Get(r.nodes, n.nodeId) == Some(n)
    ensures forall id :: id != n.nodeId ==> Dicts.Get(r.nodes, id) == Dicts.Get(o.nodes, id)
    ensures r.activityLogs == o.activityLogs
    ensures KeyedById(o.nodes) ==> KeyedById(r.nodes)
  {
    if KeyedById(o.nodes) then
      Dicts.PutKeepsUnique(o.nodes, n.nodeId, n);
      o.(nodes := Dicts.Put(o.nodes, n.nodeId, n))
    else
      o.(nodes := Dicts.Put(o.nodes, n.nodeId, n))
  }

  /** Setting the task of the node stored under `nodeId` keeps the ids
      distinct and each entry keyed by its own node's id. */
  lemma AssignKeepsKeyed(nodes: Dicts.Dict<string, AiNode>, nodeId: string, n: AiNode, task: string)
    requires Dicts.Get(nodes, nodeId) == Some(n)
    ensures Dicts.UniqueKeys(nodes) ==> Dicts.UniqueKeys(Dicts.Put(nodes, nodeId, SetTask(n, Some(task))))
    ensures KeyedById(nodes) ==> KeyedById(Dicts.Put(nodes, nodeId, SetTask(n, Some(task))))
  {
    Dicts.GetPresent(nodes, nodeId);
    if Dicts.UniqueKeys(nodes) {
      Dicts.PutKeepsUnique(nodes, nodeId, SetTask(n, Some(task)));
    }
  }

  /** `assign_task(id, task)`: an unknown id raises before anything is
      logged; a known id gets the task and exactly one log entry. */
  function AssignTask(o: Orchestrator, nodeId: string, task: string, now: string)
    : (r: Result<Orchestrator, OrchestratorError>)
    ensures r.Err? <==> nodeId !in Dicts.Keys(o.nodes)
    ensures r.Err? ==> r.error == NotRegistered(nodeId)
    ensures r.Ok? ==> Dicts.Get(o.nodes, nodeId).Some?
    ensures r.Ok? ==>
      && Dicts.Get(r.value.nodes, nodeId) == Some(SetTask(Dicts.Get(o.nodes, nodeId).value, Some(task)))
      && Dicts.Keys(r.value.nodes) == Dicts.Keys(o.nodes)
      && r.value.activityLogs == o.activityLogs + [LogEntry("Task assigned to " + nodeId + ": " + task, now)]
    ensures r.Ok? ==> forall id :: id != nodeId ==> Dicts.Get(r.value.nodes, id) == Dicts.Get(o.nodes, id)
    ensures r.Ok? && Dicts.UniqueKeys(o.nodes) ==> Dicts.UniqueKeys(r.value.nodes)
    ensures r.Ok? && KeyedById(o.nodes) ==> KeyedById(r.value.nodes)
  {
    Dicts.GetPresent(o.nodes, nodeId);
    if Dicts.Get(o.nodes, nodeId).None? then Err(NotRegistered(nodeId))
    else
      var n := Dicts.Get(o.nodes, nodeId).value;
      AssignKeepsKeyed(o.nodes, nodeId, n, task);
      var withTask := o.(nodes := Dicts.Put(o.nodes, nodeId, SetTask(n, Some(task))));
      Ok(LogActivity(withTask, "Task assigned to " + nodeId + ": " + task, now))
  }

  /** The roster entry under `id` exists and has a truthy task. */
  predicate HasTask(nodes: Dicts.Dict<string, AiNode>, id: string)
  {
    Dicts.Get(nodes, id).Some? && Filled(Dicts.Get(nodes, id).value.task)
  }

  /** The ids of tasked nodes, in roster order. */
  function TaskedIds(nodes: Dicts.Dict<string, AiNode>): seq<string>
  {
    if |nodes| == 0 then []
    else
      var last := nodes[|nodes| - 1];
      TaskedIds(nodes[..|nodes| - 1]) + (if Filled(last.1.task) then [last.0] else [])
  }

  /** The entries `collect_responses` logs, one per response, in order. */
  function ResponseLog(responses: Dicts.Dict<string, Value>, repr: Value -> string, now: string)
    : (log: seq<LogEntry>)
    ensures |log| == |responses|
  {
    if |responses| == 0 then []
    else
      var last := responses[|responses| - 1];
      ResponseLog(responses[..|responses| - 1], repr, now)
        + [LogEntry("Response from " + last.0 + ": " + repr(last.1), now)]
  }

  /** Entry `i` of the response log names the `i`-th responder and its
      rendered response, stamped with the sweep's time. */
  lemma {:induction false} ResponseLogAt(responses: Dicts.Dict<string, Value>, repr: Value -> string, now: string)
    ensures forall i :: 0 <= i < |responses| ==>
      ResponseLog(responses, repr, now)[i]
        == LogEntry("Response from " + responses[i].0 + ": " + repr(responses[i].1), now)
  {
    if |responses| > 0 {
      var init := responses[..|responses| - 1];
      ResponseLogAt(init, repr, now);
      forall i | 0 <= i < |responses|
        ensures ResponseLog(responses, repr, now)[i]
          == LogEntry("Response from " + responses[i].0 + ": " + repr(responses[i].1), now)
      {
        if i < |init| {
          assert responses[i] == init[i];
        }
      }
    }
  }

  /** Logging one more response appends exactly its entry. */
  lemma ResponseLogSnoc(responses: Dicts.Dict<string, Value>, id: string, v: Value,
                        repr: Value -> string, now: string)
    ensures ResponseLog(responses + [(id, v)], repr, now)
      == ResponseLog(responses, repr, now) + [LogEntry("Response from " + id + ": " + repr(v), now)]
  {
    assert (responses + [(id, v)])[..|responses|] == responses;
  }

  /** The responses the sweep collects from `nodes`: one per tasked node,
      under its id, in roster order. */
  function Responses(nodes: Dicts.Dict<string, AiNode>, process: AiNode -> Value): Dicts.Dict<string, Value>
  {
    if |nodes| == 0 then []
    else
      var last := nodes[|nodes| - 1];
      Responses(nodes[..|nodes| - 1], process) + (if Filled(last.1.task) then [(last.0, process(last.1))] else [])
  }

  /** The responses are keyed by exactly the tasked ids, in roster order. */
  lemma {:induction false} ResponsesKeys(nodes: Dicts.Dict<string, AiNode>, process: AiNode -> Value)
    ensures Dicts.Keys(Responses(nodes, process)) == TaskedIds(nodes)
  {
    if |nodes| > 0 {
      var init := nodes[..|nodes| - 1];
      var last := nodes[|nodes| - 1];
      ResponsesKeys(init, process);
      Dicts.KeysAppend(Responses(init, process), if Filled(last.1.task) then [(last.0, process(last.1))] else []);
    }
  }

  /** In a roster with unique ids, a response exists exactly for the tasked
      nodes and is that node's `process_task` result. */
  lemma {:induction false} ResponsesLookup(nodes: Dicts.Dict<string, AiNode>, process: AiNode -> Value, id: string)
    requires Dicts.UniqueKeys(nodes)
    ensures Dicts.Get(Responses(nodes, process), id).Some? <==> HasTask(nodes, id)
    ensures HasTask(nodes, id) ==> Dicts.Get(Responses(nodes, process), id) == Some(process(Dicts.Get(nodes, id).value))
  {
    if |nodes| > 0 {
      var init := nodes[..|nodes| - 1];
      var (k, n) := nodes[|nodes| - 1];
      assert nodes == init + [(k, n)];
      Dicts.UniquePrefix(nodes, |nodes| - 1);
      Dicts.UniqueBefore(nodes, |nodes| - 1);
      ResponsesLookup(init, process, id);
      ResponsesLookup(init, process, k);
      Dicts.GetPresent(init, k);
      Dicts.GetSnoc(init, k, n, id);
      assert HasTask(nodes, id) <==> HasTask(init, id) || (id == k && Filled(n.task));
      if Filled(n.task) {
        assert Responses(nodes, process) == Responses(init, process) + [(k, process(n))];
        Dicts.GetSnoc(Responses(init, process), k, process(n), id);
      } else {
        assert Responses(nodes, process) == Responses(init, process);
      }
    }
  }

  /** One more roster entry adds its response, under an id not yet
      answered, exactly when its task is truthy. */
  lemma ResponsesStep(nodes: Dicts.Dict<string, AiNode>, i: nat, process: AiNode -> Value)
    requires Dicts.UniqueKeys(nodes)
    requires i < |nodes|
    ensures nodes[i].0 !in Dicts.Keys(Responses(nodes[..i], process))
    ensures Responses(nodes[..i + 1], process) == Responses(nodes[..i], process)
      + (if Filled(nodes[i].1.task) then [(nodes[i].0, process(nodes[i].1))] else [])
  {
    assert nodes[..i + 1][..i] == nodes[..i];
    Dicts.UniqueBefore(nodes, i);
    ResponsesKeys(nodes[..i], process);
    TaskedIdsInKeys(nodes[..i], nodes[i].0);
  }

  /** What the collected responses say about the roster. */
  lemma ResponsesMeaning(nodes: Dicts.Dict<string, AiNode>, process: AiNode -> Value)
    requires Dicts.UniqueKeys(nodes)
    ensures Dicts.Keys(Responses(nodes, process)) == TaskedIds(nodes)
    ensures |Responses(nodes, process)| == |TaskedIds(nodes)|
    ensures forall id :: Dicts.Get(Responses(nodes, process), id).Some? <==> HasTask(nodes, id)
    ensures forall id :: HasTask(nodes, id) ==>
      Dicts.Get(Responses(nodes, process), id) == Some(process(Dicts.Get(nodes, id).value))
  {
    ResponsesKeys(nodes, process);
    Dicts.KeysAt(Responses(nodes, process));
    forall id
      ensures Dicts.Get(Responses(nodes, process), id).Some? <==> HasTask(nodes, id)
      ensures HasTask(nodes, id) ==>
        Dicts.Get(Responses(nodes, process), id) == Some(process(Dicts.Get(nodes, id).value))
    {
      ResponsesLookup(nodes, process, id);
    }
  }

  /** The loop of `collect_responses()`: walks the roster in order, asks
      each tasked node and logs its answer. */
  method SweepResponses(o: Orchestrator, process: AiNode -> Value, repr: Value -> string, now: string)
    returns (responses: Dicts.Dict<string, Value>, r: Orchestrator)
    requires Dicts.UniqueKeys(o.nodes)
    ensures responses == Responses(o.nodes, process)
    ensures r.nodes == o.nodes
    ensures r.activityLogs == o.activityLogs + ResponseLog(responses, repr, now)
  {
    responses := [];
    r := o;
    var i := 0;
    while i < |o.nodes|
      invariant 0 <= i <= |o.nodes|
      invariant r.nodes == o.nodes
      invariant responses == Responses(o.nodes[..i], process)
      invariant r.activityLogs == o.activityLogs + ResponseLog(responses, repr, now)
    {
      var (id, node) := o.nodes[i];
      ResponsesStep(o.nodes, i, process);
      if Filled(node.task) {
        var response := process(node);
        var line := "Response from " + id + ": " + repr(response);
        ResponseLogSnoc(responses, id, response, repr, now);
        LogAppends(r, line, now);
        responses := responses + [(id, response)];
        r := LogActivity(r, line, now);
      }
      i := i + 1;
    }
    assert o.nodes[..i] == o.nodes;
  }

  /** `collect_responses()`: asks exactly the tasked nodes, in roster order,
      collects their results under their ids and logs one entry per result.
      The roster itself is unchanged. */
  method CollectResponses(o: Orchestrator, process: AiNode -> Value, repr: Value -> string, now: string)
    returns (responses: Dicts.Dict<string, Value>, r: Orchestrator)
    requires Dicts.UniqueKeys(o.nodes)
    ensures responses == Responses(o.nodes, process)
    ensures Dicts.Keys(responses) == TaskedIds(o.nodes)
    ensures forall id :: Dicts.Get(responses, id).Some? <==> HasTask(o.nodes, id)
    ensures forall id :: HasTask(o.nodes, id) ==>
      Dicts.Get(responses, id) == Some(process(Dicts.Get(o.nodes, id).value))
    ensures r.nodes == o.nodes
    ensures r.activityLogs == o.activityLogs + ResponseLog(responses, repr, now)
    ensures |r.activityLogs| == |o.activityLogs| + |TaskedIds(o.nodes)|
  {
    responses, r := SweepResponses(o, process, repr, now);
    ResponsesMeaning(o.nodes, process);
  }

  lemma {:induction false} TaskedIdsInKeys(nodes: Dicts.Dict<string, AiNode>, id: string)
    ensures id in TaskedIds(nodes) ==> id in Dicts.Keys(nodes)
  {
    if |nodes| > 0 {
      var init := nodes[..|nodes| - 1];
      TaskedIdsInKeys(init, id);
      Dicts.KeysAppend(init, [nodes[|nodes| - 1]]);
      assert init + [nodes[|nodes| - 1]] == nodes;
    }
  }

  /** A two-entry roster with distinct ids and both tasks truthy is swept
      in full, in order. */
  lemma TwoTaskedRoster(roster: Dicts.Dict<string, AiNode>, a: AiNode, b: AiNode, taskA: string, taskB: string)
    requires a.nodeId != b.nodeId && taskA != "" && taskB != ""
    requires Dicts.Keys(roster) == [a.nodeId, b.nodeId]
    requires Dicts.Get(roster, a.nodeId) == Some(SetTask(a, Some(taskA)))
    requires Dicts.Get(roster, b.nodeId) == Some(SetTask(b, Some(taskB)))
    ensures Dicts.UniqueKeys(roster)
    ensures TaskedIds(roster) == [a.nodeId, b.nodeId]
    ensures HasTask(roster, a.nodeId) && HasTask(roster, b.nodeId)
  {
    Dicts.KeysAt(roster);
    Dicts.GetFirst(roster, 0, a.nodeId);
    Dicts.GetFirst(roster, 1, b.nodeId);
    assert roster[1..][1..] == [];
    assert Dicts.Keys(roster[1..]) == [b.nodeId];
    assert roster[..1][..0] == [];
    assert TaskedIds(roster[..1]) == [a.nodeId];
    assert roster[..2] == roster;
  }

  /** Registering two distinct nodes into an empty orchestrator lists them
      in registration order and logs nothing. */
  lemma TwoRegistered(a: AiNode, b: AiNode)
    requires a.nodeId != b.nodeId
    ensures RegisterNode(RegisterNode(Empty, a), b).nodes == [(a.nodeId, a), (b.nodeId, b)]
    ensures RegisterNode(RegisterNode(Empty, a), b).activityLogs == []
    ensures Dicts.Keys(RegisterNode(RegisterNode(Empty, a), b).nodes) == [a.nodeId, b.nodeId]
  {
    var one := RegisterNode(Empty, a);
    assert one.nodes == [(a.nodeId, a)];
    Dicts.KeysAt(one.nodes);
    Dicts.KeysAt(RegisterNode(one, b).nodes);
  }

  /** Registering two distinct nodes and assigning each a task succeeds
      and leaves a two-entry roster in registration order, with two log
      entries. */
  lemma TwoNodesAssigned(a: AiNode, b: AiNode, taskA: string, taskB: string, now: string)
    requires a.nodeId != b.nodeId
    ensures var first := AssignTask(RegisterNode(RegisterNode(Empty, a), b), a.nodeId, taskA, now);
      && first.Ok?
      && var both := AssignTask(first.value, b.nodeId, taskB, now);
      && both.Ok?
      && Dicts.Keys(both.value.nodes) == [a.nodeId, b.nodeId]
      && Dicts.Get(both.value.nodes, a.nodeId) == Some(SetTask(a, Some(taskA)))
      && Dicts.Get(both.value.nodes, b.nodeId) == Some(SetTask(b, Some(taskB)))
      && |both.value.activityLogs| == 2
  {
    var registered := RegisterNode(RegisterNode(Empty, a), b);
    TwoRegistered(a, b);
    Dicts.GetFirst(registered.nodes, 0, a.nodeId);
    Dicts.GetFirst(registered.nodes, 1, b.nodeId);
    var first := AssignTask(registered, a.nodeId, taskA, now);
    assert first.Ok?;
    var both := AssignTask(first.value, b.nodeId, taskB, now);
    assert both.Ok?;
  }

  /** The register–assign–collect round of the integration workflow: two
      registered nodes given non-empty tasks both answer, and the log holds
      two assignments and two responses. */
  method TwoNodeWorkflow(a: AiNode, b: AiNode, taskA: string, taskB: string,
                         process: AiNode -> Value, repr: Value -> string, now: string)
    returns (responses: Dicts.Dict<string, Value>, o: Orchestrator)
    requires a.nodeId != b.nodeId && taskA != "" && taskB != ""
    ensures Dicts.Keys(responses) == [a.nodeId, b.nodeId]
    ensures Dicts.Get(responses, a.nodeId) == Some(process(SetTask(a, Some(taskA))))
    ensures Dicts.Get(responses, b.nodeId) == Some(process(SetTask(b, Some(taskB))))
    ensures |o.activityLogs| == 4
  {
    TwoNodesAssigned(a, b, taskA, taskB, now);
    var first := AssignTask(RegisterNode(RegisterNode(Empty, a), b), a.nodeId, taskA, now).value;
    var both := AssignTask(first, b.nodeId, taskB, now).value;
    TwoTaskedRoster(both.nodes, a, b, taskA, taskB);
    responses, o := CollectResponses(both, process, repr, now);
  }
}
