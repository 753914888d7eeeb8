/** `LocalOrchestrator` of src/shared/LocalOrchestrator.py: a team's
    orchestrator that picks the first idle node supporting a task, reports
    progress and accepts data from other teams. Nodes define neither
    `is_task_supported` nor `get_status`: the first is the `supports`
    parameter, the second reads the node's `status` field. The base class
    has no `update_context`; the team's context is a dictionary field. */
module LocalOrchestrators {
  import opened Wrappers
  import opened Values
  import opened AiNodes
  import opened Orchestrators
  import Dicts

  datatype LocalOrchestrator = LocalOrchestrator(
    teamName: string,
    base: Orchestrator,
    context: Dicts.Dict<string, Value>)

  /** A node `find_suitable_node` accepts for `task`. */
  predicate Suitable(n: AiNode, supports: (AiNode, string) -> bool, task: string)
  {
    supports(n, task) && n.status == "idle"
  }

  /** The search from roster position `from` on. */
  function FindFrom(nodes: Dicts.Dict<string, AiNode>, supports: (AiNode, string) -> bool,
                    task: string, from: nat): (r: Option<nat>)
    requires from <= |nodes|
    ensures r.Some? ==> from <= r.value < |nodes| && Suitable(nodes[r.value].1, supports, task)
    ensures r.Some? ==> forall j :: from <= j < r.value ==> !Suitable(nodes[j].1, supports, task)
    ensures r.None? <==> forall j :: from <= j < |nodes| ==> !Suitable(nodes[j].1, supports, task)
    decreases |nodes| - from
  {
    if from == |nodes| then None
    else if Suitable(nodes[from].1, supports, task) then Some(from)
    else FindFrom(nodes, supports, task, from + 1)
  }

  /** `find_suitable_node(task)`: the roster position of the first idle node
      supporting the task, or `None` when no node qualifies. */
  function FindSuitableNode(lo: LocalOrchestrator, supports: (AiNode, string) -> bool, task: string)
    : (r: Option<nat>)
    ensures r.Some? ==> r.value < |lo.base.nodes| && Suitable(lo.base.nodes[r.value].1, supports, task)
    ensures r.Some? ==> forall j :: 0 <= j < r.value ==> !Suitable(lo.base.nodes[j].1, supports, task)
    ensures r.None? <==> forall j :: 0 <= j < |lo.base.nodes| ==> !Suitable(lo.base.nodes[j].1, supports, task)
  {
    FindFrom(lo.base.nodes, supports, task, 0)
  }

  /** `assign_task(task)`: the chosen node, and only it, gets the task, with
      one log entry naming it; without a candidate only the refusal is
      logged. */
  function AssignTask(lo: LocalOrchestrator, supports: (AiNode, string) -> bool, task: string, now: string)
    : (r: LocalOrchestrator)
    ensures r.teamName == lo.teamName && r.context == lo.context
    ensures |r.base.nodes| == |lo.base.nodes|
    ensures Dicts.Keys(r.base.nodes) == Dicts.Keys(lo.base.nodes)
    ensures FindSuitableNode(lo, supports, task).None? ==>
      r.base == LogActivity(lo.base, "No suitable node found for task: " + task + ".", now)
    ensures FindSuitableNode(lo, supports, task).Some? ==>
      var i := FindSuitableNode(lo, supports, task).value;
      var chosen := lo.base.nodes[i].1;
      && r.base.nodes[i] == (lo.base.nodes[i].0, SetTask(chosen, Some(task)))
      && (forall j :: 0 <= j < |lo.base.nodes| && j != i ==> r.base.nodes[j] == lo.base.nodes[j])
      && r.base.activityLogs ==
           lo.base.activityLogs + [LogEntry("Task '" + task + "' assigned to node " + chosen.name + ".", now)]
    ensures Dicts.UniqueKeys(lo.base.nodes) ==> Dicts.UniqueKeys(r.base.nodes)
    ensures KeyedById(lo.base.nodes) ==> KeyedById(r.base.nodes)
  {
    match FindSuitableNode(lo, supports, task)
    case None =>
      lo.(base := LogActivity(lo.base, "No suitable node found for task: " + task + ".", now))
    case Some(i) =>
      var (id, chosen) := lo.base.nodes[i];
      var nodes := lo.base.nodes[i := (id, SetTask(chosen, Some(task)))];
      Dicts.KeysAt(nodes);
      Dicts.KeysAt(lo.base.nodes);
      Dicts.UniqueByKeys(lo.base.nodes, nodes);
      assert KeyedById(lo.base.nodes) ==> KeyedById(nodes) by {
        if KeyedById(lo.base.nodes) {
          assert lo.base.nodes[i] in lo.base.nodes;
          forall e | e in nodes
            ensures e.0 == e.1.nodeId
          {
            var j :| 0 <= j < |nodes| && nodes[j] == e;
            if j != i {
              assert lo.base.nodes[j] in lo.base.nodes;
            }
          }
        }
      }
      var base := LogActivity(lo.base.(nodes := nodes),
                              "Task '" + task + "' assigned to node " + chosen.name + ".", now);
      lo.(base := base)
  }

  /** The progress map: each roster id with its node's status. */
  function Progress(nodes: Dicts.Dict<string, AiNode>): (p: Dicts.Dict<string, Value>)
    ensures |p| == |nodes|
    ensures forall i :: 0 <= i < |nodes| ==> p[i] == (nodes[i].0, Str(nodes[i].1.status))
  {
    seq(|nodes|, i requires 0 <= i < |nodes| => (nodes[i].0, Str(nodes[i].1.status)))
  }

  /** Looking an id up in the progress map gives the status of the node the
      roster holds under it, and nothing for ids the roster lacks. */
  lemma {:induction false} ProgressLookup(nodes: Dicts.Dict<string, AiNode>, id: string)
    ensures Dicts.Keys(Progress(nodes)) == Dicts.Keys(nodes)
    ensures Dicts.Get(Progress(nodes), id) ==
      if Dicts.Get(nodes, id).Some? then Some(Str(Dicts.Get(nodes, id).value.status)) else None
  {
    if |nodes| > 0 {
      ProgressLookup(nodes[1..], id);
      assert Progress(nodes)[1..] == Progress(nodes[1..]);
    }
  }

  /** `report_progress()`: the team name and the progress map, with one log
      entry carrying the map's text. */
  function ReportProgress(lo: LocalOrchestrator, repr: Value -> string, now: string)
    : (r: (Value, LocalOrchestrator))
    ensures Field(r.0, "team_name") == Some(Str(lo.teamName))
    ensures Field(r.0, "progress") == Some(Dict(Progress(lo.base.nodes)))
    ensures r.0.Dict? && Dicts.Keys(r.0.entries) == ["team_name", "progress"]
    ensures r.1 == lo.(base := LogActivity(lo.base, "Progress report: " + repr(Dict(Progress(lo.base.nodes))), now))
  {
    var progress := Dict(Progress(lo.base.nodes));
    var entries := [("team_name", Str(lo.teamName)), ("progress", progress)];
    Dicts.KeysAt(entries);
    Dicts.GetFirst(entries, 1, "progress");
    (Dict(entries), lo.(base := LogActivity(lo.base, "Progress report: " + repr(progress), now)))
  }

  /** `receive_data(data, from_team)`: stores the data under
      "received_data"; only a truthy sender is logged. */
  function ReceiveData(lo: LocalOrchestrator, data: Value, fromTeam: Option<string>,
                       repr: Value -> string, now: string): (r: LocalOrchestrator)
    ensures Dicts.Get(r.context, "received_data") == Some(data)
    ensures forall k :: k != "received_data" ==> Dicts.Get(r.context, k) == Dicts.Get(lo.context, k)
    ensures r.teamName == lo.teamName && r.base.nodes == lo.base.nodes
    ensures Filled(fromTeam) ==>
      r.base.activityLogs ==
        lo.base.activityLogs + [LogEntry("Received data from team " + fromTeam.value + ": " + repr(data), now)]
    ensures !Filled(fromTeam) ==> r.base == lo.base
  {
    var stored := lo.(context := Dicts.Put(lo.context, "received_data", data));
    if Filled(fromTeam) then
      stored.(base := LogActivity(stored.base, "Received data from team " + fromTeam.value + ": " + repr(data), now))
    else stored
  }
}
