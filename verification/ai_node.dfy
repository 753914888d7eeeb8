/** The `AI_Node` record of src/shared/AI_Node.py: construction, the
    priority invariant, the field setters and `get_details`. Ids the
    constructor would draw from `uuid.uuid4()` are supplied by the caller. */
module AiNodes {
  import opened Wrappers
  import opened Values
  import Dicts

  datatype AiNode = AiNode(
    name: string,
    nodeId: string,
    description: string,
    priority: int,
    status: string,
    purpose: string,
    task: Option<string>)

  /** ValueError("Priority must be greater than or equal to 1."). */
  datatype NodeError = InvalidPriority(rejected: int)

  /** The invariant every constructed node keeps. */
  predicate Valid(n: AiNode)
  {
    n.priority >= 1
  }

  /** `set_priority(p)`: stores `p` when it is at least 1, otherwise raises
      and keeps the node as it was. */
  function SetPriority(n: AiNode, p: int): (r: Result<AiNode, NodeError>)
    ensures r.Ok? <==> p >= 1
    ensures r.Ok? ==> r.value.priority == p && r.value.(priority := n.priority) == n
    ensures r.Err? ==> r.error == InvalidPriority(p)
  {
    if p >= 1 then Ok(n.(priority := p)) else Err(InvalidPriority(p))
  }

  /** The id the constructor keeps: the supplied one when truthy, otherwise
      the freshly generated one. */
  function ChooseId(supplied: Option<string>, generated: string): (id: string)
    ensures Filled(supplied) ==> id == supplied.value
    ensures !Filled(supplied) ==> id == generated
  {
    if Filled(supplied) then supplied.value else generated
  }

  /** `AI_Node(...)`: the fields as given, the priority through `set_priority`. */
  function NewNode(name: string, suppliedId: Option<string>, generatedId: string,
                   description: string, priority: int, status: string,
                   purpose: string, task: Option<string>): (r: Result<AiNode, NodeError>)
    ensures r.Ok? <==> priority >= 1
    ensures r.Ok? ==> Valid(r.value)
    ensures r.Ok? ==> r.value == AiNode(name, ChooseId(suppliedId, generatedId), description,
                                        priority, status, purpose, task)
  {
    var draft := AiNode(name, ChooseId(suppliedId, generatedId), description, 1, status, purpose, task);
    SetPriority(draft, priority)
  }

  /** `set_task(t)`: overwrites the task, with no check against any
      supported-task list; nothing else changes. */
  function SetTask(n: AiNode, t: Option<string>): (r: AiNode)
    ensures r.task == t
    ensures r.(task := n.task) == n
  {
    n.(task := t)
  }

  /** `set_status(s)`: only the status changes. */
  function SetStatus(n: AiNode, s: string): (r: AiNode)
    ensures r.status == s
    ensures r.(status := n.status) == n
  {
    n.(status := s)
  }

  /** `get_details()`: the six public fields under their Python keys. */
  function GetDetails(n: AiNode): (v: Value)
    ensures v.Dict? && Dicts.Keys(v.entries) ==
      ["node_id", "description", "priority", "status", "purpose", "task"]
    ensures Field(v, "node_id") == Some(Str(n.nodeId))
    ensures Field(v, "description") == Some(Str(n.description))
    ensures Field(v, "priority") == Some(Int(n.priority))
    ensures Field(v, "status") == Some(Str(n.status))
    ensures Field(v, "purpose") == Some(Str(n.purpose))
    ensures Field(v, "task") == Some(OptStr(n.task))
  {
    var entries := [("node_id", Str(n.nodeId)),
                    ("description", Str(n.description)),
                    ("priority", Int(n.priority)),
                    ("status", Str(n.status)),
                    ("purpose", Str(n.purpose)),
                    ("task", OptStr(n.task))];
    Dicts.KeysAt(entries);
    Dicts.GetFirst(entries, 0, "node_id");
    Dicts.GetFirst(entries, 1, "description");
    Dicts.GetFirst(entries, 2, "priority");
    Dicts.GetFirst(entries, 3, "status");
    Dicts.GetFirst(entries, 4, "purpose");
    Dicts.GetFirst(entries, 5, "task");
    Dict(entries)
  }

  /** Rebuilds a node of the given name from a details dictionary. */
  function ReadDetails(v: Value, name: string): Option<AiNode>
  {
    var id := Field(v, "node_id");
    var description := Field(v, "description");
    var priority := Field(v, "priority");
    var status := Field(v, "status");
    var purpose := Field(v, "purpose");
    var task := Field(v, "task");
    if id.Some? && id.value.Str? && description.Some? && description.value.Str?
       && priority.Some? && priority.value.Int? && status.Some? && status.value.Str?
       && purpose.Some? && purpose.value.Str? && task.Some? && ReadOptStr(task.value).Some?
    then
      Some(AiNode(name, id.value.s, description.value.s, priority.value.i,
                  status.value.s, purpose.value.s, ReadOptStr(task.value).value))
    else None
  }

  /** The details dictionary carries every field but the name. */
  lemma DetailsRoundTrip(n: AiNode)
    ensures ReadDetails(GetDetails(n), n.name) == Some(n)
  {
    OptStrRoundTrip(n.task);
  }

  /** A roster or registry dictionary: unique keys, each the id of its node. */
  predicate KeyedById(d: Dicts.Dict<string, AiNode>)
  {
    Dicts.UniqueKeys(d) && forall e :: e in d ==> e.0 == e.1.nodeId
  }
}
