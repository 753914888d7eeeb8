/** The message records of src/shared/NodeMessage.py: the `NodeMessage`
    header, the four payload-carrying kinds and their `to_dict`
    serialisation. Field values are arbitrary Python values. The id the
    constructor would draw from `get_unique_id()` and the clock reading are
    parameters. */
module NodeMessages {
  import opened Wrappers
  import opened Values
  import Dicts

  /** What distinguishes the message classes: a bare `NodeMessage` carries
      nothing, each subclass its own payload fields. */
  datatype Body =
    | Plain
    | Task(taskId: Value, description: Value, priority: Value, deadline: Value, dependencies: Value)
    | StatusUpdate(taskId: Value, status: Value, progress: Value, issues: Value)
    | DependencyRequest(taskId: Value, requiredData: Value)
    | DependencyResponse(taskId: Value, providedData: Value)

  datatype Message = Message(sender: Value, recipient: Value, messageId: Value, timestamp: Value, body: Body)

  /** NotImplementedError("Subclasses must implement get_payload()."). */
  datatype MessageError = PayloadNotImplemented

  /** Python's `v or fallback` with a string fallback. */
  function OrElse(v: Value, fallback: string): (r: Value)
    ensures Truthy(v) ==> r == v
    ensures !Truthy(v) ==> r == Str(fallback)
  {
    if Truthy(v) then v else Str(fallback)
  }

  /** `NodeMessage(sender, recipient, message_id, timestamp)`: a truthy id or
      timestamp is kept; a missing or falsy one is generated. */
  function NewMessage(sender: Value, recipient: Value, messageId: Value, timestamp: Value,
                      generatedId: string, now: string): (m: Message)
    ensures m.sender == sender && m.recipient == recipient && m.body == Plain
    ensures Truthy(messageId) ==> m.messageId == messageId
    ensures !Truthy(messageId) ==> m.messageId == Str(generatedId)
    ensures Truthy(timestamp) ==> m.timestamp == timestamp
    ensures !Truthy(timestamp) ==> m.timestamp == Str(now)
  {
    Message(sender, recipient, OrElse(messageId, generatedId), OrElse(timestamp, now), Plain)
  }

  /** `TaskMessage(...)`: the header from the base constructor without an id
      or timestamp; a falsy dependency list becomes `[]`. */
  function NewTaskMessage(sender: Value, recipient: Value, taskId: Value, description: Value,
                          priority: Value, deadline: Value, dependencies: Value,
                          generatedId: string, now: string): (m: Message)
    ensures m.messageId == Str(generatedId) && m.timestamp == Str(now)
    ensures m.sender == sender && m.recipient == recipient
    ensures m.body.Task? && m.body.taskId == taskId && m.body.description == description
    ensures m.body.priority == priority && m.body.deadline == deadline
    ensures Truthy(dependencies) ==> m.body.dependencies == dependencies
    ensures !Truthy(dependencies) ==> m.body.dependencies == List([])
  {
    var header := NewMessage(sender, recipient, Null, Null, generatedId, now);
    header.(body := Task(taskId, description, priority, deadline,
                         if Truthy(dependencies) then dependencies else List([])))
  }

  /** `StatusUpdateMessage(...)`; `issues` defaults to `None` at the call site. */
  function NewStatusUpdateMessage(sender: Value, recipient: Value, taskId: Value, status: Value,
                                  progress: Value, issues: Value, generatedId: string, now: string)
    : (m: Message)
    ensures m.messageId == Str(generatedId) && m.timestamp == Str(now)
    ensures m.sender == sender && m.recipient == recipient
    ensures m.body == StatusUpdate(taskId, status, progress, issues)
  {
    NewMessage(sender, recipient, Null, Null, generatedId, now).(body := StatusUpdate(taskId, status, progress, issues))
  }

  /** `DependencyRequestMessage(...)`. */
  function NewDependencyRequestMessage(sender: Value, recipient: Value, taskId: Value, requiredData: Value,
                                       generatedId: string, now: string): (m: Message)
    ensures m.messageId == Str(generatedId) && m.timestamp == Str(now)
    ensures m.sender == sender && m.recipient == recipient
    ensures m.body == DependencyRequest(taskId, requiredData)
  {
    NewMessage(sender, recipient, Null, Null, generatedId, now).(body := DependencyRequest(taskId, requiredData))
  }

  /** `DependencyResponseMessage(...)`. */
  function NewDependencyResponseMessage(sender: Value, recipient: Value, taskId: Value, providedData: Value,
                                        generatedId: string, now: string): (m: Message)
    ensures m.messageId == Str(generatedId) && m.timestamp == Str(now)
    ensures m.sender == sender && m.recipient == recipient
    ensures m.body == DependencyResponse(taskId, providedData)
  {
    NewMessage(sender, recipient, Null, Null, generatedId, now).(body := DependencyResponse(taskId, providedData))
  }

  /** `self.__class__.__name__`. */
  function KindName(b: Body): string
  {
    match b
    case Plain => "NodeMessage"
    case Task(_, _, _, _, _) => "TaskMessage"
    case StatusUpdate(_, _, _, _) => "StatusUpdateMessage"
    case DependencyRequest(_, _) => "DependencyRequestMessage"
    case DependencyResponse(_, _) => "DependencyResponseMessage"
  }

  /** The TaskMessage payload. */
  function TaskPayload(b: Body): (v: Value)
    requires b.Task?
    ensures v.Dict? && Dicts.Keys(v.entries) == ["task_id", "description", "priority", "deadline", "dependencies"]
    ensures Field(v, "task_id") == Some(b.taskId)
    ensures Field(v, "description") == Some(b.description)
    ensures Field(v, "priority") == Some(b.priority)
    ensures Field(v, "deadline") == Some(b.deadline)
    ensures Field(v, "dependencies") == Some(b.dependencies)
  {
    var entries := [("task_id", b.taskId), ("description", b.description), ("priority", b.priority),
                    ("deadline", b.deadline), ("dependencies", b.dependencies)];
    Dicts.KeysAt(entries);
    Dicts.GetFirst(entries, 1, "description");
    Dicts.GetFirst(entries, 2, "priority");
    Dicts.GetFirst(entries, 3, "deadline");
    Dicts.GetFirst(entries, 4, "dependencies");
    Dict(entries)
  }

  /** The StatusUpdateMessage payload. */
  function StatusUpdatePayload(b: Body): (v: Value)
    requires b.StatusUpdate?
    ensures v.Dict? && Dicts.Keys(v.entries) == ["task_id", "status", "progress", "issues"]
    ensures Field(v, "task_id") == Some(b.taskId)
    ensures Field(v, "status") == Some(b.status)
    ensures Field(v, "progress") == Some(b.progress)
    ensures Field(v, "issues") == Some(b.issues)
  {
    var entries := [("task_id", b.taskId), ("status", b.status), ("progress", b.progress), ("issues", b.issues)];
    Dicts.KeysAt(entries);
    Dicts.GetFirst(entries, 1, "status");
    Dicts.GetFirst(entries, 2, "progress");
    Dicts.GetFirst(entries, 3, "issues");
    Dict(entries)
  }

  /** The two-field payload of the dependency messages. */
  function PairPayload(taskId: Value, key: string, data: Value): (v: Value)
    requires key != "task_id"
    ensures v.Dict? && Dicts.Keys(v.entries) == ["task_id", key]
    ensures Field(v, "task_id") == Some(taskId)
    ensures Field(v, key) == Some(data)
  {
    var entries := [("task_id", taskId), (key, data)];
    Dicts.KeysAt(entries);
    Dicts.GetFirst(entries, 1, key);
    Dict(entries)
  }

  /** `get_payload()`: each subclass's record; the base class raises. */
  function GetPayload(m: Message): (r: Result<Value, MessageError>)
    ensures r.Err? <==> m.body.Plain?
    ensures r.Err? ==> r.error == PayloadNotImplemented
    ensures r.Ok? ==> r.value.Dict? && Field(r.value, "task_id") == Some(m.body.taskId)
    ensures m.body.Task? ==> r.value == TaskPayload(m.body)
    ensures m.body.StatusUpdate? ==> r.value == StatusUpdatePayload(m.body)
    ensures m.body.DependencyRequest? ==>
      Dicts.Keys(r.value.entries) == ["task_id", "required_data"]
      && Field(r.value, "required_data") == Some(m.body.requiredData)
    ensures m.body.DependencyResponse? ==>
      Dicts.Keys(r.value.entries) == ["task_id", "provided_data"]
      && Field(r.value, "provided_data") == Some(m.body.providedData)
  {
    match m.body
    case Plain => Err(PayloadNotImplemented)
    case Task(_, _, _, _, _) => Ok(TaskPayload(m.body))
    case StatusUpdate(_, _, _, _) => Ok(StatusUpdatePayload(m.body))
    case DependencyRequest(taskId, requiredData) => Ok(PairPayload(taskId, "required_data", requiredData))
    case DependencyResponse(taskId, providedData) => Ok(PairPayload(taskId, "provided_data", providedData))
  }

  /** `to_dict()`: the header fields, the class name and the payload, in
      that key order; a bare `NodeMessage` fails in `get_payload`. */
  function ToDict(m: Message): (r: Result<Value, MessageError>)
    ensures r.Err? <==> m.body.Plain?
    ensures r.Ok? ==>
      && r.value.Dict?
      && Dicts.Keys(r.value.entries) == ["message_id", "sender", "recipient", "type", "timestamp", "payload"]
      && Field(r.value, "message_id") == Some(m.messageId)
      && Field(r.value, "sender") == Some(m.sender)
      && Field(r.value, "recipient") == Some(m.recipient)
      && Field(r.value, "type") == Some(Str(KindName(m.body)))
      && Field(r.value, "timestamp") == Some(m.timestamp)
      && Field(r.value, "payload") == Some(GetPayload(m).value)
  {
    match GetPayload(m)
    case Err(e) => Err(e)
    case Ok(payload) =>
      var entries := [("message_id", m.messageId), ("sender", m.sender), ("recipient", m.recipient),
                      ("type", Str(KindName(m.body))), ("timestamp", m.timestamp), ("payload", payload)];
      Dicts.KeysAt(entries);
      Dicts.GetFirst(entries, 0, "message_id");
      Dicts.GetFirst(entries, 1, "sender");
      Dicts.GetFirst(entries, 2, "recipient");
      Dicts.GetFirst(entries, 3, "type");
      Dicts.GetFirst(entries, 4, "timestamp");
      Dicts.GetFirst(entries, 5, "payload");
      Ok(Dict(entries))
  }

  /** Reads a payload back for the named kind. */
  function ReadBody(kind: string, payload: Value): Option<Body>
  {
    var taskId := Field(payload, "task_id");
    if taskId.None? then None
    else if kind == "TaskMessage" then
      var description := Field(payload, "description");
      var priority := Field(payload, "priority");
      var deadline := Field(payload, "deadline");
      var dependencies := Field(payload, "dependencies");
      if description.None? || priority.None? || deadline.None? || dependencies.None? then None
      else Some(Task(taskId.value, description.value, priority.value, deadline.value, dependencies.value))
    else if kind == "StatusUpdateMessage" then
      var status := Field(payload, "status");
      var progress := Field(payload, "progress");
      var issues := Field(payload, "issues");
      if status.None? || progress.None? || issues.None? then None
      else Some(StatusUpdate(taskId.value, status.value, progress.value, issues.value))
    else if kind == "DependencyRequestMessage" then
      var requiredData := Field(payload, "required_data");
      if requiredData.None? then None else Some(DependencyRequest(taskId.value, requiredData.value))
    else if kind == "DependencyResponseMessage" then
      var providedData := Field(payload, "provided_data");
      if providedData.None? then None else Some(DependencyResponse(taskId.value, providedData.value))
    else None
  }

  /** Reads a serialised message back; the inverse of `to_dict`. */
  function FromDict(v: Value): Option<Message>
  {
    var messageId := Field(v, "message_id");
    var sender := Field(v, "sender");
    var recipient := Field(v, "recipient");
    var kind := Field(v, "type");
    var timestamp := Field(v, "timestamp");
    var payload := Field(v, "payload");
    if messageId.None? || sender.None? || recipient.None? || timestamp.None? || payload.None? then None
    else if kind.None? || !kind.value.Str? then None
    else
      match ReadBody(kind.value.s, payload.value)
      case None => None
      case Some(body) => Some(Message(sender.value, recipient.value, messageId.value, timestamp.value, body))
  }

  /** Every message that serialises is recovered exactly from its dictionary. */
  lemma ToDictRoundTrip(m: Message)
    ensures ToDict(m).Ok? ==> FromDict(ToDict(m).value) == Some(m)
  {
    if !m.body.Plain? {
      var payload := GetPayload(m).value;
      assert ReadBody(KindName(m.body), payload) == Some(m.body);
    }
  }
}
