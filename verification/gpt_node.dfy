/** `GPTNode` of src/shared/GPTNode.py: prompt generation and the
    `process_task` boundary that turns every exception into an error record.
    Two collaborators the node calls are not defined on `AI_Node`: the
    `identity_prompt` template and `log_activity`. Each is an input here: the
    formatted identity (or the message it raised with), and whether the
    activity log call completed or raised. */
module GptNodes {
  import opened Wrappers
  import opened Values
  import opened AiNodes
  import Dicts

  /** A collaborator call the model cannot see: it completes or raises. */
  datatype CallOutcome = Completed | Raised(message: string)

  predicate StartsWith(s: string, prefix: string)
  {
    |prefix| <= |s| && s[..|prefix|] == prefix
  }

  predicate EndsWith(s: string, suffix: string)
  {
    |suffix| <= |s| && s[|s| - |suffix|..] == suffix
  }

  /** `generate_task_prompt()`: refuses a node without a task, then
      interpolates the formatted identity and the task. The error is the
      raised exception's message. */
  function GenerateTaskPrompt(n: AiNode, identity: Result<string, string>): (r: Result<string, string>)
    ensures !Filled(n.task) ==> r == Err("No task assigned to generate a task prompt.")
    ensures Filled(n.task) && identity.Err? ==> r == Err(identity.error)
    ensures r.Ok? <==> Filled(n.task) && identity.Ok?
    ensures r.Ok? ==> StartsWith(r.value, "System: ") && EndsWith(r.value, "\nTask: " + n.task.value)
  {
    if !Filled(n.task) then Err("No task assigned to generate a task prompt.")
    else if identity.Err? then Err(identity.error)
    else
      var prompt := "System: " + identity.value + "\nTask: " + n.task.value;
      assert prompt[..8] == "System: ";
      assert prompt[|prompt| - |"\nTask: " + n.task.value|..] == "\nTask: " + n.task.value;
      Ok(prompt)
  }

  /** The record a successful run returns. */
  function SuccessRecord(n: AiNode, task: string, now: string): (v: Value)
    ensures v.Dict? && Dicts.Keys(v.entries) == ["status", "node_id", "task", "output", "timestamp"]
    ensures Field(v, "status") == Some(Str("success"))
    ensures Field(v, "node_id") == Some(Str(n.nodeId))
    ensures Field(v, "task") == Some(Str(task))
    ensures Field(v, "output") == Some(Str("GPT response for: " + task))
    ensures Field(v, "timestamp") == Some(Str(now))
  {
    var entries := [("status", Str("success")),
                    ("node_id", Str(n.nodeId)),
                    ("task", Str(task)),
                    ("output", Str("GPT response for: " + task)),
                    ("timestamp", Str(now))];
    Dicts.KeysAt(entries);
    Dicts.GetFirst(entries, 0, "status");
    Dicts.GetFirst(entries, 1, "node_id");
    Dicts.GetFirst(entries, 2, "task");
    Dicts.GetFirst(entries, 3, "output");
    Dicts.GetFirst(entries, 4, "timestamp");
    Dict(entries)
  }

  /** The `{"status": "error", "message": ...}` record. */
  function ErrorRecord(message: string): (v: Value)
    ensures v.Dict? && Dicts.Keys(v.entries) == ["status", "message"]
    ensures Field(v, "status") == Some(Str("error"))
    ensures Field(v, "message") == Some(Str(message))
  {
    var v := StatusRecord("error", message);
    Dicts.KeysAt(v.entries);
    v
  }

  /** `process_task()`: success only when there is a task, the identity
      formats and the activity log call completes; otherwise an error record
      carrying the message, and nothing is raised. The node is not changed. */
  function ProcessTask(n: AiNode, identity: Result<string, string>, activityLog: CallOutcome, now: string)
    : (r: Value)
    ensures Field(r, "status") == Some(Str("success")) <==>
      Filled(n.task) && identity.Ok? && activityLog.Completed?
    ensures Field(r, "status") != Some(Str("success")) ==>
      Field(r, "status") == Some(Str("error")) && Dicts.Keys(r.entries) == ["status", "message"]
    ensures Field(r, "status") == Some(Str("success")) ==>
      && Dicts.Keys(r.entries) == ["status", "node_id", "task", "output", "timestamp"]
      && Field(r, "node_id") == Some(Str(n.nodeId))
      && Field(r, "task") == Some(Str(n.task.value))
      && Field(r, "output") == Some(Str("GPT response for: " + n.task.value))
      && Field(r, "timestamp") == Some(Str(now))
    ensures !Filled(n.task) ==> Field(r, "message") == Some(Str("No task assigned."))
    ensures Filled(n.task) && identity.Err? ==> Field(r, "message") == Some(Str(identity.error))
    ensures Filled(n.task) && identity.Ok? && activityLog.Raised? ==>
      Field(r, "message") == Some(Str(activityLog.message))
  {
    if !Filled(n.task) then ErrorRecord("No task assigned.")
    else
      match GenerateTaskPrompt(n, identity)
      case Err(message) => ErrorRecord(message)
      case Ok(_) =>
        var result := SuccessRecord(n, n.task.value, now);
        match activityLog
        case Raised(message) => ErrorRecord(message)
        case Completed => result
  }
}
