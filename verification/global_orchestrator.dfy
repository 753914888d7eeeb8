/** `GlobalOrchestrator` of src/shared/GlobalOrchestrator.py: splits a goal
    into per-team tasks, forwards them to the team orchestrators that exist,
    gathers their progress reports into its context and relays data between
    teams. Its context is a dictionary field, as for the team orchestrators. */
module GlobalOrchestrators {
  import opened Wrappers
  import opened Values
  import opened AiNodes
  import opened Orchestrators
  import opened LocalOrchestrators
  import Dicts

  datatype GlobalOrchestrator = GlobalOrchestrator(
    base: Orchestrator,
    teams: Dicts.Dict<string, LocalOrchestrator>,
    context: Dicts.Dict<string, Value>)

  /** `break_down_goal(goal)`: the fixed two-team plan, whatever the goal. */
  function BreakDownGoal(goal: string): (tasks: Dicts.Dict<string, string>)
    ensures Dicts.Keys(tasks) == ["Team_A", "Team_B"]
    ensures Dicts.Get(tasks, "Team_A") == Some("Design website layout")
    ensures Dicts.Get(tasks, "Team_B") == Some("Write website content")
    ensures Dicts.UniqueKeys(tasks)
  {
    var tasks := [("Team_A", "Design website layout"), ("Team_B", "Write website content")];
    Dicts.KeysAt(tasks);
    Dicts.GetFirst(tasks, 1, "Team_B");
    tasks
  }

  /** One iteration of the forwarding loop: a known team receives the task
      through its own `assign_task`; an unknown one is only logged. */
  function ForwardOne(g: GlobalOrchestrator, team: string, task: string,
                      supports: (AiNode, string) -> bool, now: string): (r: GlobalOrchestrator)
    ensures r.context == g.context && r.base.nodes == g.base.nodes
    ensures Dicts.Keys(r.teams) == Dicts.Keys(g.teams)
    ensures forall t :: t != team ==> Dicts.Get(r.teams, t) == Dicts.Get(g.teams, t)
    ensures team in Dicts.Keys(g.teams) ==>
      && Dicts.Get(g.teams, team).Some?
      && Dicts.Get(r.teams, team) == Some(LocalOrchestrators.AssignTask(Dicts.Get(g.teams, team).value, supports, task, now))
      && r.base == g.base
    ensures team !in Dicts.Keys(g.teams) ==>
      && r.teams == g.teams
      && r.base == LogActivity(g.base, "Team " + team + " not found!", now)
  {
    Dicts.GetPresent(g.teams, team);
    if team in Dicts.Keys(g.teams) then
      var assignedTeam := LocalOrchestrators.AssignTask(Dicts.Get(g.teams, team).value, supports, task, now);
      g.(teams := Dicts.Put(g.teams, team, assignedTeam))
    else
      g.(base := LogActivity(g.base, "Team " + team + " not found!", now))
  }

  /** The forwarding loop over the sub-tasks, in their order. */
  function ForwardSubTasks(g: GlobalOrchestrator, tasks: Dicts.Dict<string, string>,
                           supports: (AiNode, string) -> bool, now: string): (r: GlobalOrchestrator)
    ensures r.context == g.context && r.base.nodes == g.base.nodes
    ensures Dicts.Keys(r.teams) == Dicts.Keys(g.teams)
    ensures forall t :: t !in Dicts.Keys(tasks) ==> Dicts.Get(r.teams, t) == Dicts.Get(g.teams, t)
    ensures |g.base.activityLogs| <= |r.base.activityLogs|
    ensures r.base.activityLogs[..|g.base.activityLogs|] == g.base.activityLogs
    decreases |tasks|
  {
    if |tasks| == 0 then g
    else
      var r := ForwardSubTasks(ForwardOne(g, tasks[0].0, tasks[0].1, supports, now), tasks[1..], supports, now);
      assert Dicts.Keys(tasks) == [tasks[0].0] + Dicts.Keys(tasks[1..]);
      r
  }

  /** `assign_high_level_goal(goal)`: logs the goal, then hands Team_A and
      Team_B their fixed tasks, each only when that team is registered, and
      logs every missing team. */
  function AssignHighLevelGoal(g: GlobalOrchestrator, goal: string,
                               supports: (AiNode, string) -> bool, now: string): (r: GlobalOrchestrator)
    ensures r.context == g.context
    ensures r.base.nodes == g.base.nodes
    ensures Dicts.Keys(r.teams) == Dicts.Keys(g.teams)
    ensures forall t :: t != "Team_A" && t != "Team_B" ==> Dicts.Get(r.teams, t) == Dicts.Get(g.teams, t)
    ensures |r.base.activityLogs| > |g.base.activityLogs|
    ensures r.base.activityLogs[..|g.base.activityLogs| + 1] ==
      g.base.activityLogs + [LogEntry("Assigning goal: " + goal, now)]
  {
    var logged := g.(base := LogActivity(g.base, "Assigning goal: " + goal, now));
    ForwardSubTasks(logged, BreakDownGoal(goal), supports, now)
  }

  /** How a goal reaches the two named teams: a registered team's
      orchestrator runs its own `assign_task` on the team's fixed task, and
      each missing team costs one "not found" entry, Team_A's before
      Team_B's. */
  lemma {:induction false} HighLevelGoalReachesTeams(g: GlobalOrchestrator, goal: string,
                                                     supports: (AiNode, string) -> bool, now: string)
    ensures var r := AssignHighLevelGoal(g, goal, supports, now);
      && ("Team_A" in Dicts.Keys(g.teams) ==>
            Dicts.Get(g.teams, "Team_A").Some? &&
            Dicts.Get(r.teams, "Team_A") ==
              Some(LocalOrchestrators.AssignTask(Dicts.Get(g.teams, "Team_A").value, supports, "Design website layout", now)))
      && ("Team_B" in Dicts.Keys(g.teams) ==>
            Dicts.Get(g.teams, "Team_B").Some? &&
            Dicts.Get(r.teams, "Team_B") ==
              Some(LocalOrchestrators.AssignTask(Dicts.Get(g.teams, "Team_B").value, supports, "Write website content", now)))
      && ("Team_A" !in Dicts.Keys(g.teams) ==> Dicts.Get(r.teams, "Team_A") == None)
      && ("Team_B" !in Dicts.Keys(g.teams) ==> Dicts.Get(r.teams, "Team_B") == None)
      && r.base.activityLogs ==
           g.base.activityLogs + [LogEntry("Assigning goal: " + goal, now)]
           + (if "Team_A" in Dicts.Keys(g.teams) then [] else [LogEntry("Team " + "Team_A" + " not found!", now)])
           + (if "Team_B" in Dicts.Keys(g.teams) then [] else [LogEntry("Team " + "Team_B" + " not found!", now)])
  {
    var g0 := g.(base := LogActivity(g.base, "Assigning goal: " + goal, now));
    Orchestrators.LogAppends(g.base, "Assigning goal: " + goal, now);
    assert BreakDownGoal(goal) == [("Team_A", "Design website layout"), ("Team_B", "Write website content")];
    ForwardTwoTeams(g0, "Team_A", "Design website layout", "Team_B", "Write website content", supports, now);
  }

  /** Forwarding a two-entry plan to two distinct teams. */
  lemma ForwardTwoTeams(g: GlobalOrchestrator, a: string, x: string, b: string, y: string,
                        supports: (AiNode, string) -> bool, now: string)
    requires a != b
    ensures var r := ForwardSubTasks(g, [(a, x), (b, y)], supports, now);
      && (a in Dicts.Keys(g.teams) ==>
            Dicts.Get(g.teams, a).Some? &&
            Dicts.Get(r.teams, a) == Some(LocalOrchestrators.AssignTask(Dicts.Get(g.teams, a).value, supports, x, now)))
      && (b in Dicts.Keys(g.teams) ==>
            Dicts.Get(g.teams, b).Some? &&
            Dicts.Get(r.teams, b) == Some(LocalOrchestrators.AssignTask(Dicts.Get(g.teams, b).value, supports, y, now)))
      && (a !in Dicts.Keys(g.teams) ==> Dicts.Get(r.teams, a) == None)
      && (b !in Dicts.Keys(g.teams) ==> Dicts.Get(r.teams, b) == None)
      && r.base.activityLogs ==
           g.base.activityLogs
           + (if a in Dicts.Keys(g.teams) then [] else [LogEntry("Team " + a + " not found!", now)])
           + (if b in Dicts.Keys(g.teams) then [] else [LogEntry("Team " + b + " not found!", now)])
  {
    var g1 := ForwardOne(g, a, x, supports, now);
    ForwardTwo(g, a, x, b, y, supports, now);
    Dicts.GetPresent(g.teams, a);
    Dicts.GetPresent(g.teams, b);
    Orchestrators.LogAppends(g.base, "Team " + a + " not found!", now);
    Orchestrators.LogAppends(g1.base, "Team " + b + " not found!", now);
  }

  /** The loop over a two-entry plan is two forwarding steps. */
  lemma ForwardTwo(g: GlobalOrchestrator, a: string, x: string, b: string, y: string,
                   supports: (AiNode, string) -> bool, now: string)
    ensures ForwardSubTasks(g, [(a, x), (b, y)], supports, now) ==
      ForwardOne(ForwardOne(g, a, x, supports, now), b, y, supports, now)
  {
    var tasks := [(a, x), (b, y)];
    var g1 := ForwardOne(g, a, x, supports, now);
    var g2 := ForwardOne(g1, b, y, supports, now);
    assert tasks[1..] == [(b, y)];
    assert tasks[1..][1..] == [];
    assert ForwardSubTasks(g, tasks, supports, now) == ForwardSubTasks(g1, tasks[1..], supports, now);
    assert ForwardSubTasks(g1, tasks[1..], supports, now) == ForwardSubTasks(g2, [], supports, now);
  }

  /** The sweep of `collect_team_updates` over the remaining `teams`: each
      team's orchestrator is replaced by its state after reporting, and the
      report is stored in the context under the team's name. */
  function CollectFrom(teams: Dicts.Dict<string, LocalOrchestrator>, context: Dicts.Dict<string, Value>,
                       repr: Value -> string, now: string)
    : (r: (Dicts.Dict<string, LocalOrchestrator>, Dicts.Dict<string, Value>))
    ensures |r.0| == |teams|
    ensures forall i :: 0 <= i < |teams| ==> r.0[i] == (teams[i].0, ReportProgress(teams[i].1, repr, now).1)
    ensures forall k :: k !in Dicts.Keys(teams) ==> Dicts.Get(r.1, k) == Dicts.Get(context, k)
    ensures Dicts.UniqueKeys(teams) ==>
      forall i :: 0 <= i < |teams| ==> Dicts.Get(r.1, teams[i].0) == Some(ReportProgress(teams[i].1, repr, now).0)
  {
    if |teams| == 0 then ([], context)
    else
      var (name, team) := teams[0];
      var (report, reported) := ReportProgress(team, repr, now);
      var rest := CollectFrom(teams[1..], Dicts.Put(context, name, report), repr, now);
      assert Dicts.Keys(teams) == [name] + Dicts.Keys(teams[1..]);
      ([(name, reported)] + rest.0, rest.1)
  }

  /** `collect_team_updates()`: every team reports once, in team order, and
      its report lands in the context under its name. */
  function CollectTeamUpdates(g: GlobalOrchestrator, repr: Value -> string, now: string)
    : (r: GlobalOrchestrator)
    ensures r.base == g.base
    ensures Dicts.Keys(r.teams) == Dicts.Keys(g.teams)
    ensures |r.teams| == |g.teams|
    ensures forall i :: 0 <= i < |g.teams| ==>
      r.teams[i].1 == ReportProgress(g.teams[i].1, repr, now).1
    ensures forall k :: k !in Dicts.Keys(g.teams) ==> Dicts.Get(r.context, k) == Dicts.Get(g.context, k)
    ensures Dicts.UniqueKeys(g.teams) ==>
      forall i :: 0 <= i < |g.teams| ==>
        Dicts.Get(r.context, g.teams[i].0) == Some(ReportProgress(g.teams[i].1, repr, now).0)
  {
    var (teams, context) := CollectFrom(g.teams, g.context, repr, now);
    Dicts.KeysAt(teams);
    Dicts.KeysAt(g.teams);
    g.(teams := teams, context := context)
  }

  /** `mediate_team_interaction(source, target, data)`: a known target
      receives the data with the source as sender; otherwise only the
      missing target is logged. */
  function MediateTeamInteraction(g: GlobalOrchestrator, source: string, target: string, data: Value,
                                  repr: Value -> string, now: string): (r: GlobalOrchestrator)
    ensures r.context == g.context
    ensures Dicts.Keys(r.teams) == Dicts.Keys(g.teams)
    ensures forall t :: t != target ==> Dicts.Get(r.teams, t) == Dicts.Get(g.teams, t)
    ensures target in Dicts.Keys(g.teams) ==>
      && Dicts.Get(g.teams, target).Some?
      && Dicts.Get(r.teams, target) == Some(ReceiveData(Dicts.Get(g.teams, target).value, data, Some(source), repr, now))
      && r.base == g.base
    ensures target !in Dicts.Keys(g.teams) ==>
      && r.teams == g.teams
      && r.base == LogActivity(g.base, "Target team " + target + " not found.", now)
  {
    Dicts.GetPresent(g.teams, target);
    if target in Dicts.Keys(g.teams) then
      var informed := ReceiveData(Dicts.Get(g.teams, target).value, data, Some(source), repr, now);
      g.(teams := Dicts.Put(g.teams, target, informed))
    else
      g.(base := LogActivity(g.base, "Target team " + target + " not found.", now))
  }
}
