/** A worked session: from an empty state, add a project, add a task to it,
    mark the task completed and remove the completed tasks. */
module Scenarios {
  import opened Optional
  import opened Text
  import opened Dates
  import opened Entities
  import opened Resolver
  import opened Bulk
  import opened Operations
  import opened Properties
  import Agent

  /** The project `add_project` makes from a name alone. */
  function Fresh(projectName: string, today: string): Project
  {
    Project(projectName, DefaultDescription, DefaultDueDate, [], today)
  }

  /** The task `add_task` makes from a name alone, once marked completed. */
  function Done(taskName: string, today: string): Task
  {
    NewTask(taskName, None, None, None, None, today).(status := Some(Completed))
  }

  /** A new session with one project and nothing else. */
  method StartWithProject(projectName: string, today: string) returns (agent: Agent.ProjectManagementAgent)
    ensures fresh(agent) && agent.Valid()
    ensures agent.projects == [Fresh(projectName, today)]
    ensures |agent.store| == 2 && agent.store[0] == InitialState
  {
    agent := new Agent.ProjectManagementAgent(InitialState);
    ghost var s0 := agent.Snapshot();
    var r := agent.AddProject(projectName, None, None, today);
    AddProjectDefaults(s0, agent.Snapshot(), r, projectName, today);
  }

  /** Add a task to the only project, then mark it completed by name. */
  method AddCompletedTask(agent: Agent.ProjectManagementAgent, projectName: string, taskName: string, today: string)
    requires agent.Valid() && agent.projects == [Fresh(projectName, today)]
    modifies agent
    ensures agent.Valid()
    ensures agent.projects == [Fresh(projectName, today).(tasks := [Done(taskName, today)])]
    ensures |agent.store| == old(|agent.store|) + 2 && agent.store[..old(|agent.store|)] == old(agent.store)
  {
    ghost var s1 := agent.Snapshot();
    var r2 := agent.AddTask(1, taskName, None, None, None, None, today);
    AddTaskEffect(s1, agent.Snapshot(), r2, 1, taskName, None, None, None, None, today);
    ghost var t := NewTask(taskName, None, None, None, None, today);
    assert agent.projects[0] == Fresh(projectName, today).(tasks := [t]);
    assert agent.projects == [Fresh(projectName, today).(tasks := [t])];
    SelfMatches(projectName);
    SelfMatches(taskName);
    assert IsFirstMatch(Names(agent.projects, ProjectName), projectName, 0);
    assert IsFirstMatch(Names(agent.projects[0].tasks, TaskName), taskName, 0);
    ghost var s2 := agent.Snapshot();
    var r3 := agent.UpdateTaskStatus(projectName, taskName, "completed");
    UpdateTaskStatusChanges(s2, agent.Snapshot(), r3, projectName, taskName, "completed", 0, 0);
    assert Lower("completed") == Completed;
    assert agent.projects[0].tasks[0] == Done(taskName, today);
    assert agent.projects[0].tasks == [Done(taskName, today)];
    assert agent.projects[0] == Fresh(projectName, today).(tasks := [Done(taskName, today)]);
  }

  /** The project is left with no tasks, one task was removed, and the store
      holds the final state after the four writes that followed the initial
      blob. */
  method EndToEnd(projectName: string, taskName: string, today: string)
    returns (agent: Agent.ProjectManagementAgent, r: Reply)
    ensures agent.projects == [Fresh(projectName, today)]
    ensures r == Reply("remove_completed_tasks", Success, TasksRemoved(1, [projectName]))
    ensures agent.Valid() && |agent.store| == 5 && agent.store[0] == InitialState
  {
    agent := StartWithProject(projectName, today);
    AddCompletedTask(agent, projectName, taskName, today);
    ghost var ps := agent.projects;
    assert Keep([Done(taskName, today)], IsCompleted) == [];
    assert PruneAll(ps, IsCompleted) == [Fresh(projectName, today)];
    assert ps[..0] == [];
    assert [Done(taskName, today)][..0] == [];
    assert CountDropped([Done(taskName, today)], IsCompleted) == 1;
    assert DroppedTotal(ps, IsCompleted) == 1;
    assert Affected(ps, IsCompleted) == [projectName];
    r := agent.RemoveCompletedTasks();
  }
}
