/** What each operation of the agent does to the session, stated once and
    shared by both agent classes. A `Session` pairs the in-memory state with
    the session store's record of it: the blob the store held when the agent
    was built, followed by every blob `_update_state` wrote since, so the
    last entry is what the store holds now. */
module Operations {
  import opened Optional
  import opened Text
  import opened Dates
  import opened Entities
  import opened Resolver
  import opened Bulk

  datatype Session = Session(state: StateModel, store: seq<StateModel>)

  /** `_update_state(key, value)`: which key of the state gets which value. */
  datatype Assignment = SetUserName(userName: string) | SetProjects(projects: seq<Project>) | SetTeamMembers(members: seq<TeamMember>)

  function Assign(st: StateModel, a: Assignment): StateModel
  {
    match a
    case SetUserName(n) => st.(userName := n)
    case SetProjects(ps) => st.(projects := ps)
    case SetTeamMembers(ms) => st.(teamMembers := ms)
  }

  /** The in-memory state becomes `st` and the whole of it is written to the store. */
  function Saved(s: Session, st: StateModel): Session
  {
    Session(st, s.store + [st])
  }

  /** The store holds exactly the in-memory state. */
  ghost predicate Persisted(s: Session)
  {
    |s.store| > 0 && s.store[|s.store| - 1] == s.state
  }

  /** Every step of this module either leaves the session alone or ends by
      writing the whole new state, so the store never lags behind memory. */
  lemma SavedIsPersisted(s: Session, st: StateModel)
    ensures Persisted(Saved(s, st))
    ensures |Saved(s, st).store| == |s.store| + 1
  {
  }

  ghost predicate AddProjectStep(s: Session, s': Session, r: Reply, name: string,
                                 description: Option<string>, dueDate: Option<string>, today: string)
  {
    var due := dueDate.GetOr(DefaultDueDate);
    if DueDateAccepted(due) then
      var p := Project(name, description.GetOr(DefaultDescription), due, [], today);
      s' == Saved(s, s.state.(projects := s.state.projects + [p]))
      && r == Reply("add_project", Implicit, ProjectAdded(name))
    else
      s' == s && r == Reply("add_project", Error, InvalidDate(due))
  }

  ghost predicate AddTeamMemberStep(s: Session, s': Session, r: Reply, name: string, role: string,
                                    email: Option<string>, today: string)
  {
    var m := TeamMember(name, role, email.GetOr(DefaultEmail(name)), today);
    s' == Saved(s, s.state.(teamMembers := s.state.teamMembers + [m]))
    && r == Reply("add_team_member", Implicit, MemberAdded(name))
  }

  /** A 1-based index outside `[1, count]` is an error that changes nothing;
      a valid one appends the new task to project `index - 1` alone. */
  ghost predicate AddTaskStep(s: Session, s': Session, r: Reply, index: int, name: string,
                              assignedTo: Option<string>, description: Option<string>,
                              dueDate: Option<string>, priority: Option<string>, today: string)
  {
    var ps := s.state.projects;
    if 1 <= index <= |ps| then
      var k := index - 1;
      var t := NewTask(name, assignedTo, description, dueDate, priority, today);
      s' == Saved(s, s.state.(projects := ps[k := ps[k].(tasks := ps[k].tasks + [t])]))
      && r == Reply("add_task", Implicit, TaskAdded(name, ps[k].name))
    else
      s' == s && r == Reply("add_task", Error, BadIndex(index, |ps|))
  }

  ghost predicate UpdateUserNameStep(s: Session, s': Session, r: Reply, name: string)
  {
    s' == Saved(s, s.state.(userName := name)) && r == Reply("update_user_name", Implicit, NoDetail)
  }

  ghost predicate UpdateTeamMemberStep(s: Session, s': Session, r: Reply, index: int,
                                       name: Option<string>, role: Option<string>, email: Option<string>)
  {
    var ms := s.state.teamMembers;
    if 1 <= index <= |ms| then
      var k := index - 1;
      var m := Patched(ms[k], name, role, email);
      s' == Saved(s, s.state.(teamMembers := ms[k := m]))
      && r == Reply("update_team_member", Implicit, MemberUpdated(m.name))
    else
      s' == s && r == Reply("update_team_member", Error, BadIndex(index, |ms|))
  }

  ghost predicate DeleteTeamMemberStep(s: Session, s': Session, r: Reply, index: int)
  {
    var ms := s.state.teamMembers;
    if 1 <= index <= |ms| then
      var k := index - 1;
      s' == Saved(s, s.state.(teamMembers := ms[..k] + ms[k + 1..]))
      && r == Reply("delete_team_member", Implicit, MemberDeleted(ms[k].name))
    else
      s' == s && r == Reply("delete_team_member", Error, BadIndex(index, |ms|))
  }

  ghost predicate DeleteProjectStep(s: Session, s': Session, r: Reply, index: int)
  {
    var ps := s.state.projects;
    if 1 <= index <= |ps| then
      var k := index - 1;
      s' == Saved(s, s.state.(projects := ps[..k] + ps[k + 1..]))
      && r == Reply("delete_project", Implicit, ProjectDeleted(ps[k].name))
    else
      s' == s && r == Reply("delete_project", Error, BadIndex(index, |ps|))
  }

  /** The error a by-name operation gives when the search did not find exactly one project. */
  function ByNameError(action: string, query: string, hs: seq<Hit<Project>>): Reply
  {
    Reply(action, Error, if hs == [] then UnknownProject(query) else AmbiguousProject(query, Entries(hs)))
  }

  /** On a unique match this is `add_task` at the match's index; otherwise an error that changes nothing. */
  ghost predicate AddTaskByProjectNameStep(s: Session, s': Session, r: Reply, projectName: string,
                                           taskName: string, assignedTo: Option<string>,
                                           description: Option<string>, dueDate: Option<string>,
                                           priority: Option<string>, today: string)
  {
    var hs := ProjectHits(s.state.projects, projectName);
    if |hs| == 1 then
      AddTaskStep(s, s', r, hs[0].index, taskName, assignedTo, description, dueDate, priority, today)
    else
      s' == s && r == ByNameError("add_task_by_project_name", projectName, hs)
  }

  ghost predicate DeleteProjectByNameStep(s: Session, s': Session, r: Reply, name: string)
  {
    var hs := ProjectHits(s.state.projects, name);
    if |hs| == 1 then DeleteProjectStep(s, s', r, hs[0].index)
    else s' == s && r == ByNameError("delete_project_by_name", name, hs)
  }

  /** `add_task_smart` once its phrase patterns have run: `projectName` is
      what they extracted (empty when none matched and no hint was given). */
  ghost predicate AddTaskSmartStep(s: Session, s': Session, r: Reply, taskName: string,
                                   projectName: string, today: string)
  {
    if projectName == "" then
      var ps := s.state.projects;
      s' == s && r == Reply("add_task_smart", Error, if ps == [] then NoDetail else ChooseProject(taskName, Numbered(ps)))
    else
      AddTaskByProjectNameStep(s, s', r, projectName, taskName, None, None, None, None, today)
  }

  ghost predicate ClearAllProjectsStep(s: Session, s': Session, r: Reply)
  {
    s' == Saved(s, s.state.(projects := [])) && r == Reply("clear_all_projects", Implicit, NoDetail)
  }

  ghost predicate ClearAllTeamMembersStep(s: Session, s': Session, r: Reply)
  {
    s' == Saved(s, s.state.(teamMembers := [])) && r == Reply("clear_all_team_members", Implicit, NoDetail)
  }

  /** Two writes: first with the projects cleared, then with the team cleared too. */
  ghost predicate ClearAllDataStep(s: Session, s': Session, r: Reply)
  {
    s' == Saved(Saved(s, s.state.(projects := [])), s.state.(projects := [], teamMembers := []))
    && r == Reply("clear_all_data", Implicit, NoDetail)
  }

  /** The first project whose name matches, then the first task in it whose
      name matches, gets the lowered new status; the reply carries the old
      status (a missing one reads "pending") and the new status as given. */
  ghost predicate UpdateTaskStatusStep(s: Session, s': Session, r: Reply, projectName: string,
                                       taskName: string, newStatus: string)
  {
    var ps := s.state.projects;
    match FirstHit(Names(ps, ProjectName), projectName)
    case None =>
      s' == s && r == Reply("update_task_status", Error, UnknownProject(projectName))
    case Some(i) =>
      var p := ps[i];
      match FirstHit(Names(p.tasks, TaskName), taskName)
      case None =>
        s' == s && r == Reply("update_task_status", Error, UnknownTask(taskName, p.name))
      case Some(j) =>
        var t := p.tasks[j];
        var p' := p.(tasks := p.tasks[j := t.(status := Some(Lower(newStatus)))]);
        s' == Saved(s, s.state.(projects := ps[i := p']))
        && r == Reply("update_task_status", Success, StatusChanged(p.name, t.name, StatusOf(t), newStatus))
  }

  /** With no projects: an error and no write. Otherwise every matching task
      goes, the whole state is written even when nothing went, and the reply
      counts the deleted tasks and names the projects that lost one. */
  ghost predicate DeleteTasksByNameStep(s: Session, s': Session, r: Reply, taskName: string)
  {
    var ps := s.state.projects;
    var f := NameContains(taskName);
    if ps == [] then
      s' == s && r == Reply("delete_tasks_by_name", Error, NoDetail)
    else
      s' == Saved(s, s.state.(projects := PruneAll(ps, f)))
      && r == if DroppedTotal(ps, f) == 0
              then Reply("delete_tasks_by_name", NotFound, NoTaskMatched(taskName))
              else Reply("delete_tasks_by_name", Success, TasksDeleted(taskName, DroppedTotal(ps, f), Affected(ps, f)))
  }

  ghost predicate RemoveCompletedTasksStep(s: Session, s': Session, r: Reply)
  {
    var ps := s.state.projects;
    if ps == [] then
      s' == s && r == Reply("remove_completed_tasks", Error, NoDetail)
    else
      s' == Saved(s, s.state.(projects := PruneAll(ps, IsCompleted)))
      && r == if DroppedTotal(ps, IsCompleted) == 0
              then Reply("remove_completed_tasks", NoTasks, NoDetail)
              else Reply("remove_completed_tasks", Success,
                         TasksRemoved(DroppedTotal(ps, IsCompleted), Affected(ps, IsCompleted)))
  }

  /** The reply of `find_project_by_name`. */
  function FindProjectReply(ps: seq<Project>, query: string): Reply
  {
    var l := Classify(ProjectHits(ps, query));
    Reply("find_project_by_name", LookupStatus(l), ProjectLookup(l))
  }

  /** The reply of `find_team_member_by_name`. */
  function FindTeamMemberReply(ms: seq<TeamMember>, query: string): Reply
  {
    var l := Classify(MemberHits(ms, query));
    Reply("find_team_member_by_name", LookupStatus(l), MemberLookup(l))
  }

  /** The reply of `view_team_members`, the same in both agents. */
  function TeamMembersReply(ms: seq<TeamMember>): Reply
  {
    Reply("view_team_members", Implicit, MemberListing(ms, |ms|))
  }
}
