/** `ProjectManagementAgent` of project_management_agent/agent.py: the
    richer agent. Its state lives in fields that the operations update in
    place; every change goes through `UpdateState`, which writes the whole
    state to the session store. */
module Agent {
  import opened Optional
  import opened Text
  import opened Dates
  import opened Entities
  import opened Resolver
  import opened Bulk
  import opened Commands
  import opened Operations

  /** The names `execute_function` dispatches. */
  const Registry := ["add_project", "view_projects", "add_team_member", "view_team_members",
                     "add_task", "update_user_name", "update_team_member", "delete_team_member",
                     "find_team_member_by_name", "find_project_by_name"]

  const MemberPatchParams := map["index" := IntKind, "name" := TextKind, "role" := TextKind, "email" := TextKind]
  const IndexParam := map["index" := IntKind]

  /** Resolve a function name and bind its keyword arguments: an unregistered
      name binds to nothing, and arguments that do not fit the method's
      parameters are a mismatch. The two view methods ignore their arguments. */
  function Bind(functionName: string, args: Args): (c: Call)
    ensures c.UnregisteredCall? <==> functionName !in Registry
    ensures c.UnregisteredCall? ==> c.unknownName == functionName
    ensures c.MismatchedCall? ==> c.mismatchedName == functionName
  {
    if functionName in {"add_project", "add_task", "update_user_name"} then BindCommon(functionName, args)
    else if functionName == "view_projects" then ViewProjectsCall
    else if functionName == "view_team_members" then ViewTeamMembersCall
    else if functionName in {"add_team_member", "update_team_member", "delete_team_member"} then
      BindMemberCall(functionName, args)
    else if functionName in {"find_team_member_by_name", "find_project_by_name"} then
      BindFindCall(functionName, args)
    else UnregisteredCall(functionName)
  }

  /** The three team methods: `add_team_member` needs name and role,
      `update_team_member` and `delete_team_member` need the index. Each
      binds to its own call, carrying the values supplied, exactly when the
      arguments fit its parameters. */
  function BindMemberCall(functionName: string, args: Args): (c: Call)
    requires functionName in {"add_team_member", "update_team_member", "delete_team_member"}
    ensures c.MismatchedCall? ==> c.mismatchedName == functionName
    ensures !c.UnregisteredCall?
    ensures functionName == "add_team_member" ==>
              (c.AddTeamMemberCall? || c.MismatchedCall?)
              && (c.AddTeamMemberCall? <==> Binds(args, TeamMemberParams, {"name", "role"}))
    ensures c.AddTeamMemberCall? ==>
              Supplied(args, "name", Str(c.name)) && Supplied(args, "role", Str(c.role)) && Carries(args, "email", c.email)
    ensures functionName == "update_team_member" ==>
              (c.UpdateTeamMemberCall? || c.MismatchedCall?)
              && (c.UpdateTeamMemberCall? <==> Binds(args, MemberPatchParams, {"index"}))
    ensures c.UpdateTeamMemberCall? ==>
              Supplied(args, "index", Num(c.index)) && Carries(args, "name", c.newName)
              && Carries(args, "role", c.newRole) && Carries(args, "email", c.newEmail)
    ensures functionName == "delete_team_member" ==>
              (c.DeleteTeamMemberCall? || c.MismatchedCall?) && (c.DeleteTeamMemberCall? <==> Binds(args, IndexParam, {"index"}))
    ensures c.DeleteTeamMemberCall? ==> Supplied(args, "index", Num(c.index))
  {
    if functionName == "add_team_member" then
      if Binds(args, TeamMemberParams, {"name", "role"}) then
        AddTeamMemberCall(TextArg(args, "name"), TextArg(args, "role"), OptText(args, "email"))
      else MismatchedCall(functionName)
    else if functionName == "update_team_member" then
      if Binds(args, MemberPatchParams, {"index"}) then
        UpdateTeamMemberCall(IntArg(args, "index"), OptText(args, "name"), OptText(args, "role"), OptText(args, "email"))
      else MismatchedCall(functionName)
    else
      if Binds(args, IndexParam, {"index"}) then DeleteTeamMemberCall(IntArg(args, "index"))
      else MismatchedCall(functionName)
  }

  /** The two lookups, which need the name: each binds to its own lookup of
      the name supplied exactly when the arguments fit. */
  function BindFindCall(functionName: string, args: Args): (c: Call)
    requires functionName in {"find_team_member_by_name", "find_project_by_name"}
    ensures c.MismatchedCall? ==> c.mismatchedName == functionName
    ensures !c.UnregisteredCall?
    ensures c.MismatchedCall? <==> !Binds(args, NameParam, {"name"})
    ensures functionName == "find_team_member_by_name" ==> (c.FindTeamMemberCall? || c.MismatchedCall?)
    ensures functionName == "find_project_by_name" ==> (c.FindProjectCall? || c.MismatchedCall?)
    ensures c.FindTeamMemberCall? || c.FindProjectCall? ==> Supplied(args, "name", Str(c.query))
  {
    if !Binds(args, NameParam, {"name"}) then MismatchedCall(functionName)
    else if functionName == "find_team_member_by_name" then FindTeamMemberCall(TextArg(args, "name"))
    else FindProjectCall(TextArg(args, "name"))
  }

  /** Completed and total tasks of every project. */
  function Overview(ps: seq<Project>): seq<Progress>
  {
    seq(|ps|, i requires 0 <= i < |ps| => Progress(CountDropped(ps[i].tasks, IsCompleted), |ps[i].tasks|))
  }

  /** The reply of `view_projects`. */
  function ProjectsReply(ps: seq<Project>): Reply
  {
    if ps == [] then Reply("view_projects", Implicit, ProjectListing([], 0))
    else Reply("view_projects", Implicit, ProjectOverview(ps, |ps|, Overview(ps)))
  }

  /** No project reports more completed tasks than it has. */
  lemma OverviewBounded(ps: seq<Project>)
    ensures |Overview(ps)| == |ps|
    ensures forall i :: 0 <= i < |ps| ==> Overview(ps)[i].completed <= Overview(ps)[i].total == |ps[i].tasks|
  {
    forall i | 0 <= i < |ps| {
      KeepCount(ps[i].tasks, IsCompleted);
    }
  }

  /** What `execute_function` does with a bound call. */
  ghost predicate CallStep(s: Session, s': Session, r: Reply, c: Call, today: string)
  {
    match c
    case AddProjectCall(n, d, dd) => AddProjectStep(s, s', r, n, d, dd, today)
    case ViewProjectsCall => s' == s && r == ProjectsReply(s.state.projects)
    case AddTeamMemberCall(n, ro, e) => AddTeamMemberStep(s, s', r, n, ro, e, today)
    case ViewTeamMembersCall => s' == s && r == TeamMembersReply(s.state.teamMembers)
    case AddTaskCall(i, n, a, d, dd, p) => AddTaskStep(s, s', r, i, n, a, d, dd, p, today)
    case UpdateUserNameCall(n) => UpdateUserNameStep(s, s', r, n)
    case UpdateTeamMemberCall(i, n, ro, e) => UpdateTeamMemberStep(s, s', r, i, n, ro, e)
    case DeleteTeamMemberCall(i) => DeleteTeamMemberStep(s, s', r, i)
    case FindTeamMemberCall(q) => s' == s && r == FindTeamMemberReply(s.state.teamMembers, q)
    case FindProjectCall(q) => s' == s && r == FindProjectReply(s.state.projects, q)
    case UnregisteredCall(n) => s' == s && r == UnknownFunction(n)
    case MismatchedCall(n) => s' == s && r == ArgumentError(n)
  }

  class ProjectManagementAgent {
    var userName: string
    var projects: seq<Project>
    var teamMembers: seq<TeamMember>
    /** The session store's blob when the agent was built, then every blob written since. */
    ghost var store: seq<StateModel>

    function State(): StateModel
      reads this
    {
      StateModel(userName, projects, teamMembers)
    }

    ghost function Snapshot(): Session
      reads this
    {
      Session(State(), store)
    }

    /** The store holds the in-memory state. */
    ghost predicate Valid()
      reads this
    {
      Persisted(Snapshot())
    }

    /** The agent resumes a session whose stored state is `initial`. */
    constructor (initial: StateModel)
      ensures Valid() && Snapshot() == Session(initial, [initial])
    {
      userName, projects, teamMembers := initial.userName, initial.projects, initial.teamMembers;
      store := [initial];
    }

    /** `_update_state`: set one key of the state, then write the whole state. */
    method UpdateState(a: Assignment)
      modifies this
      ensures Snapshot() == Saved(old(Snapshot()), Assign(old(State()), a))
      ensures Valid()
    {
      match a {
        case SetUserName(n) => userName := n;
        case SetProjects(ps) => projects := ps;
        case SetTeamMembers(ms) => teamMembers := ms;
      }
      store := store + [State()];
    }

    method AddProject(name: string, description: Option<string>, dueDate: Option<string>, today: string)
      returns (r: Reply)
      requires Valid()
      modifies this
      ensures Valid()
      ensures AddProjectStep(old(Snapshot()), Snapshot(), r, name, description, dueDate, today)
    {
      var desc := description.GetOr(DefaultDescription);
      var due := dueDate.GetOr(DefaultDueDate);
      if due != "" && ParseDate(due).None? {
        return Reply("add_project", Error, InvalidDate(due));
      }
      var p := Project(name, desc, due, [], today);
      UpdateState(SetProjects(projects + [p]));
      r := Reply("add_project", Implicit, ProjectAdded(name));
    }

    /** `view_projects`: the projects, their count and each one's progress. */
    method ViewProjects() returns (r: Reply)
      ensures r == ProjectsReply(projects)
      ensures r.detail.ProjectListing? <==> projects == []
      ensures r.detail.count == |projects|
    {
      if projects == [] {
        return Reply("view_projects", Implicit, ProjectListing([], 0));
      }
      var progress: seq<Progress> := [];
      var i := 0;
      while i < |projects|
        invariant 0 <= i <= |projects|
        invariant progress == Overview(projects[..i])
      {
        var tasks := projects[i].tasks;
        progress := progress + [Progress(CountDropped(tasks, IsCompleted), |tasks|)];
        i := i + 1;
      }
      assert projects[..i] == projects;
      r := Reply("view_projects", Implicit, ProjectOverview(projects, |projects|, progress));
    }

    method AddTeamMember(name: string, role: string, email: Option<string>, today: string) returns (r: Reply)
      requires Valid()
      modifies this
      ensures Valid()
      ensures AddTeamMemberStep(old(Snapshot()), Snapshot(), r, name, role, email, today)
    {
      var address := email.GetOr(DefaultEmail(name));
      var m := TeamMember(name, role, address, today);
      UpdateState(SetTeamMembers(teamMembers + [m]));
      r := Reply("add_team_member", Implicit, MemberAdded(name));
    }

    method ViewTeamMembers() returns (r: Reply)
      ensures r == TeamMembersReply(teamMembers)
      ensures r.detail.members == teamMembers && r.detail.count == |teamMembers|
    {
      r := Reply("view_team_members", Implicit, MemberListing(teamMembers, |teamMembers|));
    }

    method AddTask(projectIndex: int, name: string, assignedTo: Option<string>, description: Option<string>,
                   dueDate: Option<string>, priority: Option<string>, today: string) returns (r: Reply)
      requires Valid()
      modifies this
      ensures Valid()
      ensures AddTaskStep(old(Snapshot()), Snapshot(), r, projectIndex, name, assignedTo, description, dueDate, priority, today)
    {
      var k := projectIndex - 1;
      if k < 0 || k >= |projects| {
        return Reply("add_task", Error, BadIndex(projectIndex, |projects|));
      }
      var t := NewTask(name, assignedTo, description, dueDate, priority, today);
      var p := projects[k];
      UpdateState(SetProjects(projects[k := p.(tasks := p.tasks + [t])]));
      r := Reply("add_task", Implicit, TaskAdded(name, p.name));
    }

    method UpdateUserName(name: string) returns (r: Reply)
      requires Valid()
      modifies this
      ensures Valid()
      ensures UpdateUserNameStep(old(Snapshot()), Snapshot(), r, name)
    {
      UpdateState(SetUserName(name));
      r := Reply("update_user_name", Implicit, NoDetail);
    }

    method UpdateTeamMember(index: int, name: Option<string>, role: Option<string>, email: Option<string>)
      returns (r: Reply)
      requires Valid()
      modifies this
      ensures Valid()
      ensures UpdateTeamMemberStep(old(Snapshot()), Snapshot(), r, index, name, role, email)
    {
      var k := index - 1;
      if k < 0 || k >= |teamMembers| {
        return Reply("update_team_member", Error, BadIndex(index, |teamMembers|));
      }
      var m := teamMembers[k];
      if name.Some? { m := m.(name := name.value); }
      if role.Some? { m := m.(role := role.value); }
      if email.Some? { m := m.(email := email.value); }
      UpdateState(SetTeamMembers(teamMembers[k := m]));
      r := Reply("update_team_member", Implicit, MemberUpdated(m.name));
    }

    method DeleteTeamMember(index: int) returns (r: Reply)
      requires Valid()
      modifies this
      ensures Valid()
      ensures DeleteTeamMemberStep(old(Snapshot()), Snapshot(), r, index)
    {
      var k := index - 1;
      if k < 0 || k >= |teamMembers| {
        return Reply("delete_team_member", Error, BadIndex(index, |teamMembers|));
      }
      var deleted := teamMembers[k];
      UpdateState(SetTeamMembers(teamMembers[..k] + teamMembers[k + 1..]));
      r := Reply("delete_team_member", Implicit, MemberDeleted(deleted.name));
    }

    /** `find_team_member_by_name`: scan the team in order, collecting every match. */
    method FindTeamMemberByName(name: string) returns (r: Reply)
      ensures r == FindTeamMemberReply(teamMembers, name)
      ensures r.status == NotFound <==> forall i :: 0 <= i < |teamMembers| ==> !NameMatches(teamMembers[i].name, name)
    {
      var names := Names(teamMembers, MemberName);
      var matches := CollectHits(teamMembers, names, name);
      NoHitsIffNoMatch(teamMembers, names, name);
      var l := Classify(matches);
      r := Reply("find_team_member_by_name", LookupStatus(l), MemberLookup(l));
    }

    /** `find_project_by_name`: scan the projects in order, collecting every match. */
    method FindProjectByName(name: string) returns (r: Reply)
      ensures r == FindProjectReply(projects, name)
      ensures r.status == NotFound <==> forall i :: 0 <= i < |projects| ==> !NameMatches(projects[i].name, name)
    {
      var names := Names(projects, ProjectName);
      var matches := CollectHits(projects, names, name);
      NoHitsIffNoMatch(projects, names, name);
      var l := Classify(matches);
      r := Reply("find_project_by_name", LookupStatus(l), ProjectLookup(l));
    }

    method AddTaskByProjectName(projectName: string, taskName: string, assignedTo: Option<string>,
                                description: Option<string>, dueDate: Option<string>,
                                priority: Option<string>, today: string) returns (r: Reply)
      requires Valid()
      modifies this
      ensures Valid()
      ensures AddTaskByProjectNameStep(old(Snapshot()), Snapshot(), r, projectName, taskName,
                                       assignedTo, description, dueDate, priority, today)
    {
      var found := FindProjectByName(projectName);
      if found.status == NotFound {
        return Reply("add_task_by_project_name", Error, UnknownProject(projectName));
      } else if found.status == MultipleMatches {
        var candidates := Entries(found.detail.projectLookup.hits);
        return Reply("add_task_by_project_name", Error, AmbiguousProject(projectName, candidates));
      }
      r := AddTask(found.detail.projectLookup.hit.index, taskName, assignedTo, description, dueDate, priority, today);
    }

    /** `add_task_smart` once its phrase patterns have extracted `projectName`
        (empty when none matched and no hint was given). */
    method AddTaskSmart(taskName: string, projectName: string, today: string) returns (r: Reply)
      requires Valid()
      modifies this
      ensures Valid()
      ensures AddTaskSmartStep(old(Snapshot()), Snapshot(), r, taskName, projectName, today)
    {
      if projectName == "" {
        if projects == [] {
          return Reply("add_task_smart", Error, NoDetail);
        }
        return Reply("add_task_smart", Error, ChooseProject(taskName, Numbered(projects)));
      }
      r := AddTaskByProjectName(projectName, taskName, None, None, None, None, today);
    }

    /** `execute_function`: dispatch a registered name with its bound arguments. */
    method ExecuteFunction(functionName: string, args: Args, today: string) returns (r: Reply)
      requires Valid()
      modifies this
      ensures Valid()
      ensures CallStep(old(Snapshot()), Snapshot(), r, Bind(functionName, args), today)
    {
      match Bind(functionName, args)
      case AddProjectCall(n, d, dd) => r := AddProject(n, d, dd, today);
      case ViewProjectsCall => r := ViewProjects();
      case AddTeamMemberCall(n, ro, e) => r := AddTeamMember(n, ro, e, today);
      case ViewTeamMembersCall => r := ViewTeamMembers();
      case AddTaskCall(i, n, a, d, dd, p) => r := AddTask(i, n, a, d, dd, p, today);
      case UpdateUserNameCall(n) => r := UpdateUserName(n);
      case UpdateTeamMemberCall(i, n, ro, e) => r := UpdateTeamMember(i, n, ro, e);
      case DeleteTeamMemberCall(i) => r := DeleteTeamMember(i);
      case FindTeamMemberCall(q) => r := FindTeamMemberByName(q);
      case FindProjectCall(q) => r := FindProjectByName(q);
      case UnregisteredCall(n) => r := UnknownFunction(n);
      case MismatchedCall(n) => r := ArgumentError(n);
    }

    method DeleteProject(index: int) returns (r: Reply)
      requires Valid()
      modifies this
      ensures Valid()
      ensures DeleteProjectStep(old(Snapshot()), Snapshot(), r, index)
    {
      var k := index - 1;
      if k < 0 || k >= |projects| {
        return Reply("delete_project", Error, BadIndex(index, |projects|));
      }
      var deleted := projects[k];
      UpdateState(SetProjects(projects[..k] + projects[k + 1..]));
      r := Reply("delete_project", Implicit, ProjectDeleted(deleted.name));
    }

    method DeleteProjectByName(name: string) returns (r: Reply)
      requires Valid()
      modifies this
      ensures Valid()
      ensures DeleteProjectByNameStep(old(Snapshot()), Snapshot(), r, name)
    {
      var found := FindProjectByName(name);
      if found.status == NotFound {
        return Reply("delete_project_by_name", Error, UnknownProject(name));
      } else if found.status == MultipleMatches {
        var candidates := Entries(found.detail.projectLookup.hits);
        return Reply("delete_project_by_name", Error, AmbiguousProject(name, candidates));
      }
      r := DeleteProject(found.detail.projectLookup.hit.index);
    }

    method ClearAllProjects() returns (r: Reply)
      requires Valid()
      modifies this
      ensures Valid()
      ensures ClearAllProjectsStep(old(Snapshot()), Snapshot(), r)
    {
      UpdateState(SetProjects([]));
      r := Reply("clear_all_projects", Implicit, NoDetail);
    }

    method ClearAllTeamMembers() returns (r: Reply)
      requires Valid()
      modifies this
      ensures Valid()
      ensures ClearAllTeamMembersStep(old(Snapshot()), Snapshot(), r)
    {
      UpdateState(SetTeamMembers([]));
      r := Reply("clear_all_team_members", Implicit, NoDetail);
    }

    method ClearAllData() returns (r: Reply)
      requires Valid()
      modifies this
      ensures Valid()
      ensures ClearAllDataStep(old(Snapshot()), Snapshot(), r)
    {
      UpdateState(SetProjects([]));
      UpdateState(SetTeamMembers([]));
      r := Reply("clear_all_data", Implicit, NoDetail);
    }

    method UpdateTaskStatus(projectName: string, taskName: string, newStatus: string) returns (r: Reply)
      requires Valid()
      modifies this
      ensures Valid()
      ensures UpdateTaskStatusStep(old(Snapshot()), Snapshot(), r, projectName, taskName, newStatus)
    {
      var pi := FirstMatching(Names(projects, ProjectName), projectName);
      if pi.None? {
        return Reply("update_task_status", Error, UnknownProject(projectName));
      }
      var p := projects[pi.value];
      var ti := FirstMatching(Names(p.tasks, TaskName), taskName);
      if ti.None? {
        return Reply("update_task_status", Error, UnknownTask(taskName, p.name));
      }
      var t := p.tasks[ti.value];
      var oldStatus := StatusOf(t);
      var p' := p.(tasks := p.tasks[ti.value := t.(status := Some(Lower(newStatus)))]);
      UpdateState(SetProjects(projects[pi.value := p']));
      r := Reply("update_task_status", Success, StatusChanged(p.name, t.name, oldStatus, newStatus));
    }

    method DeleteTasksByName(taskName: string) returns (r: Reply)
      requires Valid()
      modifies this
      ensures Valid()
      ensures DeleteTasksByNameStep(old(Snapshot()), Snapshot(), r, taskName)
    {
      if projects == [] {
        return Reply("delete_tasks_by_name", Error, NoDetail);
      }
      var ps, deletedCount, affected := DeleteByNameScan(projects, taskName);
      UpdateState(SetProjects(ps));
      if deletedCount == 0 {
        r := Reply("delete_tasks_by_name", NotFound, NoTaskMatched(taskName));
      } else {
        r := Reply("delete_tasks_by_name", Success, TasksDeleted(taskName, deletedCount, affected));
      }
    }

    method RemoveCompletedTasks() returns (r: Reply)
      requires Valid()
      modifies this
      ensures Valid()
      ensures RemoveCompletedTasksStep(old(Snapshot()), Snapshot(), r)
    {
      if projects == [] {
        return Reply("remove_completed_tasks", Error, NoDetail);
      }
      var ps, removedCount, affected := RemoveCompletedScan(projects);
      UpdateState(SetProjects(ps));
      if removedCount == 0 {
        r := Reply("remove_completed_tasks", NoTasks, NoDetail);
      } else {
        r := Reply("remove_completed_tasks", Success, TasksRemoved(removedCount, affected));
      }
    }
  }
}
