/** `ProjectManagementAgent` of project_management_agent/new_agent.py: the
    six-operation agent. It shares every step with the richer agent except
    that `add_team_member` demands an email and `view_projects` lists the
    projects without progress figures. */
module MinimalAgent {
  import opened Optional
  import opened Dates
  import opened Entities
  import opened Commands
  import opened Operations

  /** The names `execute_function` dispatches. */
  const Registry := ["add_project", "view_projects", "add_team_member", "view_team_members",
                     "add_task", "update_user_name"]

  /** Resolve a function name and bind its keyword arguments; `add_team_member`
      needs all three of name, role and email. */
  function Bind(functionName: string, args: Args): (c: Call)
    ensures c.UnregisteredCall? <==> functionName !in Registry
    ensures c.UnregisteredCall? ==> c.unknownName == functionName
    ensures c.MismatchedCall? ==> c.mismatchedName == functionName
    ensures c.AddTeamMemberCall? ==> c.email.Some?
  {
    if functionName in {"add_project", "add_task", "update_user_name"} then BindCommon(functionName, args)
    else if functionName == "view_projects" then ViewProjectsCall
    else if functionName == "add_team_member" then
      if Binds(args, TeamMemberParams, {"name", "role", "email"}) then
        AddTeamMemberCall(TextArg(args, "name"), TextArg(args, "role"), Some(TextArg(args, "email")))
      else MismatchedCall(functionName)
    else if functionName == "view_team_members" then ViewTeamMembersCall
    else UnregisteredCall(functionName)
  }

  /** The reply of `view_projects`: the projects and their count. */
  function ProjectsReply(ps: seq<Project>): Reply
  {
    Reply("view_projects", Implicit, ProjectListing(ps, |ps|))
  }

  /** What `execute_function` does with a bound call. */
  ghost predicate CallStep(s: Session, s': Session, r: Reply, c: Call, today: string)
  {
    match c
    case AddProjectCall(n, d, dd) => AddProjectStep(s, s', r, n, d, dd, today)
    case ViewProjectsCall => s' == s && r == ProjectsReply(s.state.projects)
    case AddTeamMemberCall(n, ro, e) => AddTeamMemberStep(s, s', r, n, ro, e, today)
    case ViewTeamMembersCall => s' == s && r == TeamMembersReply(s.state.teamMembers)
    case AddTaskCall(i, n, a, d, dd, p) => AddTaskStep(s, s', r, i, n, a, d, dd, p, today)
    case UpdateUserNameCall(n) => UpdateUserNameStep(s, s', r, n)
    case UnregisteredCall(n) => s' == s && r == UnknownFunction(n)
    case MismatchedCall(n) => s' == s && r == ArgumentError(n)
    case _ => false
  }

  class ProjectManagementAgent {
    var userName: string
    var projects: seq<Project>
    var teamMembers: seq<TeamMember>
    /** The session store's blob when the agent was built, then every blob written since. */
    ghost var store: seq<StateModel>

    function State(): StateModel
      reads this
    {
      StateModel(userName, projects, teamMembers)
    }

    ghost function Snapshot(): Session
      reads this
    {
      Session(State(), store)
    }

    /** The store holds the in-memory state. */
    ghost predicate Valid()
      reads this
    {
      Persisted(Snapshot())
    }

    /** The agent resumes a session whose stored state is `initial`. */
    constructor (initial: StateModel)
      ensures Valid() && Snapshot() == Session(initial, [initial])
    {
      userName, projects, teamMembers := initial.userName, initial.projects, initial.teamMembers;
      store := [initial];
    }

    /** `_update_state`: set one key of the state, then write the whole state. */
    method UpdateState(a: Assignment)
      modifies this
      ensures Snapshot() == Saved(old(Snapshot()), Assign(old(State()), a))
      ensures Valid()
    {
      match a {
        case SetUserName(n) => userName := n;
        case SetProjects(ps) => projects := ps;
        case SetTeamMembers(ms) => teamMembers := ms;
      }
      store := store + [State()];
    }

    method AddProject(name: string, description: Option<string>, dueDate: Option<string>, today: string)
      returns (r: Reply)
      requires Valid()
      modifies this
      ensures Valid()
      ensures AddProjectStep(old(Snapshot()), Snapshot(), r, name, description, dueDate, today)
    {
      var desc := description.GetOr(DefaultDescription);
      var due := dueDate.GetOr(DefaultDueDate);
      if due != "" && ParseDate(due).None? {
        return Reply("add_project", Error, InvalidDate(due));
      }
      var p := Project(name, desc, due, [], today);
      UpdateState(SetProjects(projects + [p]));
      r := Reply("add_project", Implicit, ProjectAdded(name));
    }

    method ViewProjects() returns (r: Reply)
      ensures r == ProjectsReply(projects)
      ensures r.detail.projects == projects && r.detail.count == |projects|
    {
      r := Reply("view_projects", Implicit, ProjectListing(projects, |projects|));
    }

    /** `add_team_member` with the email the caller must give. */
    method AddTeamMember(name: string, role: string, email: string, today: string) returns (r: Reply)
      requires Valid()
      modifies this
      ensures Valid()
      ensures AddTeamMemberStep(old(Snapshot()), Snapshot(), r, name, role, Some(email), today)
    {
      var m := TeamMember(name, role, email, today);
      UpdateState(SetTeamMembers(teamMembers + [m]));
      r := Reply("add_team_member", Implicit, MemberAdded(name));
    }

    /** The same method as the richer agent's: both files define `view_team_members` alike. */
    method ViewTeamMembers() returns (r: Reply)
      ensures r == TeamMembersReply(teamMembers)
      ensures r.detail.members == teamMembers && r.detail.count == |teamMembers|
    {
      r := Reply("view_team_members", Implicit, MemberListing(teamMembers, |teamMembers|));
    }

    method AddTask(projectIndex: int, name: string, assignedTo: Option<string>, description: Option<string>,
                   dueDate: Option<string>, priority: Option<string>, today: string) returns (r: Reply)
      requires Valid()
      modifies this
      ensures Valid()
      ensures AddTaskStep(old(Snapshot()), Snapshot(), r, projectIndex, name, assignedTo, description, dueDate, priority, today)
    {
      var k := projectIndex - 1;
      if k < 0 || k >= |projects| {
        return Reply("add_task", Error, BadIndex(projectIndex, |projects|));
      }
      var t := NewTask(name, assignedTo, description, dueDate, priority, today);
      var p := projects[k];
      UpdateState(SetProjects(projects[k := p.(tasks := p.tasks + [t])]));
      r := Reply("add_task", Implicit, TaskAdded(name, p.name));
    }

    method UpdateUserName(name: string) returns (r: Reply)
      requires Valid()
      modifies this
      ensures Valid()
      ensures UpdateUserNameStep(old(Snapshot()), Snapshot(), r, name)
    {
      UpdateState(SetUserName(name));
      r := Reply("update_user_name", Implicit, NoDetail);
    }

    /** `execute_function`: dispatch a registered name with its bound arguments. */
    method ExecuteFunction(functionName: string, args: Args, today: string) returns (r: Reply)
      requires Valid()
      modifies this
      ensures Valid()
      ensures CallStep(old(Snapshot()), Snapshot(), r, Bind(functionName, args), today)
    {
      match Bind(functionName, args)
      case AddProjectCall(n, d, dd) => r := AddProject(n, d, dd, today);
      case ViewProjectsCall => r := ViewProjects();
      case AddTeamMemberCall(n, ro, e) => r := AddTeamMember(n, ro, e.value, today);
      case ViewTeamMembersCall => r := ViewTeamMembers();
      case AddTaskCall(i, n, a, d, dd, p) => r := AddTask(i, n, a, d, dd, p, today);
      case UpdateUserNameCall(n) => r := UpdateUserName(n);
      case UnregisteredCall(n) => r := UnknownFunction(n);
      case MismatchedCall(n) => r := ArgumentError(n);
    }
  }
}
