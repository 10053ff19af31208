/** The in-memory state of the project-management agent: the user's name,
    the projects (each owning its tasks) and the team members, all kept in
    insertion order, plus the structured replies the operations return. */
module Entities {
  import opened Optional
  import opened Text

  const DefaultDescription := "No description provided"
  const DefaultDueDate := "2025-12-31"
  const DefaultAssignee := "Unassigned"
  const DefaultPriority := "medium"
  const Pending := "pending"
  const Completed := "completed"
  const EmailDomain := "@company.com"

  /** A task of a project. `status` is `None` when a stored task has no
      status key; every task the agent creates has one. */
  datatype Task = Task(
    name: string,
    description: string,
    assignedTo: string,
    dueDate: string,
    priority: string,
    status: Option<string>,
    createdAt: string)

  /** A project and its tasks, in insertion order. */
  datatype Project = Project(
    name: string,
    description: string,
    dueDate: string,
    tasks: seq<Task>,
    createdAt: string)

  datatype TeamMember = TeamMember(name: string, role: string, email: string, createdAt: string)

  /** The whole state the agent holds and writes to the session store. */
  datatype StateModel = StateModel(userName: string, projects: seq<Project>, teamMembers: seq<TeamMember>)

  /** The state a fresh session starts from. */
  const InitialState := StateModel("Project Manager", [], [])

  /** `task.get("status", "pending")`. */
  function StatusOf(t: Task): string
  {
    t.status.GetOr(Pending)
  }

  /** The email `add_team_member` invents: `name.lower().replace(' ', '.') + "@company.com"`. */
  function DefaultEmail(name: string): (e: string)
    ensures |e| == |name| + |EmailDomain| && e[|name|..] == EmailDomain
    ensures forall i :: 0 <= i < |name| ==> e[i] != ' '
    ensures forall i :: 0 <= i < |name| ==> e[i] == (if name[i] == ' ' then '.' else LowerChar(name[i]))
  {
    DotSpaces(Lower(name)) + EmailDomain
  }

  /** The name of every entity, in order. */
  function Names<T>(xs: seq<T>, name: T -> string): (names: seq<string>)
    ensures |names| == |xs| && forall i :: 0 <= i < |xs| ==> names[i] == name(xs[i])
  {
    seq(|xs|, i requires 0 <= i < |xs| => name(xs[i]))
  }

  function ProjectName(p: Project): string
  {
    p.name
  }

  function MemberName(m: TeamMember): string
  {
    m.name
  }

  function TaskName(t: Task): string
  {
    t.name
  }

  /** One entry of a name search: a 1-based position and the entity there. */
  datatype Hit<T> = Hit(index: int, item: T)

  /** The three outcomes of a name search. */
  datatype Lookup<T> = NoMatch | OneMatch(hit: Hit<T>) | ManyMatches(hits: seq<Hit<T>>)

  /** A numbered line of a candidate list shown to the caller. */
  datatype Entry = Entry(index: int, name: string)

  /** Completed and total task counts of one project, as `view_projects` reports them. */
  datatype Progress = Progress(completed: nat, total: nat)

  /** The `status` key of a reply; `Implicit` is a reply without one. */
  datatype Status = Implicit | Success | Error | NotFound | Found | MultipleMatches | NoTasks

  /** The structured fields of a reply (its human-readable `message` is not
      modelled), and the values an error message reports. */
  datatype Detail =
    | NoDetail
    | ProjectAdded(project: string)
    | InvalidDate(dueDate: string)
    | ProjectListing(projects: seq<Project>, count: nat)
    | ProjectOverview(projects: seq<Project>, count: nat, progress: seq<Progress>)
    | MemberAdded(member: string)
    | MemberListing(members: seq<TeamMember>, count: nat)
    | TaskAdded(task: string, project: string)
    | BadIndex(index: int, count: nat)
    | MemberUpdated(member: string)
    | MemberDeleted(member: string)
    | ProjectDeleted(project: string)
    | ProjectLookup(projectLookup: Lookup<Project>)
    | MemberLookup(memberLookup: Lookup<TeamMember>)
    | UnknownProject(projectQuery: string)
    | AmbiguousProject(projectQuery: string, candidates: seq<Entry>)
    | ChooseProject(taskName: string, choices: seq<Entry>)
    | UnknownTask(taskQuery: string, inProject: string)
    | StatusChanged(changedProject: string, changedTask: string, oldStatus: string, newStatus: string)
    | NoTaskMatched(query: string)
    | TasksDeleted(deletedQuery: string, deletedCount: nat, deletedFrom: seq<string>)
    | TasksRemoved(removedCount: nat, removedFrom: seq<string>)

  /** What an operation hands back to its caller. `UnknownFunction` is the
      dispatcher's `{"error": ...}`; `ArgumentError` stands for the
      `TypeError` Python raises when keyword arguments do not fit. */
  datatype Reply =
    | Reply(action: string, status: Status, detail: Detail)
    | UnknownFunction(functionName: string)
    | ArgumentError(calledName: string)

  /** The candidate list of an ambiguous lookup: the k-th line pairs the
      k-th hit's 1-based position with that project's name. */
  function Entries(hits: seq<Hit<Project>>): seq<Entry>
  {
    seq(|hits|, k requires 0 <= k < |hits| => Entry(hits[k].index, hits[k].item.name))
  }

  /** Every project numbered from 1, as the agent lists them: the i-th line
      pairs position i + 1 with the i-th project's name. */
  function Numbered(ps: seq<Project>): seq<Entry>
  {
    seq(|ps|, i requires 0 <= i < |ps| => Entry(i + 1, ps[i].name))
  }

  /** The task `add_task` creates: the given name, status "pending", and the
      documented default for every field the caller left out. */
  function NewTask(name: string, assignedTo: Option<string>, description: Option<string>,
                   dueDate: Option<string>, priority: Option<string>, today: string): Task
  {
    Task(name, description.GetOr(DefaultDescription), assignedTo.GetOr(DefaultAssignee),
         dueDate.GetOr(DefaultDueDate), priority.GetOr(DefaultPriority), Some(Pending), today)
  }

  /** A team member with every given field overwritten and the others kept. */
  function Patched(m: TeamMember, name: Option<string>, role: Option<string>, email: Option<string>): TeamMember
  {
    m.(name := name.GetOr(m.name), role := role.GetOr(m.role), email := email.GetOr(m.email))
  }
}
