/** The calling convention of `execute_function(function_name, args)`: a
    name and a keyword-argument map, bound to a method's parameters the way
    Python's `**args` binds them. */
module Commands {
  import opened Optional

  /** An argument value as the caller supplies it. */
  datatype Value = Str(s: string) | Num(n: int)

  type Args = map<string, Value>

  /** The declared kind of a parameter. */
  datatype Kind = TextKind | IntKind

  predicate Fits(v: Value, k: Kind)
  {
    match k
    case TextKind => v.Str?
    case IntKind => v.Num?
  }

  /** The keyword arguments fit a parameter list: no unknown keyword, every
      required parameter supplied, each value of its parameter's kind. */
  predicate Binds(args: Args, params: map<string, Kind>, required: set<string>)
  {
    && (forall k :: k in args ==> k in params && Fits(args[k], params[k]))
    && required <= args.Keys
  }

  /** A required text argument. */
  function TextArg(args: Args, k: string): string
    requires k in args && args[k].Str?
  {
    args[k].s
  }

  /** A required integer argument. */
  function IntArg(args: Args, k: string): int
    requires k in args && args[k].Num?
  {
    args[k].n
  }

  /** An optional text argument; absent means the parameter's `None` default. */
  function OptText(args: Args, k: string): Option<string>
  {
    if k in args && args[k].Str? then Some(args[k].s) else None
  }

  /** A call after binding: which operation runs with which arguments, or why none runs. */
  datatype Call =
    | AddProjectCall(name: string, description: Option<string>, dueDate: Option<string>)
    | ViewProjectsCall
    | AddTeamMemberCall(name: string, role: string, email: Option<string>)
    | ViewTeamMembersCall
    | AddTaskCall(projectIndex: int, name: string, assignedTo: Option<string>,
                  description: Option<string>, dueDate: Option<string>, priority: Option<string>)
    | UpdateUserNameCall(name: string)
    | UpdateTeamMemberCall(index: int, newName: Option<string>, newRole: Option<string>, newEmail: Option<string>)
    | DeleteTeamMemberCall(index: int)
    | FindTeamMemberCall(query: string)
    | FindProjectCall(query: string)
    | UnregisteredCall(unknownName: string)
    | MismatchedCall(mismatchedName: string)

  /** Keyword parameters of the methods that both agents register. */
  const AddProjectParams := map["name" := TextKind, "description" := TextKind, "due_date" := TextKind]
  const AddTaskParams := map["project_index" := IntKind, "name" := TextKind, "assigned_to" := TextKind,
                             "description" := TextKind, "due_date" := TextKind, "priority" := TextKind]
  const TeamMemberParams := map["name" := TextKind, "role" := TextKind, "email" := TextKind]
  const NameParam := map["name" := TextKind]

  /** The caller supplied `v` for the keyword `k`. */
  predicate Supplied(args: Args, k: string, v: Value)
  {
    k in args && args[k] == v
  }

  /** An optional parameter is bound to the text supplied for `k`, and is
      absent exactly when the caller left `k` out. */
  predicate Carries(args: Args, k: string, o: Option<string>)
  {
    (o.Some? <==> k in args) && (o.Some? ==> args[k] == Str(o.value))
  }

  /** The binding shared by both agents for `add_project`, `add_task` and
      `update_user_name`: each name binds to its own call when the arguments
      fit its parameters, carrying the values supplied, and to a mismatch
      otherwise. */
  function BindCommon(functionName: string, args: Args): (c: Call)
    requires functionName in {"add_project", "add_task", "update_user_name"}
    ensures c.MismatchedCall? ==> c.mismatchedName == functionName
    ensures !c.UnregisteredCall?
    ensures functionName == "add_project" ==>
              (c.AddProjectCall? || c.MismatchedCall?) && (c.AddProjectCall? <==> Binds(args, AddProjectParams, {"name"}))
    ensures c.AddProjectCall? ==>
              Supplied(args, "name", Str(c.name)) && Carries(args, "description", c.description)
              && Carries(args, "due_date", c.dueDate)
    ensures functionName == "add_task" ==>
              (c.AddTaskCall? || c.MismatchedCall?) && (c.AddTaskCall? <==> Binds(args, AddTaskParams, {"project_index", "name"}))
    ensures c.AddTaskCall? ==>
              Supplied(args, "project_index", Num(c.projectIndex)) && Supplied(args, "name", Str(c.name))
              && Carries(args, "assigned_to", c.assignedTo) && Carries(args, "description", c.description)
              && Carries(args, "due_date", c.dueDate) && Carries(args, "priority", c.priority)
    ensures functionName == "update_user_name" ==>
              (c.UpdateUserNameCall? || c.MismatchedCall?) && (c.UpdateUserNameCall? <==> Binds(args, NameParam, {"name"}))
    ensures c.UpdateUserNameCall? ==> Supplied(args, "name", Str(c.name))
  {
    if functionName == "add_project" then
      if Binds(args, AddProjectParams, {"name"}) then
        AddProjectCall(TextArg(args, "name"), OptText(args, "description"), OptText(args, "due_date"))
      else MismatchedCall(functionName)
    else if functionName == "add_task" then
      if Binds(args, AddTaskParams, {"project_index", "name"}) then
        AddTaskCall(IntArg(args, "project_index"), TextArg(args, "name"), OptText(args, "assigned_to"),
                    OptText(args, "description"), OptText(args, "due_date"), OptText(args, "priority"))
      else MismatchedCall(functionName)
    else
      if Binds(args, NameParam, {"name"}) then UpdateUserNameCall(TextArg(args, "name"))
      else MismatchedCall(functionName)
  }
}
