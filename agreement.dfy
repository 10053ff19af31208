/** How the two agents' dispatchers relate: the names both register run the
    same step, except that the six-operation agent demands an email and
    lists projects without progress; a name a dispatcher does not register
    changes nothing. */
module Agreement {
  import opened Optional
  import opened Entities
  import opened Commands
  import opened Operations
  import Agent
  import MinimalAgent

  /** Every name the six-operation agent registers, the richer agent registers too. */
  lemma RegistriesNest(f: string)
    ensures f in MinimalAgent.Registry ==> f in Agent.Registry
    ensures f in Agent.Registry && f !in MinimalAgent.Registry ==>
            f in {"update_team_member", "delete_team_member", "find_team_member_by_name", "find_project_by_name"}
  {
  }

  /** A name outside a dispatcher's registry writes nothing and answers with an `error` naming it. */
  lemma UnknownNamesChangeNothing(s: Session, s': Session, r: Reply, f: string, args: Args, today: string)
    ensures f !in Agent.Registry && Agent.CallStep(s, s', r, Agent.Bind(f, args), today) ==>
            s' == s && r == UnknownFunction(f)
    ensures f !in MinimalAgent.Registry && MinimalAgent.CallStep(s, s', r, MinimalAgent.Bind(f, args), today) ==>
            s' == s && r == UnknownFunction(f)
  {
  }

  /** Arguments that do not fit the method write nothing, in the richer agent. */
  lemma MismatchesChangeNothing(s: Session, s': Session, r: Reply, f: string, args: Args, today: string)
    requires Agent.Bind(f, args).MismatchedCall?
    requires Agent.CallStep(s, s', r, Agent.Bind(f, args), today)
    ensures s' == s && r == ArgumentError(f)
  {
  }

  /** Arguments that do not fit the method write nothing, in the six-operation agent. */
  lemma MinimalMismatchesChangeNothing(s: Session, s': Session, r: Reply, f: string, args: Args, today: string)
    requires MinimalAgent.Bind(f, args).MismatchedCall?
    requires MinimalAgent.CallStep(s, s', r, MinimalAgent.Bind(f, args), today)
    ensures s' == s && r == ArgumentError(f)
  {
  }

  /** `add_project`, `add_task`, `update_user_name` and `view_team_members`
      bind alike and take the same step in both agents. */
  lemma SharedOperationsAgree(s: Session, s': Session, r: Reply, f: string, args: Args, today: string)
    requires f in {"add_project", "add_task", "update_user_name", "view_team_members"}
    ensures Agent.Bind(f, args) == MinimalAgent.Bind(f, args)
    ensures Agent.CallStep(s, s', r, Agent.Bind(f, args), today) <==>
            MinimalAgent.CallStep(s, s', r, MinimalAgent.Bind(f, args), today)
  {
  }

  /** `add_team_member` with an email binds alike in both agents; without one
      the six-operation agent refuses the call, while the richer one makes
      up the default address. */
  lemma AddTeamMemberAgreesWithEmail(s: Session, s': Session, r: Reply, args: Args, today: string)
    ensures "email" in args ==> Agent.Bind("add_team_member", args) == MinimalAgent.Bind("add_team_member", args)
    ensures "email" !in args ==> MinimalAgent.Bind("add_team_member", args) == MismatchedCall("add_team_member")
    ensures "email" !in args && Agent.Bind("add_team_member", args).AddTeamMemberCall? ==>
            Agent.Bind("add_team_member", args).email == None
  {
  }

  /** Both agents' `view_projects` list the same projects with the same count;
      the richer one adds the progress figures when there are any projects. */
  lemma ViewProjectsAgree(ps: seq<Project>)
    ensures ps == [] ==> Agent.ProjectsReply(ps) == MinimalAgent.ProjectsReply(ps)
    ensures Agent.ProjectsReply(ps).detail.projects == MinimalAgent.ProjectsReply(ps).detail.projects == ps
    ensures Agent.ProjectsReply(ps).detail.count == MinimalAgent.ProjectsReply(ps).detail.count == |ps|
    ensures ps != [] ==> Agent.ProjectsReply(ps).detail.progress == Agent.Overview(ps)
  {
  }
}
