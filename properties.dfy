/** What the operations promise, stated outright about the steps of the
    `Operations` module: bounds errors that change nothing, edits confined
    to one element, exact lookups, by-name wrappers that act only on a
    unique match, the bulk filters and the resets. */
module Properties {
  import opened Optional
  import opened Text
  import opened Dates
  import opened Entities
  import opened Resolver
  import opened Bulk
  import opened Operations

  // ---- Index-taking operations ----

  /** A task created without optional fields carries every documented default. */
  lemma NewTaskDefaults(name: string, today: string)
    ensures NewTask(name, None, None, None, None, today)
            == Task(name, "No description provided", "Unassigned", "2025-12-31", "medium", Some("pending"), today)
    ensures StatusOf(NewTask(name, None, None, None, None, today)) == "pending"
  {
  }

  /** `add_task` outside `[1, count]` is an error that writes nothing; inside
      it appends exactly one pending task to project `index - 1` alone. */
  lemma AddTaskEffect(s: Session, s': Session, r: Reply, index: int, name: string,
                      assignedTo: Option<string>, description: Option<string>,
                      dueDate: Option<string>, priority: Option<string>, today: string)
    requires AddTaskStep(s, s', r, index, name, assignedTo, description, dueDate, priority, today)
    ensures !(1 <= index <= |s.state.projects|) ==> s' == s && r.status == Error
    ensures 1 <= index <= |s.state.projects| ==>
      && |s'.state.projects| == |s.state.projects|
      && s'.state.teamMembers == s.state.teamMembers && s'.state.userName == s.state.userName
      && (forall j :: 0 <= j < |s.state.projects| && j != index - 1 ==> s'.state.projects[j] == s.state.projects[j])
      && s'.state.projects[index - 1].tasks == s.state.projects[index - 1].tasks
           + [NewTask(name, assignedTo, description, dueDate, priority, today)]
      && s'.state.projects[index - 1] == s.state.projects[index - 1].(tasks := s'.state.projects[index - 1].tasks)
      && StatusOf(s'.state.projects[index - 1].tasks[|s.state.projects[index - 1].tasks|]) == Pending
      && s'.store == s.store + [s'.state]
  {
  }

  /** `update_team_member` outside `[1, count]` changes nothing; inside it
      overwrites exactly the given fields of member `index - 1`. */
  lemma UpdateTeamMemberEffect(s: Session, s': Session, r: Reply, index: int,
                               name: Option<string>, role: Option<string>, email: Option<string>)
    requires UpdateTeamMemberStep(s, s', r, index, name, role, email)
    ensures !(1 <= index <= |s.state.teamMembers|) ==> s' == s && r.status == Error
    ensures 1 <= index <= |s.state.teamMembers| ==>
      && |s'.state.teamMembers| == |s.state.teamMembers|
      && s'.state.projects == s.state.projects
      && (forall j :: 0 <= j < |s.state.teamMembers| && j != index - 1 ==>
            s'.state.teamMembers[j] == s.state.teamMembers[j])
      && (name.Some? ==> s'.state.teamMembers[index - 1].name == name.value)
      && (name.None? ==> s'.state.teamMembers[index - 1].name == s.state.teamMembers[index - 1].name)
      && (role.Some? ==> s'.state.teamMembers[index - 1].role == role.value)
      && (role.None? ==> s'.state.teamMembers[index - 1].role == s.state.teamMembers[index - 1].role)
      && (email.Some? ==> s'.state.teamMembers[index - 1].email == email.value)
      && (email.None? ==> s'.state.teamMembers[index - 1].email == s.state.teamMembers[index - 1].email)
      && s'.state.teamMembers[index - 1].createdAt == s.state.teamMembers[index - 1].createdAt
      && r.detail == MemberUpdated(s'.state.teamMembers[index - 1].name)
  {
  }

  /** Removing position `k` keeps the others, in order, and loses exactly the removed element. */
  lemma RemovedAt<T>(xs: seq<T>, k: int)
    requires 0 <= k < |xs|
    ensures |xs[..k] + xs[k + 1..]| == |xs| - 1
    ensures forall j :: 0 <= j < k ==> (xs[..k] + xs[k + 1..])[j] == xs[j]
    ensures forall j :: k < j < |xs| ==> (xs[..k] + xs[k + 1..])[j - 1] == xs[j]
    ensures multiset(xs[..k] + xs[k + 1..]) + multiset{xs[k]} == multiset(xs)
  {
    assert xs == xs[..k] + [xs[k]] + xs[k + 1..];
  }

  /** `delete_team_member` outside `[1, count]` changes nothing; inside it
      removes member `index - 1`, keeps the others in order and names the removed one. */
  lemma DeleteTeamMemberEffect(s: Session, s': Session, r: Reply, index: int)
    requires DeleteTeamMemberStep(s, s', r, index)
    ensures !(1 <= index <= |s.state.teamMembers|) ==> s' == s && r.status == Error
    ensures 1 <= index <= |s.state.teamMembers| ==>
      && |s'.state.teamMembers| == |s.state.teamMembers| - 1
      && (forall j :: 0 <= j < index - 1 ==> s'.state.teamMembers[j] == s.state.teamMembers[j])
      && (forall j :: index - 1 < j < |s.state.teamMembers| ==> s'.state.teamMembers[j - 1] == s.state.teamMembers[j])
      && multiset(s'.state.teamMembers) + multiset{s.state.teamMembers[index - 1]} == multiset(s.state.teamMembers)
      && s'.state.projects == s.state.projects
      && r.detail == MemberDeleted(s.state.teamMembers[index - 1].name)
  {
    if 1 <= index <= |s.state.teamMembers| {
      RemovedAt(s.state.teamMembers, index - 1);
    }
  }

  /** `delete_project` outside `[1, count]` changes nothing; inside it
      removes project `index - 1`, keeps the others in order and names the removed one. */
  lemma DeleteProjectEffect(s: Session, s': Session, r: Reply, index: int)
    requires DeleteProjectStep(s, s', r, index)
    ensures !(1 <= index <= |s.state.projects|) ==> s' == s && r.status == Error
    ensures 1 <= index <= |s.state.projects| ==>
      && |s'.state.projects| == |s.state.projects| - 1
      && (forall j :: 0 <= j < index - 1 ==> s'.state.projects[j] == s.state.projects[j])
      && (forall j :: index - 1 < j < |s.state.projects| ==> s'.state.projects[j - 1] == s.state.projects[j])
      && multiset(s'.state.projects) + multiset{s.state.projects[index - 1]} == multiset(s.state.projects)
      && s'.state.teamMembers == s.state.teamMembers
      && r.detail == ProjectDeleted(s.state.projects[index - 1].name)
  {
    if 1 <= index <= |s.state.projects| {
      RemovedAt(s.state.projects, index - 1);
    }
  }

  // ---- add_team_member ----

  /** Exactly one member is appended; without an email it gets the invented
      address: the name lower-cased with every space turned into a dot,
      followed by the company domain. */
  lemma AddTeamMemberEffect(s: Session, s': Session, r: Reply, name: string, role: string,
                            email: Option<string>, today: string)
    requires AddTeamMemberStep(s, s', r, name, role, email, today)
    ensures |s'.state.teamMembers| == |s.state.teamMembers| + 1
    ensures s'.state.teamMembers[..|s.state.teamMembers|] == s.state.teamMembers
    ensures s'.state.projects == s.state.projects && s'.state.userName == s.state.userName && Persisted(s')
    ensures s'.state.teamMembers[|s.state.teamMembers|].name == name
    ensures s'.state.teamMembers[|s.state.teamMembers|].role == role
    ensures email.Some? ==> s'.state.teamMembers[|s.state.teamMembers|].email == email.value
    ensures email.None? ==>
      var e := s'.state.teamMembers[|s.state.teamMembers|].email;
      && |e| == |name| + |EmailDomain| && e[|name|..] == EmailDomain
      && forall i :: 0 <= i < |name| ==> e[i] == (if name[i] == ' ' then '.' else LowerChar(name[i]))
  {
    assert s'.state.teamMembers[..|s.state.teamMembers|] == s.state.teamMembers;
  }

  // ---- add_project ----

  /** A due date that fails the parse is an error that writes nothing;
      otherwise exactly one project with no tasks is appended at the end. */
  lemma AddProjectEffect(s: Session, s': Session, r: Reply, name: string,
                         description: Option<string>, dueDate: Option<string>, today: string)
    requires AddProjectStep(s, s', r, name, description, dueDate, today)
    ensures !DueDateAccepted(dueDate.GetOr(DefaultDueDate)) ==> s' == s && r.status == Error
    ensures DueDateAccepted(dueDate.GetOr(DefaultDueDate)) ==>
      && |s'.state.projects| == |s.state.projects| + 1
      && s'.state.projects[..|s.state.projects|] == s.state.projects
      && s'.state.projects[|s.state.projects|]
         == Project(name, description.GetOr(DefaultDescription), dueDate.GetOr(DefaultDueDate), [], today)
      && s'.state.teamMembers == s.state.teamMembers
      && s'.state.userName == s.state.userName
      && r == Reply("add_project", Implicit, ProjectAdded(name))
      && Persisted(s')
  {
    if DueDateAccepted(dueDate.GetOr(DefaultDueDate)) {
      assert s'.state.projects[..|s.state.projects|] == s.state.projects;
    }
  }

  /** With no description and no due date the project always goes in, with both defaults. */
  lemma AddProjectDefaults(s: Session, s': Session, r: Reply, name: string, today: string)
    requires AddProjectStep(s, s', r, name, None, None, today)
    ensures r == Reply("add_project", Implicit, ProjectAdded(name))
    ensures s'.state.projects
            == s.state.projects + [Project(name, "No description provided", "2025-12-31", [], today)]
  {
    DefaultDueDateParses();
  }

  /** The date format the agent writes into `created_at` is one its own
      due-date check accepts: a project whose due date is the creation date
      always goes in, with that date in both fields. */
  lemma CreatedAtAcceptedAsDueDate(s: Session, s': Session, r: Reply, name: string,
                                   description: Option<string>, d: Date)
    requires CalendarValid(d) && 1000 <= d.year
    requires AddProjectStep(s, s', r, name, description, Some(Format(d)), Format(d))
    ensures r == Reply("add_project", Implicit, ProjectAdded(name))
    ensures s'.state.projects
            == s.state.projects + [Project(name, description.GetOr(DefaultDescription), Format(d), [], Format(d))]
  {
    FormatRoundTrip(d);
  }

  // ---- Lookups ----

  /** The tri-state lookup over any list: not found exactly when nothing
      matches, found with the one matching position, or every matching
      position in ascending order. */
  lemma {:induction false} ClassifyExact<T>(items: seq<T>, names: seq<string>, query: string)
    requires |names| == |items|
    ensures Classify(Hits(items, names, query)).NoMatch? <==>
            forall i :: 0 <= i < |items| ==> !NameMatches(names[i], query)
    ensures Classify(Hits(items, names, query)).OneMatch? ==>
            && 1 <= Classify(Hits(items, names, query)).hit.index <= |items|
            && Classify(Hits(items, names, query)).hit.item == items[Classify(Hits(items, names, query)).hit.index - 1]
            && NameMatches(names[Classify(Hits(items, names, query)).hit.index - 1], query)
            && forall i :: 0 <= i < |items| && NameMatches(names[i], query) ==>
                 i == Classify(Hits(items, names, query)).hit.index - 1
    ensures Classify(Hits(items, names, query)).ManyMatches? ==>
            && Ascending(Classify(Hits(items, names, query)).hits)
            && |Classify(Hits(items, names, query)).hits| >= 2
            && (forall i :: 0 <= i < |items| && NameMatches(names[i], query) ==>
                  Reports(Classify(Hits(items, names, query)).hits, i + 1))
            && forall k :: 0 <= k < |Classify(Hits(items, names, query)).hits| ==>
                 1 <= Classify(Hits(items, names, query)).hits[k].index <= |items| &&
                 NameMatches(names[Classify(Hits(items, names, query)).hits[k].index - 1], query)
  {
    var hs := Hits(items, names, query);
    HitsExact(items, names, query);
    if |hs| > 0 {
      assert 1 <= hs[0].index <= |items| && NameMatches(names[hs[0].index - 1], query);
    }
    if |hs| == 1 {
      forall i | 0 <= i < |items| && NameMatches(names[i], query)
        ensures i == hs[0].index - 1
      {
        assert Reports(hs, i + 1);
      }
    }
  }

  /** `find_project_by_name` reports exactly the projects whose names match. */
  lemma FindProjectExact(ps: seq<Project>, query: string)
    ensures FindProjectReply(ps, query).status == NotFound <==>
            forall i :: 0 <= i < |ps| ==> !NameMatches(ps[i].name, query)
    ensures FindProjectReply(ps, query).status == Found ==>
            var h := FindProjectReply(ps, query).detail.projectLookup.hit;
            1 <= h.index <= |ps| && h.item == ps[h.index - 1] && NameMatches(ps[h.index - 1].name, query)
            && forall i :: 0 <= i < |ps| && NameMatches(ps[i].name, query) ==> i == h.index - 1
    ensures FindProjectReply(ps, query).status == MultipleMatches ==>
            FindProjectReply(ps, query).detail.projectLookup.hits == ProjectHits(ps, query)
            && |ProjectHits(ps, query)| >= 2 && Ascending(ProjectHits(ps, query))
            && forall i :: 0 <= i < |ps| && NameMatches(ps[i].name, query) ==> Reports(ProjectHits(ps, query), i + 1)
  {
    ClassifyExact(ps, Names(ps, ProjectName), query);
  }

  /** `find_team_member_by_name` reports exactly the members whose names match. */
  lemma FindTeamMemberExact(ms: seq<TeamMember>, query: string)
    ensures FindTeamMemberReply(ms, query).status == NotFound <==>
            forall i :: 0 <= i < |ms| ==> !NameMatches(ms[i].name, query)
    ensures FindTeamMemberReply(ms, query).status == Found ==>
            var h := FindTeamMemberReply(ms, query).detail.memberLookup.hit;
            1 <= h.index <= |ms| && h.item == ms[h.index - 1] && NameMatches(ms[h.index - 1].name, query)
            && forall i :: 0 <= i < |ms| && NameMatches(ms[i].name, query) ==> i == h.index - 1
    ensures FindTeamMemberReply(ms, query).status == MultipleMatches ==>
            FindTeamMemberReply(ms, query).detail.memberLookup.hits == MemberHits(ms, query)
            && |MemberHits(ms, query)| >= 2 && Ascending(MemberHits(ms, query))
            && forall i :: 0 <= i < |ms| && NameMatches(ms[i].name, query) ==> Reports(MemberHits(ms, query), i + 1)
  {
    ClassifyExact(ms, Names(ms, MemberName), query);
  }

  // ---- By-name wrappers ----

  /** No project name matches: the search has no hits. */
  lemma NoMatchNoHits(ps: seq<Project>, q: string)
    requires forall i :: 0 <= i < |ps| ==> !NameMatches(ps[i].name, q)
    ensures ProjectHits(ps, q) == []
  {
    HitsOfNone(ps, Names(ps, ProjectName), q);
  }

  /** Exactly one project name matches: the search has that one hit. */
  lemma UniqueMatchOneHit(ps: seq<Project>, q: string, i: int)
    requires 0 <= i < |ps| && NameMatches(ps[i].name, q)
    requires forall j :: 0 <= j < |ps| && NameMatches(ps[j].name, q) ==> j == i
    ensures ProjectHits(ps, q) == [Hit(i + 1, ps[i])]
  {
    HitsOfUnique(ps, Names(ps, ProjectName), q, i);
  }

  /** Two project names match: the search has several hits. */
  lemma TwoMatchesManyHits(ps: seq<Project>, q: string, i: int, j: int)
    requires 0 <= i < j < |ps| && NameMatches(ps[i].name, q) && NameMatches(ps[j].name, q)
    ensures |ProjectHits(ps, q)| >= 2
  {
    var hs := ProjectHits(ps, q);
    HitsExact(ps, Names(ps, ProjectName), q);
    assert Reports(hs, i + 1) && Reports(hs, j + 1);
    var a :| 0 <= a < |hs| && hs[a].index == i + 1;
    var b :| 0 <= b < |hs| && hs[b].index == j + 1;
    assert a != b;
  }

  /** `add_task_by_project_name` with no matching project is an error that writes nothing. */
  lemma AddTaskByProjectNameUnknown(s: Session, s': Session, r: Reply, projectName: string,
                                    taskName: string, assignedTo: Option<string>,
                                    description: Option<string>, dueDate: Option<string>,
                                    priority: Option<string>, today: string)
    requires AddTaskByProjectNameStep(s, s', r, projectName, taskName, assignedTo, description, dueDate, priority, today)
    requires forall i :: 0 <= i < |s.state.projects| ==> !NameMatches(s.state.projects[i].name, projectName)
    ensures s' == s && r == Reply("add_task_by_project_name", Error, UnknownProject(projectName))
  {
    NoMatchNoHits(s.state.projects, projectName);
  }

  /** With two matching projects it is an error that writes nothing and lists every match. */
  lemma AddTaskByProjectNameAmbiguous(s: Session, s': Session, r: Reply, projectName: string,
                                      taskName: string, assignedTo: Option<string>,
                                      description: Option<string>, dueDate: Option<string>,
                                      priority: Option<string>, today: string, i: int, j: int)
    requires AddTaskByProjectNameStep(s, s', r, projectName, taskName, assignedTo, description, dueDate, priority, today)
    requires 0 <= i < j < |s.state.projects|
    requires NameMatches(s.state.projects[i].name, projectName) && NameMatches(s.state.projects[j].name, projectName)
    ensures s' == s && r == Reply("add_task_by_project_name", Error,
                                  AmbiguousProject(projectName, Entries(ProjectHits(s.state.projects, projectName))))
  {
    TwoMatchesManyHits(s.state.projects, projectName, i, j);
  }

  /** With exactly one matching project, at 0-based position `i`, it is
      `add_task` at the 1-based position `i + 1`. */
  lemma AddTaskByProjectNameUnique(s: Session, s': Session, r: Reply, projectName: string,
                                   taskName: string, assignedTo: Option<string>,
                                   description: Option<string>, dueDate: Option<string>,
                                   priority: Option<string>, today: string, i: int)
    requires AddTaskByProjectNameStep(s, s', r, projectName, taskName, assignedTo, description, dueDate, priority, today)
    requires 0 <= i < |s.state.projects| && NameMatches(s.state.projects[i].name, projectName)
    requires forall j :: 0 <= j < |s.state.projects| && NameMatches(s.state.projects[j].name, projectName) ==> j == i
    ensures AddTaskStep(s, s', r, i + 1, taskName, assignedTo, description, dueDate, priority, today)
  {
    UniqueMatchOneHit(s.state.projects, projectName, i);
  }

  /** `delete_project_by_name` with no matching project, or with several, is
      an error that writes nothing; with exactly one it is `delete_project`
      at that project's 1-based position. */
  lemma DeleteProjectByNameEffect(s: Session, s': Session, r: Reply, name: string)
    requires DeleteProjectByNameStep(s, s', r, name)
    ensures (forall i :: 0 <= i < |s.state.projects| ==> !NameMatches(s.state.projects[i].name, name)) ==>
            s' == s && r == Reply("delete_project_by_name", Error, UnknownProject(name))
    ensures forall i, j :: 0 <= i < j < |s.state.projects| && NameMatches(s.state.projects[i].name, name)
                           && NameMatches(s.state.projects[j].name, name) ==>
            s' == s && r == Reply("delete_project_by_name", Error,
                                  AmbiguousProject(name, Entries(ProjectHits(s.state.projects, name))))
    ensures forall i :: 0 <= i < |s.state.projects| && NameMatches(s.state.projects[i].name, name)
                        && (forall j :: 0 <= j < |s.state.projects| && NameMatches(s.state.projects[j].name, name) ==> j == i) ==>
            DeleteProjectStep(s, s', r, i + 1)
  {
    var ps := s.state.projects;
    if forall i :: 0 <= i < |ps| ==> !NameMatches(ps[i].name, name) {
      NoMatchNoHits(ps, name);
    }
    forall i, j | 0 <= i < j < |ps| && NameMatches(ps[i].name, name) && NameMatches(ps[j].name, name)
      ensures s' == s && r == Reply("delete_project_by_name", Error, AmbiguousProject(name, Entries(ProjectHits(ps, name))))
    {
      TwoMatchesManyHits(ps, name, i, j);
    }
    forall i | 0 <= i < |ps| && NameMatches(ps[i].name, name)
               && (forall j :: 0 <= j < |ps| && NameMatches(ps[j].name, name) ==> j == i)
      ensures DeleteProjectStep(s, s', r, i + 1)
    {
      UniqueMatchOneHit(ps, name, i);
    }
  }

  /** With no project identified, `add_task_smart` writes nothing. */
  lemma AddTaskSmartWithoutProject(s: Session, s': Session, r: Reply, taskName: string, today: string)
    requires AddTaskSmartStep(s, s', r, taskName, "", today)
    ensures s' == s && r.status == Error
    ensures s.state.projects != [] ==> |r.detail.choices| == |s.state.projects|
    ensures forall i :: 0 <= i < |s.state.projects| ==> r.detail.choices[i] == Entry(i + 1, s.state.projects[i].name)
  {
  }

  // ---- update_task_status ----

  /** Position `i` holds the first name that matches. */
  ghost predicate IsFirstMatch(names: seq<string>, query: string, i: int)
  {
    0 <= i < |names| && NameMatches(names[i], query) && forall j :: 0 <= j < i ==> !NameMatches(names[j], query)
  }

  lemma FirstMatchIsFirstHit(names: seq<string>, query: string, i: int)
    requires IsFirstMatch(names, query, i)
    ensures FirstHit(names, query) == Some(i)
  {
    FirstHitIsFirst(names, query);
  }

  /** `update_task_status` either succeeds or is an error that writes nothing;
      with no matching project it reports the project query. */
  lemma UpdateTaskStatusOutcomes(s: Session, s': Session, r: Reply, projectName: string,
                                 taskName: string, newStatus: string)
    requires UpdateTaskStatusStep(s, s', r, projectName, taskName, newStatus)
    ensures r.status == Success || (s' == s && r.status == Error)
    ensures (forall i :: 0 <= i < |s.state.projects| ==> !NameMatches(s.state.projects[i].name, projectName)) ==>
            s' == s && r == Reply("update_task_status", Error, UnknownProject(projectName))
  {
    FirstHitIsFirst(Names(s.state.projects, ProjectName), projectName);
  }

  /** When no task in the first matching project matches, nothing is written. */
  lemma UpdateTaskStatusNoTask(s: Session, s': Session, r: Reply, projectName: string,
                               taskName: string, newStatus: string, i: int)
    requires UpdateTaskStatusStep(s, s', r, projectName, taskName, newStatus)
    requires IsFirstMatch(Names(s.state.projects, ProjectName), projectName, i)
    requires forall j :: 0 <= j < |s.state.projects[i].tasks| ==> !NameMatches(s.state.projects[i].tasks[j].name, taskName)
    ensures s' == s && r == Reply("update_task_status", Error, UnknownTask(taskName, s.state.projects[i].name))
  {
    FirstMatchIsFirstHit(Names(s.state.projects, ProjectName), projectName, i);
    FirstHitIsFirst(Names(s.state.projects[i].tasks, TaskName), taskName);
  }

  /** Otherwise exactly one task changes: the first matching task `j` of the
      first matching project `i` gets the lowered new status, and the reply
      carries its old status and the new status as given. */
  lemma UpdateTaskStatusChanges(s: Session, s': Session, r: Reply, projectName: string,
                                taskName: string, newStatus: string, i: int, j: int)
    requires UpdateTaskStatusStep(s, s', r, projectName, taskName, newStatus)
    requires IsFirstMatch(Names(s.state.projects, ProjectName), projectName, i)
    requires IsFirstMatch(Names(s.state.projects[i].tasks, TaskName), taskName, j)
    ensures |s'.state.projects| == |s.state.projects| && s'.state.teamMembers == s.state.teamMembers
    ensures forall k :: 0 <= k < |s.state.projects| && k != i ==> s'.state.projects[k] == s.state.projects[k]
    ensures |s'.state.projects[i].tasks| == |s.state.projects[i].tasks|
    ensures forall k :: 0 <= k < |s.state.projects[i].tasks| && k != j ==>
              s'.state.projects[i].tasks[k] == s.state.projects[i].tasks[k]
    ensures s'.state.projects[i].tasks[j] == s.state.projects[i].tasks[j].(status := Some(Lower(newStatus)))
    ensures s'.state.projects[i] == s.state.projects[i].(tasks := s'.state.projects[i].tasks)
    ensures r == Reply("update_task_status", Success,
                       StatusChanged(s.state.projects[i].name, s.state.projects[i].tasks[j].name,
                                     StatusOf(s.state.projects[i].tasks[j]), newStatus))
    ensures s'.store == s.store + [s'.state]
  {
    FirstMatchIsFirstHit(Names(s.state.projects, ProjectName), projectName, i);
    FirstMatchIsFirstHit(Names(s.state.projects[i].tasks, TaskName), taskName, j);
  }

  // ---- Bulk filters ----

  /** `delete_tasks_by_name` with no projects is an error that writes nothing.
      Otherwise it writes the pruned state even when nothing matched: every
      project keeps its place and everything but its tasks, no remaining
      task's name contains the query, and every other task survives in
      order. */
  lemma DeleteTasksByNameState(s: Session, s': Session, r: Reply, q: string)
    requires DeleteTasksByNameStep(s, s', r, q)
    ensures s.state.projects == [] ==> s' == s && r.status == Error
    ensures s.state.projects != [] ==>
      && s'.store == s.store + [s'.state] && s'.state.teamMembers == s.state.teamMembers
      && s'.state.userName == s.state.userName
      && |s'.state.projects| == |s.state.projects|
      && (forall i :: 0 <= i < |s.state.projects| ==>
            s'.state.projects[i] == s.state.projects[i].(tasks := s'.state.projects[i].tasks))
      && (forall i, j :: 0 <= i < |s.state.projects| && 0 <= j < |s'.state.projects[i].tasks| ==>
            !NameMatches(s'.state.projects[i].tasks[j].name, q))
      && (forall i :: 0 <= i < |s.state.projects| ==> Subsequence(s'.state.projects[i].tasks, s.state.projects[i].tasks))
      && (forall i, t: Task :: 0 <= i < |s.state.projects| && !NameMatches(t.name, q) ==>
            multiset(s'.state.projects[i].tasks)[t] == multiset(s.state.projects[i].tasks)[t])
  {
    var ps := s.state.projects;
    if ps != [] {
      var f := NameContains(q);
      assert s'.state.projects == PruneAll(ps, f);
      assert forall t :: Drops(f, t) <==> NameMatches(t.name, q);
      PruneAllDropsAll(ps, f);
      PruneAllKeeps(ps, f);
    }
  }

  /** With projects present, `delete_tasks_by_name` answers `not_found`
      exactly when no task went missing, and then the state is as it was;
      otherwise it succeeds, counting the tasks that went missing and naming
      exactly the projects that lost one. */
  lemma DeleteTasksByNameReply(s: Session, s': Session, r: Reply, q: string)
    requires DeleteTasksByNameStep(s, s', r, q) && s.state.projects != []
    ensures r.status == NotFound <==> TotalTasks(s'.state.projects) == TotalTasks(s.state.projects)
    ensures r.status == NotFound ==> s'.state == s.state && r.detail == NoTaskMatched(q)
    ensures r.status != NotFound ==>
      && r.status == Success
      && r.detail.deletedCount == TotalTasks(s.state.projects) - TotalTasks(s'.state.projects)
      && r.detail.deletedFrom == Shrunk(s.state.projects, s'.state.projects)
  {
    var ps := s.state.projects;
    var f := NameContains(q);
    DroppedTotalIsDifference(ps, f);
    AffectedIsShrunk(ps, f);
    if DroppedTotal(ps, f) == 0 {
      NothingDroppedIsIdentity(ps, f);
    }
  }

  /** `remove_completed_tasks` with no projects is an error that writes
      nothing. Otherwise it writes the pruned state even when nothing was
      completed: every project keeps its place and everything but its tasks,
      no remaining task is completed (a missing status reads "pending"), and
      every other task survives in order. */
  lemma RemoveCompletedTasksState(s: Session, s': Session, r: Reply)
    requires RemoveCompletedTasksStep(s, s', r)
    ensures s.state.projects == [] ==> s' == s && r.status == Error
    ensures s.state.projects != [] ==>
      && s'.store == s.store + [s'.state] && s'.state.teamMembers == s.state.teamMembers
      && s'.state.userName == s.state.userName
      && |s'.state.projects| == |s.state.projects|
      && (forall i :: 0 <= i < |s.state.projects| ==>
            s'.state.projects[i] == s.state.projects[i].(tasks := s'.state.projects[i].tasks))
      && (forall i, j :: 0 <= i < |s.state.projects| && 0 <= j < |s'.state.projects[i].tasks| ==>
            StatusOf(s'.state.projects[i].tasks[j]) != "completed")
      && (forall i :: 0 <= i < |s.state.projects| ==> Subsequence(s'.state.projects[i].tasks, s.state.projects[i].tasks))
      && (forall i, t: Task :: 0 <= i < |s.state.projects| && StatusOf(t) != "completed" ==>
            multiset(s'.state.projects[i].tasks)[t] == multiset(s.state.projects[i].tasks)[t])
  {
    var ps := s.state.projects;
    if ps != [] {
      assert s'.state.projects == PruneAll(ps, IsCompleted);
      assert forall t :: Drops(IsCompleted, t) <==> StatusOf(t) == "completed";
      PruneAllDropsAll(ps, IsCompleted);
      PruneAllKeeps(ps, IsCompleted);
    }
  }

  /** With projects present, `remove_completed_tasks` answers `no_tasks`
      exactly when no task went missing, and then the state is as it was;
      otherwise it succeeds, counting the completed tasks there were and
      naming exactly the projects that lost one. */
  lemma RemoveCompletedTasksReply(s: Session, s': Session, r: Reply)
    requires RemoveCompletedTasksStep(s, s', r) && s.state.projects != []
    ensures r.status == NoTasks <==> TotalTasks(s'.state.projects) == TotalTasks(s.state.projects)
    ensures r.status == NoTasks ==> s'.state == s.state
    ensures r.status != NoTasks ==>
      && r.status == Success
      && r.detail.removedCount == TotalTasks(s.state.projects) - TotalTasks(s'.state.projects)
      && r.detail.removedFrom == Shrunk(s.state.projects, s'.state.projects)
  {
    var ps := s.state.projects;
    DroppedTotalIsDifference(ps, IsCompleted);
    AffectedIsShrunk(ps, IsCompleted);
    if DroppedTotal(ps, IsCompleted) == 0 {
      NothingDroppedIsIdentity(ps, IsCompleted);
    }
  }

  // ---- Resets ----

  /** Clearing twice leaves what clearing once left, and says the same. */
  lemma ClearAllProjectsIdempotent(s: Session, s1: Session, r1: Reply, s2: Session, r2: Reply)
    requires ClearAllProjectsStep(s, s1, r1) && ClearAllProjectsStep(s1, s2, r2)
    ensures s2.state == s1.state && s1.state.projects == [] && r2 == r1
    ensures s1.state.teamMembers == s.state.teamMembers && Persisted(s2)
  {
  }

  lemma ClearAllTeamMembersIdempotent(s: Session, s1: Session, r1: Reply, s2: Session, r2: Reply)
    requires ClearAllTeamMembersStep(s, s1, r1) && ClearAllTeamMembersStep(s1, s2, r2)
    ensures s2.state == s1.state && s1.state.teamMembers == [] && r2 == r1
    ensures s1.state.projects == s.state.projects && Persisted(s2)
  {
  }

  lemma ClearAllDataIdempotent(s: Session, s1: Session, r1: Reply, s2: Session, r2: Reply)
    requires ClearAllDataStep(s, s1, r1) && ClearAllDataStep(s1, s2, r2)
    ensures s2.state == s1.state && s1.state.projects == [] && s1.state.teamMembers == [] && r2 == r1
    ensures s1.state.userName == s.state.userName && Persisted(s2)
  {
  }

  /** Clearing all data is clearing the projects and then the team, write for write. */
  lemma ClearAllDataIsBothClears(s: Session, s1: Session, r1: Reply, s2: Session, r2: Reply, s': Session, r: Reply)
    requires ClearAllProjectsStep(s, s1, r1) && ClearAllTeamMembersStep(s1, s2, r2)
    requires ClearAllDataStep(s, s', r)
    ensures s' == s2
  {
  }
}
