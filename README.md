# Project-management agent: the entity-management core

A Dafny model of the state machine inside `ProjectManagementAgent`. The
agent holds one state object: the user's name, an ordered list of projects
(each with its ordered list of tasks) and an ordered list of team members.
Named operations change that state, and every change goes through
`_update_state`, which sets one key and writes the whole state to the
session store. There are two versions of the agent:

- the richer one in `project_management_agent/agent.py`, modelled by the
  `Agent` module;
- the six-operation one in `project_management_agent/new_agent.py`,
  modelled by the `MinimalAgent` module.

Both agents are Dafny classes whose fields the methods update in place. The
session store is a ghost field `store`: the blob the session started from,
then every blob written since, oldest first. `Valid()` says the last blob
is the in-memory state.

Each operation has a relation in the `Operations` module,
`XStep(s, s', r, …)`, over a `Session(state, store)`. It says what the
new session and the reply must be. Each class method ensures its step from
`old(Snapshot())` to `Snapshot()`. The `Properties` module proves what the
steps mean:

- an index outside `[1, count]` is an error that writes nothing;
- an edit touches one element only;
- name lookups are exact, and their tri-state status matches the number of matches;
- the by-name wrappers act only on a unique match;
- the bulk filters leave no droppable task, keep the others in order, and count and name correctly;
- the resets are idempotent.

`Agreement` relates the two agents' dispatchers. `Scenarios` runs a whole
session through the class methods: add a project, add a task, mark it
completed, remove completed tasks.

Modules, in dependency order:

| module | what it holds |
|---|---|
| `Optional` | `Option` with Python's `None`-default idiom |
| `Text` | ASCII `lower()`, the substring test `in` and the agent's name test |
| `Dates` | the `%Y-%m-%d` check `add_project` makes with `datetime.strptime` |
| `Entities` | tasks, projects, team members, the state, replies and defaults |
| `Resolver` | the case-insensitive substring search and its tri-state result, and the first-match search |
| `Bulk` | the two task filters and the scans behind the bulk deletes |
| `Commands` | the keyword-argument binding of `execute_function` |
| `Operations` | the session, `_update_state` as a write, and one step relation per operation |
| `Properties` | lemmas about the steps |
| `Agent` | the class of `agent.py` and its dispatcher |
| `MinimalAgent` | the class of `new_agent.py` and its dispatcher |
| `Agreement` | how the two dispatchers relate |
| `Scenarios` | a complete session through the class methods |

Four behaviours of the code that the model keeps:

- `delete_tasks_by_name` and `remove_completed_tasks` write the state even when nothing was removed.
- `update_task_status` answers with status `error` both when no project and when no task matches.
- The `agent.py` dispatcher registers ten names. `add_task_by_project_name`, `add_task_smart`, `delete_project`, `delete_project_by_name`, the clears, `update_task_status` and the bulk deletes are methods of the agent but are not reachable through `execute_function`.
- `execute_function` spreads the arguments straight onto the method with `**args`. Arguments that do not fit either raise or are stored as given. The model refuses every such call with an `ArgumentError` reply that changes nothing; see "Left out".

## Model

| member | source | states |
|---|---|---|
| Text.DotSpaces | project_management_agent/agent.py:140-142 | `replace(' ', '.')` keeps the length, puts a dot where a space was and leaves no space |
| Text.OccursGivesContains | project_management_agent/agent.py:303 | an occurrence of the needle at any position makes the substring test true |
| Text.ContainsGivesOccurs | project_management_agent/agent.py:303 | the substring test is true only where the needle occurs at some position |
| Text.ContainsIffOccurs | project_management_agent/agent.py:303 | `needle in hay` holds exactly when some window of the hay equals the needle |
| Text.EmptyQueryMatchesEveryName | project_management_agent/agent.py:303 | the empty query matches every name |
| Text.SelfMatches | project_management_agent/agent.py:303 | every name matches itself |
| Text.MatchIgnoresCase | project_management_agent/agent.py:303 | lower-casing the name or the query first does not change the match |
| Text.LowerIdempotent | project_management_agent/agent.py:303 | lower-casing twice is lower-casing once |
| Dates.DaysInMonth | project_management_agent/agent.py:79 | the calendar's month length is between 28 and 31 |
| Dates.YearField | project_management_agent/agent.py:79 | a year `%Y` reads is in 0..9999 |
| Dates.MonthField | project_management_agent/agent.py:79 | a month `%m` reads is in 1..12 |
| Dates.DayField | project_management_agent/agent.py:79 | a day `%d` reads is in 1..31 |
| Dates.ParseDate | project_management_agent/agent.py:76-85 | a string the parse accepts denotes a valid calendar date |
| Dates.Format | project_management_agent/agent.py:96 | `strftime("%Y-%m-%d")` writes ten characters; the creation date is the `today` parameter, and `Properties.CreatedAtAcceptedAsDueDate` ties this format to `add_project` |
| Dates.FormatRoundTrip | project_management_agent/agent.py:96 | a valid date written as `created_at` is written parses back to itself |
| Dates.DefaultDueDateParses | project_management_agent/agent.py:73-79 | the default due date `2025-12-31` passes the check |
| Dates.DayFirstRejected | project_management_agent/agent.py:76-85 | a day-first date such as `31-12-2025` is rejected |
| Dates.UnpaddedAccepted | project_management_agent/agent.py:76-85 | fields without zero padding (`2025-1-5`) are accepted |
| Dates.LeapDayExamples | project_management_agent/agent.py:76-85 | 29 February is rejected in 2025 and accepted in 2024 |
| Entities.DefaultEmail | project_management_agent/agent.py:140-142 | the invented email is the name with each letter lower-cased and each space turned into a dot, character by character, followed by `@company.com` |
| Resolver.HitsSound | project_management_agent/agent.py:330-340 | every hit is a 1-based position holding its entity, and its name matches |
| Resolver.HitsComplete | project_management_agent/agent.py:330-340 | every matching position is reported |
| Resolver.HitsAscend | project_management_agent/agent.py:330-340 | hits are in ascending position order |
| Resolver.HitsExact | project_management_agent/agent.py:330-340 | the hits are exactly the matching positions, ascending |
| Resolver.NoHitsIffNoMatch | project_management_agent/agent.py:330-347 | there are no hits exactly when no name matches |
| Resolver.HitsBounded | project_management_agent/agent.py:330-340 | there are never more hits than entities |
| Resolver.HitsOfNone | project_management_agent/agent.py:330-347 | with no matching name the hit list is empty |
| Resolver.HitsOfUnique | project_management_agent/agent.py:330-354 | with one matching position the hit list is exactly that entity at its 1-based index |
| Resolver.FirstHit | project_management_agent/agent.py:752-758 | a first match found is a position in range whose name matches |
| Resolver.FirstHitIsFirst | project_management_agent/agent.py:752-776 | the first-match search finds nothing exactly when nothing matches, and otherwise finds a match with no match before it |
| Resolver.FirstHitIsFirstOfHits | project_management_agent/agent.py:752-758 | the first-match search picks the tri-state search's first hit |
| Resolver.CollectHits | project_management_agent/agent.py:334-340 | the scan loop collects exactly the hits: sound, complete, ascending, and at most one per entity |
| Resolver.FirstMatching | project_management_agent/agent.py:752-776 | the search loop with `break` returns the first matching position, with no match before it, or nothing when no name matches |
| Bulk.KeepDropsAll | project_management_agent/agent.py:817-823 | no surviving task is one the filter drops |
| Bulk.KeepSpares | project_management_agent/agent.py:870 | each spared task survives as often as it occurred; no dropped task survives |
| Bulk.KeepInOrder | project_management_agent/agent.py:870 | the survivors are a subsequence of the original tasks |
| Bulk.KeepCount | project_management_agent/agent.py:817-823 | survivors plus dropped tasks make up the original list |
| Bulk.ShrinksIffDroppable | project_management_agent/agent.py:826-828 | a task list shrinks exactly when it holds a droppable task; a zero drop count leaves it as it was |
| Bulk.PruneAllDropsAll | project_management_agent/agent.py:813-828 | after the scan no task in any project is droppable, and each project differs only in its tasks |
| Bulk.DroppedTotalIsDifference | project_management_agent/agent.py:813-828 | the dropped total is the task total before minus the task total after |
| Bulk.ZeroTotalEverywhere | project_management_agent/agent.py:813-833 | a zero total means no project lost a task and no project is named |
| Bulk.NothingDroppedIsIdentity | project_management_agent/agent.py:813-833 | a zero total leaves every project as it was |
| Bulk.PruneAllKeeps | project_management_agent/agent.py:813-828 | the scan keeps the project count and names, and each project's spared tasks in order and multiplicity |
| Bulk.AffectedIsShrunk | project_management_agent/agent.py:826-828 | the affected list names, in project order, exactly the projects whose task list shrank |
| Bulk.DropByName | project_management_agent/agent.py:817-823 | the inner loop keeps exactly the tasks whose name does not contain the query and counts the others |
| Bulk.PrefixStep | project_management_agent/agent.py:813-828 | one more project scanned extends the pruned list, the total and the affected list by just that project |
| Bulk.DeleteByNameScan | project_management_agent/agent.py:813-828 | the project loop returns the pruned projects, the number of tasks deleted and the affected projects |
| Bulk.RemoveCompletedScan | project_management_agent/agent.py:865-875 | the project loop returns the pruned projects, the number of completed tasks removed and the affected projects |
| Commands.BindCommon | project_management_agent/agent.py:566-577 | each of `add_project`, `add_task` and `update_user_name` binds to its own call exactly when the keyword arguments fit its parameters, and to a mismatch naming it otherwise; a bound call carries the values supplied, and an optional parameter is absent exactly when its keyword was left out |
| Operations.SavedIsPersisted | project_management_agent/agent.py:63-66 | after a write the store's last blob is the whole in-memory state |
| Properties.NewTaskDefaults | project_management_agent/agent.py:201-219 | a task added without optional fields has the documented defaults and status "pending" |
| Properties.AddTaskEffect | project_management_agent/agent.py:185-231 | an index outside `[1, count]` is an error that writes nothing; otherwise exactly one pending task is appended to project `index - 1` and nothing else changes |
| Properties.UpdateTeamMemberEffect | project_management_agent/agent.py:241-271 | an index outside `[1, count]` changes nothing; otherwise each given field of member `index - 1` is overwritten, each absent one kept, and every other member unchanged |
| Properties.RemovedAt | project_management_agent/agent.py:288 | `pop(k)` keeps the others in order and loses exactly the removed element |
| Properties.DeleteTeamMemberEffect | project_management_agent/agent.py:273-295 | an index outside `[1, count]` changes nothing; otherwise member `index - 1` is removed, the others stay in order, and the reply names the removed member |
| Properties.DeleteProjectEffect | project_management_agent/agent.py:678-700 | an index outside `[1, count]` changes nothing; otherwise project `index - 1` is removed, the others stay in order, and the reply names the removed project |
| Properties.AddTeamMemberEffect | project_management_agent/agent.py:136-158 | exactly one member is appended with the given name and role and nothing else changes; its email is the one given, or else the name lower-cased with dots for spaces followed by `@company.com` |
| Properties.AddProjectEffect | project_management_agent/agent.py:68-107 | a due date that fails the parse is an error that writes nothing; otherwise exactly one project is appended and written, holding the name, the given or default description and due date, no tasks and `today` as its creation date, with the user name and the team unchanged |
| Properties.AddProjectDefaults | project_management_agent/agent.py:70-74 | without description and due date the project always goes in, with both defaults |
| Properties.CreatedAtAcceptedAsDueDate | project_management_agent/agent.py:76-96 | a due date written in the `created_at` format of a valid date is always accepted, and the project goes in with that date as both due date and creation date |
| Properties.ClassifyExact | project_management_agent/agent.py:330-361 | the tri-state lookup is not found exactly when nothing matches, found with the only matching position, or multiple with every matching position ascending |
| Properties.FindProjectExact | project_management_agent/agent.py:330-361 | the `find_project_by_name` reply reports exactly the matching projects, with its status |
| Properties.FindTeamMemberExact | project_management_agent/agent.py:297-328 | the `find_team_member_by_name` reply reports exactly the matching members, with its status |
| Properties.NoMatchNoHits | project_management_agent/agent.py:330-347 | no matching project name means the search has no hits |
| Properties.UniqueMatchOneHit | project_management_agent/agent.py:330-354 | exactly one matching project means the search's only hit is that project |
| Properties.TwoMatchesManyHits | project_management_agent/agent.py:330-361 | two matching projects mean at least two hits |
| Properties.AddTaskByProjectNameUnknown | project_management_agent/agent.py:370-377 | with no matching project it is an error that writes nothing |
| Properties.AddTaskByProjectNameAmbiguous | project_management_agent/agent.py:378-384 | with two matching projects it is an error that writes nothing and lists every match |
| Properties.AddTaskByProjectNameUnique | project_management_agent/agent.py:385-388 | with exactly one matching project it is `add_task` at that project's 1-based position |
| Properties.DeleteProjectByNameEffect | project_management_agent/agent.py:702-722 | no match or several matches is an error that writes nothing; exactly one is `delete_project` at that position |
| Properties.AddTaskSmartWithoutProject | project_management_agent/agent.py:429-444 | with no project identified nothing is written and the error lists every project numbered from 1 |
| Properties.FirstMatchIsFirstHit | project_management_agent/agent.py:752-758 | the first-match search finds the first matching position |
| Properties.UpdateTaskStatusOutcomes | project_management_agent/agent.py:749-797 | the operation either succeeds or is an error that writes nothing; no matching project names the project query |
| Properties.UpdateTaskStatusNoTask | project_management_agent/agent.py:768-781 | no matching task in the first matching project is an error that writes nothing |
| Properties.UpdateTaskStatusChanges | project_management_agent/agent.py:783-797 | only the first matching task of the first matching project changes; it gets the lowered status, and the reply carries its old status |
| Properties.DeleteTasksByNameState | project_management_agent/agent.py:799-831 | with no projects: an error and no write; otherwise a write in which no task name contains the query and the other tasks survive in order |
| Properties.DeleteTasksByNameReply | project_management_agent/agent.py:833-849 | `not_found` exactly when no task went, with the state as it was; otherwise success with the count of tasks that went and the projects that lost one |
| Properties.RemoveCompletedTasksState | project_management_agent/agent.py:851-878 | with no projects: an error and no write; otherwise a write in which no task is "completed" and the other tasks survive in order |
| Properties.RemoveCompletedTasksReply | project_management_agent/agent.py:880-894 | `no_tasks` exactly when no task went, with the state as it was; otherwise success with the count of completed tasks and the projects that lost one |
| Properties.ClearAllProjectsIdempotent | project_management_agent/agent.py:724-730 | clearing the projects twice is clearing them once; the team is kept and the store is written |
| Properties.ClearAllTeamMembersIdempotent | project_management_agent/agent.py:732-738 | clearing the team twice is clearing it once; the projects are kept and the store is written |
| Properties.ClearAllDataIdempotent | project_management_agent/agent.py:740-747 | clearing all data twice is clearing it once; the user name is kept |
| Properties.ClearAllDataIsBothClears | project_management_agent/agent.py:740-747 | clearing all data is clearing the projects and then the team, write for write |
| Agent.Bind | project_management_agent/agent.py:564-587 | a name outside the ten registered ones binds to an unknown-function call carrying it; a mismatch carries the name |
| Agent.BindMemberCall | project_management_agent/agent.py:570-581 | each team method binds to its own call exactly when the keyword arguments fit its parameters (name and role, or the index, required), and to a mismatch naming it otherwise; a bound call carries the values supplied |
| Agent.BindFindCall | project_management_agent/agent.py:582-585 | each lookup binds to its own call, carrying the name supplied, exactly when the arguments are a text `name` and nothing else, and to a mismatch naming it otherwise |
| Agent.OverviewBounded | project_management_agent/agent.py:121-125 | each project's completed count is at most its task count, which is its number of tasks |
| Agent.ProjectManagementAgent.constructor | project_management_agent/agent.py:11-61 | the agent resumes from the stored state, which is the store's only blob |
| Agent.ProjectManagementAgent.UpdateState | project_management_agent/agent.py:63-66 | one key is set and the whole new state is appended to the store |
| Agent.ProjectManagementAgent.AddProject | project_management_agent/agent.py:68-107 | takes the `add_project` step and keeps the store in step |
| Agent.ProjectManagementAgent.ViewProjects | project_management_agent/agent.py:109-134 | read-only; the listing holds every project, the count and each project's progress, and is the bare listing exactly when there are no projects |
| Agent.ProjectManagementAgent.AddTeamMember | project_management_agent/agent.py:136-158 | takes the `add_team_member` step, inventing the email when none is given |
| Agent.ProjectManagementAgent.ViewTeamMembers | project_management_agent/agent.py:160-183 | read-only; the listing holds every member and the count |
| Agent.ProjectManagementAgent.AddTask | project_management_agent/agent.py:185-231 | takes the `add_task` step |
| Agent.ProjectManagementAgent.UpdateUserName | project_management_agent/agent.py:233-239 | takes the `update_user_name` step |
| Agent.ProjectManagementAgent.UpdateTeamMember | project_management_agent/agent.py:241-271 | takes the `update_team_member` step |
| Agent.ProjectManagementAgent.DeleteTeamMember | project_management_agent/agent.py:273-295 | takes the `delete_team_member` step |
| Agent.ProjectManagementAgent.FindTeamMemberByName | project_management_agent/agent.py:297-328 | read-only; the reply is the tri-state lookup of the team, `not_found` exactly when no name matches |
| Agent.ProjectManagementAgent.FindProjectByName | project_management_agent/agent.py:330-361 | read-only; the reply is the tri-state lookup of the projects, `not_found` exactly when no name matches |
| Agent.ProjectManagementAgent.AddTaskByProjectName | project_management_agent/agent.py:363-388 | takes the `add_task_by_project_name` step |
| Agent.ProjectManagementAgent.AddTaskSmart | project_management_agent/agent.py:429-447 | takes the `add_task_smart` step for the project name its patterns extracted |
| Agent.ProjectManagementAgent.ExecuteFunction | project_management_agent/agent.py:564-587 | takes the step of the call its arguments bind to |
| Agent.ProjectManagementAgent.DeleteProject | project_management_agent/agent.py:678-700 | takes the `delete_project` step |
| Agent.ProjectManagementAgent.DeleteProjectByName | project_management_agent/agent.py:702-722 | takes the `delete_project_by_name` step |
| Agent.ProjectManagementAgent.ClearAllProjects | project_management_agent/agent.py:724-730 | takes the `clear_all_projects` step |
| Agent.ProjectManagementAgent.ClearAllTeamMembers | project_management_agent/agent.py:732-738 | takes the `clear_all_team_members` step |
| Agent.ProjectManagementAgent.ClearAllData | project_management_agent/agent.py:740-747 | takes the `clear_all_data` step, two writes |
| Agent.ProjectManagementAgent.UpdateTaskStatus | project_management_agent/agent.py:749-797 | takes the `update_task_status` step |
| Agent.ProjectManagementAgent.DeleteTasksByName | project_management_agent/agent.py:799-849 | takes the `delete_tasks_by_name` step |
| Agent.ProjectManagementAgent.RemoveCompletedTasks | project_management_agent/agent.py:851-894 | takes the `remove_completed_tasks` step |
| MinimalAgent.Bind | project_management_agent/new_agent.py:261-276 | a name outside the six registered ones binds to an unknown-function call carrying it; `add_team_member` always carries an email |
| MinimalAgent.ProjectManagementAgent.constructor | project_management_agent/new_agent.py:11-51 | the agent resumes from the stored state, which is the store's only blob |
| MinimalAgent.ProjectManagementAgent.UpdateState | project_management_agent/new_agent.py:53-56 | one key is set and the whole new state is appended to the store |
| MinimalAgent.ProjectManagementAgent.AddProject | project_management_agent/new_agent.py:58-97 | takes the `add_project` step, the same as the richer agent's |
| MinimalAgent.ProjectManagementAgent.ViewProjects | project_management_agent/new_agent.py:99-106 | read-only; the listing holds every project and the count |
| MinimalAgent.ProjectManagementAgent.AddTeamMember | project_management_agent/new_agent.py:108-126 | appends one member with the given name, role and email, with no default email |
| MinimalAgent.ProjectManagementAgent.ViewTeamMembers | project_management_agent/new_agent.py:128-135 | read-only; the listing holds every member and the count |
| MinimalAgent.ProjectManagementAgent.AddTask | project_management_agent/new_agent.py:137-183 | takes the `add_task` step, the same as the richer agent's |
| MinimalAgent.ProjectManagementAgent.UpdateUserName | project_management_agent/new_agent.py:185-191 | takes the `update_user_name` step |
| MinimalAgent.ProjectManagementAgent.ExecuteFunction | project_management_agent/new_agent.py:261-276 | takes the step of the call its arguments bind to |
| Agreement.RegistriesNest | project_management_agent/new_agent.py:261-276 | every name the six-operation agent registers, the richer one registers too; the richer one adds exactly the four team and lookup names |
| Agreement.UnknownNamesChangeNothing | project_management_agent/new_agent.py:275-276 | in either agent a name outside the registry writes nothing and answers with an error naming it |
| Agreement.MismatchesChangeNothing | project_management_agent/agent.py:564-587 | in the richer agent, arguments that do not fit write nothing |
| Agreement.MinimalMismatchesChangeNothing | project_management_agent/new_agent.py:261-276 | in the six-operation agent, arguments that do not fit write nothing |
| Agreement.SharedOperationsAgree | project_management_agent/new_agent.py:261-274 | `add_project`, `add_task`, `update_user_name` and `view_team_members` bind alike and take the same step in both agents |
| Agreement.AddTeamMemberAgreesWithEmail | project_management_agent/new_agent.py:108-126 | with an email both agents bind `add_team_member` alike; without one the six-operation agent refuses and the richer one invents the address |
| Agreement.ViewProjectsAgree | project_management_agent/new_agent.py:99-106 | both `view_projects` list the same projects with the same count; the richer one adds the progress figures |
| Scenarios.StartWithProject | project_management_agent/agent.py:68-107 | a new session with one `add_project` call holds exactly that project, with the defaults and no tasks |
| Scenarios.AddCompletedTask | project_management_agent/agent.py:749-797 | adding a task and marking it "completed" leaves the project with that one completed task |
| Scenarios.EndToEnd | project_management_agent/agent.py:851-894 | add a project, add a task, complete it and remove completed tasks: the project is left with no tasks, one task was removed from it, and four writes followed the initial blob |

## Left out

- `process_message` in both files: a language-model call with prompt text, async code and JSON serialisation. These are foreign calls.
- `get_function_declarations` and `get_python_functions`: these build SDK objects. Only the dispatch table is modelled, as `Registry`.
- `clear_conversation_history`: conversation history is part of the language-model layer.
- `AddTaskSmart`: the regular-expression extraction of `add_task_smart` (project_management_agent/agent.py:398-427) is not modelled. The project name it extracts, or the hint, is a parameter, and so is the cleaned-up task name. Only the branch with no project is given its own lemma.
- The session store of `main.py` (SQLite, `uuid4`, JSON, timestamps) is replaced by the ghost `store` field. A write cannot fail in the model.
- `streamlit_app.py`: user-interface code with floating-point progress ratios.
- `datetime.now()` for `created_at` is the `today` parameter, which may be any string: the model does not require it to be `Dates.Format` of a date. `Properties.CreatedAtAcceptedAsDueDate` covers the case where it is.
- `Dates.ParseDate`: follows the standard library's `%Y-%m-%d` pattern with ASCII digits only. It does not model Unicode digits or the locale.
- `Text.Lower`: lower-cases ASCII letters only, not the full Unicode case mapping of `str.lower()`.
- Replies carry their structured fields and the values their messages report, not the message text itself.
- `Agent.Bind`: refuses every call whose keyword arguments do not fit, with an `ArgumentError` reply that changes nothing, but Python does different things for different mismatches:
  - a missing required keyword or an unknown one raises `TypeError` when `**args` is bound;
  - text given for `project_index` or `index` raises `TypeError` at `index - 1`;
  - an integer given for a text parameter is stored as it is by `add_project`, `add_task`, `update_user_name`, `update_team_member`, and by `add_team_member` when an email is given (for example `update_user_name(name=5)` writes 5);
  - `add_team_member` without an email raises `AttributeError` at `name.lower()` when the name is an integer, and so do `find_team_member_by_name` and `find_project_by_name` when there is at least one member or project to compare against (with none, the loop body never runs and they answer `not_found`);
  - `add_project` with a non-zero integer due date raises `TypeError` in `strptime`.
  The model's arguments are text or integers only, so `None`, floats and lists passed explicitly are not modelled either.
- `MinimalAgent.Bind`: refuses mismatched arguments the same way. In Python, a missing or unknown keyword raises `TypeError` and text for `project_index` raises `TypeError`; an integer for a text parameter is stored as it is, except a non-zero integer due date for `add_project`, which raises `TypeError` in `strptime`.
- `Agent.ProjectManagementAgent.constructor`: the state is taken as given, with every key present. The `.get(key, [])` defaults for missing keys and projects without a `tasks` key are not modelled.
- Aliasing: the Python methods mutate the lists read from `self.state` before `_update_state` writes them back. The model builds the new list and assigns it, which gives the same final state.
- `Agent.ProjectManagementAgent.ViewProjects`: the `formatted_list` text is not modelled. The completed and total counts it prints are, as one `Progress` per project.
- `Agent.ProjectManagementAgent.ViewTeamMembers`: the `formatted_list` text of `view_team_members` is not modelled; the reply carries the members and their count.
