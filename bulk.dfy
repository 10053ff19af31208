/** The bulk task filters: `delete_tasks_by_name` drops every task whose
    name contains a query, `remove_completed_tasks` drops every task whose
    status is exactly "completed". Both scan every project in order. */
module Bulk {
  import opened Text
  import opened Entities

  /** Which tasks a bulk operation drops. */
  datatype TaskFilter = NameContains(query: string) | IsCompleted

  predicate Drops(f: TaskFilter, t: Task)
  {
    match f
    case NameContains(q) => NameMatches(t.name, q)
    case IsCompleted => StatusOf(t) == Completed
  }

  /** The tasks that survive the filter, built front to back as the loops build them. */
  function Keep(ts: seq<Task>, f: TaskFilter): seq<Task>
    decreases |ts|
  {
    if ts == [] then []
    else
      var n := |ts| - 1;
      Keep(ts[..n], f) + (if Drops(f, ts[n]) then [] else [ts[n]])
  }

  /** How many tasks the filter drops, counted one by one. */
  function CountDropped(ts: seq<Task>, f: TaskFilter): nat
    decreases |ts|
  {
    if ts == [] then 0
    else
      var n := |ts| - 1;
      CountDropped(ts[..n], f) + (if Drops(f, ts[n]) then 1 else 0)
  }

  /** `a` is `b` with some elements left out, the rest in their order. */
  ghost predicate Subsequence(a: seq<Task>, b: seq<Task>)
    decreases |b|
  {
    if a == [] then true
    else if b == [] then false
    else
      (a[|a| - 1] == b[|b| - 1] && Subsequence(a[..|a| - 1], b[..|b| - 1]))
      || Subsequence(a, b[..|b| - 1])
  }

  /** No survivor is one the filter drops. */
  lemma {:induction false} KeepDropsAll(ts: seq<Task>, f: TaskFilter)
    ensures forall i :: 0 <= i < |Keep(ts, f)| ==> !Drops(f, Keep(ts, f)[i])
    decreases |ts|
  {
    if ts != [] {
      KeepDropsAll(ts[..|ts| - 1], f);
    }
  }

  /** Every task the filter spares survives, as often as it occurred. */
  lemma {:induction false} KeepSpares(ts: seq<Task>, f: TaskFilter)
    ensures forall t :: !Drops(f, t) ==> multiset(Keep(ts, f))[t] == multiset(ts)[t]
    ensures forall t :: Drops(f, t) ==> multiset(Keep(ts, f))[t] == 0
    decreases |ts|
  {
    if ts != [] {
      var n := |ts| - 1;
      KeepSpares(ts[..n], f);
      assert ts == ts[..n] + [ts[n]];
      assert multiset(ts) == multiset(ts[..n]) + multiset{ts[n]};
      var last := if Drops(f, ts[n]) then [] else [ts[n]];
      assert multiset(Keep(ts, f)) == multiset(Keep(ts[..n], f)) + multiset(last);
    }
  }

  /** The survivors keep their relative order. */
  lemma {:induction false} KeepInOrder(ts: seq<Task>, f: TaskFilter)
    ensures Subsequence(Keep(ts, f), ts)
    decreases |ts|
  {
    if ts != [] {
      var n := |ts| - 1;
      KeepInOrder(ts[..n], f);
      var k := Keep(ts, f);
      if !Drops(f, ts[n]) {
        assert k[..|k| - 1] == Keep(ts[..n], f);
      } else if k != [] {
        assert k == Keep(ts[..n], f);
      }
    }
  }

  /** The drop count is the number of tasks that went missing. */
  lemma {:induction false} KeepCount(ts: seq<Task>, f: TaskFilter)
    ensures |Keep(ts, f)| + CountDropped(ts, f) == |ts|
    decreases |ts|
  {
    if ts != [] {
      KeepCount(ts[..|ts| - 1], f);
    }
  }

  /** Some task of the list is one the filter drops. */
  ghost predicate HasDroppable(ts: seq<Task>, f: TaskFilter)
  {
    exists i :: 0 <= i < |ts| && Drops(f, ts[i])
  }

  /** A list holds a droppable task exactly when its prefix does or its last task is one. */
  lemma DroppableSplit(ts: seq<Task>, f: TaskFilter)
    requires ts != []
    ensures HasDroppable(ts, f) <==> HasDroppable(ts[..|ts| - 1], f) || Drops(f, ts[|ts| - 1])
  {
    var n := |ts| - 1;
    if HasDroppable(ts[..n], f) {
      var i :| 0 <= i < n && Drops(f, ts[..n][i]);
      assert Drops(f, ts[i]);
    }
    if HasDroppable(ts, f) {
      var i :| 0 <= i < |ts| && Drops(f, ts[i]);
      if i < n {
        assert Drops(f, ts[..n][i]);
      }
    }
  }

  /** A task list shrinks exactly when it holds a task the filter drops. */
  lemma {:induction false} ShrinksIffDroppable(ts: seq<Task>, f: TaskFilter)
    ensures |Keep(ts, f)| < |ts| <==> exists i :: 0 <= i < |ts| && Drops(f, ts[i])
    ensures CountDropped(ts, f) == 0 ==> Keep(ts, f) == ts
    decreases |ts|
  {
    if ts != [] {
      var n := |ts| - 1;
      ShrinksIffDroppable(ts[..n], f);
      KeepCount(ts[..n], f);
      KeepCount(ts, f);
      DroppableSplit(ts, f);
      if CountDropped(ts, f) == 0 {
        assert ts == ts[..n] + [ts[n]];
      }
    }
  }

  /** A project after the filter has run over its tasks. */
  function Pruned(p: Project, f: TaskFilter): Project
  {
    p.(tasks := Keep(p.tasks, f))
  }

  /** Every project pruned, in place. */
  function PruneAll(ps: seq<Project>, f: TaskFilter): seq<Project>
  {
    seq(|ps|, i requires 0 <= i < |ps| => Pruned(ps[i], f))
  }

  function TotalTasks(ps: seq<Project>): nat
    decreases |ps|
  {
    if ps == [] then 0 else TotalTasks(ps[..|ps| - 1]) + |ps[|ps| - 1].tasks|
  }

  /** The drop counts of all projects added up. */
  function DroppedTotal(ps: seq<Project>, f: TaskFilter): nat
    decreases |ps|
  {
    if ps == [] then 0 else DroppedTotal(ps[..|ps| - 1], f) + CountDropped(ps[|ps| - 1].tasks, f)
  }

  /** The names of the projects that hold a task the filter drops, in project order. */
  function Affected(ps: seq<Project>, f: TaskFilter): seq<string>
    decreases |ps|
  {
    if ps == [] then []
    else
      var n := |ps| - 1;
      Affected(ps[..n], f)
        + (if exists j :: 0 <= j < |ps[n].tasks| && Drops(f, ps[n].tasks[j]) then [ps[n].name] else [])
  }

  /** After pruning no project holds a task the filter drops, and only the
      task lists changed. */
  lemma PruneAllDropsAll(ps: seq<Project>, f: TaskFilter)
    ensures |PruneAll(ps, f)| == |ps|
    ensures forall i, j :: 0 <= i < |ps| && 0 <= j < |PruneAll(ps, f)[i].tasks| ==>
              !Drops(f, PruneAll(ps, f)[i].tasks[j])
    ensures forall i :: 0 <= i < |ps| ==>
              PruneAll(ps, f)[i] == ps[i].(tasks := PruneAll(ps, f)[i].tasks)
  {
    forall i | 0 <= i < |ps| {
      KeepDropsAll(ps[i].tasks, f);
    }
  }

  /** The reported total is the number of tasks that went missing across the projects. */
  lemma {:induction false} DroppedTotalIsDifference(ps: seq<Project>, f: TaskFilter)
    ensures TotalTasks(PruneAll(ps, f)) + DroppedTotal(ps, f) == TotalTasks(ps)
    decreases |ps|
  {
    if ps != [] {
      var n := |ps| - 1;
      DroppedTotalIsDifference(ps[..n], f);
      KeepCount(ps[n].tasks, f);
      assert PruneAll(ps, f)[..n] == PruneAll(ps[..n], f);
    }
  }

  /** A zero total means no project lost anything. */
  lemma {:induction false} ZeroTotalEverywhere(ps: seq<Project>, f: TaskFilter)
    requires DroppedTotal(ps, f) == 0
    ensures forall i :: 0 <= i < |ps| ==> CountDropped(ps[i].tasks, f) == 0
    ensures Affected(ps, f) == []
    decreases |ps|
  {
    if ps != [] {
      var n := |ps| - 1;
      assert DroppedTotal(ps[..n], f) == 0 && CountDropped(ps[n].tasks, f) == 0;
      ZeroTotalEverywhere(ps[..n], f);
      ShrinksIffDroppable(ps[n].tasks, f);
      assert !HasDroppable(ps[n].tasks, f);
      forall i | 0 <= i < |ps| ensures CountDropped(ps[i].tasks, f) == 0 {
        if i < n {
          assert ps[..n][i] == ps[i];
        }
      }
    }
  }

  /** Nothing to drop means pruning changes nothing. */
  lemma NothingDroppedIsIdentity(ps: seq<Project>, f: TaskFilter)
    requires DroppedTotal(ps, f) == 0
    ensures PruneAll(ps, f) == ps
    ensures Affected(ps, f) == []
  {
    ZeroTotalEverywhere(ps, f);
    forall i | 0 <= i < |ps| ensures PruneAll(ps, f)[i] == ps[i] {
      ShrinksIffDroppable(ps[i].tasks, f);
    }
  }

  /** Every project keeps its name and the survivors of its task list: all the
      tasks the filter spares, as often as they occurred, in their order. */
  lemma PruneAllKeeps(ps: seq<Project>, f: TaskFilter)
    ensures |PruneAll(ps, f)| == |ps|
    ensures forall i :: 0 <= i < |ps| ==> PruneAll(ps, f)[i].name == ps[i].name
    ensures forall i :: 0 <= i < |ps| ==> Subsequence(PruneAll(ps, f)[i].tasks, ps[i].tasks)
    ensures forall i, t :: 0 <= i < |ps| && !Drops(f, t) ==>
              multiset(PruneAll(ps, f)[i].tasks)[t] == multiset(ps[i].tasks)[t]
  {
    forall i | 0 <= i < |ps|
      ensures Subsequence(PruneAll(ps, f)[i].tasks, ps[i].tasks)
      ensures forall t :: !Drops(f, t) ==> multiset(PruneAll(ps, f)[i].tasks)[t] == multiset(ps[i].tasks)[t]
    {
      assert PruneAll(ps, f)[i].tasks == Keep(ps[i].tasks, f);
      KeepInOrder(ps[i].tasks, f);
      KeepSpares(ps[i].tasks, f);
    }
  }

  /** The names, in project order, of the projects whose task list got shorter. */
  ghost function Shrunk(before: seq<Project>, after: seq<Project>): seq<string>
    requires |before| == |after|
    decreases |before|
  {
    if before == [] then []
    else
      var n := |before| - 1;
      Shrunk(before[..n], after[..n]) + (if |after[n].tasks| < |before[n].tasks| then [before[n].name] else [])
  }

  /** The affected list names exactly the projects that lost a task, in order. */
  lemma {:induction false} AffectedIsShrunk(ps: seq<Project>, f: TaskFilter)
    ensures Affected(ps, f) == Shrunk(ps, PruneAll(ps, f))
    decreases |ps|
  {
    if ps != [] {
      var n := |ps| - 1;
      AffectedIsShrunk(ps[..n], f);
      assert PruneAll(ps, f)[..n] == PruneAll(ps[..n], f);
      ShrinksIffDroppable(ps[n].tasks, f);
    }
  }

  /** The filter pass of `delete_tasks_by_name` over one project's tasks:
      keep the tasks whose name does not contain the query, count the others. */
  method DropByName(tasks: seq<Task>, query: string) returns (remaining: seq<Task>, deleted: nat)
    ensures remaining == Keep(tasks, NameContains(query))
    ensures deleted == CountDropped(tasks, NameContains(query))
    ensures |remaining| + deleted == |tasks|
  {
    remaining, deleted := [], 0;
    var q := Lower(query);
    var j := 0;
    while j < |tasks|
      invariant 0 <= j <= |tasks|
      invariant remaining == Keep(tasks[..j], NameContains(query))
      invariant deleted == CountDropped(tasks[..j], NameContains(query))
    {
      if !Contains(Lower(tasks[j].name), q) {
        remaining := remaining + [tasks[j]];
      } else {
        deleted := deleted + 1;
      }
      j := j + 1;
      assert tasks[..j][..j - 1] == tasks[..j - 1];
    }
    assert tasks[..j] == tasks;
    KeepCount(tasks, NameContains(query));
  }

  /** The scan's list after `i` projects: those pruned, then the rest as they were. */
  function ScannedUpTo(ps: seq<Project>, i: nat, f: TaskFilter): seq<Project>
    requires i <= |ps|
  {
    PruneAll(ps[..i], f) + ps[i..]
  }

  /** One more project scanned: it is the `i`-th entry of the scan's list,
      pruning it there extends the scan, its drop count joins the total, its
      name joins the affected list exactly when its task list shrank, and a
      list that did not shrink is already pruned. */
  lemma PrefixStep(ps: seq<Project>, i: nat, f: TaskFilter)
    requires i < |ps|
    ensures |ScannedUpTo(ps, i, f)| == |ps| && ScannedUpTo(ps, i, f)[i] == ps[i]
    ensures ScannedUpTo(ps, i + 1, f) == ScannedUpTo(ps, i, f)[i := Pruned(ps[i], f)]
    ensures DroppedTotal(ps[..i + 1], f) == DroppedTotal(ps[..i], f) + CountDropped(ps[i].tasks, f)
    ensures Affected(ps[..i + 1], f) ==
            Affected(ps[..i], f) + (if |Keep(ps[i].tasks, f)| < |ps[i].tasks| then [ps[i].name] else [])
    ensures |Keep(ps[i].tasks, f)| >= |ps[i].tasks| ==> Pruned(ps[i], f) == ps[i]
  {
    assert ps[..i + 1][..i] == ps[..i];
    var before, after := ScannedUpTo(ps, i, f), ScannedUpTo(ps, i + 1, f);
    assert before[i] == ps[i..][0];
    forall j | 0 <= j < |ps| ensures after[j] == before[i := Pruned(ps[i], f)][j] {
      if j > i {
        assert after[j] == ps[i + 1..][j - i - 1] == ps[j];
        assert before[j] == ps[i..][j - i] == ps[j];
      }
    }
    ShrinksIffDroppable(ps[i].tasks, f);
    KeepCount(ps[i].tasks, f);
  }

  /** The whole scan is the pruned list. */
  lemma ScannedAll(ps: seq<Project>, f: TaskFilter)
    ensures ScannedUpTo(ps, 0, f) == ps && ScannedUpTo(ps, |ps|, f) == PruneAll(ps, f)
  {
    assert ps[..0] == [] && ps[0..] == ps;
    assert ps[..|ps|] == ps && ps[|ps|..] == [];
  }

  /** The project scan of `delete_tasks_by_name`: prune every project in
      place, counting the deleted tasks and naming the projects that lost one. */
  method DeleteByNameScan(ps: seq<Project>, query: string)
    returns (pruned: seq<Project>, deletedCount: nat, affected: seq<string>)
    ensures pruned == PruneAll(ps, NameContains(query))
    ensures deletedCount == DroppedTotal(ps, NameContains(query))
    ensures affected == Affected(ps, NameContains(query))
  {
    ghost var f := NameContains(query);
    ScannedAll(ps, f);
    pruned, deletedCount, affected := ps, 0, [];
    var i := 0;
    while i < |ps|
      invariant 0 <= i <= |ps|
      invariant pruned == ScannedUpTo(ps, i, f)
      invariant deletedCount == DroppedTotal(ps[..i], f)
      invariant affected == Affected(ps[..i], f)
    {
      PrefixStep(ps, i, f);
      var tasks := pruned[i].tasks;
      var remaining, deleted := DropByName(tasks, query);
      deletedCount := deletedCount + deleted;
      if |remaining| < |tasks| {
        pruned := pruned[i := pruned[i].(tasks := remaining)];
        affected := affected + [pruned[i].name];
      }
      i := i + 1;
    }
    assert ps[..i] == ps;
  }

  /** The project scan of `remove_completed_tasks`: the same pass, with each
      task list rebuilt from the tasks that are not completed. */
  method RemoveCompletedScan(ps: seq<Project>)
    returns (pruned: seq<Project>, removedCount: nat, affected: seq<string>)
    ensures pruned == PruneAll(ps, IsCompleted)
    ensures removedCount == DroppedTotal(ps, IsCompleted)
    ensures affected == Affected(ps, IsCompleted)
  {
    ScannedAll(ps, IsCompleted);
    pruned, removedCount, affected := ps, 0, [];
    var i := 0;
    while i < |ps|
      invariant 0 <= i <= |ps|
      invariant pruned == ScannedUpTo(ps, i, IsCompleted)
      invariant removedCount == DroppedTotal(ps[..i], IsCompleted)
      invariant affected == Affected(ps[..i], IsCompleted)
    {
      PrefixStep(ps, i, IsCompleted);
      var tasks := pruned[i].tasks;
      var remaining := Keep(tasks, IsCompleted);
      KeepCount(tasks, IsCompleted);
      if |remaining| < |tasks| {
        removedCount := removedCount + (|tasks| - |remaining|);
        pruned := pruned[i := pruned[i].(tasks := remaining)];
        affected := affected + [pruned[i].name];
      }
      i := i + 1;
    }
    assert ps[..i] == ps;
  }
}
