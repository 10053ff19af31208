/** Name resolution: the case-insensitive substring search behind
    `find_project_by_name`, `find_team_member_by_name` and the by-name
    operations, and the first-match search of `update_task_status`. */
module Resolver {
  import opened Optional
  import opened Text
  import opened Entities

  /** The hits of `query` among `items` (whose names are `names`): every
      1-based position whose name matches, in list order. */
  function Hits<T>(items: seq<T>, names: seq<string>, query: string): seq<Hit<T>>
    requires |names| == |items|
    decreases |items|
  {
    if |items| == 0 then []
    else
      var n := |items| - 1;
      Hits(items[..n], names[..n], query)
        + (if NameMatches(names[n], query) then [Hit(n + 1, items[n])] else [])
  }

  function ProjectHits(ps: seq<Project>, query: string): seq<Hit<Project>>
  {
    Hits(ps, Names(ps, ProjectName), query)
  }

  function MemberHits(ms: seq<TeamMember>, query: string): seq<Hit<TeamMember>>
  {
    Hits(ms, Names(ms, MemberName), query)
  }

  /** Some hit reports the 1-based position `index`. */
  ghost predicate Reports<T>(hs: seq<Hit<T>>, index: int)
  {
    exists k :: 0 <= k < |hs| && hs[k].index == index
  }

  ghost predicate Ascending<T>(hs: seq<Hit<T>>)
  {
    forall a, b :: 0 <= a < b < |hs| ==> hs[a].index < hs[b].index
  }

  /** Each hit is a 1-based position that holds its item and whose name matches. */
  lemma {:induction false} HitsSound<T>(items: seq<T>, names: seq<string>, query: string)
    requires |names| == |items|
    ensures forall k :: 0 <= k < |Hits(items, names, query)| ==>
      var h := Hits(items, names, query)[k];
      1 <= h.index <= |items| && h.item == items[h.index - 1] && NameMatches(names[h.index - 1], query)
    decreases |items|
  {
    if |items| > 0 {
      var n := |items| - 1;
      HitsSound(items[..n], names[..n], query);
      var front := Hits(items[..n], names[..n], query);
      var hs := Hits(items, names, query);
      forall k | 0 <= k < |hs|
        ensures && 1 <= hs[k].index <= |items|
                && hs[k].item == items[hs[k].index - 1]
                && NameMatches(names[hs[k].index - 1], query)
      {
        if k < |front| {
          assert hs[k] == front[k];
          var j := front[k].index - 1;
          assert items[..n][j] == items[j] && names[..n][j] == names[j];
        }
      }
    }
  }

  /** Every matching position is a hit. */
  lemma {:induction false} HitsComplete<T>(items: seq<T>, names: seq<string>, query: string)
    requires |names| == |items|
    ensures forall i :: 0 <= i < |items| && NameMatches(names[i], query) ==>
      Reports(Hits(items, names, query), i + 1)
    decreases |items|
  {
    if |items| > 0 {
      var n := |items| - 1;
      HitsComplete(items[..n], names[..n], query);
      var front := Hits(items[..n], names[..n], query);
      var hs := Hits(items, names, query);
      assert hs[..|front|] == front;
      forall i | 0 <= i < |items| && NameMatches(names[i], query)
        ensures Reports(hs, i + 1)
      {
        if i < n {
          assert names[..n][i] == names[i];
          var k :| 0 <= k < |front| && front[k].index == i + 1;
          assert hs[k] == front[k];
          assert Reports(hs, i + 1);
        } else {
          assert hs[|hs| - 1].index == i + 1;
          assert Reports(hs, i + 1);
        }
      }
    }
  }

  /** The hits come in list order. */
  lemma {:induction false} HitsAscend<T>(items: seq<T>, names: seq<string>, query: string)
    requires |names| == |items|
    ensures Ascending(Hits(items, names, query))
    decreases |items|
  {
    if |items| > 0 {
      var n := |items| - 1;
      HitsAscend(items[..n], names[..n], query);
      HitsSound(items[..n], names[..n], query);
      var front := Hits(items[..n], names[..n], query);
      var hs := Hits(items, names, query);
      forall a, b | 0 <= a < b < |hs| ensures hs[a].index < hs[b].index {
        assert hs[a] == front[a];
        if b < |front| {
          assert hs[b] == front[b];
        }
      }
    }
  }

  /** The hits are exactly the matching positions, in ascending order. */
  lemma HitsExact<T>(items: seq<T>, names: seq<string>, query: string)
    requires |names| == |items|
    ensures forall k :: 0 <= k < |Hits(items, names, query)| ==>
      var h := Hits(items, names, query)[k];
      1 <= h.index <= |items| && h.item == items[h.index - 1] && NameMatches(names[h.index - 1], query)
    ensures forall i :: 0 <= i < |items| && NameMatches(names[i], query) ==>
      Reports(Hits(items, names, query), i + 1)
    ensures Ascending(Hits(items, names, query))
  {
    HitsSound(items, names, query);
    HitsComplete(items, names, query);
    HitsAscend(items, names, query);
  }

  /** There are no hits exactly when no name matches. */
  lemma NoHitsIffNoMatch<T>(items: seq<T>, names: seq<string>, query: string)
    requires |names| == |items|
    ensures Hits(items, names, query) == [] <==> forall i :: 0 <= i < |items| ==> !NameMatches(names[i], query)
  {
    HitsComplete(items, names, query);
    HitsSound(items, names, query);
  }

  /** `Hits` never reports more hits than there are items. */
  lemma {:induction false} HitsBounded<T>(items: seq<T>, names: seq<string>, query: string)
    requires |names| == |items|
    ensures |Hits(items, names, query)| <= |items|
    decreases |items|
  {
    if |items| > 0 {
      HitsBounded(items[..|items| - 1], names[..|items| - 1], query);
    }
  }

  /** Nothing matches: no hits. */
  lemma {:induction false} HitsOfNone<T>(items: seq<T>, names: seq<string>, query: string)
    requires |names| == |items|
    requires forall j :: 0 <= j < |items| ==> !NameMatches(names[j], query)
    ensures Hits(items, names, query) == []
    decreases |items|
  {
    if |items| > 0 {
      var n := |items| - 1;
      HitsOfNone(items[..n], names[..n], query);
    }
  }

  /** Only position `i` matches: exactly its hit. */
  lemma {:induction false} HitsOfUnique<T>(items: seq<T>, names: seq<string>, query: string, i: int)
    requires |names| == |items| && 0 <= i < |items| && NameMatches(names[i], query)
    requires forall j :: 0 <= j < |items| && NameMatches(names[j], query) ==> j == i
    ensures Hits(items, names, query) == [Hit(i + 1, items[i])]
    decreases |items|
  {
    var n := |items| - 1;
    if i == n {
      HitsOfNone(items[..n], names[..n], query);
    } else {
      HitsOfUnique(items[..n], names[..n], query, i);
    }
  }

  /** The tri-state outcome of a search: none, exactly one, or several (in order). */
  function Classify<T>(hs: seq<Hit<T>>): (l: Lookup<T>)
    ensures l.NoMatch? <==> |hs| == 0
    ensures l.OneMatch? <==> |hs| == 1
    ensures l.ManyMatches? <==> |hs| > 1
    ensures l.OneMatch? ==> l.hit == hs[0]
    ensures l.ManyMatches? ==> l.hits == hs
  {
    if |hs| == 0 then NoMatch else if |hs| == 1 then OneMatch(hs[0]) else ManyMatches(hs)
  }

  /** The `status` a find operation reports for a lookup. */
  function LookupStatus<T>(l: Lookup<T>): Status
  {
    match l
    case NoMatch => NotFound
    case OneMatch(_) => Found
    case ManyMatches(_) => MultipleMatches
  }

  /** The 0-based position of the first name that matches, if any. */
  function FirstHit(names: seq<string>, query: string): (r: Option<nat>)
    ensures r.Some? ==> r.value < |names| && NameMatches(names[r.value], query)
    decreases |names|
  {
    if |names| == 0 then None
    else if NameMatches(names[0], query) then Some(0)
    else match FirstHit(names[1..], query)
      case None => None
      case Some(i) => Some(i + 1)
  }

  /** `FirstHit` finds the first matching position, and finds nothing only
      when no name matches. */
  lemma {:induction false} FirstHitIsFirst(names: seq<string>, query: string)
    ensures FirstHit(names, query).None? <==>
            forall j :: 0 <= j < |names| ==> !NameMatches(names[j], query)
    ensures FirstHit(names, query).Some? ==>
            var i := FirstHit(names, query).value;
            i < |names| && NameMatches(names[i], query) &&
            forall j :: 0 <= j < i ==> !NameMatches(names[j], query)
    decreases |names|
  {
    if |names| > 0 && !NameMatches(names[0], query) {
      FirstHitIsFirst(names[1..], query);
      assert forall j :: 1 <= j < |names| ==> names[1..][j - 1] == names[j];
    }
  }

  /** The first match is the first hit of the tri-state search, so on a
      unique match `update_task_status` picks what the resolver would. */
  lemma FirstHitIsFirstOfHits<T>(items: seq<T>, names: seq<string>, query: string)
    requires |names| == |items|
    ensures FirstHit(names, query) ==
            if Hits(items, names, query) == [] then None else Some(Hits(items, names, query)[0].index - 1)
  {
    var hs := Hits(items, names, query);
    NoHitsIffNoMatch(items, names, query);
    FirstHitIsFirst(names, query);
    if hs != [] {
      HitsExact(items, names, query);
      var i := FirstHit(names, query).value;
      assert Reports(hs, i + 1);
      var k :| 0 <= k < |hs| && hs[k].index == i + 1;
      assert k == 0;
    }
  }

  /** Scan every item in order and collect the matches (the search loops of
      `find_project_by_name` and `find_team_member_by_name`). */
  method CollectHits<T>(items: seq<T>, names: seq<string>, query: string) returns (matches: seq<Hit<T>>)
    requires |names| == |items|
    ensures matches == Hits(items, names, query)
    ensures forall k :: 0 <= k < |matches| ==>
      1 <= matches[k].index <= |items| && matches[k].item == items[matches[k].index - 1]
      && NameMatches(names[matches[k].index - 1], query)
    ensures forall i :: 0 <= i < |items| && NameMatches(names[i], query) ==> Reports(matches, i + 1)
    ensures Ascending(matches)
    ensures |matches| <= |items|
  {
    var q := Lower(query);
    matches := [];
    var i := 0;
    while i < |items|
      invariant 0 <= i <= |items|
      invariant matches == Hits(items[..i], names[..i], query)
    {
      if Contains(Lower(names[i]), q) {
        matches := matches + [Hit(i + 1, items[i])];
      }
      i := i + 1;
      assert items[..i][..i - 1] == items[..i - 1];
      assert names[..i][..i - 1] == names[..i - 1];
    }
    assert items[..i] == items;
    assert names[..i] == names;
    HitsExact(items, names, query);
    HitsBounded(items, names, query);
  }

  /** Scan `names` from the front and stop at the first match (the search
      loops of `update_task_status`). */
  method FirstMatching(names: seq<string>, query: string) returns (found: Option<nat>)
    ensures found == FirstHit(names, query)
    ensures found.None? ==> forall j :: 0 <= j < |names| ==> !NameMatches(names[j], query)
    ensures found.Some? ==> found.value < |names| && NameMatches(names[found.value], query)
    ensures found.Some? ==> forall j :: 0 <= j < found.value ==> !NameMatches(names[j], query)
  {
    FirstHitIsFirst(names, query);
    found := None;
    var q := Lower(query);
    var i := 0;
    while i < |names|
      invariant 0 <= i <= |names|
      invariant forall j :: 0 <= j < i ==> !NameMatches(names[j], query)
    {
      if Contains(Lower(names[i]), q) {
        found := Some(i);
        break;
      }
      i := i + 1;
    }
  }
}
