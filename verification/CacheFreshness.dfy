/** Exactly when a slow reader leaves a stale list behind: if the rows of the team have changed since its read. While
    no reader caches after such a change, lists are current as soon as every invalidation has succeeded. */
module CacheFreshness {
  import opened Entities
  import opened Sql
  import opened Store
  import opened TaskQueries
  import opened CacheKeys
  import opened Interleaving
  import opened Membership
  import opened CacheSafety

  // ---- Lists tell rows, and rows tell lists ----

  /** The two tables hold the same rows of the team. */
  predicate SameRows(a: seq<Task>, b: seq<Task>, team: int) {
    && (forall t :: t in a && t.teamId == team ==> t in b)
    && (forall t :: t in b && t.teamId == team ==> t in a)
  }

  lemma SomeRow(a: seq<Task>)
    requires a != []
    ensures exists t :: t in a
  {
    assert a[0] in a;
  }

  lemma TailMember(a: seq<Task>, t: Task)
    requires a != [] && Sorted(a, NewestFirst)
    ensures t in a[1..] <==> t in a && t != a[0]
  {
    if t in a[1..] {
      var i :| 0 <= i < |a[1..]| && a[1..][i] == t;
      assert NewestFirst(a[0], a[i + 1]);
    }
    if t in a && t != a[0] {
      var i :| 0 <= i < |a| && a[i] == t;
      assert a[1..][i - 1] == t;
    }
  }

  /** Two lists of the same rows, newest first, are one list. */
  lemma {:induction false} OneOrder(a: seq<Task>, b: seq<Task>)
    requires Sorted(a, NewestFirst) && Sorted(b, NewestFirst)
    requires forall t :: t in a <==> t in b
    ensures a == b
    decreases |a|
  {
    if a == [] {
      if b != [] {
        SomeRow(b);
      }
    } else {
      assert a[0] in a && a[0] in b;
      assert b[0] in b && b[0] in a;
      var i :| 0 <= i < |b| && b[i] == a[0];
      var j :| 0 <= j < |a| && a[j] == b[0];
      assert i > 0 ==> NewestFirst(b[0], b[i]);
      assert j > 0 ==> NewestFirst(a[0], a[j]);
      assert a[0] == b[0];
      forall t ensures t in a[1..] <==> t in b[1..] {
        TailMember(a, t);
        TailMember(b, t);
      }
      OneOrder(a[1..], b[1..]);
    }
  }

  lemma SameRowsSameLists(same: Collation, a: seq<Task>, b: seq<Task>, f: ListFilter)
    requires UniqueTasks(a) && UniqueTasks(b) && SameRows(a, b, f.teamId)
    ensures Listing(same, a, f) == Listing(same, b, f)
  {
    SelectedIsExact(same, a, f);
    SelectedIsExact(same, b, f);
    OneOrder(Selected(same, a, f), Selected(same, b, f));
  }

  /** The query for everything there is of a team. */
  function Whole(a: seq<Task>, b: seq<Task>, team: int): ListFilter {
    ListFilter(team, "", 0, |a| + |b|, 0)
  }

  lemma WholeListsAll(same: Collation, a: seq<Task>, b: seq<Task>, team: int, t: Task)
    requires UniqueTasks(a)
    ensures t in Listing(same, a, Whole(a, b, team)) <==> t in a && t.teamId == team
    ensures t in Listing(same, a, Whole(b, a, team)) <==> t in a && t.teamId == team
  {
    SelectedIsExact(same, a, Whole(a, b, team));
    SelectedIsExact(same, a, Whole(b, a, team));
    var all := Selected(same, a, Whole(a, b, team));
    assert |all| <= |a|;
    assert all[0..] == all;
    assert Whole(a, b, team) == Whole(b, a, team);
  }

  lemma SameWholeSameRows(same: Collation, a: seq<Task>, b: seq<Task>, team: int)
    requires UniqueTasks(a) && UniqueTasks(b)
    requires Listing(same, a, Whole(a, b, team)) == Listing(same, b, Whole(a, b, team))
    ensures SameRows(a, b, team)
  {
    forall t: Task | t.teamId == team ensures t in a <==> t in b {
      WholeListsAll(same, a, b, team, t);
      WholeListsAll(same, b, a, team, t);
    }
  }

  /** All lists of a team agree if and only if its rows do. */
  lemma ListsAgreeIff(same: Collation, a: seq<Task>, b: seq<Task>, team: int)
    requires UniqueTasks(a) && UniqueTasks(b)
    ensures (forall f: ListFilter :: f.teamId == team ==> Listing(same, a, f) == Listing(same, b, f))
            <==> SameRows(a, b, team)
  {
    if SameRows(a, b, team) {
      forall f: ListFilter | f.teamId == team ensures Listing(same, a, f) == Listing(same, b, f) {
        SameRowsSameLists(same, a, b, f);
      }
    }
    if forall f: ListFilter :: f.teamId == team ==> Listing(same, a, f) == Listing(same, b, f) {
      SameWholeSameRows(same, a, b, team);
    }
  }

  // ---- The step that writes back ----

  /** A reader of this team caches its list only while the team has the rows it has read. */
  predicate WritesBackCurrent(s: State, a: Action, team: int)
    requires Enabled(s, a)
  {
    a.SetList? && s.requests[a.id].query.teamId == team ==>
      var r := s.requests[a.id];
      r.readAt <= |s.commits| && SameRows(TasksAt(s.commits, r.readAt), s.tables.tasks, team)
  }

  /** The tables have had distinct ids at every commit. */
  ghost predicate CommitsUnique(commits: seq<Commit>) {
    forall n :: 0 <= n <= |commits| ==> UniqueTasks(TasksAt(commits, n))
  }

  /** The state in which the reader has asked, at the same moment, for another list of the same team. */
  function Asking(s: State, id: nat, f: ListFilter): State
    requires Enabled(s, SetList(id)) && s.requests[id].readAt <= |s.commits|
  {
    var readAt := s.requests[id].readAt;
    s.(requests := s.requests[id := ListRead(f, Listing(s.same, TasksAt(s.commits, readAt), f), readAt)])
  }

  /** The entry written back is the current list of its query. */
  predicate CachesCurrent(s: State, id: nat)
    requires Enabled(s, SetList(id))
  {
    var f := s.requests[id].query;
    Next(s, SetList(id)).cache[TeamTasksKey(f)].rows == Listing(s.same, s.tables.tasks, f)
  }

  lemma WhatIsCached(s: State, id: nat, f: ListFilter)
    requires Enabled(s, SetList(id)) && s.requests[id].readAt <= |s.commits|
    ensures Enabled(Asking(s, id, f), SetList(id))
    ensures CachesCurrent(Asking(s, id, f), id) <==>
            Listing(s.same, TasksAt(s.commits, s.requests[id].readAt), f) == Listing(s.same, s.tables.tasks, f)
  {
  }

  /** Whatever list of the team the reader has asked for, it caches a current one. */
  ghost predicate CachesAnyCurrent(s: State, id: nat)
    requires Enabled(s, SetList(id))
  {
    && s.requests[id].readAt <= |s.commits|
    && forall f: ListFilter :: f.teamId == s.requests[id].query.teamId ==>
         Enabled(Asking(s, id, f), SetList(id)) && CachesCurrent(Asking(s, id, f), id)
  }

  /** Whatever list of its team a reader has asked for, it caches a current one if and only if the team has the rows
      it had at the read. */
  lemma WriteBackIsCurrentIff(s: State, id: nat)
    requires Consistent(s) && Tracked(s) && CommitsUnique(s.commits) && Enabled(s, SetList(id))
    ensures CachesAnyCurrent(s, id) <==> WritesBackCurrent(s, SetList(id), s.requests[id].query.teamId)
  {
    var r := s.requests[id];
    assert RequestTracks(s.same, s.commits, s.cache, s.now, r);
    forall f: ListFilter ensures Enabled(Asking(s, id, f), SetList(id)) {
      WhatIsCached(s, id, f);
    }
    forall f: ListFilter
      ensures CachesCurrent(Asking(s, id, f), id) <==>
              Listing(s.same, TasksAt(s.commits, r.readAt), f) == Listing(s.same, s.tables.tasks, f)
    {
      WhatIsCached(s, id, f);
    }
    ListsAgreeIff(s.same, TasksAt(s.commits, r.readAt), s.tables.tasks, r.query.teamId);
  }

  // ---- What a step keeps ----

  lemma CommitsKept(s: State, a: Action)
    requires Enabled(s, a)
    ensures var s' := Next(s, a);
            && s'.same == s.same
            && |s.commits| <= |s'.commits| <= |s.commits| + 1
            && (forall i :: 0 <= i < |s.commits| ==>
                 s'.commits[i].at == s.commits[i].at && s'.commits[i].tasks == s.commits[i].tasks)
            && (|s'.commits| > |s.commits| ==>
                  s'.commits[|s.commits|].at == s.now && s'.commits[|s.commits|].tasks == s'.tables.tasks)
  {
  }

  lemma CommitsStayUnique(s: State, a: Action)
    requires Consistent(s) && Enabled(s, a) && CommitsUnique(s.commits)
    ensures CommitsUnique(Next(s, a).commits)
  {
    var s' := Next(s, a);
    CommitsKept(s, a);
    StaysConsistent(s, a);
    forall n | 0 <= n <= |s'.commits| ensures UniqueTasks(TasksAt(s'.commits, n)) {
      if n <= |s.commits| {
        assert TasksAt(s'.commits, n) == TasksAt(s.commits, n);
      }
    }
  }

  lemma EntriesKept(s: State, a: Action, k: string)
    requires Enabled(s, a) && k in Next(s, a).cache
    ensures (k in s.cache && Next(s, a).cache[k] == s.cache[k])
            || (a.SetList? && k == TeamTasksKey(s.requests[a.id].query))
  {
  }

  /** The entry was current when it was written, after the first m commits. */
  predicate CurrentWhenSet(same: Collation, commits: seq<Commit>, e: Entry, m: nat) {
    && m <= |commits|
    && e.rows == Listing(same, TasksAt(commits, m), e.query)
    && forall i :: m <= i < |commits| ==> e.setAt <= commits[i].at
  }

  lemma CurrentWhenSetStays(s: State, a: Action, e: Entry, m: nat)
    requires Enabled(s, a) && CurrentWhenSet(s.same, s.commits, e, m) && e.setAt < s.now
    ensures CurrentWhenSet(Next(s, a).same, Next(s, a).commits, e, m)
  {
    CommitsKept(s, a);
    assert TasksAt(Next(s, a).commits, m) == TasksAt(s.commits, m);
  }

  ghost predicate EntriesFresh(s: State, team: int) {
    forall k :: k in s.cache && s.cache[k].query.teamId == team ==>
        exists m: nat :: CurrentWhenSet(s.same, s.commits, s.cache[k], m)
  }

  lemma SetIsFresh(s: State, id: nat, team: int)
    requires Consistent(s) && Tracked(s) && CommitsUnique(s.commits) && Enabled(s, SetList(id))
    requires WritesBackCurrent(s, SetList(id), team) && s.requests[id].query.teamId == team
    ensures var s' := Next(s, SetList(id));
            CurrentWhenSet(s'.same, s'.commits, s'.cache[TeamTasksKey(s.requests[id].query)], |s.commits|)
  {
    var r := s.requests[id];
    assert RequestTracks(s.same, s.commits, s.cache, s.now, r);
    SameRowsSameLists(s.same, TasksAt(s.commits, r.readAt), s.tables.tasks, r.query);
  }

  lemma EntryStaysFresh(s: State, a: Action, team: int, k: string)
    requires Tracked(s) && Enabled(s, a) && EntriesFresh(s, team)
    requires k in s.cache && s.cache[k].query.teamId == team
    requires k in Next(s, a).cache && Next(s, a).cache[k] == s.cache[k]
    ensures exists m: nat :: CurrentWhenSet(Next(s, a).same, Next(s, a).commits, Next(s, a).cache[k], m)
  {
    assert Genuine(s.same, s.commits, k, s.cache[k], s.now);
    var m: nat :| CurrentWhenSet(s.same, s.commits, s.cache[k], m);
    CurrentWhenSetStays(s, a, s.cache[k], m);
  }

  lemma StaysFresh(s: State, a: Action, team: int)
    requires Consistent(s) && Tracked(s) && CommitsUnique(s.commits) && Enabled(s, a)
    requires EntriesFresh(s, team) && WritesBackCurrent(s, a, team)
    ensures EntriesFresh(Next(s, a), team)
  {
    var s' := Next(s, a);
    forall k | k in s'.cache && s'.cache[k].query.teamId == team
      ensures exists m: nat :: CurrentWhenSet(s'.same, s'.commits, s'.cache[k], m)
    {
      EntriesKept(s, a, k);
      if k in s.cache && s'.cache[k] == s.cache[k] {
        EntryStaysFresh(s, a, team, k);
      } else {
        SetIsFresh(s, a.id, team);
      }
    }
  }

  // ---- Every run ----

  predicate NeverOvertaken(s: State, run: seq<Action>, team: int)
    requires LegalActions(s, run)
    decreases |run|
  {
    run != [] ==> WritesBackCurrent(s, run[0], team) && NeverOvertaken(Next(s, run[0]), run[1..], team)
  }

  /** Every reader of the team caches a current list, whatever list of the team it has asked for. */
  ghost predicate AlwaysCachesCurrent(s: State, run: seq<Action>, team: int)
    requires LegalActions(s, run)
    decreases |run|
  {
    run != [] ==>
      && (run[0].SetList? && s.requests[run[0].id].query.teamId == team ==> CachesAnyCurrent(s, run[0].id))
      && AlwaysCachesCurrent(Next(s, run[0]), run[1..], team)
  }

  /** All along a run, readers of the team cache current lists, whatever they ask for, if and only if none caches after
      the team's rows have changed since its read. */
  lemma {:induction false} CachesCurrentIff(s: State, run: seq<Action>, team: int)
    requires Consistent(s) && Tracked(s) && CommitsUnique(s.commits) && LegalActions(s, run)
    ensures AlwaysCachesCurrent(s, run, team) <==> NeverOvertaken(s, run, team)
    decreases |run|
  {
    if run != [] {
      if run[0].SetList? {
        WriteBackIsCurrentIff(s, run[0].id);
      }
      StaysConsistent(s, run[0]);
      StaysTracked(s, run[0]);
      CommitsStayUnique(s, run[0]);
      CachesCurrentIff(Next(s, run[0]), run[1..], team);
    }
  }

  lemma {:induction false} AlwaysFresh(s: State, run: seq<Action>, team: int)
    requires Consistent(s) && Tracked(s) && CommitsUnique(s.commits) && EntriesFresh(s, team)
    requires LegalActions(s, run) && NeverOvertaken(s, run, team)
    ensures Tracked(AfterActions(s, run)) && EntriesFresh(AfterActions(s, run), team)
    decreases |run|
  {
    if run != [] {
      StaysConsistent(s, run[0]);
      StaysTracked(s, run[0]);
      CommitsStayUnique(s, run[0]);
      StaysFresh(s, run[0], team);
      AlwaysFresh(Next(s, run[0]), run[1..], team);
    }
  }

  lemma FreshIsCurrent(s: State, key: string, team: int)
    requires Tracked(s) && EntriesFresh(s, team) && key in s.cache && s.cache[key].query.teamId == team
    requires forall i :: 0 <= i < |s.commits| && s.commits[i].team == team ==> s.commits[i].outcome.Done?
    ensures s.cache[key].rows == Listing(s.same, s.tables.tasks, s.cache[key].query)
  {
    var e := s.cache[key];
    var m: nat :| CurrentWhenSet(s.same, s.commits, e, m);
    forall i | m <= i < |s.commits| ensures s.commits[i].team != team {
      assert Swept(s.commits[i], e) && CommitOk(s.commits[i], s.now);
    }
    SameSinceRead(s, e.query, m);
  }

  /** In every run in which no reader of the team caches what the team's rows have left behind: once all invalidations
      of the team have succeeded, every cached list of the team is the current one. */
  lemma ListsCurrentUnlessOvertaken(same: Collation, run: seq<Action>, f: ListFilter)
    requires LegalActions(Init(same), run) && NeverOvertaken(Init(same), run, f.teamId)
    requires var s := AfterActions(Init(same), run);
             && TeamTasksKey(f) in s.cache
             && forall i :: 0 <= i < |s.commits| && s.commits[i].team == f.teamId ==> s.commits[i].outcome.Done?
    ensures var s := AfterActions(Init(same), run);
            s.cache[TeamTasksKey(f)].rows == Listing(same, s.tables.tasks, f)
  {
    AlwaysFresh(Init(same), run, f.teamId);
    CollationStays(Init(same), run);
    var s := AfterActions(Init(same), run);
    assert Genuine(s.same, s.commits, TeamTasksKey(f), s.cache[TeamTasksKey(f)], s.now);
    KeyInjective(f, s.cache[TeamTasksKey(f)].query);
    FreshIsCurrent(s, TeamTasksKey(f), f.teamId);
  }
}
