/** What overlapping requests can do to each other: a run that leaves a stale list behind, and when exactly the commit
    of an update cannot be taken back, or is refused. */
module Races {
  import opened Results
  import opened Entities
  import opened Sql
  import opened Patch
  import opened Store
  import opened TaskQueries
  import opened CacheKeys
  import opened Interleaving
  import opened Membership

  lemma {:induction false} Extend(s: State, run: seq<Action>, a: Action)
    requires LegalActions(s, run) && Enabled(AfterActions(s, run), a)
    ensures LegalActions(s, run + [a])
    ensures AfterActions(s, run + [a]) == Next(AfterActions(s, run), a)
    decreases |run|
  {
    if run == [] {
      assert run + [a] == [a];
      assert [a][1..] == [];
    } else {
      Extend(Next(s, run[0]), run[1..], a);
      assert (run + [a])[1..] == run[1..] + [a];
    }
  }

  // ---- A reader overtaken by an invalidation ----

  const QUERY := ListFilter(1, "", 0, 20, 0)
  const COMMAND := CreateTaskCommand(1, 1, "title", "", "", 0)

  const ROW := Task(1, 1, InitialFields(COMMAND), 1, 0, 0)
  const LOGGED := History(1, HistoryRequest(1, 1, CREATED_CHANGE), 0)

  /** A user, a team, and a reader that has read the empty list but not yet cached it. */
  const READING := [Register(1), CreateTeam("team", 1), Miss(1, 1, QUERY), ReadList(1)]

  function AfterReading(same: Collation): State {
    State(same, Tables({1}, [Team(1, "team", 1)], [TeamMember(1, 1, Owner)], [], []), 2, 1, 1,
          map[], map[1 := ListRead(QUERY, [], 0)], 4, [], map[])
  }

  lemma ReadingRun(same: Collation)
    ensures LegalActions(Init(same), READING) && AfterActions(Init(same), READING) == AfterReading(same)
  {
    var s0 := Init(same);
    var a := [Register(1)];
    assert s0 == AfterActions(s0, []);
    Extend(s0, [], Register(1));
    assert [] + [Register(1)] == a;
    var s1 := AfterActions(s0, a);
    assert s1.tables.users == {1};
    Extend(s0, a, CreateTeam("team", 1));
    var b := a + [CreateTeam("team", 1)];
    var s2 := AfterActions(s0, b);
    assert s2.tables.members == [TeamMember(1, 1, Owner)];
    Extend(s0, b, Miss(1, 1, QUERY));
    var c := b + [Miss(1, 1, QUERY)];
    var s3 := AfterActions(s0, c);
    assert Listing(same, [], QUERY) == [];
    Extend(s0, c, ReadList(1));
    assert c + [ReadList(1)] == READING;
    assert AfterActions(s0, READING).requests == map[1 := ListRead(QUERY, [], 0)];
    assert AfterActions(s0, READING).tables == AfterReading(same).tables;
  }

  function AfterCreation(same: Collation): State {
    AfterReading(same).(
      tables := AfterReading(same).tables.(tasks := [ROW], history := [LOGGED]),
      nextTask := 2, nextHistory := 2,
      requests := map[1 := ListRead(QUERY, [], 0), 2 := Committed(1, 0)],
      now := 7,
      commits := [Commit(1, [ROW], 6, Pending)])
  }

  const CHECKING := READING + [CheckCreator(2, COMMAND)] + [CheckAssignee(2)]
  const CREATING := CHECKING + [CommitCreate(2, 0)]

  function AfterChecks(same: Collation): State {
    AfterReading(same).(
      requests := map[1 := ListRead(QUERY, [], 0), 2 := AssigneeChecked(COMMAND, None)],
      now := 6)
  }

  lemma CheckedRun(same: Collation)
    ensures LegalActions(Init(same), CHECKING) && AfterActions(Init(same), CHECKING) == AfterChecks(same)
  {
    ReadingRun(same);
    var s4 := AfterReading(same);
    assert HasMember(s4.tables, 1, 1);
    Extend(Init(same), READING, CheckCreator(2, COMMAND));
    var s5 := Next(s4, CheckCreator(2, COMMAND));
    Extend(Init(same), READING + [CheckCreator(2, COMMAND)], CheckAssignee(2));
    assert Next(s5, CheckAssignee(2)).requests == AfterChecks(same).requests;
  }

  lemma CreatedRun(same: Collation)
    ensures LegalActions(Init(same), CREATING) && AfterActions(Init(same), CREATING) == AfterCreation(same)
  {
    CheckedRun(same);
    Extend(Init(same), CHECKING, CommitCreate(2, 0));
    var s7 := Next(AfterChecks(same), CommitCreate(2, 0));
    assert s7.tables.tasks == [ROW] && s7.tables.history == [LOGGED];
    assert s7.requests == AfterCreation(same).requests;
    assert s7.commits == AfterCreation(same).commits;
  }

  /** Meanwhile a task is created and its invalidation runs to the end ... */
  const SCANNING := CREATING + [BeginScan(2)] + [EndScan(2, {})]
  const INVALIDATING := SCANNING + [Delete(2)]

  /** ... and then the reader caches what it had read. */
  const OVERTAKEN := INVALIDATING + [SetList(1)]

  function AfterScan(same: Collation): State {
    AfterCreation(same).(
      requests := map[1 := ListRead(QUERY, [], 0), 2 := Scanned(1, 0, 7, {})],
      now := 9)
  }

  lemma ScannedRun(same: Collation)
    ensures LegalActions(Init(same), SCANNING) && AfterActions(Init(same), SCANNING) == AfterScan(same)
  {
    CreatedRun(same);
    Extend(Init(same), CREATING, BeginScan(2));
    var s8 := Next(AfterCreation(same), BeginScan(2));
    Extend(Init(same), CREATING + [BeginScan(2)], EndScan(2, {}));
    assert Next(s8, EndScan(2, {})).requests == AfterScan(same).requests;
  }

  function AfterInvalidation(same: Collation): State {
    AfterCreation(same).(
      requests := map[1 := ListRead(QUERY, [], 0)],
      now := 10,
      commits := [Commit(1, [ROW], 6, Done(7))])
  }

  lemma InvalidatedRun(same: Collation)
    ensures LegalActions(Init(same), INVALIDATING) && AfterActions(Init(same), INVALIDATING) == AfterInvalidation(same)
  {
    ScannedRun(same);
    Extend(Init(same), SCANNING, Delete(2));
    var s10 := Next(AfterScan(same), Delete(2));
    assert s10.requests == AfterInvalidation(same).requests;
    assert s10.commits == AfterInvalidation(same).commits;
    assert s10.cache == map[];
  }

  lemma OvertakenRun(same: Collation)
    ensures LegalActions(Init(same), OVERTAKEN)
    ensures AfterActions(Init(same), OVERTAKEN) == Next(AfterInvalidation(same), SetList(1))
  {
    InvalidatedRun(same);
    Extend(Init(same), INVALIDATING, SetList(1));
  }

  /** Every request has finished, every invalidation has succeeded, and still the next reader gets a list without
      the task that was created: successful invalidation alone does not keep the cache current. */
  lemma StaleListCanRemain(same: Collation)
    ensures LegalActions(Init(same), OVERTAKEN)
    ensures var s := AfterActions(Init(same), OVERTAKEN);
            && s.requests == map[]
            && (forall i :: 0 <= i < |s.commits| ==> s.commits[i].outcome.Done?)
            && TeamTasksKey(QUERY) in s.cache
            && s.cache[TeamTasksKey(QUERY)].rows != Listing(same, s.tables.tasks, QUERY)
  {
    OvertakenRun(same);
    assert AfterActions(Init(same), OVERTAKEN).requests == map[];
    FilterOne(ROW, Matching(same, QUERY));
    assert Matching(same, QUERY)(ROW);
    assert Selected(same, [ROW], QUERY) == [ROW] by {
      assert [ROW][1..] == [];
    }
  }

  // ---- An update that overwrites what it has not read ----

  /** The log of a committed update leads back to the columns it replaced exactly when those are the columns the
      update had read: a different update committed in between is overwritten without an entry. */
  lemma UpdateReversibleIffNotOverlapped(s: State, id: nat, at: int)
    requires Consistent(s) && Enabled(s, CommitUpdate(id, at))
    ensures var r := s.requests[id];
            var s' := Next(s, CommitUpdate(id, at));
            var changes := Diff(r.read.fields, r.after);
            && FindTask(s.tables.tasks, r.read.id).Some? && FindTask(s'.tables.tasks, r.read.id).Some?
            && s'.tables.history[|s.tables.history|..]
                 == LogRows(s.nextHistory, r.read.id, r.update.actorId, changes, at)
            && (changes != [] ==>
                  (UndoAll(FindTask(s'.tables.tasks, r.read.id).value.fields, changes)
                      == FindTask(s.tables.tasks, r.read.id).value.fields
                   <==> r.read.fields == FindTask(s.tables.tasks, r.read.id).value.fields))
  {
    var r := s.requests[id];
    assert RequestOk(s.tables, r);
    FindTaskUpdated(s.tables.tasks, r.read.id, r.after, at, r.read.id);
    UndoneIffNotOverwritten(r.read.fields, FindTask(s.tables.tasks, r.read.id).value.fields, r.after);
  }

  /** An update that has something to write is refused as `not found` exactly when another update has meanwhile
      given the row the very values it was going to write. */
  lemma RefusedIffAlreadyWritten(s: State, id: nat, at: int)
    requires Consistent(s) && id in s.requests && s.requests[id].PatchBuilt?
    requires NotBefore(s.tables.history, s.requests[id].read.id, at)
    ensures var r := s.requests[id];
            var current := FindTask(s.tables.tasks, r.read.id);
            && current.Some?
            && (!Enabled(s, CommitUpdate(id, at)) <==> r.read.fields != r.after && current.value.fields == r.after)
  {
    var r := s.requests[id];
    assert RequestOk(s.tables, r);
    NoRowChangedIff(s.tables.tasks, r.read.id, r.after);
    DiffIsMinimal(r.read.fields, r.after);
  }
}
