/** What two overlapping updates can do: the second writes back a column it has only read, and the log does not say
    so; or it is told that the task does not exist. */
module LostUpdate {
  import opened Results
  import opened Entities
  import opened Sql
  import opened Patch
  import opened Store
  import opened AuditLog
  import opened Interleaving
  import opened Races
  import opened TaskQueries

  const RENAME := UpdateTaskCommand(1, 1, Some("renamed"), None, None, None, None)
  const DESCRIBE := UpdateTaskCommand(1, 1, None, Some("described"), None, None, None)

  function Prepare(run: seq<Action>, id: nat, cmd: UpdateTaskCommand): seq<Action> {
    run + [ReadTask(id, cmd)] + [CheckActor(id)] + [BuildPatch(id)]
  }

  /** After the creation of a task two updates, a renaming first, read it and build their patches ... */
  function BothPrepare(second: UpdateTaskCommand): seq<Action> {
    Prepare(Prepare(CREATING, 3, RENAME), 4, second)
  }

  /** ... and then the renaming commits. */
  function RenameFirst(second: UpdateTaskCommand): seq<Action> {
    BothPrepare(second) + [CommitUpdate(3, 0)]
  }

  const OVERWRITING := RenameFirst(DESCRIBE) + [CommitUpdate(4, 0)]

  function Prepared(s: State, id: nat, cmd: UpdateTaskCommand, row: Task): State {
    s.(requests := s.requests[id := PatchBuilt(cmd, row, Patched(row.fields, cmd))], now := s.now + 3)
  }

  lemma CheckedActorRun(s0: State, run: seq<Action>, id: nat, cmd: UpdateTaskCommand, row: Task)
    requires LegalActions(s0, run) && Fresh(AfterActions(s0, run), id)
    requires FindTask(AfterActions(s0, run).tables.tasks, cmd.taskId) == Some(row)
    requires HasMember(AfterActions(s0, run).tables, row.teamId, cmd.actorId)
    ensures LegalActions(s0, run + [ReadTask(id, cmd)] + [CheckActor(id)])
    ensures AfterActions(s0, run + [ReadTask(id, cmd)] + [CheckActor(id)])
         == WithRequest(WithRequest(AfterActions(s0, run), id, TaskRead(cmd, row)), id, ActorChecked(cmd, row))
  {
    Extend(s0, run, ReadTask(id, cmd));
    Extend(s0, run + [ReadTask(id, cmd)], CheckActor(id));
  }

  /** An update of texts only, by a member, reads the row and gets as far as its commit. */
  lemma PreparedRun(s0: State, run: seq<Action>, id: nat, cmd: UpdateTaskCommand, row: Task)
    requires LegalActions(s0, run) && Fresh(AfterActions(s0, run), id)
    requires FindTask(AfterActions(s0, run).tables.tasks, cmd.taskId) == Some(row)
    requires HasMember(AfterActions(s0, run).tables, row.teamId, cmd.actorId)
    requires cmd.status.None? && cmd.assigneeId.None?
    ensures LegalActions(s0, Prepare(run, id, cmd))
    ensures AfterActions(s0, Prepare(run, id, cmd)) == Prepared(AfterActions(s0, run), id, cmd, row)
  {
    var s := AfterActions(s0, run);
    var s2 := WithRequest(WithRequest(s, id, TaskRead(cmd, row)), id, ActorChecked(cmd, row));
    CheckedActorRun(s0, run, id, cmd, row);
    Extend(s0, run + [ReadTask(id, cmd)] + [CheckActor(id)], BuildPatch(id));
    assert Next(s2, BuildPatch(id)).requests == Prepared(s, id, cmd, row).requests;
  }

  function AfterPreparing(same: Collation, second: UpdateTaskCommand): State {
    Prepared(Prepared(AfterCreation(same), 3, RENAME, ROW), 4, second, ROW)
  }

  predicate TextsOnly(cmd: UpdateTaskCommand) {
    cmd.taskId == 1 && cmd.actorId == 1 && cmd.status.None? && cmd.assigneeId.None?
  }

  lemma BothPrepared(same: Collation, second: UpdateTaskCommand)
    requires TextsOnly(second)
    ensures LegalActions(Init(same), BothPrepare(second))
    ensures AfterActions(Init(same), BothPrepare(second)) == AfterPreparing(same, second)
  {
    CreatedRun(same);
    assert HasMember(AfterCreation(same).tables, 1, 1);
    PreparedRun(Init(same), CREATING, 3, RENAME, ROW);
    PreparedRun(Init(same), Prepare(CREATING, 3, RENAME), 4, second, ROW);
  }

  const RENAMED := ROW.fields.(title := "renamed")
  const DESCRIBED := ROW.fields.(description := "described")
  const TITLE_CHANGE := Change(Title, Some("title"), Some("renamed"))
  const DESCRIPTION_CHANGE := Change(Description, Some(""), Some("described"))

  function Entry(id: int, change: Change): History {
    History(id, HistoryRequest(1, 1, change), 0)
  }

  lemma TheChanges()
    ensures Patched(ROW.fields, RENAME) == RENAMED && Patched(ROW.fields, DESCRIBE) == DESCRIBED
    ensures Diff(ROW.fields, RENAMED) == [TITLE_CHANGE] && Diff(ROW.fields, DESCRIBED) == [DESCRIPTION_CHANGE]
  {
  }

  /** A commit on a table that holds just this task, with just this change to record. */
  lemma LoneCommit(s: State, id: nat, fields: Fields, change: Change)
    requires id in s.requests && s.requests[id].PatchBuilt?
    requires var r := s.requests[id]; r.read == ROW && r.update.actorId == 1 && Diff(ROW.fields, r.after) == [change]
    requires s.tables.tasks == [ROW.(fields := fields)] && fields != s.requests[id].after
    requires forall h :: h in s.tables.history ==> h.changedAt == 0
    ensures Enabled(s, CommitUpdate(id, 0))
    ensures var s' := Next(s, CommitUpdate(id, 0));
            && s'.tables.tasks == [ROW.(fields := s.requests[id].after)]
            && s'.tables.history == s.tables.history + [Entry(s.nextHistory, change)]
            && s'.nextHistory == s.nextHistory + 1
            && forall other :: other in s.requests && other != id ==>
                 other in s'.requests && s'.requests[other] == s.requests[other]
  {
    FilterOne(s.tables.tasks[0], Differs(1, s.requests[id].after));
    var rows := NewRows(s, s.requests[id], 0);
    assert rows == [Entry(s.nextHistory, change)];
  }

  lemma RenameCommitted(same: Collation, second: UpdateTaskCommand)
    requires TextsOnly(second)
    ensures LegalActions(Init(same), RenameFirst(second))
    ensures var s := AfterActions(Init(same), RenameFirst(second));
            && s.tables.tasks == [ROW.(fields := RENAMED)]
            && s.tables.history == [LOGGED, Entry(2, TITLE_CHANGE)]
            && s.nextHistory == 3
            && 4 in s.requests && s.requests[4] == PatchBuilt(second, ROW, Patched(ROW.fields, second))
  {
    BothPrepared(same, second);
    TheChanges();
    LoneCommit(AfterPreparing(same, second), 3, ROW.fields, TITLE_CHANGE);
    Extend(Init(same), BothPrepare(second), CommitUpdate(3, 0));
  }

  /** An existing task can be reported missing: of two equal renamings that overlap, the second has something to
      write, finds its values written already and is refused as if there were no row. */
  lemma ExistingTaskReportedMissing(same: Collation)
    ensures LegalActions(Init(same), RenameFirst(RENAME))
    ensures var s := AfterActions(Init(same), RenameFirst(RENAME));
            && 4 in s.requests && s.requests[4].PatchBuilt? && s.requests[4].read.id == 1
            && NotBefore(s.tables.history, 1, 0)
            && Diff(s.requests[4].read.fields, s.requests[4].after) == [TITLE_CHANGE]
            && FindTask(s.tables.tasks, 1).Some?
            && !Enabled(s, CommitUpdate(4, 0))
  {
    RenameCommitted(same, RENAME);
    TheChanges();
    var s := AfterActions(Init(same), RenameFirst(RENAME));
    FilterOne(s.tables.tasks[0], Differs(1, RENAMED));
  }

  lemma DescriptionCommitted(same: Collation)
    ensures LegalActions(Init(same), OVERWRITING)
    ensures var s := AfterActions(Init(same), OVERWRITING).tables;
            && s.tasks == [ROW.(fields := DESCRIBED)]
            && s.history == [LOGGED, Entry(2, TITLE_CHANGE), Entry(3, DESCRIPTION_CHANGE)]
  {
    RenameCommitted(same, DESCRIBE);
    TheChanges();
    LoneCommit(AfterActions(Init(same), RenameFirst(DESCRIBE)), 4, RENAMED, DESCRIPTION_CHANGE);
    Extend(Init(same), RenameFirst(DESCRIBE), CommitUpdate(4, 0));
  }

  lemma TitleIsNotChained(log: seq<Change>)
    requires log == [CREATED_CHANGE, TITLE_CHANGE, DESCRIPTION_CHANGE]
    ensures !Chained(log, Title, Some("title"), Some("title"))
  {
    assert log[1..] == [TITLE_CHANGE, DESCRIPTION_CHANGE];
    assert log[1..][1..] == [DESCRIPTION_CHANGE];
    assert log[1..][1..][1..] == [];
    assert "renamed"[0] != "title"[0];
    assert !Chained(log[1..][1..], Title, Some("renamed"), Some("title"));
    assert !Chained(log[1..], Title, Some("title"), Some("title"));
  }

  lemma ReplayRenames(log: seq<Change>)
    requires log == [CREATED_CHANGE, TITLE_CHANGE, DESCRIPTION_CHANGE]
    ensures RedoAll(InitialFields(COMMAND), log).title == "renamed"
  {
    var first := InitialFields(COMMAND);
    assert log[1..] == [TITLE_CHANGE, DESCRIPTION_CHANGE];
    assert log[1..][1..] == [DESCRIPTION_CHANGE];
    assert log[1..][1..][1..] == [];
    assert RedoAll(first, log) == RedoAll(first.(title := "renamed"), log[1..][1..]);
  }

  lemma HistoryIsWrong(s: Tables)
    requires s.tasks == [ROW.(fields := DESCRIBED)]
    requires s.history == [LOGGED, Entry(2, TITLE_CHANGE), Entry(3, DESCRIPTION_CHANGE)]
    ensures var log, first := Changes(ListByTask(s.history, 1)), InitialFields(COMMAND);
            && !Chained(log, Title, Column(first, Title), Column(DESCRIBED, Title))
            && RedoAll(first, log) != DESCRIBED
  {
    ListByTaskIsRecordingOrder(s.history, 1);
    FilterAll(s.history, OfTask(1));
    var log := Changes(s.history);
    TitleIsNotChained(log);
    ReplayRenames(log);
    assert Column(InitialFields(COMMAND), Title) == Some("title") && Column(DESCRIBED, Title) == Some("title");
    assert "renamed"[0] != "title"[0];
  }

  /** With overlapping updates a history need not be faithful: in this run the title is the one the task was created
      with, while its last entry, and so replaying the log, says otherwise. */
  lemma FaithfulnessCanFail(same: Collation)
    ensures LegalActions(Init(same), OVERWRITING)
    ensures var s := AfterActions(Init(same), OVERWRITING).tables;
            && FindTask(s.tasks, 1).Some?
            && (var log, first := Changes(ListByTask(s.history, 1)), InitialFields(COMMAND);
                var current := FindTask(s.tasks, 1).value.fields;
                && !Faithful(log, first, current)
                && !Chained(log, Title, Column(first, Title), Column(current, Title))
                && RedoAll(first, log) != current)
  {
    DescriptionCommitted(same);
    HistoryIsWrong(AfterActions(Init(same), OVERWRITING).tables);
  }
}
