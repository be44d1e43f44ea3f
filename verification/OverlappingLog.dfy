/** What survives of the audit log when updates overlap and overwrite each other: however they mix, taking a
    task's log back from its current columns still ends at the columns it was created with. */
module OverlappingLog {
  import opened Results
  import opened Entities
  import opened Sql
  import opened Patch
  import opened Store
  import opened AuditLog
  import opened Interleaving
  import opened Membership
  import TaskQueries

  // ---- Undoing, column by column ----

  /** Where undoing leads for one column: the old value of its first entry, or its current value if it has none. */
  function Origin(log: seq<Change>, field: Field, current: Option<string>): Option<string>
    decreases |log|
  {
    if log == [] then current
    else if log[0].field == field then log[0].oldValue
    else Origin(log[1..], field, current)
  }

  lemma {:induction false} OriginAppend(a: seq<Change>, b: seq<Change>, field: Field, current: Option<string>)
    ensures Origin(a + b, field, current) == Origin(a, field, Origin(b, field, current))
    decreases |a|
  {
    if a == [] {
      assert a + b == b;
    } else {
      assert (a + b)[1..] == a[1..] + b;
      OriginAppend(a[1..], b, field, current);
    }
  }

  /** The old value is one the column can hold: a text, or a printed assignee. */
  predicate Restorable(c: Change) {
    match c.field
    case Created => true
    case Assignee => Encode(Decode(c.oldValue)) == c.oldValue
    case _ => c.oldValue.Some?
  }

  lemma {:induction false} UndoIsOrigin(f: Fields, log: seq<Change>, field: Field)
    requires field != Created && forall c :: c in log ==> Restorable(c)
    ensures Column(UndoAll(f, log), field) == Origin(log, field, Column(f, field))
    decreases |log|
  {
    if log != [] {
      var front, last := log[..|log| - 1], log[|log| - 1];
      assert log == front + [last];
      assert last in log;
      UndoIsOrigin(SetColumn(f, last.field, last.oldValue), front, field);
      OriginAppend(front, [last], field, Column(f, field));
    }
  }

  lemma OriginOfFieldDiff(g: Field, before: Fields, after: Fields, field: Field, current: Option<string>)
    ensures Origin(FieldDiff(g, before, after), field, current)
         == if g == field && Column(before, field) != Column(after, field) then Column(before, field) else current
  {
  }

  lemma OriginOfDiff(before: Fields, after: Fields, field: Field, current: Option<string>)
    requires field != Created
    ensures Origin(Diff(before, after), field, current)
         == if Column(before, field) != Column(after, field) then Column(before, field) else current
  {
    var d1, d2, d3, d4, d5 :=
      FieldDiff(Title, before, after), FieldDiff(Description, before, after), FieldDiff(Priority, before, after),
      FieldDiff(Status, before, after), FieldDiff(Assignee, before, after);
    forall g, v ensures Origin(FieldDiff(g, before, after), field, v)
                     == if g == field && Column(before, field) != Column(after, field) then Column(before, field) else v
    {
      OriginOfFieldDiff(g, before, after, field, v);
    }
    OriginAppend(d1 + d2 + d3 + d4, d5, field, current);
    var v4 := Origin(d5, field, current);
    OriginAppend(d1 + d2 + d3, d4, field, v4);
    var v3 := Origin(d4, field, v4);
    OriginAppend(d1 + d2, d3, field, v3);
    OriginAppend(d1, d2, field, Origin(d3, field, v3));
  }

  lemma DiffRestorable(before: Fields, after: Fields)
    ensures forall c :: c in Diff(before, after) ==> Restorable(c)
  {
    forall c | c in Diff(before, after) ensures Restorable(c) {
      DiffMembers(c, before, after);
      DecodeEncode(before.assignee);
    }
  }

  /** Two versions of a task from which the log leads back to the same columns. */
  ghost predicate SameOrigin(log: seq<Change>, a: Fields, b: Fields) {
    forall field :: field != Created ==> Origin(log, field, Column(a, field)) == Origin(log, field, Column(b, field))
  }

  lemma SameOriginUndo(log: seq<Change>, a: Fields, b: Fields)
    requires (forall c :: c in log ==> Restorable(c)) && SameOrigin(log, a, b)
    ensures UndoAll(a, log) == UndoAll(b, log)
  {
    forall field ensures Column(UndoAll(a, log), field) == Column(UndoAll(b, log), field) {
      if field != Created {
        UndoIsOrigin(a, log, field);
        UndoIsOrigin(b, log, field);
      }
    }
    ColumnsDetermine(UndoAll(a, log), UndoAll(b, log));
  }

  /** An update of a stale version writes back columns it did not mean to touch; still the version it writes, and
      any other version read earlier, lead back to where the stale version did. */
  lemma OriginAfterUpdate(log: seq<Change>, current: Fields, read: Fields, after: Fields, other: Fields)
    requires SameOrigin(log, read, current) && SameOrigin(log, other, current)
    ensures SameOrigin(log + Diff(read, after), other, after)
  {
    var d := Diff(read, after);
    forall field | field != Created
      ensures Origin(log + d, field, Column(other, field)) == Origin(log + d, field, Column(after, field))
    {
      OriginAppend(log, d, field, Column(other, field));
      OriginAppend(log, d, field, Column(after, field));
      OriginOfDiff(read, after, field, Column(other, field));
      OriginOfDiff(read, after, field, Column(after, field));
    }
  }

  // ---- The steps ----

  /** The columns that undoing the whole log of a task leads to. */
  function Undone(s: Tables, id: int): Fields
    requires FindTask(s.tasks, id).Some?
  {
    UndoAll(FindTask(s.tasks, id).value.fields, TaskLog(s, id))
  }

  predicate HasRead(r: Request) {
    r.TaskRead? || r.ActorChecked? || r.PatchBuilt?
  }

  ghost predicate ReadAgrees(s: Tables, read: Task) {
    FindTask(s.tasks, read.id).Some?
        && SameOrigin(TaskLog(s, read.id), read.fields, FindTask(s.tasks, read.id).value.fields)
  }

  /** The log can be undone and continued: its old values are restorable, its entries in order, and every version
      that an unfinished update has read leads back to where the current one does. */
  ghost predicate Undoable(s: State) {
    && Ordered(s.tables.history)
    && (forall h :: h in s.tables.history ==> h.id < s.nextHistory && Restorable(h.request.change))
    && (forall id :: id in s.requests && HasRead(s.requests[id]) ==> ReadAgrees(s.tables, s.requests[id].read))
  }

  lemma ChangesOfRows(first: int, task: int, actor: int, changes: seq<Change>, at: int)
    ensures Changes(LogRows(first, task, actor, changes, at)) == changes
    ensures forall h :: h in LogRows(first, task, actor, changes, at) ==>
            h.request.taskId == task && h.request.change in changes
  {
  }

  lemma UpdateStep(s: State, id: nat, at: int, task: int)
    requires Consistent(s) && Enabled(s, CommitUpdate(id, at)) && FindTask(s.tables.tasks, task).Some?
    ensures var r := s.requests[id];
            var s' := Next(s, CommitUpdate(id, at)).tables;
            var before := FindTask(s.tables.tasks, task).value.fields;
            && FindTask(s'.tasks, task).Some?
            && FindTask(s'.tasks, task).value.fields
               == (if r.read.id == task && Diff(r.read.fields, r.after) != [] then r.after else before)
            && TaskLog(s', task)
                 == TaskLog(s.tables, task) + (if r.read.id == task then Diff(r.read.fields, r.after) else [])
  {
    var r := s.requests[id];
    var changes := Diff(r.read.fields, r.after);
    if changes == [] {
      assert TaskLog(s.tables, task) + [] == TaskLog(s.tables, task);
    } else {
      var rows := LogRows(s.nextHistory, r.read.id, r.update.actorId, changes, at);
      ChangesOfRows(s.nextHistory, r.read.id, r.update.actorId, changes, at);
      FindTaskUpdated(s.tables.tasks, r.read.id, r.after, at, task);
      AppendRows(s.tables, rows, task);
      if r.read.id == task {
        FilterAll(rows, OfTask(task));
      } else {
        FilterNone(rows, OfTask(task));
      }
    }
  }

  /** A step either leaves a task and its log alone or is the commit of an update of that task. */
  lemma OtherStep(s: State, a: Action, task: int)
    requires Enabled(s, a) && !a.CommitUpdate? && FindTask(s.tables.tasks, task).Some?
    requires forall t :: t in s.tables.tasks ==> t.id < s.nextTask
    ensures FindTask(Next(s, a).tables.tasks, task) == FindTask(s.tables.tasks, task)
    ensures TaskLog(Next(s, a).tables, task) == TaskLog(s.tables, task)
  {
    if a.CommitCreate? {
      var s' := Next(s, a).tables;
      var row, entry := s'.tasks[|s.tables.tasks|], s'.history[|s.tables.history|];
      FindTaskAppend(s.tables.tasks, row, task);
      AppendRows(s.tables, [entry], task);
      FilterNone([entry], OfTask(task));
      assert TaskLog(s', task) == TaskLog(s.tables.(history := s.tables.history + [entry]), task);
      assert Changes([]) == [];
    }
  }

  lemma LogRestorable(s: Tables, task: int)
    requires forall h :: h in s.history ==> Restorable(h.request.change)
    ensures forall c :: c in TaskLog(s, task) ==> Restorable(c)
  {
  }

  /** No step changes where the log of a task leads back to. */
  lemma UndoneStays(s: State, a: Action, task: int)
    requires Consistent(s) && Undoable(s) && Enabled(s, a) && FindTask(s.tables.tasks, task).Some?
    ensures FindTask(Next(s, a).tables.tasks, task).Some?
    ensures Undone(Next(s, a).tables, task) == Undone(s.tables, task)
  {
    if a.CommitUpdate? {
      var r := s.requests[a.id];
      UpdateStep(s, a.id, a.at, task);
      var log, current := TaskLog(s.tables, task), FindTask(s.tables.tasks, task).value.fields;
      if r.read.id == task && Diff(r.read.fields, r.after) != [] {
        UndoAppend(r.after, log, Diff(r.read.fields, r.after));
        UndoDiff(r.read.fields, r.after);
        LogRestorable(s.tables, task);
        assert ReadAgrees(s.tables, r.read);
        SameOriginUndo(log, r.read.fields, current);
      } else {
        assert TaskLog(Next(s, a).tables, task) == log;
      }
    } else {
      OtherStep(s, a, task);
    }
  }

  lemma ReadStaysAgreed(s: State, a: Action, read: Task)
    requires Consistent(s) && Undoable(s) && Enabled(s, a) && ReadAgrees(s.tables, read)
    ensures ReadAgrees(Next(s, a).tables, read)
  {
    if a.CommitUpdate? {
      var r := s.requests[a.id];
      UpdateStep(s, a.id, a.at, read.id);
      assert ReadAgrees(s.tables, r.read);
      if r.read.id == read.id && Diff(r.read.fields, r.after) != [] {
        OriginAfterUpdate(TaskLog(s.tables, read.id), FindTask(s.tables.tasks, read.id).value.fields, r.read.fields,
            r.after, read.fields);
      } else {
        assert TaskLog(Next(s, a).tables, read.id) == TaskLog(s.tables, read.id);
      }
    } else {
      OtherStep(s, a, read.id);
    }
  }

  lemma EntryAppended(history: seq<History>, entry: History)
    requires Ordered(history) && forall h :: h in history ==> h.id < entry.id
    requires forall h :: h in history ==> h.request.taskId != entry.request.taskId
    ensures Ordered(history + [entry])
  {
  }

  lemma RowsAppended(history: seq<History>, first: int, task: int, actor: int, changes: seq<Change>, at: int)
    requires Ordered(history) && NotBefore(history, task, at)
    requires forall h :: h in history ==> h.id < first
    ensures Ordered(history + LogRows(first, task, actor, changes, at))
    ensures forall h :: h in LogRows(first, task, actor, changes, at) ==> h.id < first + |changes|
  {
  }

  lemma CreationKeepsOrder(s: State, id: nat, at: int)
    requires Consistent(s) && Undoable(s) && Enabled(s, CommitCreate(id, at))
    ensures Ordered(s.tables.history + [NewEntry(s, s.requests[id], at)])
  {
    EntryAppended(s.tables.history, NewEntry(s, s.requests[id], at));
  }

  lemma UpdateKeepsOrder(s: State, id: nat, at: int)
    requires Consistent(s) && Undoable(s) && Enabled(s, CommitUpdate(id, at))
    ensures var r := s.requests[id];
            && Ordered(s.tables.history + NewRows(s, r, at))
            && forall h :: h in NewRows(s, r, at) ==>
                 h.id < s.nextHistory + |Diff(r.read.fields, r.after)| && Restorable(h.request.change)
  {
    var r := s.requests[id];
    DiffRestorable(r.read.fields, r.after);
    RowsAppended(s.tables.history, s.nextHistory, r.read.id, r.update.actorId, Diff(r.read.fields, r.after), at);
  }

  lemma OrderedStays(s: State, a: Action)
    requires Consistent(s) && Undoable(s) && Enabled(s, a)
    ensures Ordered(Next(s, a).tables.history)
    ensures forall h :: h in Next(s, a).tables.history ==> h.id < Next(s, a).nextHistory && Restorable(h.request.change)
  {
    match a
    case CommitCreate(id, at) => CreationKeepsOrder(s, id, at);
    case CommitUpdate(id, at) => UpdateKeepsOrder(s, id, at);
    case _ =>
  }

  /** What an update holds as read is the row as it is now, if this step reads it, and else what it held before. */
  lemma VersionWasRead(s: State, a: Action, id: nat)
    requires Consistent(s) && Enabled(s, a)
    requires id in Next(s, a).requests && HasRead(Next(s, a).requests[id])
    ensures var read := Next(s, a).requests[id].read;
            if a.ReadTask? && a.id == id then FindTask(Next(s, a).tables.tasks, read.id) == Some(read)
            else id in s.requests && HasRead(s.requests[id]) && s.requests[id].read == read
  {
  }

  lemma StaysUndoable(s: State, a: Action)
    requires Consistent(s) && Undoable(s) && Enabled(s, a)
    ensures Undoable(Next(s, a))
  {
    var s' := Next(s, a);
    OrderedStays(s, a);
    forall id | id in s'.requests && HasRead(s'.requests[id]) ensures ReadAgrees(s'.tables, s'.requests[id].read) {
      VersionWasRead(s, a, id);
      if a.ReadTask? && a.id == id {
      } else {
        ReadStaysAgreed(s, a, s.requests[id].read);
      }
    }
  }

  lemma {:induction false} UndoneAlways(s: State, run: seq<Action>, task: int)
    requires Consistent(s) && Undoable(s) && LegalActions(s, run) && FindTask(s.tables.tasks, task).Some?
    ensures var s' := AfterActions(s, run).tables;
            FindTask(s'.tasks, task).Some? && Undone(s', task) == Undone(s.tables, task)
    decreases |run|
  {
    if run != [] {
      UndoneStays(s, run[0], task);
      StaysConsistent(s, run[0]);
      StaysUndoable(s, run[0]);
      UndoneAlways(Next(s, run[0]), run[1..], task);
    }
  }

  lemma {:induction false} AlwaysUndoable(s: State, run: seq<Action>)
    requires Consistent(s) && Undoable(s) && LegalActions(s, run)
    ensures Undoable(AfterActions(s, run))
    decreases |run|
  {
    if run != [] {
      StaysConsistent(s, run[0]);
      StaysUndoable(s, run[0]);
      AlwaysUndoable(Next(s, run[0]), run[1..]);
    }
  }

  /** A run is what comes before a step, the step, and what comes after. */
  lemma {:induction false} ActionsSplit(s: State, run: seq<Action>, k: nat)
    requires LegalActions(s, run) && k < |run|
    ensures LegalActions(s, run[..k]) && Enabled(AfterActions(s, run[..k]), run[k])
    ensures LegalActions(Next(AfterActions(s, run[..k]), run[k]), run[k + 1..])
    ensures AfterActions(s, run) == AfterActions(Next(AfterActions(s, run[..k]), run[k]), run[k + 1..])
    decreases k
  {
    if k > 0 {
      ActionsSplit(Next(s, run[0]), run[1..], k - 1);
      assert run[..k][1..] == run[1..][..k - 1];
      assert run[1..][k..] == run[k + 1..];
    }
  }

  /** Right after its creation a task has the columns its log leads back to. */
  lemma UndoneAtCreation(s: State, id: nat, at: int)
    requires Consistent(s) && Undoable(s) && Enabled(s, CommitCreate(id, at))
    ensures var s' := Next(s, CommitCreate(id, at)).tables;
            var row := s'.tasks[|s.tables.tasks|];
            FindTask(s'.tasks, row.id) == Some(row) && Undone(s', row.id) == row.fields
  {
    var s' := Next(s, CommitCreate(id, at)).tables;
    var row, entry := s'.tasks[|s.tables.tasks|], s'.history[|s.tables.history|];
    FirstEntry(s.tables, row, entry);
    assert s' == s.tables.(tasks := s.tables.tasks + [row], history := s.tables.history + [entry]);
    var log := TaskLog(s', row.id);
    assert log == [CREATED_CHANGE];
    assert log[..|log| - 1] == [];
    assert UndoAll(row.fields, log) == row.fields;
  }

  lemma UndoneSinceCreation(s: State, a: Action, later: seq<Action>)
    requires Consistent(s) && Undoable(s) && Enabled(s, a) && a.CommitCreate? && LegalActions(Next(s, a), later)
    ensures var created := Next(s, a).tables.tasks[|s.tables.tasks|];
            var end := AfterActions(Next(s, a), later).tables;
            && FindTask(end.tasks, created.id).Some?
            && UndoAll(FindTask(end.tasks, created.id).value.fields, Changes(ListByTask(end.history, created.id)))
               == created.fields
  {
    UndoneAtCreation(s, a.id, a.at);
    StaysConsistent(s, a);
    StaysUndoable(s, a);
    UndoneAlways(Next(s, a), later, s.nextTask);
    AlwaysUndoable(Next(s, a), later);
    ListByTaskIsRecordingOrder(AfterActions(Next(s, a), later).tables.history, s.nextTask);
  }

  /** In every run, however updates overlap and overwrite each other: undoing what the history query returns, from
      the newest entry to the oldest and starting at the current columns, gives the columns of the creation. */
  lemma UndoSurvivesOverlap(same: TaskQueries.Collation, run: seq<Action>, k: nat)
    requires LegalActions(Init(same), run) && k < |run| && run[k].CommitCreate?
    ensures LegalActions(Init(same), run[..k]) && Enabled(AfterActions(Init(same), run[..k]), run[k])
    ensures var before := AfterActions(Init(same), run[..k]);
            var created := Next(before, run[k]).tables.tasks[|before.tables.tasks|];
            var s := AfterActions(Init(same), run).tables;
            && FindTask(s.tasks, created.id).Some?
            && UndoAll(FindTask(s.tasks, created.id).value.fields, Changes(ListByTask(s.history, created.id)))
               == created.fields
  {
    ActionsSplit(Init(same), run, k);
    AlwaysConsistent(Init(same), run[..k]);
    AlwaysUndoable(Init(same), run[..k]);
    UndoneSinceCreation(AfterActions(Init(same), run[..k]), run[k], run[k + 1..]);
  }
}
