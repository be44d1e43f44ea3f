/** What the task history says about the task, over every run of committed calls. */
module AuditLog {
  import opened Results
  import opened Entities
  import opened Sql
  import opened Patch
  import opened Store

  // ---- The log of one task ----

  function OfTask(id: int): History -> bool {
    (h: History) => h.request.taskId == id
  }

  /** ORDER BY changed_at, id */
  predicate LoggedBefore(a: History, b: History) {
    a.changedAt < b.changedAt || (a.changedAt == b.changedAt && a.id < b.id)
  }

  /** `ListByTask`: the rows of the task, sorted by time and then id. */
  function ListByTask(history: seq<History>, id: int): seq<History> {
    Sort(Filter(history, OfTask(id)), LoggedBefore)
  }

  function Changes(rows: seq<History>): seq<Change> {
    seq(|rows|, i requires 0 <= i < |rows| => rows[i].request.change)
  }

  /** The changes of a task in the order in which they were recorded. */
  function TaskLog(s: Tables, id: int): seq<Change> {
    Changes(Filter(s.history, OfTask(id)))
  }

  /** The query returns every entry of the task once, in order of time and, at the same time, of id. */
  lemma ListByTaskIsExact(history: seq<History>, id: int)
    requires forall i, j :: 0 <= i < j < |history| ==> history[i].id != history[j].id
    ensures var rows := ListByTask(history, id);
            && (forall h :: h in rows <==> h in history && h.request.taskId == id)
            && (forall i, j :: 0 <= i < j < |rows| ==>
                  rows[i].changedAt < rows[j].changedAt
                  || (rows[i].changedAt == rows[j].changedAt && rows[i].id < rows[j].id))
  {
    var hits, differ := Filter(history, OfTask(id)), (a: History, b: History) => a.id != b.id;
    SortPermutes(hits, LoggedBefore);
    SameElements(Sort(hits, LoggedBefore), hits);
    FilterPairwise(history, OfTask(id), differ);
    forall i, j | 0 <= i < |hits| && 0 <= j < |hits| && i != j
      ensures LoggedBefore(hits[i], hits[j]) || LoggedBefore(hits[j], hits[i])
    {
      assert if i < j then differ(hits[i], hits[j]) else differ(hits[j], hits[i]);
    }
    SortSorts(hits, LoggedBefore);
    forall i, j | 0 <= i < j < |hits|
      ensures LoggedBefore(Sort(hits, LoggedBefore)[i], Sort(hits, LoggedBefore)[j])
    {
    }
  }

  /** However coarse the clock, the query returns the log in the order it was recorded. */
  lemma ListByTaskIsRecordingOrder(history: seq<History>, id: int)
    requires Ordered(history)
    ensures ListByTask(history, id) == Filter(history, OfTask(id))
  {
    FilterPairwise(history, OfTask(id), LoggedBefore);
    SortOfSorted(Filter(history, OfTask(id)), LoggedBefore);
  }

  // ---- Chains ----

  /** Read in order, the entries of a column lead from one value to another: each starts where the last one of
      that column ended and changes it. */
  predicate Chained(log: seq<Change>, field: Field, from: Option<string>, to: Option<string>)
    decreases |log|
  {
    if log == [] then from == to
    else if log[0].field == field then
      log[0].oldValue == from && log[0].newValue != from && Chained(log[1..], field, log[0].newValue, to)
    else Chained(log[1..], field, from, to)
  }

  lemma {:induction false} ChainAppend(a: seq<Change>, b: seq<Change>, field: Field, from: Option<string>,
                                       mid: Option<string>, to: Option<string>)
    requires Chained(a, field, from, mid) && Chained(b, field, mid, to)
    ensures Chained(a + b, field, from, to)
    decreases |a|
  {
    if a == [] {
      assert a + b == b;
    } else {
      assert (a + b)[1..] == a[1..] + b;
      ChainAppend(a[1..], b, field, if a[0].field == field then a[0].newValue else from, mid, to);
    }
  }

  /** The first entry of a column starts at `from`; when there is none, nothing moved. */
  lemma {:induction false} ChainStart(log: seq<Change>, field: Field, from: Option<string>, to: Option<string>, j: nat)
    requires Chained(log, field, from, to) && j <= |log|
    requires forall k :: 0 <= k < j ==> log[k].field != field
    ensures j < |log| && log[j].field == field ==> log[j].oldValue == from
    ensures j == |log| ==> from == to
    decreases j
  {
    if j > 0 {
      ChainStart(log[1..], field, from, to, j - 1);
    }
  }

  /** Neighbouring entries of a column meet, and the last one ends at `to`. */
  lemma {:induction false} ChainLinks(log: seq<Change>, field: Field, from: Option<string>, to: Option<string>,
                                      i: nat, j: nat)
    requires Chained(log, field, from, to) && i < j <= |log| && log[i].field == field
    requires forall k :: i < k < j ==> log[k].field != field
    ensures j < |log| && log[j].field == field ==> log[j].oldValue == log[i].newValue
    ensures j == |log| ==> log[i].newValue == to
    decreases i
  {
    if i == 0 {
      ChainStart(log[1..], field, log[0].newValue, to, j - 1);
    } else {
      ChainLinks(log[1..], field, if log[0].field == field then log[0].newValue else from, to, i - 1, j - 1);
    }
  }

  lemma FieldDiffChained(g: Field, before: Fields, after: Fields, field: Field)
    ensures Chained(FieldDiff(g, before, after), field, Column(before, field),
                    if g == field then Column(after, field) else Column(before, field))
  {
  }

  lemma {:induction false} NoEntryKeeps(log: seq<Change>, field: Field, v: Option<string>)
    requires forall c :: c in log ==> c.field != field
    ensures Chained(log, field, v, v)
    decreases |log|
  {
    if log != [] {
      NoEntryKeeps(log[1..], field, v);
    }
  }

  lemma DiffChained(before: Fields, after: Fields, field: Field)
    ensures Chained(Diff(before, after), field, Column(before, field), Column(after, field))
  {
    var x, y := Column(before, field), Column(after, field);
    var at := (last: Field) => if Position(field) <= Position(last) then y else x;
    forall g ensures Chained(FieldDiff(g, before, after), field, if g == field then x else at(g), at(g)) {
      FieldDiffChained(g, before, after, field);
      if g != field && at(g) == y {
        NoEntryKeeps(FieldDiff(g, before, after), field, y);
      }
    }
    var d1, d2, d3, d4, d5 :=
      FieldDiff(Title, before, after), FieldDiff(Description, before, after), FieldDiff(Priority, before, after),
      FieldDiff(Status, before, after), FieldDiff(Assignee, before, after);
    ChainAppend(d1, d2, field, x, at(Title), at(Description));
    ChainAppend(d1 + d2, d3, field, x, at(Description), at(Priority));
    ChainAppend(d1 + d2 + d3, d4, field, x, at(Priority), at(Status));
    ChainAppend(d1 + d2 + d3 + d4, d5, field, x, at(Status), at(Assignee));
  }

  // ---- A log that explains how one version became another ----

  predicate NoCreation(log: seq<Change>) {
    forall c :: c in log ==> c.field != Created
  }

  ghost predicate Explains(log: seq<Change>, before: Fields, after: Fields) {
    && UndoAll(after, log) == before
    && RedoAll(before, log) == after
    && (forall field :: Chained(log, field, Column(before, field), Column(after, field)))
    && NoCreation(log)
  }

  lemma DiffExplains(before: Fields, after: Fields)
    ensures Explains(Diff(before, after), before, after)
  {
    UndoDiff(before, after);
    RedoDiff(before, after);
    DiffIsMinimal(before, after);
    forall field ensures Chained(Diff(before, after), field, Column(before, field), Column(after, field)) {
      DiffChained(before, after, field);
    }
  }

  lemma ExplainsAppend(a: seq<Change>, b: seq<Change>, f0: Fields, f1: Fields, f2: Fields)
    requires Explains(a, f0, f1) && Explains(b, f1, f2)
    ensures Explains(a + b, f0, f2)
  {
    UndoAppend(f2, a, b);
    RedoAppend(f0, a, b);
    forall field ensures Chained(a + b, field, Column(f0, field), Column(f2, field)) {
      ChainAppend(a, b, field, Column(f0, field), Column(f1, field), Column(f2, field));
    }
  }

  /** Between two states of the tables the task kept its identity, its log only grew, and what was added
      explains how its columns changed. */
  ghost predicate Explained(s: Tables, s': Tables, id: int) {
    && FindTask(s.tasks, id).Some?
    && FindTask(s'.tasks, id).Some?
    && (var r, r' := FindTask(s.tasks, id).value, FindTask(s'.tasks, id).value;
        && r' == r.(fields := r'.fields, updatedAt := r'.updatedAt)
        && TaskLog(s, id) <= TaskLog(s', id)
        && Explains(TaskLog(s', id)[|TaskLog(s, id)|..], r.fields, r'.fields))
  }

  lemma ExplainedTransitive(s: Tables, mid: Tables, end: Tables, id: int)
    requires Explained(s, mid, id) && Explained(mid, end, id)
    ensures Explained(s, end, id)
  {
    var a, b := TaskLog(mid, id)[|TaskLog(s, id)|..], TaskLog(end, id)[|TaskLog(mid, id)|..];
    assert TaskLog(end, id)[|TaskLog(s, id)|..] == a + b;
    ExplainsAppend(a, b, FindTask(s.tasks, id).value.fields, FindTask(mid.tasks, id).value.fields,
                   FindTask(end.tasks, id).value.fields);
  }

  // ---- One call ----

  lemma ChangesAppend(a: seq<History>, b: seq<History>)
    ensures Changes(a + b) == Changes(a) + Changes(b)
  {
  }

  lemma AppendRows(s: Tables, rows: seq<History>, id: int)
    ensures TaskLog(s.(history := s.history + rows), id) == TaskLog(s, id) + Changes(Filter(rows, OfTask(id)))
  {
    FilterAppend(s.history, rows, OfTask(id));
    ChangesAppend(Filter(s.history, OfTask(id)), Filter(rows, OfTask(id)));
  }

  lemma {:induction false} FilterAll(rows: seq<History>, keep: History -> bool)
    requires forall i :: 0 <= i < |rows| ==> keep(rows[i])
    ensures Filter(rows, keep) == rows
  {
    if rows != [] {
      FilterAll(rows[1..], keep);
    }
  }

  lemma Unchanged(s: Tables, s': Tables, id: int, f: Fields)
    requires TaskLog(s', id) == TaskLog(s, id)
    ensures TaskLog(s, id) <= TaskLog(s', id)
    ensures Explains(TaskLog(s', id)[|TaskLog(s, id)|..], f, f)
  {
  }

  lemma UpdateExplained(s: Tables, e: Event, id: int)
    requires WellFormed(s) && Legal(s, e) && e.TaskUpdated? && FindTask(s.tasks, id).Some?
    ensures Explained(s, Apply(s, e), id)
  {
    var s' := Apply(s, e);
    var before := FindTask(s.tasks, e.update.taskId).value.fields;
    var after := Patched(before, e.update);
    FindTaskUpdated(s.tasks, e.update.taskId, after, e.at, id);
    AppendRows(s, e.entries, id);
    if e.update.taskId == id {
      FilterAll(e.entries, OfTask(id));
      assert Changes(e.entries) == Diff(before, after);
      DiffExplains(before, after);
      assert TaskLog(s', id)[|TaskLog(s, id)|..] == Diff(before, after);
    } else {
      FilterNone(e.entries, OfTask(id));
      Unchanged(s, s', id, FindTask(s.tasks, id).value.fields);
    }
  }

  /** What a committed call does to an existing task: its identity stays, and the entries it adds to the task's
      log explain the change of its columns. */
  lemma CallExplained(s: Tables, e: Event, id: int)
    requires WellFormed(s) && Legal(s, e) && FindTask(s.tasks, id).Some?
    ensures Explained(s, Apply(s, e), id)
  {
    var s' := Apply(s, e);
    var r := FindTask(s.tasks, id).value;
    match e
    case TaskCreated(cmd, task, entry) =>
      FindTaskAppend(s.tasks, task, id);
      AppendRows(s, [entry], id);
      FilterNone([entry], OfTask(id));
      Unchanged(s, s', id, r.fields);
    case TaskUpdated(_, _, _) =>
      UpdateExplained(s, e, id);
    case _ =>
      Unchanged(s, s', id, r.fields);
  }

  // ---- Every run ----

  /** Between any two moments of a run the log of a task only grows, and what was added takes the later columns
      back to the earlier ones, leads from the earlier to the later, and is chained for every column. */
  lemma {:induction false} LogExplainsRun(s: Tables, run: seq<Event>, id: int)
    requires WellFormed(s) && LegalRun(s, run) && FindTask(s.tasks, id).Some?
    ensures Explained(s, After(s, run), id)
    decreases |run|
  {
    if run == [] {
      Unchanged(s, s, id, FindTask(s.tasks, id).value.fields);
    } else {
      var mid := Apply(s, run[0]);
      ApplyKeepsWellFormed(s, run[0]);
      CallExplained(s, run[0], id);
      LogExplainsRun(mid, run[1..], id);
      ExplainedTransitive(s, mid, After(mid, run[1..]), id);
    }
  }

  /** A run is what comes before a call, the call, and what comes after. */
  lemma {:induction false} RunSplit(s: Tables, run: seq<Event>, k: nat)
    requires LegalRun(s, run) && k < |run|
    ensures LegalRun(s, run[..k]) && Legal(After(s, run[..k]), run[k])
    ensures LegalRun(Apply(After(s, run[..k]), run[k]), run[k + 1..])
    ensures After(s, run) == After(Apply(After(s, run[..k]), run[k]), run[k + 1..])
    decreases k
  {
    if k > 0 {
      RunSplit(Apply(s, run[0]), run[1..], k - 1);
      assert run[..k][1..] == run[1..][..k - 1];
      assert run[1..][k..] == run[k + 1..];
    }
  }

  /** The status after reading the `created` and `status` entries in order. */
  function FoldStatus(log: seq<Change>, status: Option<string>): Option<string>
    decreases |log|
  {
    if log == [] then status
    else FoldStatus(log[1..], if log[0].field == Created || log[0].field == Status then log[0].newValue else status)
  }

  lemma {:induction false} FoldFollowsChain(log: seq<Change>, from: Option<string>, to: Option<string>)
    requires NoCreation(log) && Chained(log, Status, from, to)
    ensures FoldStatus(log, from) == to
    decreases |log|
  {
    if log != [] {
      assert log[0] in log;
      FoldFollowsChain(log[1..], if log[0].field == Status then log[0].newValue else from, to);
    }
  }

  /** The first entry about a new row is all there is in its log. */
  lemma FirstEntry(s: Tables, row: Task, entry: History)
    requires FindTask(s.tasks, row.id).None? && entry.request.taskId == row.id
    requires forall h :: h in s.history ==> h.request.taskId != row.id
    ensures var s' := s.(tasks := s.tasks + [row], history := s.history + [entry]);
            FindTask(s'.tasks, row.id) == Some(row) && TaskLog(s', row.id) == [entry.request.change]
  {
    FindTaskAppend(s.tasks, row, row.id);
    FilterAppend(s.history, [entry], OfTask(row.id));
    FilterAll([entry], OfTask(row.id));
    forall i | 0 <= i < |s.history| ensures !OfTask(row.id)(s.history[i]) {
      assert s.history[i] in s.history;
    }
    FilterNone(s.history, OfTask(row.id));
  }

  /** A new task starts its log with its one `created` entry. */
  lemma CreationLogged(s: Tables, e: Event)
    requires WellFormed(s) && Legal(s, e) && e.TaskCreated?
    ensures FindTask(Apply(s, e).tasks, e.task.id) == Some(e.task)
    ensures TaskLog(Apply(s, e), e.task.id) == [CREATED_CHANGE]
  {
    FirstEntry(s, e.task, e.entry);
  }

  /** One `created` entry, first; undoing everything gives back the five columns the task was created with;
      replaying gives the current ones; every column is chained from its first to its current value; and
      reading off statuses gives the current status. */
  ghost predicate Faithful(log: seq<Change>, first: Fields, current: Fields) {
    && log != [] && log[0] == CREATED_CHANGE && NoCreation(log[1..])
    && UndoAll(current, log) == first
    && RedoAll(first, log) == current
    && (forall field :: field != Created ==> Chained(log, field, Column(first, field), Column(current, field)))
    && FoldStatus(log, None) == Some(current.status)
  }

  lemma CreationEntryIsNeutral(delta: seq<Change>, f0: Fields, f1: Fields)
    requires Explains(delta, f0, f1) && f0.status == STATUS_TODO
    ensures var log := [CREATED_CHANGE] + delta;
            && UndoAll(f1, log) == f0
            && RedoAll(f0, log) == f1
            && (forall field :: field != Created ==> Chained(log, field, Column(f0, field), Column(f1, field)))
            && FoldStatus(log, None) == FoldStatus(delta, Some(STATUS_TODO))
            && Chained(delta, Status, Some(STATUS_TODO), Some(f1.status))
  {
    var log := [CREATED_CHANGE] + delta;
    UndoAppend(f1, [CREATED_CHANGE], delta);
    assert [CREATED_CHANGE][..0] == [];
    assert log[1..] == delta;
    assert Column(f0, Status) == Some(STATUS_TODO);
    assert Chained(delta, Status, Column(f0, Status), Column(f1, Status));
  }

  lemma FaithfulSinceCreation(s0: Tables, e: Event, s: Tables)
    requires WellFormed(s0) && Legal(s0, e) && e.TaskCreated? && Explained(Apply(s0, e), s, e.task.id)
    ensures Faithful(TaskLog(s, e.task.id), InitialFields(e.create), FindTask(s.tasks, e.task.id).value.fields)
  {
    CreationLogged(s0, e);
    var row, log := FindTask(s.tasks, e.task.id).value, TaskLog(s, e.task.id);
    var delta := log[1..];
    assert log == [CREATED_CHANGE] + delta;
    CreationEntryIsNeutral(delta, e.task.fields, row.fields);
    FoldFollowsChain(delta, Some(STATUS_TODO), Some(row.fields.status));
  }

  /** What follows a creation leaves a faithful log of the new row. */
  lemma FaithfulFromCreation(s0: Tables, e: Event, later: seq<Event>)
    requires WellFormed(s0) && Legal(s0, e) && e.TaskCreated? && LegalRun(Apply(s0, e), later)
    ensures var s := After(Apply(s0, e), later);
            && FindTask(s.tasks, e.task.id).Some?
            && (var row := FindTask(s.tasks, e.task.id).value;
                && row == e.task.(fields := row.fields, updatedAt := row.updatedAt)
                && Faithful(Changes(ListByTask(s.history, e.task.id)), InitialFields(e.create), row.fields))
  {
    ApplyKeepsWellFormed(s0, e);
    CreationLogged(s0, e);
    LogExplainsRun(Apply(s0, e), later, e.task.id);
    FaithfulSinceCreation(s0, e, After(Apply(s0, e), later));
    RunKeepsWellFormed(Apply(s0, e), later);
    ListByTaskIsRecordingOrder(After(Apply(s0, e), later).history, e.task.id);
  }

  /** The history of a task is faithful in every run, and it is what the history query returns. */
  lemma HistoryIsFaithful(run: seq<Event>, k: nat)
    requires LegalRun(EMPTY, run) && k < |run| && run[k].TaskCreated?
    ensures var s, task := After(EMPTY, run), run[k].task;
            && FindTask(s.tasks, task.id).Some?
            && (var row := FindTask(s.tasks, task.id).value;
                && row == task.(fields := row.fields, updatedAt := row.updatedAt)
                && Faithful(Changes(ListByTask(s.history, task.id)), InitialFields(run[k].create), row.fields))
  {
    RunSplit(EMPTY, run, k);
    RunKeepsWellFormed(EMPTY, run[..k]);
    FaithfulFromCreation(After(EMPTY, run[..k]), run[k], run[k + 1..]);
  }

  /** Conversely, every row of every run was created by one of its calls. */
  lemma {:induction false} EveryTaskWasCreated(s: Tables, run: seq<Event>, id: int)
    requires LegalRun(s, run) && FindTask(s.tasks, id).None? && FindTask(After(s, run).tasks, id).Some?
    ensures exists k :: 0 <= k < |run| && run[k].TaskCreated? && run[k].task.id == id
    decreases |run|
  {
    if run != [] {
      var e := run[0];
      var mid := Apply(s, e);
      if e.TaskCreated? && e.task.id == id {
      } else {
        if e.TaskCreated? {
          FindTaskAppend(s.tasks, e.task, id);
        } else if e.TaskUpdated? {
          FindTaskUpdated(s.tasks, e.update.taskId,
              Patched(FindTask(s.tasks, e.update.taskId).value.fields, e.update), e.at, id);
        }
        EveryTaskWasCreated(mid, run[1..], id);
        var k :| 0 <= k < |run[1..]| && run[1..][k].TaskCreated? && run[1..][k].task.id == id;
        assert run[k + 1] == run[1..][k];
      }
    }
  }

  // ---- Repeating an update ----

  lemma UpdatedAlready(s: Tables, id: int, fields: Fields, now: int)
    requires WellFormed(s) && FindTask(s.tasks, id).Some? && FindTask(s.tasks, id).value.fields == fields
    ensures UpdateRow(s.tasks, id, fields, now) == s.tasks
  {
  }

  /** A command that succeeded succeeds again, records nothing and changes nothing. */
  lemma UpdateIsIdempotent(s: Tables, e: Event, again: Event)
    requires WellFormed(s) && Legal(s, e) && e.TaskUpdated?
    requires again.TaskUpdated? && again.update == e.update
    ensures Legal(Apply(s, e), again) <==> again.entries == []
    ensures Legal(Apply(s, e), again) ==> Apply(Apply(s, e), again) == Apply(s, e)
  {
    var s' := Apply(s, e);
    ApplyKeepsWellFormed(s, e);
    var before := FindTask(s.tasks, e.update.taskId).value.fields;
    PatchIsIdempotent(before, e.update);
    FindTaskUpdated(s.tasks, e.update.taskId, Patched(before, e.update), e.at, e.update.taskId);
    assert s'.history + [] == s'.history;
    assert FindTask(s'.tasks, e.update.taskId).value.fields == Patched(before, e.update);
    if again.entries == [] {
      UpdatedAlready(s', e.update.taskId, Patched(before, e.update), again.at);
    }
  }
}
