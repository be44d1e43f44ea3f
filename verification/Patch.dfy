/** The partial update of a task: the mutable accumulator of the service and the diff it computes. */
module Patch {
  import opened Results
  import opened Entities

  // ---- Reading and writing one column by its name in the log ----

  /** The text under which a column is recorded. The `created` marker has no column. */
  function Column(f: Fields, field: Field): Option<string> {
    match field
    case Created => None
    case Title => Some(f.title)
    case Description => Some(f.description)
    case Status => Some(f.status)
    case Priority => Some(f.priority)
    case Assignee => Encode(f.assignee)
  }

  function WithText(current: string, text: Option<string>): string {
    if text.Some? then text.value else current
  }

  function SetColumn(f: Fields, field: Field, text: Option<string>): Fields {
    match field
    case Created => f
    case Title => f.(title := WithText(f.title, text))
    case Description => f.(description := WithText(f.description, text))
    case Status => f.(status := WithText(f.status, text))
    case Priority => f.(priority := WithText(f.priority, text))
    case Assignee => f.(assignee := Decode(text))
  }

  // ---- Playing a log backwards and forwards ----

  /** Takes changes back, newest first. */
  function UndoAll(f: Fields, log: seq<Change>): Fields
    decreases |log|
  {
    if log == [] then f
    else
      var last := log[|log| - 1];
      UndoAll(SetColumn(f, last.field, last.oldValue), log[..|log| - 1])
  }

  /** Applies changes again, oldest first. */
  function RedoAll(f: Fields, log: seq<Change>): Fields
    decreases |log|
  {
    if log == [] then f
    else RedoAll(SetColumn(f, log[0].field, log[0].newValue), log[1..])
  }

  lemma {:induction false} UndoAppend(f: Fields, a: seq<Change>, b: seq<Change>)
    ensures UndoAll(f, a + b) == UndoAll(UndoAll(f, b), a)
    decreases |b|
  {
    if b == [] {
      assert a + b == a;
    } else {
      var last := b[|b| - 1];
      assert (a + b)[..|a + b| - 1] == a + b[..|b| - 1];
      UndoAppend(SetColumn(f, last.field, last.oldValue), a, b[..|b| - 1]);
    }
  }

  lemma {:induction false} RedoAppend(f: Fields, a: seq<Change>, b: seq<Change>)
    ensures RedoAll(f, a + b) == RedoAll(RedoAll(f, a), b)
    decreases |a|
  {
    if a == [] {
      assert a + b == b;
    } else {
      assert (a + b)[1..] == a[1..] + b;
      RedoAppend(SetColumn(f, a[0].field, a[0].newValue), a[1..], b);
    }
  }

  // ---- The diff of two versions of the five columns ----

  function FieldDiff(field: Field, before: Fields, after: Fields): seq<Change> {
    if Column(before, field) == Column(after, field) then []
    else [Change(field, Column(before, field), Column(after, field))]
  }

  /** The entries of an update, in the order the service records them. */
  function Diff(before: Fields, after: Fields): seq<Change> {
    FieldDiff(Title, before, after) +
    FieldDiff(Description, before, after) +
    FieldDiff(Priority, before, after) +
    FieldDiff(Status, before, after) +
    FieldDiff(Assignee, before, after)
  }

  lemma ColumnsDetermine(a: Fields, b: Fields)
    requires forall field :: Column(a, field) == Column(b, field)
    ensures a == b
  {
    assert Column(a, Title) == Column(b, Title);
    assert Column(a, Description) == Column(b, Description);
    assert Column(a, Status) == Column(b, Status);
    assert Column(a, Priority) == Column(b, Priority);
    assert Column(a, Assignee) == Column(b, Assignee);
    DecodeEncode(a.assignee);
    DecodeEncode(b.assignee);
  }

  /** One column taken from another version. */
  function Copy(f: Fields, field: Field, from: Fields): Fields {
    match field
    case Created => f
    case Title => f.(title := from.title)
    case Description => f.(description := from.description)
    case Status => f.(status := from.status)
    case Priority => f.(priority := from.priority)
    case Assignee => f.(assignee := from.assignee)
  }

  /** Undoing the entry of one field restores that column and leaves the others. */
  lemma UndoField(field: Field, before: Fields, after: Fields, current: Fields)
    requires Column(current, field) == Column(after, field)
    ensures UndoAll(current, FieldDiff(field, before, after)) == Copy(current, field, before)
  {
    DecodeEncode(before.assignee);
    DecodeEncode(current.assignee);
    var d := FieldDiff(field, before, after);
    if d != [] {
      assert d[..|d| - 1] == [];
    }
  }

  lemma RedoField(field: Field, before: Fields, after: Fields, current: Fields)
    requires Column(current, field) == Column(before, field)
    ensures RedoAll(current, FieldDiff(field, before, after)) == Copy(current, field, after)
  {
    DecodeEncode(after.assignee);
    DecodeEncode(current.assignee);
    var d := FieldDiff(field, before, after);
    if d != [] {
      assert d[1..] == [];
    }
  }

  /** The diff can be taken back from the version after it. */
  lemma UndoDiff(before: Fields, after: Fields)
    ensures UndoAll(after, Diff(before, after)) == before
  {
    var d1, d2, d3, d4, d5 :=
      FieldDiff(Title, before, after), FieldDiff(Description, before, after), FieldDiff(Priority, before, after),
      FieldDiff(Status, before, after), FieldDiff(Assignee, before, after);
    UndoAppend(after, d1 + d2 + d3 + d4, d5);
    UndoField(Assignee, before, after, after);
    var f5 := Copy(after, Assignee, before);
    UndoAppend(f5, d1 + d2 + d3, d4);
    UndoField(Status, before, after, f5);
    var f4 := Copy(f5, Status, before);
    UndoAppend(f4, d1 + d2, d3);
    UndoField(Priority, before, after, f4);
    var f3 := Copy(f4, Priority, before);
    UndoAppend(f3, d1, d2);
    UndoField(Description, before, after, f3);
    UndoField(Title, before, after, Copy(f3, Description, before));
  }

  /** The diff leads from the version before it to the version after it. */
  lemma RedoDiff(before: Fields, after: Fields)
    ensures RedoAll(before, Diff(before, after)) == after
  {
    var d1, d2, d3, d4, d5 :=
      FieldDiff(Title, before, after), FieldDiff(Description, before, after), FieldDiff(Priority, before, after),
      FieldDiff(Status, before, after), FieldDiff(Assignee, before, after);
    RedoField(Title, before, after, before);
    var f1 := Copy(before, Title, after);
    RedoAppend(before, d1, d2);
    RedoField(Description, before, after, f1);
    var f2 := Copy(f1, Description, after);
    RedoAppend(before, d1 + d2, d3);
    RedoField(Priority, before, after, f2);
    var f3 := Copy(f2, Priority, after);
    RedoAppend(before, d1 + d2 + d3, d4);
    RedoField(Status, before, after, f3);
    RedoAppend(before, d1 + d2 + d3 + d4, d5);
    RedoField(Assignee, before, after, Copy(f3, Status, after));
  }

  function Position(field: Field): nat {
    match field
    case Created => 0
    case Title => 1
    case Description => 2
    case Priority => 3
    case Status => 4
    case Assignee => 5
  }

  /** Entries for distinct columns, in the order of the columns, from position `lo` to before `hi`. */
  predicate InColumnOrder(log: seq<Change>, lo: nat, hi: nat) {
    && (forall i :: 0 <= i < |log| ==> lo <= Position(log[i].field) < hi)
    && (forall i, j :: 0 <= i < j < |log| ==> Position(log[i].field) < Position(log[j].field))
  }

  lemma InOrderAppend(a: seq<Change>, b: seq<Change>, lo: nat, mid: nat, hi: nat)
    requires InColumnOrder(a, lo, mid) && InColumnOrder(b, mid, hi) && lo <= mid <= hi
    ensures InColumnOrder(a + b, lo, hi)
  {
  }

  lemma DiffInOrder(before: Fields, after: Fields)
    ensures InColumnOrder(Diff(before, after), 1, 6)
  {
    var d1, d2, d3, d4, d5 :=
      FieldDiff(Title, before, after), FieldDiff(Description, before, after), FieldDiff(Priority, before, after),
      FieldDiff(Status, before, after), FieldDiff(Assignee, before, after);
    InOrderAppend(d1, d2, 1, 2, 3);
    InOrderAppend(d1 + d2, d3, 1, 3, 4);
    InOrderAppend(d1 + d2 + d3, d4, 1, 4, 5);
    InOrderAppend(d1 + d2 + d3 + d4, d5, 1, 5, 6);
  }

  /** A change of a column from its value before to a different value after. */
  predicate Records(c: Change, before: Fields, after: Fields) {
    && Column(before, c.field) != Column(after, c.field)
    && c.oldValue == Column(before, c.field)
    && c.newValue == Column(after, c.field)
  }

  lemma DiffMembers(c: Change, before: Fields, after: Fields)
    ensures c in Diff(before, after) <==> Records(c, before, after)
  {
  }

  /** Exactly one entry for a column that differs, none for one that does not, and never a `created` entry. */
  lemma DiffIsMinimal(before: Fields, after: Fields)
    ensures forall c :: c in Diff(before, after) <==> Records(c, before, after)
    ensures forall i, j :: 0 <= i < j < |Diff(before, after)| ==>
            Diff(before, after)[i].field != Diff(before, after)[j].field
    ensures Diff(before, after) == [] <==> before == after
  {
    forall c ensures c in Diff(before, after) <==> Records(c, before, after) {
      DiffMembers(c, before, after);
    }
    DiffInOrder(before, after);
    if Diff(before, after) == [] {
      forall field ensures Column(before, field) == Column(after, field) {
        assert FieldDiff(field, before, after) == [];
      }
      ColumnsDetermine(before, after);
    }
  }

  /** A diff recorded against one version, undone on what replaced another, gives that other version back
      exactly when the two are the same: the log is reversible iff the row read is the row overwritten. */
  lemma UndoneIffNotOverwritten(read: Fields, overwritten: Fields, written: Fields)
    ensures UndoAll(written, Diff(read, written)) == overwritten <==> read == overwritten
  {
    UndoDiff(read, written);
  }

  // ---- The command ----

  function ResolvedId(assigneeId: int): Option<int> {
    if assigneeId <= 0 then None else Some(assigneeId)
  }

  /** The columns after a command: given values replace, missing ones stay. */
  function Patched(f: Fields, cmd: UpdateTaskCommand): Fields {
    Fields(
      WithText(f.title, cmd.title),
      WithText(f.description, cmd.description),
      WithText(f.status, cmd.status),
      WithText(f.priority, cmd.priority),
      if cmd.assigneeId.Some? then ResolvedId(cmd.assigneeId.value) else f.assignee)
  }

  function TextsSet(f0: Fields, cmd: UpdateTaskCommand): Fields {
    SetColumn(SetColumn(SetColumn(f0, Title, cmd.title), Description, cmd.description), Priority, cmd.priority)
  }

  /** The entries of the text columns, as the three calls record them one after the other. */
  function TextDiffs(f0: Fields, cmd: UpdateTaskCommand): seq<Change> {
    var f1 := SetColumn(f0, Title, cmd.title);
    var f2 := SetColumn(f1, Description, cmd.description);
    FieldDiff(Title, f0, f1) + FieldDiff(Description, f1, f2)
        + FieldDiff(Priority, f2, SetColumn(f2, Priority, cmd.priority))
  }

  /** The per-field steps, in order, add up to the diff of the task as read and as patched. */
  lemma StepsMakeDiff(f0: Fields, f4: Fields, f5: Fields, cmd: UpdateTaskCommand)
    requires f4 == SetColumn(TextsSet(f0, cmd), Status, cmd.status)
    requires f5 == if cmd.assigneeId.Some? then f4.(assignee := ResolvedId(cmd.assigneeId.value)) else f4
    ensures f5 == Patched(f0, cmd)
    ensures TextDiffs(f0, cmd) + FieldDiff(Status, TextsSet(f0, cmd), f4) + FieldDiff(Assignee, f4, f5) == Diff(f0, f5)
  {
  }

  /** Applying a command twice is applying it once, and the second time there is nothing to record. */
  lemma PatchIsIdempotent(f: Fields, cmd: UpdateTaskCommand)
    ensures Patched(Patched(f, cmd), cmd) == Patched(f, cmd)
    ensures Diff(Patched(f, cmd), Patched(Patched(f, cmd), cmd)) == []
  {
  }

  // ---- The accumulator ----

  /** The columns that `setString` is called with. */
  datatype TextColumn = TitleColumn | DescriptionColumn | PriorityColumn {
    function Name(): Field {
      match this
      case TitleColumn => Title
      case DescriptionColumn => Description
      case PriorityColumn => Priority
    }
  }

  class TaskPatch {
    const taskId: int
    const actorId: int
    var state: Task
    var entries: seq<HistoryRequest>

    constructor (task: Task, actor: int)
      ensures taskId == task.id && actorId == actor
      ensures state == task && entries == []
    {
      taskId, actorId, state, entries := task.id, actor, task, [];
    }

    function Requests(log: seq<Change>): seq<HistoryRequest> {
      seq(|log|, i requires 0 <= i < |log| => HistoryRequest(taskId, actorId, log[i]))
    }

    /** Nothing but the columns of the task changes, and exactly the entries `log` are added. */
    twostate predicate Recorded(after: Fields, log: seq<Change>)
      reads this
    {
      state == old(state).(fields := after) && entries == old(entries) + Requests(log)
    }

    method Record(field: Field, oldValue: Option<string>, newValue: Option<string>)
      modifies this`entries
      ensures entries == old(entries) + Requests([Change(field, oldValue, newValue)])
    {
      entries := entries + [HistoryRequest(taskId, actorId, Change(field, oldValue, newValue))];
    }

    method SetString(column: TextColumn, incoming: Option<string>)
      modifies this
      ensures var before := old(state.fields);
              var after := SetColumn(before, column.Name(), incoming);
              Recorded(after, FieldDiff(column.Name(), before, after))
    {
      var current := match column
        case TitleColumn => state.fields.title
        case DescriptionColumn => state.fields.description
        case PriorityColumn => state.fields.priority;
      if incoming.None? || incoming.value == current {
        return;
      }
      Record(column.Name(), Some(current), incoming);
      var fields := match column
        case TitleColumn => state.fields.(title := incoming.value)
        case DescriptionColumn => state.fields.(description := incoming.value)
        case PriorityColumn => state.fields.(priority := incoming.value);
      state := state.(fields := fields);
    }

    lemma RequestsAppend(a: seq<Change>, b: seq<Change>)
      ensures Requests(a + b) == Requests(a) + Requests(b)
    {
    }

    /** The three `setString` calls of an update. */
    method SetTexts(cmd: UpdateTaskCommand)
      modifies this
      ensures Recorded(TextsSet(old(state.fields), cmd), TextDiffs(old(state.fields), cmd))
    {
      ghost var f0 := state.fields;
      SetString(TitleColumn, cmd.title);
      ghost var f1 := state.fields;
      SetString(DescriptionColumn, cmd.description);
      ghost var f2 := state.fields;
      RequestsAppend(FieldDiff(Title, f0, f1), FieldDiff(Description, f1, f2));
      SetString(PriorityColumn, cmd.priority);
      ghost var f3 := state.fields;
      RequestsAppend(FieldDiff(Title, f0, f1) + FieldDiff(Description, f1, f2), FieldDiff(Priority, f2, f3));
    }

    method SetStatus(status: string)
      modifies this
      ensures var before := old(state.fields);
              var after := before.(status := status);
              Recorded(after, FieldDiff(Status, before, after))
    {
      if status == state.fields.status {
        return;
      }
      Record(Status, Some(state.fields.status), Some(status));
      state := state.(fields := state.fields.(status := status));
    }

    method SetAssignee(assignee: Option<int>)
      modifies this
      ensures var before := old(state.fields);
              var after := before.(assignee := assignee);
              Recorded(after, FieldDiff(Assignee, before, after))
    {
      DecodeEncode(assignee);
      DecodeEncode(state.fields.assignee);
      if assignee == state.fields.assignee {
        return;
      }
      Record(Assignee, Encode(state.fields.assignee), Encode(assignee));
      state := state.(fields := state.fields.(assignee := assignee));
    }
  }
}
