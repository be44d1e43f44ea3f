/** Exactly when the log of a task is faithful although updates overlap: an update keeps the log faithful if and only
    if it has read what the log tells, and that is the row as it is as long as nothing was overwritten before. */
module Faithfulness {
  import opened Results
  import opened Entities
  import opened Patch
  import opened Store
  import opened AuditLog
  import opened Interleaving
  import opened Membership
  import opened OverlappingLog
  import opened Serializability
  import TaskQueries

  // ---- What a chain determines ----

  /** Where the entries of a column lead. */
  function ChainEnd(log: seq<Change>, field: Field, from: Option<string>): Option<string>
    decreases |log|
  {
    if log == [] then from else ChainEnd(log[1..], field, if log[0].field == field then log[0].newValue else from)
  }

  lemma {:induction false} ChainSplit(a: seq<Change>, b: seq<Change>, field: Field, from: Option<string>,
                                      to: Option<string>)
    requires Chained(a + b, field, from, to)
    ensures Chained(a, field, from, ChainEnd(a, field, from))
    ensures Chained(b, field, ChainEnd(a, field, from), to)
    decreases |a|
  {
    if a == [] {
      assert a + b == b;
    } else {
      assert (a + b)[1..] == a[1..] + b;
      ChainSplit(a[1..], b, field, if a[0].field == field then a[0].newValue else from, to);
    }
  }

  lemma {:induction false} ChainHasOneStart(log: seq<Change>, field: Field, x: Option<string>, y: Option<string>,
                                            to: Option<string>)
    requires Chained(log, field, x, to) && Chained(log, field, y, to)
    ensures x == y
    decreases |log|
  {
    if log != [] && log[0].field != field {
      ChainHasOneStart(log[1..], field, x, y, to);
    }
  }

  lemma ColumnSet(f: Fields, field: Field, to: Fields)
    requires field != Created
    ensures Column(SetColumn(f, field, Column(to, field)), field) == Column(to, field)
  {
    DecodeEncode(to.assignee);
  }

  /** Replaying a chained log gives each column the value where its chain ends. */
  lemma {:induction false} ReplayFollowsChain(f: Fields, log: seq<Change>, field: Field, from: Option<string>,
                                              to: Fields)
    requires field != Created && Chained(log, field, from, Column(to, field))
    requires from == Column(f, field) || exists c :: c in log && c.field == field
    ensures Column(RedoAll(f, log), field) == Column(to, field)
    decreases |log|
  {
    if log != [] {
      var c, rest := log[0], log[1..];
      if c.field != field {
        ReplayFollowsChain(SetColumn(f, c.field, c.newValue), rest, field, from, to);
      } else {
        if forall d :: d in rest ==> d.field != field {
          ChainStart(rest, field, c.newValue, Column(to, field), |rest|);
          ColumnSet(f, field, to);
        }
        ReplayFollowsChain(SetColumn(f, field, c.newValue), rest, field, c.newValue, to);
      }
    }
  }

  lemma {:induction false} FoldAppend(a: seq<Change>, b: seq<Change>, status: Option<string>)
    ensures FoldStatus(a + b, status) == FoldStatus(b, FoldStatus(a, status))
    decreases |a|
  {
    if a == [] {
      assert a + b == b;
    } else {
      assert (a + b)[1..] == a[1..] + b;
      FoldAppend(a[1..], b, if a[0].field == Created || a[0].field == Status then a[0].newValue else status);
    }
  }

  // ---- One update ----

  lemma FaithfulAfterRead(log: seq<Change>, first: Fields, read: Fields, after: Fields)
    requires Faithful(log, first, read)
    ensures Faithful(log + Diff(read, after), first, after)
  {
    var d := Diff(read, after);
    UndoAppend(after, log, d);
    RedoAppend(first, log, d);
    DiffExplains(read, after);
    forall field | field != Created ensures Chained(log + d, field, Column(first, field), Column(after, field)) {
      ChainAppend(log, d, field, Column(first, field), Column(read, field), Column(after, field));
    }
    FoldAppend(log, d, None);
    assert Chained(d, Status, Column(read, Status), Column(after, Status));
    FoldFollowsChain(d, Some(read.status), Some(after.status));
  }

  /** The chain of the longer log meets the update at the value it had read. */
  lemma ChainReachesRead(log: seq<Change>, from: Option<string>, read: Fields, after: Fields, field: Field)
    requires Chained(log + Diff(read, after), field, from, Column(after, field))
    ensures Chained(log, field, from, Column(read, field))
  {
    ChainSplit(log, Diff(read, after), field, from, Column(after, field));
    DiffChained(read, after, field);
    ChainHasOneStart(Diff(read, after), field, ChainEnd(log, field, from), Column(read, field), Column(after, field));
  }

  lemma ReplayReachesRead(log: seq<Change>, first: Fields, read: Fields)
    requires forall field :: field != Created ==> Chained(log, field, Column(first, field), Column(read, field))
    ensures RedoAll(first, log) == read
  {
    forall field ensures Column(RedoAll(first, log), field) == Column(read, field) {
      if field != Created {
        ReplayFollowsChain(first, log, field, Column(first, field), read);
      }
    }
    ColumnsDetermine(RedoAll(first, log), read);
  }

  lemma FaithfulBeforeUpdate(log: seq<Change>, first: Fields, read: Fields, after: Fields)
    requires first.status == STATUS_TODO && Faithful(log + Diff(read, after), first, after)
    ensures Faithful(log, first, read)
  {
    var d := Diff(read, after);
    DiffIsMinimal(read, after);
    assert (log + d)[0] in log + d && CREATED_CHANGE !in d;
    assert (log + d)[1..] == log[1..] + d;
    UndoAppend(after, log, d);
    UndoDiff(read, after);
    forall field | field != Created ensures Chained(log, field, Column(first, field), Column(read, field)) {
      ChainReachesRead(log, Column(first, field), read, after, field);
    }
    ReplayReachesRead(log, first, read);
    assert Chained(log, Status, Column(first, Status), Column(read, Status));
    FoldFollowsChain(log[1..], Some(STATUS_TODO), Some(read.status));
  }

  /** An update leaves a faithful log if and only if the log before it was faithful to what the update had read. */
  lemma FaithfulIffReadFaithful(log: seq<Change>, first: Fields, read: Fields, after: Fields)
    requires first.status == STATUS_TODO
    ensures Faithful(log + Diff(read, after), first, after) <==> Faithful(log, first, read)
  {
    if Faithful(log, first, read) {
      FaithfulAfterRead(log, first, read, after);
    }
    if Faithful(log + Diff(read, after), first, after) {
      FaithfulBeforeUpdate(log, first, read, after);
    }
  }

  // ---- The steps ----

  /** What the history query returns for the task is faithful. */
  ghost predicate HistoryFaithful(s: Tables, task: int, first: Fields) {
    && FindTask(s.tasks, task).Some?
    && Faithful(Changes(ListByTask(s.history, task)), first, FindTask(s.tasks, task).value.fields)
  }

  /** The step commits an update of the task that has something to write. */
  predicate Writes(s: State, a: Action, task: int)
    requires Enabled(s, a)
  {
    a.CommitUpdate? && s.requests[a.id].read.id == task
        && Diff(s.requests[a.id].read.fields, s.requests[a.id].after) != []
  }

  /** After any step the history of a task is faithful if and only if it was before, or, when the step writes the task,
      if and only if the log was faithful to what had been read: the last writer decides. */
  lemma StepFaithfulIff(s: State, a: Action, task: int, first: Fields)
    requires Consistent(s) && Undoable(s) && Enabled(s, a) && FindTask(s.tables.tasks, task).Some?
    requires first.status == STATUS_TODO
    ensures HistoryFaithful(Next(s, a).tables, task, first) <==>
            if Writes(s, a, task) then Faithful(TaskLog(s.tables, task), first, s.requests[a.id].read.fields)
            else HistoryFaithful(s.tables, task, first)
  {
    OrderedStays(s, a);
    ListByTaskIsRecordingOrder(s.tables.history, task);
    ListByTaskIsRecordingOrder(Next(s, a).tables.history, task);
    if a.CommitUpdate? {
      UpdateStep(s, a.id, a.at, task);
      if Writes(s, a, task) {
        FaithfulIffReadFaithful(TaskLog(s.tables, task), first, s.requests[a.id].read.fields, s.requests[a.id].after);
      } else {
        assert TaskLog(Next(s, a).tables, task) == TaskLog(s.tables, task);
      }
    } else {
      OtherStep(s, a, task);
    }
  }

  // ---- Every run ----

  /** Every update of the task that writes finds the columns as it has read them. */
  predicate NeverOverwritten(s: State, run: seq<Action>, task: int)
    requires LegalActions(s, run)
    decreases |run|
  {
    run != [] ==>
      && (Writes(s, run[0], task) ==> SeesCurrent(s, run[0]))
      && NeverOverwritten(Next(s, run[0]), run[1..], task)
  }

  /** The history of the task is faithful now and after every step. */
  ghost predicate StaysFaithful(s: State, run: seq<Action>, task: int, first: Fields)
    requires LegalActions(s, run)
    decreases |run|
  {
    HistoryFaithful(s.tables, task, first) && (run != [] ==> StaysFaithful(Next(s, run[0]), run[1..], task, first))
  }

  /** From a faithful history a step leads to a faithful one if and only if it does not overwrite the task unseen. */
  lemma StepKeepsFaithIff(s: State, a: Action, task: int, first: Fields)
    requires Consistent(s) && Undoable(s) && Enabled(s, a)
    requires first.status == STATUS_TODO && HistoryFaithful(s.tables, task, first)
    ensures HistoryFaithful(Next(s, a).tables, task, first) <==> (Writes(s, a, task) ==> SeesCurrent(s, a))
  {
    StepFaithfulIff(s, a, task, first);
    ListByTaskIsRecordingOrder(s.tables.history, task);
  }

  /** However requests overlap: the history of a task is faithful at every moment of a run if and only if every update
      of this task that writes sees the current columns. Updates of other tasks do not matter. */
  lemma {:induction false} FaithfulIffNeverOverwritten(s: State, run: seq<Action>, task: int, first: Fields)
    requires Consistent(s) && Undoable(s) && LegalActions(s, run)
    requires first.status == STATUS_TODO && HistoryFaithful(s.tables, task, first)
    ensures StaysFaithful(s, run, task, first) <==> NeverOverwritten(s, run, task)
    decreases |run|
  {
    if run != [] {
      StepKeepsFaithIff(s, run[0], task, first);
      StaysConsistent(s, run[0]);
      StaysUndoable(s, run[0]);
      if HistoryFaithful(Next(s, run[0]).tables, task, first) {
        FaithfulIffNeverOverwritten(Next(s, run[0]), run[1..], task, first);
      }
    }
  }

  lemma {:induction false} FaithfulAtTheEnd(s: State, run: seq<Action>, task: int, first: Fields)
    requires LegalActions(s, run) && StaysFaithful(s, run, task, first)
    ensures HistoryFaithful(AfterActions(s, run).tables, task, first)
    decreases |run|
  {
    if run != [] {
      FaithfulAtTheEnd(Next(s, run[0]), run[1..], task, first);
    }
  }

  lemma NewLogFaithful(first: Fields)
    requires first.status == STATUS_TODO
    ensures Faithful([CREATED_CHANGE], first, first)
  {
    assert [CREATED_CHANGE][1..] == [] && [CREATED_CHANGE][..0] == [];
  }

  /** A new task starts with a faithful history. */
  lemma FaithfulAtCreation(s: State, a: Action)
    requires Sound(s) && Enabled(s, a) && a.CommitCreate?
    ensures HistoryFaithful(Next(s, a).tables, s.nextTask, InitialFields(s.requests[a.id].create))
  {
    UndoneAtCreation(s, a.id, a.at);
    OrderedStays(s, a);
    ListByTaskIsRecordingOrder(Next(s, a).tables.history, s.nextTask);
    assert Serves(s.tables.users, s.requests[a.id]);
    FirstEntry(s.tables, NewRow(s, s.requests[a.id], a.at), NewEntry(s, s.requests[a.id], a.at));
    NewLogFaithful(InitialFields(s.requests[a.id].create));
  }

  lemma FaithfulSince(s: State, a: Action, later: seq<Action>)
    requires Sound(s) && Enabled(s, a) && a.CommitCreate? && LegalActions(Next(s, a), later)
    ensures var task, first, created := s.nextTask, InitialFields(s.requests[a.id].create), Next(s, a);
            && (StaysFaithful(created, later, task, first) <==> NeverOverwritten(created, later, task))
            && (NeverOverwritten(created, later, task)
                ==> HistoryFaithful(AfterActions(created, later).tables, task, first))
  {
    var first := InitialFields(s.requests[a.id].create);
    FaithfulAtCreation(s, a);
    StaysSound(s, a);
    FaithfulIffNeverOverwritten(Next(s, a), later, s.nextTask, first);
    if NeverOverwritten(Next(s, a), later, s.nextTask) {
      FaithfulAtTheEnd(Next(s, a), later, s.nextTask, first);
    }
  }

  /** For every task created in a run of overlapping requests: its history is faithful at every later moment if and
      only if no later update of it writes over columns it has not seen; and then it is faithful at the end. */
  lemma FaithfulUnlessOverwritten(same: TaskQueries.Collation, run: seq<Action>, k: nat)
    requires LegalActions(Init(same), run) && k < |run| && run[k].CommitCreate?
    ensures LegalActions(Init(same), run[..k]) && Enabled(AfterActions(Init(same), run[..k]), run[k])
    ensures var before := AfterActions(Init(same), run[..k]);
            var task, first := before.nextTask, InitialFields(before.requests[run[k].id].create);
            var created, later := Next(before, run[k]), run[k + 1..];
            && LegalActions(created, later)
            && (StaysFaithful(created, later, task, first) <==> NeverOverwritten(created, later, task))
            && (NeverOverwritten(created, later, task) ==>
                 HistoryFaithful(AfterActions(Init(same), run).tables, task, first))
  {
    ActionsSplit(Init(same), run, k);
    ReachedSound(same, run[..k]);
    FaithfulSince(AfterActions(Init(same), run[..k]), run[k], run[k + 1..]);
  }
}
