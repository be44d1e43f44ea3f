/** Overlapping requests in which no update overwrites a row that changed after it was read amount to the same
    calls made one after the other; and that condition on updates is exact. */
module Serializability {
  import opened Results
  import opened Entities
  import opened Patch
  import opened Store
  import opened Interleaving
  import opened Membership
  import opened Invitations
  import opened OverlappingLog
  import TaskQueries

  // ---- A request works on its own command ----

  predicate Serves(users: set<int>, r: Request) {
    match r
    case AssigneeChecked(cmd, assignee) => assignee == ResolvedId(cmd.assigneeId)
    case TaskRead(cmd, read) => read.id == cmd.taskId
    case ActorChecked(cmd, read) => read.id == cmd.taskId
    case PatchBuilt(cmd, read, after) =>
      && read.id == cmd.taskId && after == Patched(read.fields, cmd)
      && (cmd.status.Some? ==> ValidStatus(cmd.status.value))
    case InviteeFound(cmd) => cmd.inviteeId in users
    case _ => true
  }

  ghost predicate Serving(s: State) {
    forall id :: id in s.requests ==> Serves(s.tables.users, s.requests[id])
  }

  lemma StaysServing(s: State, a: Action)
    requires Serving(s) && Enabled(s, a)
    ensures Serving(Next(s, a))
  {
    forall id | id in Next(s, a).requests ensures Serves(Next(s, a).tables.users, Next(s, a).requests[id]) {
      if id in s.requests {
        assert Serves(s.tables.users, s.requests[id]);
      }
    }
  }

  /** All that is kept by every step. */
  ghost predicate Sound(s: State) {
    Consistent(s) && Undoable(s) && Rooted(s) && Serving(s)
  }

  lemma StaysSound(s: State, a: Action)
    requires Sound(s) && Enabled(s, a)
    ensures Sound(Next(s, a))
  {
    StaysConsistent(s, a);
    StaysUndoable(s, a);
    StaysRooted(s, a);
    StaysServing(s, a);
  }

  // ---- The call that a step amounts to ----

  /** The committed call whose effect appears at this step; most steps have none. */
  function EventOf(s: State, a: Action): Option<Event>
    requires Enabled(s, a)
  {
    match a
    case Register(user) => Some(Registered(user))
    case CreateTeam(name, owner) => Some(TeamCreated(Team(s.nextTeam, name, owner)))
    case AddInvitee(id) => Some(Invited(s.requests[id].invite))
    case CommitCreate(id, at) =>
      var r := s.requests[id];
      Some(TaskCreated(r.create, NewRow(s, r, at), NewEntry(s, r, at)))
    case CommitUpdate(id, at) =>
      var r := s.requests[id];
      if Diff(r.read.fields, r.after) == [] then None else Some(TaskUpdated(r.update, at, NewRows(s, r, at)))
    case _ => None
  }

  /** An update that writes finds the columns as it has read them. */
  predicate SeesCurrent(s: State, a: Action)
    requires Enabled(s, a)
  {
    a.CommitUpdate? ==>
      var r := s.requests[a.id];
      Diff(r.read.fields, r.after) == []
      || (FindTask(s.tables.tasks, r.read.id).Some?
          && FindTask(s.tables.tasks, r.read.id).value.fields == r.read.fields)
  }

  /** The step does to the tables what the serial call does. */
  predicate IsCall(s: State, a: Action)
    requires Enabled(s, a)
  {
    match EventOf(s, a)
    case None => Next(s, a).tables == s.tables
    case Some(e) => Legal(s.tables, e) && Apply(s.tables, e) == Next(s, a).tables
  }

  lemma TeamStepIsCall(s: State, a: Action)
    requires Sound(s) && Enabled(s, a) && (a.CreateTeam? || a.AddInvitee?)
    ensures IsCall(s, a)
  {
    if a.CreateTeam? {
      assert !HasTeam(s.tables, s.nextTeam);
    } else {
      assert RequestOk(s.tables, s.requests[a.id]);
      assert Serves(s.tables.users, s.requests[a.id]);
    }
  }

  lemma CreationIsCall(s: State, id: nat, at: int)
    requires Sound(s) && Enabled(s, CommitCreate(id, at))
    ensures IsCall(s, CommitCreate(id, at))
  {
    assert RequestOk(s.tables, s.requests[id]);
    assert Serves(s.tables.users, s.requests[id]);
    OrderedStays(s, CommitCreate(id, at));
  }

  /** What the update checked still holds when it commits. */
  lemma UpdateAllowed(s: State, id: nat)
    requires Sound(s) && id in s.requests && s.requests[id].PatchBuilt?
    ensures UpdateVerdict(s.tables, s.requests[id].update).None?
  {
    assert RequestOk(s.tables, s.requests[id]);
    assert Serves(s.tables.users, s.requests[id]);
  }

  lemma RowsLog(first: int, task: int, actor: int, changes: seq<Change>, at: int)
    ensures Logs(LogRows(first, task, actor, changes, at), task, actor, changes)
  {
  }

  lemma UpdateIsCall(s: State, id: nat, at: int)
    requires Sound(s) && Enabled(s, CommitUpdate(id, at)) && SeesCurrent(s, CommitUpdate(id, at))
    ensures IsCall(s, CommitUpdate(id, at))
  {
    var r := s.requests[id];
    if Diff(r.read.fields, r.after) != [] {
      UpdateAllowed(s, id);
      assert Serves(s.tables.users, r);
      RowsLog(s.nextHistory, r.read.id, r.update.actorId, Diff(r.read.fields, r.after), at);
      OrderedStays(s, CommitUpdate(id, at));
      UpdateEffect(s.tables, r.update, at, NewRows(s, r, at));
    }
  }

  /** The same rows cannot log what leads from two different versions to one. */
  lemma LogTellsStart(rows: seq<History>, task: int, actor: int, a: Fields, b: Fields, after: Fields)
    requires Logs(rows, task, actor, Diff(a, after)) && Logs(rows, task, actor, Diff(b, after))
    ensures a == b
  {
    forall i | 0 <= i < |rows| ensures Diff(a, after)[i] == Diff(b, after)[i] {
      assert rows[i].request == HistoryRequest(task, actor, Diff(a, after)[i]);
    }
    assert Diff(a, after) == Diff(b, after);
    UndoDiff(a, after);
    UndoDiff(b, after);
  }

  lemma SameEffectSameStart(s: State, r: Request, at: int)
    requires r.PatchBuilt? && r.read.id == r.update.taskId && r.after == Patched(r.read.fields, r.update)
    requires UpdateVerdict(s.tables, r.update).None? && Ordered(s.tables.history + NewRows(s, r, at))
    requires var e := TaskUpdated(r.update, at, NewRows(s, r, at));
             Legal(s.tables, e) && Apply(s.tables, e).tasks == UpdateRow(s.tables.tasks, r.read.id, r.after, at)
    ensures FindTask(s.tables.tasks, r.read.id).value.fields == r.read.fields
  {
    var current := FindTask(s.tables.tasks, r.read.id).value.fields;
    UpdateEffect(s.tables, r.update, at, NewRows(s, r, at));
    FindTaskUpdated(s.tables.tasks, r.read.id, r.after, at, r.read.id);
    FindTaskUpdated(s.tables.tasks, r.read.id, Patched(current, r.update), at, r.read.id);
    RowsLog(s.nextHistory, r.read.id, r.update.actorId, Diff(r.read.fields, r.after), at);
    LogTellsStart(NewRows(s, r, at), r.read.id, r.update.actorId, r.read.fields, current, r.after);
  }

  lemma CallSeesCurrent(s: State, id: nat, at: int)
    requires Sound(s) && Enabled(s, CommitUpdate(id, at)) && IsCall(s, CommitUpdate(id, at))
    ensures SeesCurrent(s, CommitUpdate(id, at))
  {
    var r := s.requests[id];
    if Diff(r.read.fields, r.after) != [] {
      UpdateAllowed(s, id);
      assert Serves(s.tables.users, r);
      OrderedStays(s, CommitUpdate(id, at));
      SameEffectSameStart(s, r, at);
    }
  }

  /** An update is the serial call it stands for exactly when it sees the current columns or writes nothing. */
  lemma UpdateIsCallIff(s: State, id: nat, at: int)
    requires Sound(s) && Enabled(s, CommitUpdate(id, at))
    ensures IsCall(s, CommitUpdate(id, at)) <==> SeesCurrent(s, CommitUpdate(id, at))
  {
    if SeesCurrent(s, CommitUpdate(id, at)) {
      UpdateIsCall(s, id, at);
    }
    if IsCall(s, CommitUpdate(id, at)) {
      CallSeesCurrent(s, id, at);
    }
  }

  lemma StepIsCall(s: State, a: Action)
    requires Sound(s) && Enabled(s, a) && SeesCurrent(s, a)
    ensures IsCall(s, a)
  {
    match a
    case CreateTeam(_, _) => TeamStepIsCall(s, a);
    case AddInvitee(_) => TeamStepIsCall(s, a);
    case CommitCreate(id, at) => CreationIsCall(s, id, at);
    case CommitUpdate(id, at) => UpdateIsCall(s, id, at);
    case _ =>
  }

  // ---- Runs ----

  predicate AllSeeCurrent(s: State, run: seq<Action>)
    requires LegalActions(s, run)
    decreases |run|
  {
    run != [] ==> SeesCurrent(s, run[0]) && AllSeeCurrent(Next(s, run[0]), run[1..])
  }

  /** The calls of a run, in the order of their commits. */
  function Events(s: State, run: seq<Action>): seq<Event>
    requires LegalActions(s, run)
    decreases |run|
  {
    if run == [] then []
    else
      (match EventOf(s, run[0]) case None => [] case Some(e) => [e]) + Events(Next(s, run[0]), run[1..])
  }

  /** Overlapping requests leave the tables that their calls, made one after the other in the order of their
      commits, leave as well. */
  lemma {:induction false} OverlapIsSerial(s: State, run: seq<Action>)
    requires Sound(s) && LegalActions(s, run) && AllSeeCurrent(s, run)
    ensures LegalRun(s.tables, Events(s, run))
    ensures After(s.tables, Events(s, run)) == AfterActions(s, run).tables
    decreases |run|
  {
    if run != [] {
      StepIsCall(s, run[0]);
      StaysSound(s, run[0]);
      var rest := Events(Next(s, run[0]), run[1..]);
      OverlapIsSerial(Next(s, run[0]), run[1..]);
      match EventOf(s, run[0])
      case None => assert Events(s, run) == rest;
      case Some(e) => assert Events(s, run)[1..] == rest;
    }
  }

  lemma {:induction false} AlwaysSound(s: State, run: seq<Action>)
    requires Sound(s) && LegalActions(s, run)
    ensures Sound(AfterActions(s, run))
    decreases |run|
  {
    if run != [] {
      StaysSound(s, run[0]);
      AlwaysSound(Next(s, run[0]), run[1..]);
    }
  }

  lemma ReachedSound(same: TaskQueries.Collation, run: seq<Action>)
    requires LegalActions(Init(same), run)
    ensures Sound(AfterActions(Init(same), run))
  {
    assert Sound(Init(same));
    AlwaysSound(Init(same), run);
  }
}
