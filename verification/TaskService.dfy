/** Creating, updating and listing tasks. Calls run one at a time here; see Interleaving for overlapping ones. */
module TaskService {
  import opened Results
  import opened Entities
  import opened Patch
  import opened Store
  import opened TaskQueries
  import opened Database
  import opened Repositories
  import opened CacheKeys
  import opened TaskListCache
  import opened Coherence
  import opened Outcomes
  import AuditLog

  predicate AllReferenced(s: Tables, requests: seq<HistoryRequest>) {
    forall i :: 0 <= i < |requests| ==> EntryReferenced(s.users, s.tasks, requests[i])
  }

  /** The entries for these changes of one task by one user, in order. */
  predicate Requests(requests: seq<HistoryRequest>, task: int, actor: int, changes: seq<Change>) {
    && |requests| == |changes|
    && forall i :: 0 <= i < |requests| ==> requests[i] == HistoryRequest(task, actor, changes[i])
  }

  /** What a checked update writes meets the foreign keys. */
  lemma UpdateIsReferenced(s: Tables, cmd: UpdateTaskCommand, requests: seq<HistoryRequest>, changes: seq<Change>)
    requires WellFormed(s) && UpdateVerdict(s, cmd).None?
    requires Requests(requests, cmd.taskId, cmd.actorId, changes)
    ensures AssigneeExists(s.users, Patched(FindTask(s.tasks, cmd.taskId).value.fields, cmd))
    ensures AllReferenced(s, requests)
  {
  }

  class Service {
    const db: Server
    const uow: UnitOfWork
    const tasks: TaskRepository
    const history: TaskHistoryRepository
    const members: TeamMemberRepository
    const cache: Cache

    ghost predicate Wired() {
      uow.db == db && tasks.db == db && history.db == db && members.db == db
    }

    ghost predicate Ready()
      reads db
    {
      Wired() && db.Valid() && db.tx == None
    }

    ghost predicate Coherent()
      reads db, cache
    {
      CoherentWith(db.same, db.tables.tasks, cache.entries)
    }

    constructor (db: Server, cache: Cache)
      requires db.Valid() && db.tx == None
      ensures Ready() && this.db == db && this.cache == cache
    {
      this.db, this.cache := db, cache;
      uow := new UnitOfWork(db);
      tasks := new TaskRepository(db);
      history := new TaskHistoryRepository(db);
      members := new TeamMemberRepository(db);
    }

    // ---- Checks ----

    method EnsureMember(ctx: Context, team: int, user: int) returns (r: Result<()>)
      requires Wired() && db.Open(ctx)
      modifies db.faults
      ensures r.Ok? ==> HasMember(db.View(ctx), team, user)
      ensures r.Err? ==> r.error == Error.Database || (r.error == Forbidden && !HasMember(db.View(ctx), team, user))
      ensures db.faults.Explain(r == Err(Error.Database))
    {
      var member :- members.IsTeamMember(ctx, team, user);
      return if member then Ok(()) else Err(Forbidden);
    }

    method ResolveAssignee(ctx: Context, team: int, assigneeId: int) returns (r: Result<Option<int>>)
      requires Wired() && db.Open(ctx)
      modifies db.faults
      ensures r.Ok? ==> r.value == ResolvedId(assigneeId) && ResolveVerdict(db.View(ctx), team, assigneeId).None?
      ensures r.Err? ==> r.error == Error.Database || ResolveVerdict(db.View(ctx), team, assigneeId) == Some(r.error)
      ensures db.faults.Explain(r == Err(Error.Database))
    {
      if assigneeId <= 0 {
        return Ok(None);
      }
      var member :- members.IsTeamMember(ctx, team, assigneeId);
      return if member then Ok(Some(assigneeId)) else Err(AssigneeNotMember);
    }

    /** Drops the team's lists; the error is discarded, so all that is known is whether it worked. */
    method Invalidate(team: int) returns (ghost done: bool)
      modifies cache`entries, cache.faults
      ensures cache.faults.Explain(!done)
      ensures done ==> cache.entries == WithoutTeam(old(cache.entries), team)
      ensures !done ==> cache.entries == old(cache.entries) || cache.entries == WithoutTeam(old(cache.entries), team)
    {
      var r := cache.InvalidateTeam(team);
      done := r.Ok?;
    }

    // ---- CreateTask ----

    method CreateInTx(ctx: Context, cmd: CreateTaskCommand, assignee: Option<int>)
      returns (r: Result<Task>, ghost e: Event)
      requires Wired() && db.Valid() && ctx == InTx && db.tx.Some?
      requires CreateVerdict(db.View(ctx), cmd).None? && assignee == ResolvedId(cmd.assigneeId)
      modifies db, db.faults
      ensures db.Valid() && db.tx.Some? && db.tables == old(db.tables)
      ensures r.Ok? ==> Legal(old(db.View(ctx)), e) && e.TaskCreated? && e.create == cmd && e.task == r.value
                        && db.View(ctx) == Apply(old(db.View(ctx)), e)
      ensures r.Err? ==> r.error == Error.Database
      ensures db.faults.Explain(r.Err?)
    {
      e := Registered(0);
      var priority := if cmd.priority == "" then DEFAULT_PRIORITY else cmd.priority;
      r := tasks.Create(ctx, CreateTaskRequest(
        cmd.teamId, Fields(cmd.title, cmd.description, STATUS_TODO, priority, assignee), cmd.creatorId));
      if r.Err? {
        return;
      }
      var task := r.value;
      var change := Change(Created, None, Some(task.fields.status));
      ghost var id := db.nextHistory;
      var added := history.Add(ctx, HistoryRequest(task.id, cmd.creatorId, change));
      if added.Err? {
        return Err(added.error), e;
      }
      e := TaskCreated(cmd, task, History(id, HistoryRequest(task.id, cmd.creatorId, change), db.clock));
    }

    /** The unit of work: exactly one row and its `created` entry are added, or no table changes. */
    method DoCreate(cmd: CreateTaskCommand, assignee: Option<int>) returns (r: Result<Task>, ghost e: Event)
      requires Ready() && CreateVerdict(db.tables, cmd).None? && assignee == ResolvedId(cmd.assigneeId)
      modifies db, db.faults
      ensures Ready()
      ensures r.Ok? ==> Legal(old(db.tables), e) && e.TaskCreated? && e.create == cmd && e.task == r.value
                        && db.tables == Apply(old(db.tables), e)
      ensures r.Err? ==> r.error == Error.Database && db.tables == old(db.tables)
      ensures db.faults.Explain(r.Err?)
    {
      e := Registered(0);
      var ctx := uow.Begin();
      if ctx.Err? {
        return Err(ctx.error), e;
      }
      r, e := CreateInTx(ctx.value, cmd, assignee);
      var failure := uow.End(if r.Ok? then None else Some(r.error));
      if failure.Some? {
        return Err(failure.value), e;
      }
    }

    /** On success one legal creation and, if the invalidation worked, its effect on the cache; on any failure no
        change and the deserved error. Errors and lost invalidations that the data does not explain come from
        refused commands. */
    method CreateTask(cmd: CreateTaskCommand) returns (r: Result<Task>, ghost e: Event, ghost invalidated: bool)
      requires Ready()
      modifies db, db.faults, cache`entries, cache.faults
      ensures Ready()
      ensures r.Ok? ==> Legal(old(db.tables), e) && e.TaskCreated? && e.create == cmd && e.task == r.value
                        && db.tables == Apply(old(db.tables), e)
      ensures r.Ok? ==> && r.value.teamId == cmd.teamId && r.value.createdBy == cmd.creatorId
                        && r.value.fields.title == cmd.title && r.value.fields.description == cmd.description
                        && r.value.fields.status == "todo"
                        && r.value.fields.priority == (if cmd.priority == "" then "medium" else cmd.priority)
                        && r.value.fields.assignee == (if cmd.assigneeId > 0 then Some(cmd.assigneeId) else None)
      ensures r.Ok? ==> db.tables.tasks == old(db.tables.tasks) + [r.value]
                        && db.tables.history == old(db.tables.history) + [e.entry]
                        && e.entry.request
                           == HistoryRequest(r.value.id, cmd.creatorId, Change(Created, None, Some("todo")))
      ensures r.Ok? ==> IsMember(old(db.tables.members), cmd.teamId, cmd.creatorId)
      ensures r == Err(Forbidden) ==> !IsMember(old(db.tables.members), cmd.teamId, cmd.creatorId)
      ensures r.Ok? ==> var cleared := WithoutTeam(old(cache.entries), cmd.teamId);
                        if invalidated then cache.entries == cleared
                        else cache.entries == old(cache.entries) || cache.entries == cleared
      ensures r.Err? ==> db.tables == old(db.tables) && cache.entries == old(cache.entries)
      ensures r.Err? ==> r.error == Error.Database || CreateVerdict(old(db.tables), cmd) == Some(r.error)
      ensures db.faults.Explain(r == Err(Error.Database))
      ensures cache.faults.Explain(r.Ok? && !invalidated)
      ensures old(Coherent()) && (r.Ok? ==> invalidated) ==> Coherent()
    {
      e, invalidated := Registered(0), false;
      CreateOutcome(db.tables, cmd);
      var member := EnsureMember(Pool, cmd.teamId, cmd.creatorId);
      if member.Err? {
        return Err(member.error), e, invalidated;
      }
      var assignee := ResolveAssignee(Pool, cmd.teamId, cmd.assigneeId);
      if assignee.Err? {
        return Err(assignee.error), e, invalidated;
      }
      r, e := DoCreate(cmd, assignee.value);
      if r.Err? {
        return;
      }
      CreationContents(old(db.tables), e);
      invalidated := Invalidate(cmd.teamId);
      if old(Coherent()) {
        StaysCoherent(db.same, Node(old(db.tables), old(cache.entries)), Call(e));
      }
    }

    // ---- UpdateTask ----

    /** The task as patched and one request per column that changes. */
    method BuildPatch(ctx: Context, task: Task, cmd: UpdateTaskCommand) returns (r: Result<(Task, seq<HistoryRequest>)>)
      requires Wired() && db.Open(ctx)
      modifies db.faults
      ensures r.Ok? ==> PatchVerdict(db.View(ctx), task.teamId, cmd).None?
      ensures r.Ok? ==> var after := Patched(task.fields, cmd);
                        var log := Diff(task.fields, after);
                        r.value.0 == task.(fields := after) && Requests(r.value.1, task.id, cmd.actorId, log)
      ensures r.Err? ==> r.error == Error.Database || PatchVerdict(db.View(ctx), task.teamId, cmd) == Some(r.error)
      ensures db.faults.Explain(r == Err(Error.Database))
    {
      var patch := new TaskPatch(task, cmd.actorId);
      patch.SetTexts(cmd);
      ghost var f3, d3 := patch.state.fields, TextDiffs(task.fields, cmd);
      if cmd.status.Some? {
        if !ValidStatus(cmd.status.value) {
          return Err(InvalidStatus);
        }
        patch.SetStatus(cmd.status.value);
      }
      ghost var f4 := patch.state.fields;
      ghost var d4 := d3 + FieldDiff(Status, f3, f4);
      patch.RequestsAppend(d3, FieldDiff(Status, f3, f4));
      assert patch.entries == patch.Requests(d4);
      if cmd.assigneeId.Some? {
        var assignee :- ResolveAssignee(ctx, task.teamId, cmd.assigneeId.value);
        patch.SetAssignee(assignee);
      }
      ghost var f5 := patch.state.fields;
      patch.RequestsAppend(d4, FieldDiff(Assignee, f4, f5));
      StepsMakeDiff(task.fields, f4, f5, cmd);
      return Ok((patch.state, patch.entries));
    }

    /** Inserts the requests in order, stopping at the first failure. */
    method AddAll(ctx: Context, changes: seq<HistoryRequest>) returns (r: Result<()>, ghost rows: seq<History>)
      requires Wired() && db.Valid() && ctx == InTx && db.tx.Some?
      modifies db, db.faults
      ensures db.Valid() && db.tx.Some? && db.tables == old(db.tables)
      ensures db.View(ctx) == old(db.View(ctx)).(history := old(db.View(ctx)).history + rows)
      ensures |rows| <= |changes| && forall i :: 0 <= i < |rows| ==> rows[i].request == changes[i]
      ensures r.Ok? ==> |rows| == |changes|
      ensures r.Err? ==> r.error == Error.Database
      ensures db.faults.Explain(r.Err? && AllReferenced(old(db.View(ctx)), changes))
    {
      ghost var before := db.View(ctx);
      rows := [];
      assert before.history + rows == before.history;
      for i := 0 to |changes|
        invariant db.Valid() && db.tx.Some? && db.tables == old(db.tables)
        invariant db.faults.Explain(false)
        invariant db.View(ctx) == before.(history := before.history + rows)
        invariant |rows| == i && forall j :: 0 <= j < i ==> rows[j].request == changes[j]
      {
        ghost var id := db.nextHistory;
        assert AllReferenced(before, changes) ==> EntryReferenced(before.users, before.tasks, changes[i]);
        var added := history.Add(ctx, changes[i]);
        if added.Err? {
          return added, rows;
        }
        rows := rows + [History(id, changes[i], db.clock)];
        assert db.View(ctx).history == before.history + rows;
      }
      return Ok(()), rows;
    }

    /** Writes the row and its entries and reads the row back. */
    method WriteInTx(ctx: Context, after: Task, changes: seq<HistoryRequest>)
      returns (r: Result<Task>, ghost at: int, ghost rows: seq<History>)
      requires Wired() && db.Valid() && ctx == InTx && db.tx.Some?
      requires FindTask(db.View(ctx).tasks, after.id).Some?
               && FindTask(db.View(ctx).tasks, after.id).value.fields != after.fields
      modifies db, db.faults
      ensures db.Valid() && db.tx.Some? && db.tables == old(db.tables)
      ensures var before := old(db.View(ctx));
              r.Ok? ==> && db.View(ctx) == before.(tasks := UpdateRow(before.tasks, after.id, after.fields, at),
                                                   history := before.history + rows)
                        && |rows| == |changes| && (forall i :: 0 <= i < |rows| ==> rows[i].request == changes[i])
                        && FindTask(db.View(ctx).tasks, after.id) == Some(r.value)
      ensures r.Err? ==> r.error == Error.Database
      ensures var before := old(db.View(ctx));
              db.faults.Explain(r.Err? && AssigneeExists(before.users, after.fields) && AllReferenced(before, changes))
    {
      ghost var before := db.View(ctx);
      rows := [];
      var wrote := tasks.Update(ctx, after.id, after.fields);
      at := db.clock;
      if wrote.Err? {
        return Err(wrote.error), at, rows;
      }
      forall id ensures FindTask(db.View(ctx).tasks, id).Some? <==> FindTask(before.tasks, id).Some? {
        FindTaskUpdated(before.tasks, after.id, after.fields, at, id);
      }
      wrote, rows := AddAll(ctx, changes);
      if wrote.Err? {
        return Err(wrote.error), at, rows;
      }
      r := tasks.GetByID(ctx, after.id);
    }

    /** Without changes the task is returned as it is; else it is written. */
    method WriteIfChanged(ctx: Context, cmd: UpdateTaskCommand, task: Task, after: Task, changes: seq<HistoryRequest>)
      returns (r: Result<Task>, ghost e: Event)
      requires Wired() && db.Valid() && ctx == InTx && db.tx.Some?
      requires FindTask(db.View(ctx).tasks, cmd.taskId) == Some(task) && UpdateVerdict(db.View(ctx), cmd).None?
      requires after == task.(fields := Patched(task.fields, cmd))
      requires Requests(changes, task.id, cmd.actorId, Diff(task.fields, after.fields))
      modifies db, db.faults
      ensures db.Valid() && db.tx.Some? && db.tables == old(db.tables)
      ensures r.Ok? ==> Legal(old(db.View(ctx)), e) && e.TaskUpdated? && e.update == cmd
                        && db.View(ctx) == Apply(old(db.View(ctx)), e)
                        && FindTask(db.View(ctx).tasks, cmd.taskId) == Some(r.value)
      ensures r.Err? ==> r.error == Error.Database
      ensures db.faults.Explain(r.Err?)
    {
      ghost var before := db.View(ctx);
      DiffIsMinimal(task.fields, after.fields);
      if |changes| == 0 {
        AuditLog.UpdatedAlready(before, cmd.taskId, after.fields, db.clock);
        assert before.history + [] == before.history;
        return Ok(task), TaskUpdated(cmd, db.clock, []);
      }
      UpdateIsReferenced(before, cmd, changes, Diff(task.fields, after.fields));
      ghost var at, rows;
      r, at, rows := WriteInTx(ctx, after, changes);
      e := TaskUpdated(cmd, at, rows);
      if r.Ok? {
        UpdateEffect(before, cmd, at, rows);
      }
    }

    method UpdateInTx(ctx: Context, cmd: UpdateTaskCommand) returns (r: Result<Task>, team: int, ghost e: Event)
      requires Wired() && db.Valid() && ctx == InTx && db.tx.Some?
      modifies db, db.faults
      ensures db.Valid() && db.tx.Some? && db.tables == old(db.tables)
      ensures r.Ok? ==> Legal(old(db.View(ctx)), e) && e.TaskUpdated? && e.update == cmd
                        && db.View(ctx) == Apply(old(db.View(ctx)), e)
                        && FindTask(db.View(ctx).tasks, cmd.taskId) == Some(r.value)
                        && team == FindTask(old(db.View(ctx)).tasks, cmd.taskId).value.teamId
      ensures r.Err? ==> r.error == Error.Database || UpdateVerdict(old(db.View(ctx)), cmd) == Some(r.error)
      ensures db.faults.Explain(r == Err(Error.Database))
    {
      team, e := 0, Registered(0);
      r := tasks.GetByID(ctx, cmd.taskId);
      if r.Err? {
        return;
      }
      var task := r.value;
      team := task.teamId;
      var member := EnsureMember(ctx, task.teamId, cmd.actorId);
      if member.Err? {
        return Err(member.error), team, e;
      }
      var patched := BuildPatch(ctx, task, cmd);
      if patched.Err? {
        return Err(patched.error), team, e;
      }
      var (after, changes) := patched.value;
      r, e := WriteIfChanged(ctx, cmd, task, after, changes);
    }

    /** The unit of work: the row and its log change as one legal update, or no table changes. */
    method DoUpdate(cmd: UpdateTaskCommand) returns (r: Result<Task>, team: int, ghost e: Event)
      requires Ready()
      modifies db, db.faults
      ensures Ready()
      ensures r.Ok? ==> Legal(old(db.tables), e) && e.TaskUpdated? && e.update == cmd
                        && db.tables == Apply(old(db.tables), e)
                        && FindTask(db.tables.tasks, cmd.taskId) == Some(r.value)
                        && team == FindTask(old(db.tables).tasks, cmd.taskId).value.teamId
      ensures r.Err? ==> db.tables == old(db.tables)
      ensures r.Err? ==> r.error == Error.Database || UpdateVerdict(old(db.tables), cmd) == Some(r.error)
      ensures db.faults.Explain(r == Err(Error.Database))
    {
      team, e := 0, Registered(0);
      var ctx := uow.Begin();
      if ctx.Err? {
        return Err(ctx.error), team, e;
      }
      r, team, e := UpdateInTx(ctx.value, cmd);
      var failure := uow.End(if r.Ok? then None else Some(r.error));
      if failure.Some? {
        return Err(failure.value), team, e;
      }
    }

    /** On success one legal update and, if the invalidation worked, its effect on the cache; on any failure no
        change and the deserved error: an existing task is never reported missing. Errors and lost invalidations
        that the data does not explain come from refused commands. */
    method UpdateTask(cmd: UpdateTaskCommand) returns (r: Result<Task>, ghost e: Event, ghost invalidated: bool)
      requires Ready()
      modifies db, db.faults, cache`entries, cache.faults
      ensures Ready()
      ensures r.Ok? ==> Legal(old(db.tables), e) && e.TaskUpdated? && e.update == cmd
                        && db.tables == Apply(old(db.tables), e)
                        && FindTask(db.tables.tasks, cmd.taskId) == Some(r.value)
      ensures r.Ok? ==> var b := FindTask(old(db.tables).tasks, cmd.taskId).value.fields;
                        var a := r.value.fields;
                        && a.title == (if cmd.title.Some? then cmd.title.value else b.title)
                        && a.description == (if cmd.description.Some? then cmd.description.value else b.description)
                        && a.status == (if cmd.status.Some? then cmd.status.value else b.status)
                        && a.priority == (if cmd.priority.Some? then cmd.priority.value else b.priority)
                        && a.assignee == (if cmd.assigneeId.None? then b.assignee
                                          else if cmd.assigneeId.value > 0 then Some(cmd.assigneeId.value) else None)
      ensures r.Err? && r.error != Error.Database ==>
                forall t :: t in old(db.tables.tasks) && t.id == cmd.taskId ==>
                  (r.error == InvalidStatus <==>
                     && IsMember(old(db.tables.members), t.teamId, cmd.actorId)
                     && cmd.status.Some? && cmd.status.value !in {"todo", "in_progress", "done"})
      ensures r.Ok? ==> cmd.status.Some? ==> cmd.status.value in {"todo", "in_progress", "done"}
      ensures r.Ok? ==>
              var cleared := WithoutTeam(old(cache.entries), FindTask(old(db.tables).tasks, cmd.taskId).value.teamId);
                        if invalidated then cache.entries == cleared
                        else cache.entries == old(cache.entries) || cache.entries == cleared
      ensures r.Err? ==> db.tables == old(db.tables) && cache.entries == old(cache.entries)
      ensures r.Err? ==> r.error == Error.Database || UpdateVerdict(old(db.tables), cmd) == Some(r.error)
      ensures db.faults.Explain(r == Err(Error.Database))
      ensures cache.faults.Explain(r.Ok? && !invalidated)
      ensures old(Coherent()) && (r.Ok? ==> invalidated) ==> Coherent()
    {
      e, invalidated := Registered(0), false;
      UpdateOutcome(db.tables, cmd);
      var team;
      r, team, e := DoUpdate(cmd);
      if r.Err? {
        return;
      }
      UpdatedColumns(old(db.tables), e, FindTask(old(db.tables).tasks, cmd.taskId).value, r.value);
      invalidated := Invalidate(team);
      if old(Coherent()) {
        StaysCoherent(db.same, Node(old(db.tables), old(cache.entries)), Call(e));
      }
    }

    // ---- Reads ----

    /** Reads the list from the database and caches it. */
    method Fetch(key: string, f: ListFilter) returns (r: Result<seq<Task>>)
      requires Ready()
      modifies db.faults, cache`entries, cache.faults
      ensures r.Ok? ==> r.value == Listing(db.same, db.tables.tasks, f) && f.limit >= 0 && f.offset >= 0
                        && (cache.entries == old(cache.entries) || cache.entries == old(cache.entries)[key := r.value])
      ensures r.Err? ==> r.error == Error.Database && cache.entries == old(cache.entries)
      ensures db.faults.Explain(r.Err? && f.limit >= 0 && f.offset >= 0)
      ensures cache.faults.Explain(r.Ok? && cache.entries != old(cache.entries)[key := r.value])
    {
      var rows :- tasks.List(Pool, f);
      var _ := cache.Set(key, rows);
      return Ok(rows);
    }

    /** With a coherent cache a list is the database's list, hit or miss, and the cache stays coherent. Where the
        cache refuses nothing, the call is the read-through step. */
    method ListTasks(actor: int, f: ListFilter) returns (r: Result<seq<Task>>)
      requires Ready()
      modifies db.faults, cache`entries, cache.faults
      ensures r.Ok? ==> HasMember(db.tables, f.teamId, actor)
      ensures r.Ok? ==> r.value == Listing(db.same, db.tables.tasks, f)
                        || (TeamTasksKey(f) in old(cache.entries) && r.value == old(cache.entries)[TeamTasksKey(f)])
      ensures r.Err? ==> cache.entries == old(cache.entries)
      ensures r.Err? ==> r.error == Error.Database || (r.error == Forbidden && !HasMember(db.tables, f.teamId, actor))
      ensures cache.entries == old(cache.entries)
              || cache.entries == old(cache.entries)[TeamTasksKey(f) := Listing(db.same, db.tables.tasks, f)]
      ensures db.faults.Explain(r == Err(Error.Database) && f.limit >= 0 && f.offset >= 0)
      ensures var before := Node(old(db.tables), old(cache.entries));
              cache.faults.Explain(r.Ok? && !(r.value == Answer(db.same, before, f)
                                              && Node(db.tables, cache.entries) == Do(db.same, before, Ask(f))))
      ensures old(Coherent()) ==> Coherent() && (r.Ok? ==> r.value == Listing(db.same, db.tables.tasks, f))
      ensures old(Coherent()) && r.Ok? ==> forall i, j :: 0 <= i < j < |r.value| ==> r.value[i].id > r.value[j].id
    {
      ListingIsNewestFirst(db.same, db.tables.tasks, f);
      var member :- members.IsTeamMember(Pool, f.teamId, actor);
      if !member {
        return Err(Forbidden);
      }
      var key := TeamTasksKey(f);
      var cached := cache.Get(key);
      if cached.Ok? && cached.value.Some? {
        return Ok(cached.value.value);
      }
      if old(Coherent()) {
        CoherentAfterSet(db.same, db.tables.tasks, old(cache.entries), f);
      }
      r := Fetch(key, f);
    }

    method GetHistory(actor: int, taskId: int) returns (r: Result<seq<History>>)
      requires Ready()
      modifies db.faults
      ensures r.Ok? ==> FindTask(db.tables.tasks, taskId).Some?
                        && HasMember(db.tables, FindTask(db.tables.tasks, taskId).value.teamId, actor)
                        && r.value == AuditLog.ListByTask(db.tables.history, taskId)
      ensures r.Err? ==> r.error == Error.Database
                         || (r.error == NotFound && FindTask(db.tables.tasks, taskId).None?)
                         || (r.error == Forbidden && FindTask(db.tables.tasks, taskId).Some?
                             && !HasMember(db.tables, FindTask(db.tables.tasks, taskId).value.teamId, actor))
      ensures db.faults.Explain(r == Err(Error.Database))
    {
      var task :- tasks.GetByID(Pool, taskId);
      var member :- members.IsTeamMember(Pool, task.teamId, actor);
      if !member {
        return Err(Forbidden);
      }
      r := history.ListByTask(Pool, taskId);
    }
  }
}
