/** The repositories: each method runs its statements on the executor of its context. */
module Repositories {
  import opened Results
  import opened Entities
  import opened Store
  import opened TaskQueries
  import opened Database
  import opened AuditLog

  datatype CreateTaskRequest = CreateTaskRequest(
    teamId: int,
    fields: Fields,
    createdBy: int)

  function NewRow(id: int, request: CreateTaskRequest, now: int): Task {
    Task(id, request.teamId, request.fields, request.createdBy, now, now)
  }

  predicate Referenced(s: Tables, request: CreateTaskRequest) {
    TaskReferenced(s.users, s.teams, NewRow(0, request, 0))
  }

  class TaskRepository {
    const db: Server

    constructor (db: Server)
      ensures this.db == db
    {
      this.db := db;
    }

    method GetByID(ctx: Context, id: int) returns (r: Result<Task>)
      requires db.Open(ctx)
      modifies db.faults
      ensures r.Ok? ==> FindTask(db.View(ctx).tasks, id) == Some(r.value)
      ensures r == Err(NotFound) ==> FindTask(db.View(ctx).tasks, id).None?
      ensures r.Err? ==> r.error == NotFound || r.error == Error.Database
      ensures db.faults.Explain(r == Err(Error.Database))
    {
      var broken := db.faults.Send();
      if broken {
        return Err(Error.Database);
      }
      match FindTask(db.View(ctx).tasks, id)
      case None => return Err(NotFound);
      case Some(row) => return Ok(row);
    }

    /** Foreign keys refuse unknown teams and users; the id comes from the counter. */
    method InsertRow(ctx: Context, request: CreateTaskRequest) returns (r: Result<int>)
      requires db.Valid() && db.Open(ctx)
      modifies db, db.faults
      ensures db.Valid() && db.Open(ctx) && db.Advanced() && db.nextHistory == old(db.nextHistory)
      ensures var before := old(db.View(ctx));
              var row := NewRow(old(db.nextTask), request, db.clock);
              if r.Ok? then r.value == row.id && FindTask(before.tasks, row.id).None?
                            && db.Wrote(ctx, before.(tasks := before.tasks + [row]))
              else r.error == Error.Database && db.Wrote(ctx, before)
      ensures db.faults.Explain(r.Err? && Referenced(old(db.View(ctx)), request))
    {
      var s := db.View(ctx);
      var broken := db.faults.Send();
      if broken || !Referenced(s, request) {
        return Err(Error.Database);
      }
      db.Tick();
      assert FindTask(s.tasks, db.nextTask).None?;
      var id := db.TaskId();
      var row := NewRow(id, request, db.clock);
      InsertFits(s, row);
      db.Store(ctx, s.(tasks := s.tasks + [row]));
      return Ok(row.id);
    }

    /** INSERT, LastInsertId, and the row read back. */
    method Create(ctx: Context, request: CreateTaskRequest) returns (r: Result<Task>)
      requires db.Valid() && db.Open(ctx)
      modifies db, db.faults
      ensures db.Valid() && db.Open(ctx) && db.Advanced() && db.nextHistory == old(db.nextHistory)
      ensures var before := old(db.View(ctx));
              var row := NewRow(old(db.nextTask), request, db.clock);
              if r.Ok? then r.value == row && FindTask(before.tasks, row.id).None?
                            && db.Wrote(ctx, before.(tasks := before.tasks + [row]))
              else r.error == Error.Database
                   && (db.Wrote(ctx, before) || db.Wrote(ctx, before.(tasks := before.tasks + [row])))
      ensures r.Ok? ==> r.value.createdAt == db.clock && r.value.updatedAt == db.clock
      ensures db.faults.Explain(r.Err? && Referenced(old(db.View(ctx)), request))
    {
      var id :- InsertRow(ctx, request);
      ghost var before := old(db.View(ctx));
      FindTaskAppend(before.tasks, NewRow(id, request, db.clock), id);
      var broken := db.faults.Send();
      if broken {
        return Err(Error.Database);
      }
      r := GetByID(ctx, id);
    }

    method List(ctx: Context, f: ListFilter) returns (r: Result<seq<Task>>)
      requires db.Open(ctx)
      modifies db.faults
      ensures r.Ok? ==> r.value == Listing(db.same, db.View(ctx).tasks, f) && f.limit >= 0 && f.offset >= 0
      ensures r.Ok? && UniqueTasks(db.View(ctx).tasks) ==>
                forall i, j :: 0 <= i < j < |r.value| ==> r.value[i].id > r.value[j].id
      ensures r.Err? ==> r.error == Error.Database
      ensures db.faults.Explain(r.Err? && f.limit >= 0 && f.offset >= 0)
    {
      var query, args := BuildListQuery(f);
      var broken := db.faults.Send();
      if broken {
        return Err(Error.Database);
      }
      match Execute(db.same, query, args, db.View(ctx).tasks)
      case None => return Err(Error.Database);
      case Some(tasks) =>
        if UniqueTasks(db.View(ctx).tasks) {
          ListingIsNewestFirst(db.same, db.View(ctx).tasks, f);
        }
        return Ok(tasks);
    }

    method ExecUpdate(ctx: Context, id: int, fields: Fields) returns (r: Result<nat>)
      requires db.Valid() && db.Open(ctx)
      modifies db, db.faults
      ensures db.Valid() && db.Open(ctx) && db.Advanced() && db.nextHistory == old(db.nextHistory)
      ensures var before := old(db.View(ctx));
              if r.Ok? then r.value == ChangedRows(before.tasks, id, fields)
                            && db.Wrote(ctx, before.(tasks := UpdateRow(before.tasks, id, fields, db.clock)))
              else r.error == Error.Database && db.Wrote(ctx, before)
      ensures db.faults.Explain(r.Err? && AssigneeExists(old(db.View(ctx)).users, fields))
    {
      var s := db.View(ctx);
      var broken := db.faults.Send();
      if broken || !AssigneeExists(s.users, fields) {
        return Err(Error.Database);
      }
      db.Tick();
      UpdateFits(s, id, fields, db.clock);
      KeysAfterUpdate(s.tasks, id, fields, db.clock, db.nextTask);
      db.Store(ctx, s.(tasks := UpdateRow(s.tasks, id, fields, db.clock)));
      return Ok(ChangedRows(s.tasks, id, fields));
    }

    /** UPDATE of the five columns; no changed row is reported as a missing one. */
    method Update(ctx: Context, id: int, fields: Fields) returns (r: Result<()>)
      requires db.Valid() && db.Open(ctx)
      modifies db, db.faults
      ensures db.Valid() && db.Open(ctx) && db.Advanced() && db.nextHistory == old(db.nextHistory)
      ensures var before := old(db.View(ctx));
              var written := before.(tasks := UpdateRow(before.tasks, id, fields, db.clock));
              var changes := FindTask(before.tasks, id).Some? && FindTask(before.tasks, id).value.fields != fields;
              && (r.Ok? ==> db.Wrote(ctx, written) && changes)
              && (r.Err? ==> db.Wrote(ctx, before) || db.Wrote(ctx, written))
              && (r == Err(NotFound) ==> !changes)
              && (r.Err? ==> r.error == NotFound || r.error == Error.Database)
              && db.faults.Explain(r == Err(Error.Database) && AssigneeExists(before.users, fields))
    {
      ghost var before := db.View(ctx);
      NoRowChangedIff(before.tasks, id, fields);
      var rows :- ExecUpdate(ctx, id, fields);
      var broken := db.faults.Send();
      if broken {
        return Err(Error.Database);
      }
      return if rows == 0 then Err(NotFound) else Ok(());
    }
  }

  class TaskHistoryRepository {
    const db: Server

    constructor (db: Server)
      ensures this.db == db
    {
      this.db := db;
    }

    method Add(ctx: Context, request: HistoryRequest) returns (r: Result<()>)
      requires db.Valid() && db.Open(ctx)
      modifies db, db.faults
      ensures db.Valid() && db.Open(ctx) && db.Advanced()
      ensures var before := old(db.View(ctx));
              var row := History(old(db.nextHistory), request, db.clock);
              if r.Ok? then db.Wrote(ctx, before.(history := before.history + [row]))
              else r.error == Error.Database && db.Wrote(ctx, before)
      ensures var before := old(db.View(ctx));
              db.faults.Explain(r.Err? && EntryReferenced(before.users, before.tasks, request))
    {
      var s := db.View(ctx);
      var broken := db.faults.Send();
      if broken || !EntryReferenced(s.users, s.tasks, request) {
        return Err(Error.Database);
      }
      db.Tick();
      assert Below(s, db.nextTeam, db.nextTask, db.nextHistory, db.clock);
      var id := db.HistoryId();
      var row := History(id, request, db.clock);
      LogFits(s, row);
      db.Store(ctx, s.(history := s.history + [row]));
      return Ok(());
    }

    method ListByTask(ctx: Context, id: int) returns (r: Result<seq<History>>)
      requires db.Open(ctx)
      modifies db.faults
      ensures r.Ok? ==> r.value == AuditLog.ListByTask(db.View(ctx).history, id)
      ensures r.Err? ==> r.error == Error.Database
      ensures db.faults.Explain(r.Err?)
    {
      var broken := db.faults.Send();
      if broken {
        return Err(Error.Database);
      }
      return Ok(AuditLog.ListByTask(db.View(ctx).history, id));
    }
  }

  class TeamMemberRepository {
    const db: Server

    constructor (db: Server)
      ensures this.db == db
    {
      this.db := db;
    }

    /** The primary key refuses a second row for the pair; foreign keys refuse unknown teams and users. */
    method Add(ctx: Context, row: TeamMember) returns (r: Result<()>)
      requires db.Valid() && db.Open(ctx)
      modifies db`tables, db`tx, db.faults
      ensures db.Valid() && db.Open(ctx)
      ensures var before := old(db.View(ctx));
              && (r.Ok? ==> !HasMember(before, row.teamId, row.userId) && row.userId in before.users
                            && db.Wrote(ctx, before.(members := before.members + [row])))
              && (r == Err(AlreadyExists) ==> HasMember(before, row.teamId, row.userId))
              && (r.Err? ==> db.Wrote(ctx, before) && (r.error == AlreadyExists || r.error == Error.Database))
              && db.faults.Explain(r == Err(Error.Database)
                                        && HasTeam(before, row.teamId) && row.userId in before.users)
    {
      var s := db.View(ctx);
      var broken := db.faults.Send();
      if broken {
        return Err(Error.Database);
      }
      if HasMember(s, row.teamId, row.userId) {
        return Err(AlreadyExists);
      }
      if !HasTeam(s, row.teamId) || row.userId !in s.users {
        return Err(Error.Database);
      }
      MemberFits(s, row);
      db.Store(ctx, s.(members := s.members + [row]));
      return Ok(());
    }

    method Get(ctx: Context, team: int, user: int) returns (r: Result<TeamMember>)
      requires db.Open(ctx)
      modifies db.faults
      ensures r.Ok? ==> FindMember(db.View(ctx).members, team, user) == Some(r.value)
      ensures r == Err(NotFound) ==> !HasMember(db.View(ctx), team, user)
      ensures r.Err? ==> r.error == NotFound || r.error == Error.Database
      ensures db.faults.Explain(r == Err(Error.Database))
    {
      var broken := db.faults.Send();
      if broken {
        return Err(Error.Database);
      }
      match FindMember(db.View(ctx).members, team, user)
      case None => return Err(NotFound);
      case Some(m) => return Ok(m);
    }

    /** `isTeamMember`: a missing row is an answer, any other error is passed on. */
    method IsTeamMember(ctx: Context, team: int, user: int) returns (r: Result<bool>)
      requires db.Open(ctx)
      modifies db.faults
      ensures r.Ok? ==> r.value == HasMember(db.View(ctx), team, user)
      ensures r.Err? ==> r.error == Error.Database
      ensures db.faults.Explain(r.Err?)
    {
      var m := Get(ctx, team, user);
      match m
      case Ok(_) => return Ok(true);
      case Err(e) => return if e == NotFound then Ok(false) else Err(e);
    }
  }

  class TeamRepository {
    const db: Server

    constructor (db: Server)
      ensures this.db == db
    {
      this.db := db;
    }

    method Create(ctx: Context, name: string, createdBy: int) returns (r: Result<Team>)
      requires db.Valid() && db.Open(ctx)
      modifies db, db.faults
      ensures db.Valid() && db.Open(ctx) && db.Advanced()
      ensures var before := old(db.View(ctx));
              var row := Team(old(db.nextTeam), name, createdBy);
              if r.Ok? then r.value == row && !HasTeam(before, row.id) && createdBy in before.users
                            && db.Wrote(ctx, before.(teams := before.teams + [row]))
              else r.error == Error.Database
                   && (db.Wrote(ctx, before) || db.Wrote(ctx, before.(teams := before.teams + [row])))
      ensures db.faults.Explain(r.Err? && createdBy in old(db.View(ctx)).users)
    {
      var s := db.View(ctx);
      var broken := db.faults.Send();
      if broken || createdBy !in s.users {
        return Err(Error.Database);
      }
      assert !HasTeam(s, db.nextTeam);
      var id := db.TeamId();
      var row := Team(id, name, createdBy);
      TeamFits(s, row);
      db.Store(ctx, s.(teams := s.teams + [row]));
      broken := db.faults.Send();
      if broken {
        return Err(Error.Database);
      }
      return Ok(row);
    }
  }

  class UserRepository {
    const db: Server

    constructor (db: Server)
      ensures this.db == db
    {
      this.db := db;
    }

    method GetByID(ctx: Context, id: int) returns (r: Result<int>)
      requires db.Open(ctx)
      modifies db.faults
      ensures r.Ok? ==> r.value == id && id in db.View(ctx).users
      ensures r == Err(NotFound) ==> id !in db.View(ctx).users
      ensures r.Err? ==> r.error == NotFound || r.error == Error.Database
      ensures db.faults.Explain(r == Err(Error.Database))
    {
      var broken := db.faults.Send();
      if broken {
        return Err(Error.Database);
      }
      return if id in db.View(ctx).users then Ok(id) else Err(NotFound);
    }
  }
}
