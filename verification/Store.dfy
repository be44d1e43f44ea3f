/** The five tables, what single statements do to them, and what each service call is allowed to do. */
module Store {
  import opened Results
  import opened Entities
  import opened Sql
  import opened Patch

  datatype Tables = Tables(
    users: set<int>,
    teams: seq<Team>,
    members: seq<TeamMember>,
    tasks: seq<Task>,
    history: seq<History>)

  const EMPTY := Tables({}, [], [], [], [])

  // ---- Lookups by primary key ----

  function FindMember(members: seq<TeamMember>, team: int, user: int): (r: Option<TeamMember>)
    ensures r.Some? ==> r.value in members && r.value.teamId == team && r.value.userId == user
    ensures r.None? ==> forall m :: m in members ==> !(m.teamId == team && m.userId == user)
  {
    if members == [] then None
    else if members[0].teamId == team && members[0].userId == user then Some(members[0])
    else FindMember(members[1..], team, user)
  }

  function FindTask(tasks: seq<Task>, id: int): (r: Option<Task>)
    ensures r.Some? ==> r.value in tasks && r.value.id == id
    ensures r.None? ==> forall t :: t in tasks ==> t.id != id
  {
    if tasks == [] then None
    else if tasks[0].id == id then Some(tasks[0])
    else FindTask(tasks[1..], id)
  }

  predicate HasMember(s: Tables, team: int, user: int) {
    FindMember(s.members, team, user).Some?
  }

  predicate TeamExists(teams: seq<Team>, id: int) {
    exists t :: t in teams && t.id == id
  }

  predicate HasTeam(s: Tables, team: int) {
    TeamExists(s.teams, team)
  }

  // ---- UPDATE tasks SET ... WHERE id = ? ----

  /** The server writes a row, and moves `updated_at`, only when a column gets a different value. */
  function UpdateRow(tasks: seq<Task>, id: int, fields: Fields, now: int): seq<Task> {
    seq(|tasks|, i requires 0 <= i < |tasks| =>
      if tasks[i].id == id && tasks[i].fields != fields
      then tasks[i].(fields := fields, updatedAt := now) else tasks[i])
  }

  function Differs(id: int, fields: Fields): Task -> bool {
    (t: Task) => t.id == id && t.fields != fields
  }

  /** `RowsAffected`: the driver counts changed rows, not matched rows. */
  function ChangedRows(tasks: seq<Task>, id: int, fields: Fields): nat {
    |Filter(tasks, Differs(id, fields))|
  }

  // ---- Integrity kept by keys and auto-increment ----

  predicate UniqueTasks(tasks: seq<Task>) {
    forall i, j :: 0 <= i < j < |tasks| ==> tasks[i].id != tasks[j].id
  }

  predicate UniqueMembers(members: seq<TeamMember>) {
    forall i, j :: 0 <= i < j < |members| ==>
        (members[i].teamId, members[i].userId) != (members[j].teamId, members[j].userId)
  }

  predicate UniqueTeams(teams: seq<Team>) {
    forall i, j :: 0 <= i < j < |teams| ==> teams[i].id != teams[j].id
  }

  /** The entries of one task have increasing ids and times that never go back, though they may stand still. */
  predicate Ordered(log: seq<History>) {
    forall i, j :: 0 <= i < j < |log| && log[i].request.taskId == log[j].request.taskId ==>
      log[i].id < log[j].id && log[i].changedAt <= log[j].changedAt
  }

  predicate AssigneeExists(users: set<int>, fields: Fields) {
    fields.assignee.Some? ==> fields.assignee.value in users
  }

  /** The foreign keys of a task. */
  predicate TaskReferenced(users: set<int>, teams: seq<Team>, t: Task) {
    TeamExists(teams, t.teamId) && t.createdBy in users && AssigneeExists(users, t.fields)
  }

  /** The foreign keys of a log entry. */
  predicate EntryReferenced(users: set<int>, tasks: seq<Task>, request: HistoryRequest) {
    FindTask(tasks, request.taskId).Some? && request.changedBy in users
  }

  predicate ForeignKeysMet(s: Tables) {
    && (forall t :: t in s.teams ==> t.createdBy in s.users)
    && (forall m :: m in s.members ==> TeamExists(s.teams, m.teamId) && m.userId in s.users)
    && (forall t :: t in s.tasks ==> TaskReferenced(s.users, s.teams, t))
    && (forall h :: h in s.history ==> EntryReferenced(s.users, s.tasks, h.request))
  }

  predicate WellFormed(s: Tables) {
    && UniqueTasks(s.tasks)
    && UniqueMembers(s.members)
    && UniqueTeams(s.teams)
    && Ordered(s.history)
    && ForeignKeysMet(s)
  }

  /** A lookup finds the row that sits at any position with its key. */
  lemma FindTaskAt(tasks: seq<Task>, k: nat)
    requires UniqueTasks(tasks) && k < |tasks|
    ensures FindTask(tasks, tasks[k].id) == Some(tasks[k])
  {
  }

  lemma FindMemberAt(members: seq<TeamMember>, k: nat)
    requires UniqueMembers(members) && k < |members|
    ensures FindMember(members, members[k].teamId, members[k].userId) == Some(members[k])
  {
  }

  lemma {:induction false} FindTaskAppend(tasks: seq<Task>, row: Task, id: int)
    ensures FindTask(tasks + [row], id) ==
            if FindTask(tasks, id).Some? then FindTask(tasks, id) else if row.id == id then Some(row) else None
  {
    if tasks != [] {
      FindTaskAppend(tasks[1..], row, id);
      assert (tasks + [row])[1..] == tasks[1..] + [row];
    }
  }

  lemma {:induction false} FindMemberAppend(members: seq<TeamMember>, row: TeamMember, team: int, user: int)
    ensures FindMember(members + [row], team, user) ==
            if FindMember(members, team, user).Some? then FindMember(members, team, user)
            else if row.teamId == team && row.userId == user then Some(row) else None
  {
    if members != [] {
      FindMemberAppend(members[1..], row, team, user);
      assert (members + [row])[1..] == members[1..] + [row];
    }
  }

  /** What a lookup sees after an update: the addressed row with the new columns, every other row as before. */
  lemma {:induction false} FindTaskUpdated(tasks: seq<Task>, id: int, fields: Fields, now: int, other: int)
    ensures var r := FindTask(UpdateRow(tasks, id, fields, now), other);
            var r0 := FindTask(tasks, other);
            && (r.Some? <==> r0.Some?)
            && (other != id ==> r == r0)
            && (r.Some? && other == id ==>
                  r.value == if r0.value.fields != fields
                             then r0.value.(fields := fields, updatedAt := now) else r0.value)
  {
    if tasks != [] {
      FindTaskUpdated(tasks[1..], id, fields, now, other);
      assert UpdateRow(tasks, id, fields, now)[1..] == UpdateRow(tasks[1..], id, fields, now);
    }
  }

  lemma {:induction false} AtMostOneHit(tasks: seq<Task>, id: int, fields: Fields)
    requires UniqueTasks(tasks)
    ensures ChangedRows(tasks, id, fields) <= 1
  {
    if tasks != [] {
      AtMostOneHit(tasks[1..], id, fields);
      if tasks[0].id == id {
        FilterNone(tasks[1..], Differs(id, fields));
      }
    }
  }

  /** The changed-rows count is zero exactly when the row is missing or already has every column value. */
  lemma NoRowChangedIff(tasks: seq<Task>, id: int, fields: Fields)
    requires UniqueTasks(tasks)
    ensures ChangedRows(tasks, id, fields) == 0 <==>
            FindTask(tasks, id).None? || FindTask(tasks, id).value.fields == fields
    ensures ChangedRows(tasks, id, fields) <= 1
  {
    var hits := Filter(tasks, Differs(id, fields));
    if hits != [] {
      assert hits[0] in hits;
      var k :| 0 <= k < |tasks| && tasks[k] == hits[0];
      FindTaskAt(tasks, k);
      AtMostOneHit(tasks, id, fields);
    } else if FindTask(tasks, id).Some? {
      assert FindTask(tasks, id).value !in hits;
    }
  }

  lemma KeysAfterInsert(tasks: seq<Task>, row: Task)
    requires UniqueTasks(tasks) && forall t :: t in tasks ==> t.id < row.id
    ensures UniqueTasks(tasks + [row]) && forall t :: t in tasks + [row] ==> t.id < row.id + 1
  {
  }

  lemma KeysAfterUpdate(tasks: seq<Task>, id: int, fields: Fields, at: int, next: int)
    requires UniqueTasks(tasks) && forall t :: t in tasks ==> t.id < next
    ensures UniqueTasks(UpdateRow(tasks, id, fields, at))
    ensures forall t :: t in UpdateRow(tasks, id, fields, at) ==> t.id < next
  {
  }

  // ---- The answer each call gives when no statement fails ----

  function ResolveVerdict(s: Tables, team: int, assigneeId: int): Option<Error> {
    if assigneeId > 0 && !HasMember(s, team, assigneeId) then Some(AssigneeNotMember) else None
  }

  function CreateVerdict(s: Tables, cmd: CreateTaskCommand): Option<Error> {
    if !HasMember(s, cmd.teamId, cmd.creatorId) then Some(Forbidden)
    else ResolveVerdict(s, cmd.teamId, cmd.assigneeId)
  }

  function PatchVerdict(s: Tables, team: int, cmd: UpdateTaskCommand): Option<Error> {
    if cmd.status.Some? && !ValidStatus(cmd.status.value) then Some(InvalidStatus)
    else if cmd.assigneeId.Some? then ResolveVerdict(s, team, cmd.assigneeId.value)
    else None
  }

  function UpdateVerdict(s: Tables, cmd: UpdateTaskCommand): Option<Error> {
    var row := FindTask(s.tasks, cmd.taskId);
    if row.None? then Some(NotFound)
    else if !HasMember(s, row.value.teamId, cmd.actorId) then Some(Forbidden)
    else PatchVerdict(s, row.value.teamId, cmd)
  }

  function InviteVerdict(s: Tables, cmd: InviteCommand): Option<Error> {
    var actor := FindMember(s.members, cmd.teamId, cmd.actorId);
    if actor.None? || !actor.value.role.CanInvite() then Some(Forbidden)
    else if !cmd.role.IsValid() || cmd.role == Owner then Some(InvalidRole)
    else if cmd.inviteeId !in s.users then Some(UserNotFound)
    else if HasMember(s, cmd.teamId, cmd.inviteeId) then Some(AlreadyMember)
    else None
  }

  // ---- Committed service calls as events on the tables ----

  datatype Event =
    | Registered(user: int)
    | TeamCreated(team: Team)
    | Invited(invite: InviteCommand)
    | TaskCreated(create: CreateTaskCommand, task: Task, entry: History)
    | TaskUpdated(update: UpdateTaskCommand, at: int, entries: seq<History>)

  /** The five columns of a new task. */
  function InitialFields(cmd: CreateTaskCommand): Fields {
    Fields(
      cmd.title,
      cmd.description,
      STATUS_TODO,
      if cmd.priority == "" then DEFAULT_PRIORITY else cmd.priority,
      ResolvedId(cmd.assigneeId))
  }

  const CREATED_CHANGE := Change(Created, None, Some(STATUS_TODO))

  /** The log rows hold these changes of one task by one user, one row each, in order. */
  predicate Logs(rows: seq<History>, task: int, actor: int, changes: seq<Change>) {
    && |rows| == |changes|
    && forall i :: 0 <= i < |rows| ==> rows[i].request == HistoryRequest(task, actor, changes[i])
  }

  predicate Legal(s: Tables, e: Event) {
    match e
    case Registered(user) => user !in s.users
    case TeamCreated(team) => team.createdBy in s.users && !HasTeam(s, team.id)
    case Invited(cmd) => InviteVerdict(s, cmd).None?
    case TaskCreated(cmd, task, entry) =>
      && CreateVerdict(s, cmd).None?
      && task.teamId == cmd.teamId && task.createdBy == cmd.creatorId && task.fields == InitialFields(cmd)
      && task.createdAt == task.updatedAt
      && FindTask(s.tasks, task.id).None?
      && entry.request == HistoryRequest(task.id, cmd.creatorId, CREATED_CHANGE)
      && Ordered(s.history + [entry])
    case TaskUpdated(cmd, at, entries) =>
      && UpdateVerdict(s, cmd).None?
      && (var before := FindTask(s.tasks, cmd.taskId).value.fields;
          Logs(entries, cmd.taskId, cmd.actorId, Diff(before, Patched(before, cmd))))
      && Ordered(s.history + entries)
  }

  function Apply(s: Tables, e: Event): Tables
    requires Legal(s, e)
  {
    match e
    case Registered(user) => s.(users := s.users + {user})
    case TeamCreated(team) =>
      s.(teams := s.teams + [team], members := s.members + [TeamMember(team.id, team.createdBy, Owner)])
    case Invited(cmd) => s.(members := s.members + [TeamMember(cmd.teamId, cmd.inviteeId, cmd.role)])
    case TaskCreated(_, task, entry) => s.(tasks := s.tasks + [task], history := s.history + [entry])
    case TaskUpdated(cmd, at, entries) =>
      var before := FindTask(s.tasks, cmd.taskId).value.fields;
      s.(tasks := UpdateRow(s.tasks, cmd.taskId, Patched(before, cmd), at), history := s.history + entries)
  }

  /** What an update with these rows does. */
  lemma UpdateEffect(s: Tables, cmd: UpdateTaskCommand, at: int, rows: seq<History>)
    requires UpdateVerdict(s, cmd).None? && Ordered(s.history + rows)
    ensures var before := FindTask(s.tasks, cmd.taskId).value.fields;
            var e := TaskUpdated(cmd, at, rows);
            && (Legal(s, e) <==> Logs(rows, cmd.taskId, cmd.actorId, Diff(before, Patched(before, cmd))))
            && (Legal(s, e) ==>
                  Apply(s, e) == s.(tasks := UpdateRow(s.tasks, cmd.taskId, Patched(before, cmd), at),
                                    history := s.history + rows))
  {
  }

  lemma InsertFits(s: Tables, row: Task)
    requires WellFormed(s) && FindTask(s.tasks, row.id).None? && TaskReferenced(s.users, s.teams, row)
    ensures WellFormed(s.(tasks := s.tasks + [row]))
  {
    forall h | h in s.history ensures FindTask(s.tasks + [row], h.request.taskId).Some? {
      FindTaskAppend(s.tasks, row, h.request.taskId);
    }
  }

  lemma UpdatedRowFits(s: Tables, id: int, fields: Fields, now: int, t: Task)
    requires ForeignKeysMet(s) && AssigneeExists(s.users, fields) && t in UpdateRow(s.tasks, id, fields, now)
    ensures TaskReferenced(s.users, s.teams, t)
  {
    var k :| 0 <= k < |s.tasks| && UpdateRow(s.tasks, id, fields, now)[k] == t;
    assert s.tasks[k] in s.tasks;
  }

  lemma UpdateFits(s: Tables, id: int, fields: Fields, now: int)
    requires WellFormed(s) && AssigneeExists(s.users, fields)
    ensures WellFormed(s.(tasks := UpdateRow(s.tasks, id, fields, now)))
  {
    var tasks := UpdateRow(s.tasks, id, fields, now);
    forall h | h in s.history ensures FindTask(tasks, h.request.taskId).Some? {
      FindTaskUpdated(s.tasks, id, fields, now, h.request.taskId);
    }
    forall t | t in tasks ensures TaskReferenced(s.users, s.teams, t) {
      UpdatedRowFits(s, id, fields, now, t);
    }
  }

  lemma LogFits(s: Tables, row: History)
    requires WellFormed(s) && EntryReferenced(s.users, s.tasks, row.request)
    requires forall h :: h in s.history ==> h.id < row.id && h.changedAt <= row.changedAt
    ensures WellFormed(s.(history := s.history + [row]))
  {
  }

  lemma TeamStillExists(teams: seq<Team>, team: Team, id: int)
    ensures TeamExists(teams + [team], id) <==> TeamExists(teams, id) || team.id == id
  {
    assert team in teams + [team];
    if t :| t in teams && t.id == id {
      assert t in teams + [team];
    }
  }

  lemma TeamFits(s: Tables, team: Team)
    requires WellFormed(s) && !TeamExists(s.teams, team.id) && team.createdBy in s.users
    ensures WellFormed(s.(teams := s.teams + [team]))
  {
    var s' := s.(teams := s.teams + [team]);
    forall id ensures TeamExists(s'.teams, id) <==> TeamExists(s.teams, id) || team.id == id {
      TeamStillExists(s.teams, team, id);
    }
    forall i | 0 <= i < |s.teams| ensures s.teams[i].id != team.id {
      assert s.teams[i] in s.teams;
    }
  }

  lemma MemberFits(s: Tables, row: TeamMember)
    requires WellFormed(s) && !HasMember(s, row.teamId, row.userId)
    requires TeamExists(s.teams, row.teamId) && row.userId in s.users
    ensures WellFormed(s.(members := s.members + [row]))
  {
    forall i | 0 <= i < |s.members| ensures (s.members[i].teamId, s.members[i].userId) != (row.teamId, row.userId) {
      assert s.members[i] in s.members;
    }
  }

  lemma TeamCallFits(s: Tables, team: Team)
    requires WellFormed(s) && !TeamExists(s.teams, team.id) && team.createdBy in s.users
    ensures WellFormed(s.(teams := s.teams + [team],
                          members := s.members + [TeamMember(team.id, team.createdBy, Owner)]))
  {
    TeamFits(s, team);
    TeamStillExists(s.teams, team, team.id);
    MemberFits(s.(teams := s.teams + [team]), TeamMember(team.id, team.createdBy, Owner));
  }

  lemma CreationFits(s: Tables, e: Event)
    requires WellFormed(s) && Legal(s, e) && e.TaskCreated?
    ensures WellFormed(Apply(s, e))
  {
    InsertFits(s, e.task);
    FindTaskAppend(s.tasks, e.task, e.task.id);
  }

  lemma UpdateCallFits(s: Tables, e: Event)
    requires WellFormed(s) && Legal(s, e) && e.TaskUpdated?
    ensures WellFormed(Apply(s, e))
  {
    var fields := Patched(FindTask(s.tasks, e.update.taskId).value.fields, e.update);
    UpdateFits(s, e.update.taskId, fields, e.at);
    FindTaskUpdated(s.tasks, e.update.taskId, fields, e.at, e.update.taskId);
  }

  /** Every committed call keeps the keys unique, the foreign keys met and the log of each task in order. */
  lemma ApplyKeepsWellFormed(s: Tables, e: Event)
    requires WellFormed(s) && Legal(s, e)
    ensures WellFormed(Apply(s, e))
  {
    match e
    case Registered(_) =>
    case TeamCreated(team) => TeamCallFits(s, team);
    case Invited(cmd) => MemberFits(s, TeamMember(cmd.teamId, cmd.inviteeId, cmd.role));
    case TaskCreated(_, _, _) => CreationFits(s, e);
    case TaskUpdated(_, _, _) => UpdateCallFits(s, e);
  }

  // ---- Runs of committed calls, one after the other ----

  predicate LegalRun(s: Tables, run: seq<Event>)
    decreases |run|
  {
    run != [] ==> Legal(s, run[0]) && LegalRun(Apply(s, run[0]), run[1..])
  }

  function After(s: Tables, run: seq<Event>): Tables
    requires LegalRun(s, run)
    decreases |run|
  {
    if run == [] then s else After(Apply(s, run[0]), run[1..])
  }

  lemma {:induction false} RunKeepsWellFormed(s: Tables, run: seq<Event>)
    requires WellFormed(s) && LegalRun(s, run)
    ensures WellFormed(After(s, run))
    decreases |run|
  {
    if run != [] {
      ApplyKeepsWellFormed(s, run[0]);
      RunKeepsWellFormed(Apply(s, run[0]), run[1..]);
    }
  }
}
