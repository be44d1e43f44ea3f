/** Overlapping requests. Every repository or cache call of a request is one step, steps of different requests
    mix freely, and a request may fail or vanish at any point. The writes of a transaction appear at its commit;
    the row lock taken by UPDATE keeps other writers off the row until then. */
module Interleaving {
  import opened Results
  import opened Entities
  import opened Patch
  import opened Store
  import opened TaskQueries
  import opened CacheKeys

  /** Where a request stands; the parameters are its local variables. */
  datatype Request =
    // CreateTask
    | CreatorChecked(create: CreateTaskCommand)
    | AssigneeChecked(create: CreateTaskCommand, assignee: Option<int>)
    // UpdateTask, inside its transaction
    | TaskRead(update: UpdateTaskCommand, read: Task)
    | ActorChecked(update: UpdateTaskCommand, read: Task)
    | PatchBuilt(update: UpdateTaskCommand, read: Task, after: Fields)
    // InvalidateTeam, after a commit
    | Committed(team: int, commit: nat)
    | Scanning(team: int, commit: nat, start: nat)
    | Scanned(team: int, commit: nat, start: nat, keys: set<string>)
    // ListTasks
    | Missed(query: ListFilter)
    | ListRead(query: ListFilter, rows: seq<Task>, readAt: nat)
    // Invite
    | InviterChecked(invite: InviteCommand)
    | InviteeFound(invite: InviteCommand)

  /** A cached list, with what is needed to speak about it: the query it answers, how many commits its database
      read had seen, when it was written, and since when its key has been present without a break. */
  datatype Entry = Entry(rows: seq<Task>, query: ListFilter, readAt: nat, setAt: nat, presentSince: nat)

  datatype Outcome = Pending | Failed | Done(start: nat)

  /** A committed task write: its team, the tasks after it, its time, and what became of its invalidation. */
  datatype Commit = Commit(team: int, tasks: seq<Task>, at: nat, outcome: Outcome)

  datatype State = State(
    same: Collation,
    tables: Tables,
    nextTeam: int,
    nextTask: int,
    nextHistory: int,
    cache: map<string, Entry>,
    requests: map<nat, Request>,
    now: nat,
    commits: seq<Commit>,
    inviter: map<(int, int), int>)

  function Init(same: Collation): State {
    State(same, EMPTY, 1, 1, 1, map[], map[], 0, [], map[])
  }

  datatype Action =
    | Register(user: int)
    | CreateTeam(name: string, owner: int)
    | CheckInviter(id: nat, invite: InviteCommand)
    | FindInvitee(id: nat)
    | AddInvitee(id: nat)
    | CheckCreator(id: nat, create: CreateTaskCommand)
    | CheckAssignee(id: nat)
    | CommitCreate(id: nat, at: int)
    | ReadTask(id: nat, update: UpdateTaskCommand)
    | CheckActor(id: nat)
    | BuildPatch(id: nat)
    | CommitUpdate(id: nat, at: int)
    | BeginScan(id: nat)
    | EndScan(id: nat, keys: set<string>)
    | Delete(id: nat)
    | Miss(id: nat, actor: int, query: ListFilter)
    | ReadList(id: nat)
    | SetList(id: nat)
    | Expire(key: string)
    | Abandon(id: nat)

  predicate Fresh(s: State, id: nat) {
    id !in s.requests
  }

  /** The key matches and has been present since the scan began. */
  predicate MustReturn(e: Entry, key: string, scan: Request)
    requires scan.Scanning?
  {
    GlobMatch(TeamPattern(scan.team), key) && e.presentSince <= scan.start
  }

  /** The clock reads no less than when the entries of the task were written. */
  predicate NotBefore(history: seq<History>, task: int, at: int) {
    forall h :: h in history && h.request.taskId == task ==> h.changedAt <= at
  }

  // ---- Which steps are possible ----

  predicate Enabled(s: State, a: Action) {
    match a
    case Register(user) => user !in s.tables.users
    case CreateTeam(_, owner) => owner in s.tables.users
    case CheckInviter(id, cmd) =>
      && Fresh(s, id)
      && (var actor := FindMember(s.tables.members, cmd.teamId, cmd.actorId);
          actor.Some? && actor.value.role.CanInvite() && cmd.role.IsValid() && cmd.role != Owner)
    case FindInvitee(id) =>
      id in s.requests && s.requests[id].InviterChecked? && s.requests[id].invite.inviteeId in s.tables.users
    case AddInvitee(id) =>
      && id in s.requests && s.requests[id].InviteeFound?
      && !HasMember(s.tables, s.requests[id].invite.teamId, s.requests[id].invite.inviteeId)
    case CheckCreator(id, cmd) => Fresh(s, id) && HasMember(s.tables, cmd.teamId, cmd.creatorId)
    case CheckAssignee(id) =>
      && id in s.requests && s.requests[id].CreatorChecked?
      && ResolveVerdict(s.tables, s.requests[id].create.teamId, s.requests[id].create.assigneeId).None?
    case CommitCreate(id, _) => id in s.requests && s.requests[id].AssigneeChecked?
    case ReadTask(id, cmd) => Fresh(s, id) && FindTask(s.tables.tasks, cmd.taskId).Some?
    case CheckActor(id) =>
      && id in s.requests && s.requests[id].TaskRead?
      && HasMember(s.tables, s.requests[id].read.teamId, s.requests[id].update.actorId)
    case BuildPatch(id) =>
      && id in s.requests && s.requests[id].ActorChecked?
      && PatchVerdict(s.tables, s.requests[id].read.teamId, s.requests[id].update).None?
    case CommitUpdate(id, at) =>
      // With entries to record, the row must change: otherwise `Update` answers ErrNotFound and the request ends.
      && id in s.requests && s.requests[id].PatchBuilt?
      && (var r := s.requests[id];
          && NotBefore(s.tables.history, r.read.id, at)
          && (Diff(r.read.fields, r.after) == [] || ChangedRows(s.tables.tasks, r.read.id, r.after) > 0))
    case BeginScan(id) => id in s.requests && s.requests[id].Committed?
    case EndScan(id, keys) =>
      // SCAN returns at least every matching key that was there from its start to its end.
      && id in s.requests && s.requests[id].Scanning?
      && (forall k :: k in keys ==> GlobMatch(TeamPattern(s.requests[id].team), k))
      && (forall k :: k in s.cache && MustReturn(s.cache[k], k, s.requests[id]) ==> k in keys)
    case Delete(id) => id in s.requests && s.requests[id].Scanned?
    case Miss(id, actor, query) => Fresh(s, id) && HasMember(s.tables, query.teamId, actor)
    case ReadList(id) =>
      id in s.requests && s.requests[id].Missed? && s.requests[id].query.limit >= 0 && s.requests[id].query.offset >= 0
    case SetList(id) => id in s.requests && s.requests[id].ListRead?
    case Expire(key) => key in s.cache
    case Abandon(id) => id in s.requests
  }

  // ---- What they do ----

  function WithRequest(s: State, id: nat, r: Request): State {
    s.(requests := s.requests[id := r], now := s.now + 1)
  }

  function Finished(s: State, id: nat): State {
    s.(requests := s.requests - {id}, now := s.now + 1)
  }

  /** The tasks are committed, and the request goes on to invalidate the team. */
  function Commits(s: State, id: nat, team: int, tables: Tables): State {
    s.(tables := tables,
       commits := s.commits + [Commit(team, tables.tasks, s.now, Pending)],
       requests := s.requests[id := Committed(team, |s.commits|)],
       now := s.now + 1)
  }

  function Settled(s: State, commit: nat, outcome: Outcome): seq<Commit> {
    if commit < |s.commits| then s.commits[commit := s.commits[commit].(outcome := outcome)] else s.commits
  }

  function LogRows(firstId: int, task: int, actor: int, changes: seq<Change>, at: int): seq<History> {
    seq(|changes|, i requires 0 <= i < |changes| => History(firstId + i, HistoryRequest(task, actor, changes[i]), at))
  }

  function NewRow(s: State, r: Request, at: int): Task
    requires r.AssigneeChecked?
  {
    Task(s.nextTask, r.create.teamId, InitialFields(r.create).(assignee := r.assignee), r.create.creatorId, at, at)
  }

  function NewEntry(s: State, r: Request, at: int): History
    requires r.AssigneeChecked?
  {
    History(s.nextHistory, HistoryRequest(s.nextTask, r.create.creatorId, CREATED_CHANGE), at)
  }

  function NewRows(s: State, r: Request, at: int): seq<History>
    requires r.PatchBuilt?
  {
    LogRows(s.nextHistory, r.read.id, r.update.actorId, Diff(r.read.fields, r.after), at)
  }

  /** Without changes nothing is written. */
  function UpdatedTables(s: State, r: Request, at: int): Tables
    requires r.PatchBuilt?
  {
    if Diff(r.read.fields, r.after) == [] then s.tables
    else s.tables.(tasks := UpdateRow(s.tables.tasks, r.read.id, r.after, at),
                   history := s.tables.history + NewRows(s, r, at))
  }

  function Next(s: State, a: Action): State
    requires Enabled(s, a)
  {
    match a
    case Register(user) => s.(tables := s.tables.(users := s.tables.users + {user}), now := s.now + 1)
    case CreateTeam(name, owner) =>
      s.(tables := s.tables.(teams := s.tables.teams + [Team(s.nextTeam, name, owner)],
                             members := s.tables.members + [TeamMember(s.nextTeam, owner, Owner)]),
         nextTeam := s.nextTeam + 1,
         now := s.now + 1)
    case CheckInviter(id, cmd) => WithRequest(s, id, InviterChecked(cmd))
    case FindInvitee(id) => WithRequest(s, id, InviteeFound(s.requests[id].invite))
    case AddInvitee(id) =>
      var cmd := s.requests[id].invite;
      Finished(s, id).(
        tables := s.tables.(members := s.tables.members + [TeamMember(cmd.teamId, cmd.inviteeId, cmd.role)]),
        inviter := s.inviter[(cmd.teamId, cmd.inviteeId) := cmd.actorId])
    case CheckCreator(id, cmd) => WithRequest(s, id, CreatorChecked(cmd))
    case CheckAssignee(id) =>
      WithRequest(s, id, AssigneeChecked(s.requests[id].create, ResolvedId(s.requests[id].create.assigneeId)))
    case CommitCreate(id, at) =>
      var r := s.requests[id];
      Commits(s, id, r.create.teamId, s.tables.(tasks := s.tables.tasks + [NewRow(s, r, at)],
                                                history := s.tables.history + [NewEntry(s, r, at)]))
      .(nextTask := s.nextTask + 1, nextHistory := s.nextHistory + 1)
    case ReadTask(id, cmd) => WithRequest(s, id, TaskRead(cmd, FindTask(s.tables.tasks, cmd.taskId).value))
    case CheckActor(id) => WithRequest(s, id, ActorChecked(s.requests[id].update, s.requests[id].read))
    case BuildPatch(id) =>
      var r := s.requests[id];
      WithRequest(s, id, PatchBuilt(r.update, r.read, Patched(r.read.fields, r.update)))
    case CommitUpdate(id, at) =>
      var r := s.requests[id];
      Commits(s, id, r.read.teamId, UpdatedTables(s, r, at))
      .(nextHistory := s.nextHistory + |Diff(r.read.fields, r.after)|)
    case BeginScan(id) => WithRequest(s, id, Scanning(s.requests[id].team, s.requests[id].commit, s.now))
    case EndScan(id, keys) =>
      var r := s.requests[id];
      WithRequest(s, id, Scanned(r.team, r.commit, r.start, keys))
    case Delete(id) =>
      var r := s.requests[id];
      Finished(s, id).(cache := s.cache - r.keys, commits := Settled(s, r.commit, Done(r.start)))
    case Miss(id, _, query) => WithRequest(s, id, Missed(query))
    case ReadList(id) =>
      var q := s.requests[id].query;
      WithRequest(s, id, ListRead(q, Listing(s.same, s.tables.tasks, q), |s.commits|))
    case SetList(id) =>
      var r := s.requests[id];
      var key := TeamTasksKey(r.query);
      var since := if key in s.cache then s.cache[key].presentSince else s.now;
      Finished(s, id).(cache := s.cache[key := Entry(r.rows, r.query, r.readAt, s.now, since)])
    case Expire(key) => s.(cache := s.cache - {key}, now := s.now + 1)
    case Abandon(id) =>
      var r := s.requests[id];
      if r.Committed? || r.Scanning? || r.Scanned? then
        Finished(s, id).(commits := Settled(s, r.commit, Failed))
      else Finished(s, id)
  }

  // ---- Runs ----

  predicate LegalActions(s: State, run: seq<Action>)
    decreases |run|
  {
    run != [] ==> Enabled(s, run[0]) && LegalActions(Next(s, run[0]), run[1..])
  }

  function AfterActions(s: State, run: seq<Action>): State
    requires LegalActions(s, run)
    decreases |run|
  {
    if run == [] then s else AfterActions(Next(s, run[0]), run[1..])
  }
}
