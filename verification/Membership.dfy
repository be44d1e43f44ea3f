/** Whatever steps overlap, whoever a task or its log names is a member of the task's team. */
module Membership {
  import opened Results
  import opened Entities
  import opened Sql
  import opened Store
  import opened Interleaving
  import opened Outcomes
  import TaskQueries

  // ---- Members are only ever added ----

  lemma {:induction false} MemberStays(a: seq<TeamMember>, b: seq<TeamMember>, team: int, user: int)
    requires a <= b && FindMember(a, team, user).Some?
    ensures FindMember(b, team, user) == FindMember(a, team, user)
  {
    if !(a[0].teamId == team && a[0].userId == user) {
      MemberStays(a[1..], b[1..], team, user);
    }
  }

  predicate Assignable(members: seq<TeamMember>, team: int, assignee: Option<int>) {
    assignee.Some? ==> FindMember(members, team, assignee.value).Some?
  }

  predicate TaskOk(members: seq<TeamMember>, t: Task) {
    FindMember(members, t.teamId, t.createdBy).Some? && Assignable(members, t.teamId, t.fields.assignee)
  }

  /** The entry belongs to a task, and its author to the task's team. */
  predicate EntryOk(s: Tables, h: History) {
    && FindTask(s.tasks, h.request.taskId).Some?
    && HasMember(s, FindTask(s.tasks, h.request.taskId).value.teamId, h.request.changedBy)
  }

  predicate MayInvite(s: Tables, cmd: InviteCommand) {
    var actor := FindMember(s.members, cmd.teamId, cmd.actorId);
    actor.Some? && actor.value.role.CanInvite() && cmd.role.IsValid() && cmd.role != Owner
  }

  /** The row that was read still exists, in the team it was read in. */
  predicate SameTeam(s: Tables, read: Task) {
    FindTask(s.tasks, read.id).Some? && FindTask(s.tasks, read.id).value.teamId == read.teamId
  }

  /** What a request has established so far and may still rely on. */
  predicate RequestOk(s: Tables, r: Request) {
    match r
    case CreatorChecked(cmd) => HasMember(s, cmd.teamId, cmd.creatorId)
    case AssigneeChecked(cmd, assignee) =>
      HasMember(s, cmd.teamId, cmd.creatorId) && Assignable(s.members, cmd.teamId, assignee)
    case TaskRead(_, read) => SameTeam(s, read) && Assignable(s.members, read.teamId, read.fields.assignee)
    case ActorChecked(cmd, read) =>
      && SameTeam(s, read) && Assignable(s.members, read.teamId, read.fields.assignee)
      && HasMember(s, read.teamId, cmd.actorId)
    case PatchBuilt(cmd, read, after) =>
      && SameTeam(s, read) && Assignable(s.members, read.teamId, after.assignee)
      && HasMember(s, read.teamId, cmd.actorId)
    case InviterChecked(cmd) => MayInvite(s, cmd)
    case InviteeFound(cmd) => MayInvite(s, cmd)
    case _ => true
  }

  ghost predicate Consistent(s: State) {
    && UniqueTasks(s.tables.tasks)
    && (forall t :: t in s.tables.tasks ==> t.id < s.nextTask)
    && (forall t :: t in s.tables.tasks ==> TaskOk(s.tables.members, t))
    && (forall h :: h in s.tables.history ==> EntryOk(s.tables, h))
    && (forall id :: id in s.requests ==> RequestOk(s.tables, s.requests[id]))
  }

  /** Members stay members with their role, and tasks stay in their team. */
  ghost predicate Grows(s: Tables, s': Tables) {
    && s.members <= s'.members
    && forall id :: FindTask(s.tasks, id).Some? ==>
         FindTask(s'.tasks, id).Some? && FindTask(s'.tasks, id).value.teamId == FindTask(s.tasks, id).value.teamId
  }

  lemma AssignableStays(a: seq<TeamMember>, b: seq<TeamMember>, team: int, assignee: Option<int>)
    requires a <= b && Assignable(a, team, assignee)
    ensures Assignable(b, team, assignee)
  {
  }

  lemma TaskOkStays(a: seq<TeamMember>, b: seq<TeamMember>, t: Task)
    requires a <= b && TaskOk(a, t)
    ensures TaskOk(b, t)
  {
  }

  lemma EntryOkStays(s: Tables, s': Tables, h: History)
    requires Grows(s, s') && EntryOk(s, h)
    ensures EntryOk(s', h)
  {
  }

  /** A check made outside the transaction stays true until the write, because membership only grows. */
  lemma RequestOkStays(s: Tables, s': Tables, r: Request)
    requires Grows(s, s') && RequestOk(s, r)
    ensures RequestOk(s', r)
  {
    match r
    case CreatorChecked(cmd) =>
      MemberStays(s.members, s'.members, cmd.teamId, cmd.creatorId);
    case AssigneeChecked(cmd, assignee) =>
      MemberStays(s.members, s'.members, cmd.teamId, cmd.creatorId);
      AssignableStays(s.members, s'.members, cmd.teamId, assignee);
    case TaskRead(_, read) =>
      AssignableStays(s.members, s'.members, read.teamId, read.fields.assignee);
    case ActorChecked(cmd, read) =>
      AssignableStays(s.members, s'.members, read.teamId, read.fields.assignee);
      MemberStays(s.members, s'.members, read.teamId, cmd.actorId);
    case PatchBuilt(cmd, read, after) =>
      AssignableStays(s.members, s'.members, read.teamId, after.assignee);
      MemberStays(s.members, s'.members, read.teamId, cmd.actorId);
    case InviterChecked(cmd) =>
      MemberStays(s.members, s'.members, cmd.teamId, cmd.actorId);
    case InviteeFound(cmd) =>
      MemberStays(s.members, s'.members, cmd.teamId, cmd.actorId);
    case _ =>
  }

  lemma TablesGrow(s: State, a: Action)
    requires Consistent(s) && Enabled(s, a)
    ensures Grows(s.tables, Next(s, a).tables)
  {
    var s' := Next(s, a);
    forall id | FindTask(s.tables.tasks, id).Some?
      ensures FindTask(s'.tables.tasks, id).Some?
              && FindTask(s'.tables.tasks, id).value.teamId == FindTask(s.tables.tasks, id).value.teamId
    {
      match a
      case CommitCreate(_, _) =>
        FindTaskAppend(s.tables.tasks, s'.tables.tasks[|s.tables.tasks|], id);
      case CommitUpdate(rid, at) =>
        FindTaskUpdated(s.tables.tasks, s.requests[rid].read.id, s.requests[rid].after, at, id);
      case _ =>
    }
  }

  /** What a step newly establishes for its request is true when the step is done. */
  lemma NewRequestOk(s: State, a: Action, id: nat)
    requires Consistent(s) && Enabled(s, a)
    requires var s' := Next(s, a); id in s'.requests && (id !in s.requests || s'.requests[id] != s.requests[id])
    ensures RequestOk(Next(s, a).tables, Next(s, a).requests[id])
  {
    if id in s.requests {
      assert RequestOk(s.tables, s.requests[id]);
    }
  }

  lemma UpdatedTaskOk(members: seq<TeamMember>, tasks: seq<Task>, read: Task, after: Fields, at: int, t: Task)
    requires UniqueTasks(tasks) && forall t :: t in tasks ==> TaskOk(members, t)
    requires FindTask(tasks, read.id).Some? && FindTask(tasks, read.id).value.teamId == read.teamId
    requires Assignable(members, read.teamId, after.assignee)
    requires t in UpdateRow(tasks, read.id, after, at)
    ensures TaskOk(members, t)
  {
  }

  lemma NewTaskOk(s: State, a: Action, t: Task)
    requires Consistent(s) && Enabled(s, a)
    requires t in Next(s, a).tables.tasks && t !in s.tables.tasks
    ensures TaskOk(Next(s, a).tables.members, t)
  {
    match a
    case CommitCreate(id, at) =>
      assert RequestOk(s.tables, s.requests[id]);
    case CommitUpdate(id, at) =>
      var r := s.requests[id];
      assert RequestOk(s.tables, r);
      UpdatedTaskOk(s.tables.members, s.tables.tasks, r.read, r.after, at, t);
    case _ =>
  }

  lemma NewEntryOk(s: State, a: Action, h: History)
    requires Consistent(s) && Enabled(s, a)
    requires h in Next(s, a).tables.history && h !in s.tables.history
    ensures EntryOk(Next(s, a).tables, h)
  {
    var s' := Next(s, a);
    match a
    case CommitCreate(id, at) =>
      assert RequestOk(s.tables, s.requests[id]);
      FindTaskAppend(s.tables.tasks, s'.tables.tasks[|s.tables.tasks|], s.nextTask);
    case CommitUpdate(id, at) =>
      assert RequestOk(s.tables, s.requests[id]);
      TablesGrow(s, a);
    case _ =>
  }

  lemma KeysStayUnique(s: State, a: Action)
    requires Consistent(s) && Enabled(s, a)
    ensures UniqueTasks(Next(s, a).tables.tasks)
    ensures forall t :: t in Next(s, a).tables.tasks ==> t.id < Next(s, a).nextTask
  {
    match a
    case CommitCreate(_, _) =>
      KeysAfterInsert(s.tables.tasks, Next(s, a).tables.tasks[|s.tables.tasks|]);
    case CommitUpdate(id, at) =>
      KeysAfterUpdate(s.tables.tasks, s.requests[id].read.id, s.requests[id].after, at, s.nextTask);
    case _ =>
  }

  lemma StaysConsistent(s: State, a: Action)
    requires Consistent(s) && Enabled(s, a)
    ensures Consistent(Next(s, a))
  {
    var s' := Next(s, a);
    KeysStayUnique(s, a);
    TablesGrow(s, a);
    forall t | t in s'.tables.tasks ensures TaskOk(s'.tables.members, t) {
      if t in s.tables.tasks {
        TaskOkStays(s.tables.members, s'.tables.members, t);
      } else {
        NewTaskOk(s, a, t);
      }
    }
    forall h | h in s'.tables.history ensures EntryOk(s'.tables, h) {
      if h in s.tables.history {
        EntryOkStays(s.tables, s'.tables, h);
      } else {
        NewEntryOk(s, a, h);
      }
    }
    forall id | id in s'.requests ensures RequestOk(s'.tables, s'.requests[id]) {
      if id in s.requests && s'.requests[id] == s.requests[id] {
        RequestOkStays(s.tables, s'.tables, s.requests[id]);
      } else {
        NewRequestOk(s, a, id);
      }
    }
  }

  lemma {:induction false} AlwaysConsistent(s: State, run: seq<Action>)
    requires Consistent(s) && LegalActions(s, run)
    ensures Consistent(AfterActions(s, run))
    decreases |run|
  {
    if run != [] {
      StaysConsistent(s, run[0]);
      AlwaysConsistent(Next(s, run[0]), run[1..]);
    }
  }

  // ---- The consistency query ----

  function NotAMember(members: seq<TeamMember>): Task -> bool {
    (t: Task) => t.fields.assignee.Some?
      && !exists m :: m in members && m.teamId == t.teamId && m.userId == t.fields.assignee.value
  }

  predicate LowerId(a: Task, b: Task) {
    a.id < b.id
  }

  /** `InconsistentTasks`: tasks whose assignee has no membership row, by id. */
  function InconsistentTasks(s: Tables): seq<Task> {
    Sort(Filter(s.tasks, NotAMember(s.members)), LowerId)
  }

  /** The query finds exactly the tasks assigned to somebody outside their team, each once and in order of id. */
  lemma InconsistentTasksExact(s: Tables)
    requires UniqueTasks(s.tasks)
    ensures forall t :: t in InconsistentTasks(s) <==>
              t in s.tasks && t.fields.assignee.Some? && !HasMember(s, t.teamId, t.fields.assignee.value)
    ensures forall i, j :: 0 <= i < j < |InconsistentTasks(s)| ==>
              InconsistentTasks(s)[i].id < InconsistentTasks(s)[j].id
  {
    var found := Filter(s.tasks, NotAMember(s.members));
    SortPermutes(found, LowerId);
    SameElements(InconsistentTasks(s), found);
    TaskQueries.FilterUnique(s.tasks, NotAMember(s.members));
    SortSorts(found, LowerId);
    forall i, j | 0 <= i < j < |found| ensures LowerId(InconsistentTasks(s)[i], InconsistentTasks(s)[j]) {
    }
  }

  /** In every run, however requests overlap and fail: creators, assignees and authors of log entries are members
      of the task's team, so the consistency query finds nothing. */
  lemma TasksNameMembersOnly(same: TaskQueries.Collation, run: seq<Action>)
    requires LegalActions(Init(same), run)
    ensures var s := AfterActions(Init(same), run).tables;
            && (forall t :: t in s.tasks ==> IsMember(s.members, t.teamId, t.createdBy))
            && (forall t :: t in s.tasks && t.fields.assignee.Some? ==>
                  IsMember(s.members, t.teamId, t.fields.assignee.value))
            && (forall h :: h in s.history ==>
                  exists t :: t in s.tasks && t.id == h.request.taskId
                              && IsMember(s.members, t.teamId, h.request.changedBy))
            && InconsistentTasks(s) == []
  {
    AlwaysConsistent(Init(same), run);
    var s := AfterActions(Init(same), run).tables;
    forall i | 0 <= i < |s.tasks| ensures !NotAMember(s.members)(s.tasks[i]) {
      assert s.tasks[i] in s.tasks;
      assert TaskOk(s.members, s.tasks[i]);
    }
    FilterNone(s.tasks, NotAMember(s.members));
    forall h | h in s.history
      ensures exists t :: t in s.tasks && t.id == h.request.taskId && IsMember(s.members, t.teamId, h.request.changedBy)
    {
      assert EntryOk(s, h);
      var t := FindTask(s.tasks, h.request.taskId).value;
      assert t in s.tasks && t.id == h.request.taskId && IsMember(s.members, t.teamId, h.request.changedBy);
    }
  }
}
