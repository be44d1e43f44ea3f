/** What the calls answer and what they write, spelled out over the rows of the tables. */
module Outcomes {
  import opened Results
  import opened Decimal
  import opened Entities
  import opened Patch
  import opened Store

  // ---- Answers ----

  predicate IsMember(members: seq<TeamMember>, team: int, user: int) {
    exists m :: m in members && m.teamId == team && m.userId == user
  }

  /** The user has a row in the team with the role of an owner or an admin. */
  predicate IsOwnerOrAdmin(members: seq<TeamMember>, team: int, user: int) {
    exists m :: m in members && m.teamId == team && m.userId == user && (m.role == Owner || m.role == Admin)
  }

  lemma MemberRow(members: seq<TeamMember>, team: int, user: int, m: TeamMember)
    requires UniqueMembers(members) && m in members && m.teamId == team && m.userId == user
    ensures FindMember(members, team, user) == Some(m)
  {
    var k :| 0 <= k < |members| && members[k] == m;
    FindMemberAt(members, k);
  }

  lemma TaskRow(tasks: seq<Task>, t: Task)
    requires UniqueTasks(tasks) && t in tasks
    ensures FindTask(tasks, t.id) == Some(t)
  {
    var k :| 0 <= k < |tasks| && tasks[k] == t;
    FindTaskAt(tasks, k);
  }

  /** Creating a task: only members of the team may, and only for nobody or for a member. */
  lemma CreateOutcome(s: Tables, cmd: CreateTaskCommand)
    ensures CreateVerdict(s, cmd) == Some(Forbidden) <==> !IsMember(s.members, cmd.teamId, cmd.creatorId)
    ensures CreateVerdict(s, cmd) == Some(AssigneeNotMember) <==>
            && IsMember(s.members, cmd.teamId, cmd.creatorId)
            && cmd.assigneeId > 0 && !IsMember(s.members, cmd.teamId, cmd.assigneeId)
    ensures CreateVerdict(s, cmd) == None <==>
            && IsMember(s.members, cmd.teamId, cmd.creatorId)
            && (cmd.assigneeId > 0 ==> IsMember(s.members, cmd.teamId, cmd.assigneeId))
  {
  }

  /** Updating a task that does not exist, or one that does: only members of its team may, only to one of the three
      statuses, and only for nobody or for a member. */
  lemma UpdateOutcome(s: Tables, cmd: UpdateTaskCommand)
    requires UniqueTasks(s.tasks)
    ensures UpdateVerdict(s, cmd) == Some(NotFound) <==> forall t :: t in s.tasks ==> t.id != cmd.taskId
    ensures forall t :: t in s.tasks && t.id == cmd.taskId ==>
              var member := IsMember(s.members, t.teamId, cmd.actorId);
              var known := cmd.status.Some? ==> cmd.status.value in {"todo", "in_progress", "done"};
              var assignable := cmd.assigneeId.Some? && cmd.assigneeId.value > 0 ==>
                                  IsMember(s.members, t.teamId, cmd.assigneeId.value);
              && (UpdateVerdict(s, cmd) == Some(Forbidden) <==> !member)
              && (UpdateVerdict(s, cmd) == Some(InvalidStatus) <==> member && !known)
              && (UpdateVerdict(s, cmd) == Some(AssigneeNotMember) <==> member && known && !assignable)
              && (UpdateVerdict(s, cmd) == None <==> member && known && assignable)
  {
    forall t | t in s.tasks && t.id == cmd.taskId ensures FindTask(s.tasks, cmd.taskId) == Some(t) {
      TaskRow(s.tasks, t);
    }
  }

  /** Inviting: only owners and admins may, only as admin or member, only a registered user who is no member yet. */
  lemma InviteOutcome(s: Tables, cmd: InviteCommand)
    requires UniqueMembers(s.members)
    ensures var may := IsOwnerOrAdmin(s.members, cmd.teamId, cmd.actorId);
            var offered := cmd.role == Admin || cmd.role == Member;
            var registered := cmd.inviteeId in s.users;
            var already := IsMember(s.members, cmd.teamId, cmd.inviteeId);
            && (InviteVerdict(s, cmd) == Some(Forbidden) <==> !may)
            && (InviteVerdict(s, cmd) == Some(InvalidRole) <==> may && !offered)
            && (InviteVerdict(s, cmd) == Some(UserNotFound) <==> may && offered && !registered)
            && (InviteVerdict(s, cmd) == Some(AlreadyMember) <==> may && offered && registered && already)
            && (InviteVerdict(s, cmd) == None <==> may && offered && registered && !already)
  {
    if m :| m in s.members && m.teamId == cmd.teamId && m.userId == cmd.actorId {
      MemberRow(s.members, cmd.teamId, cmd.actorId, m);
    }
  }

  // ---- Writes ----

  /** A creation adds one row with these columns and one entry, and touches nothing else. */
  lemma CreationContents(s: Tables, e: Event)
    requires Legal(s, e) && e.TaskCreated?
    ensures var cmd, row := e.create, e.task;
            && row.teamId == cmd.teamId && row.createdBy == cmd.creatorId && row.createdAt == row.updatedAt
            && row.fields.title == cmd.title && row.fields.description == cmd.description
            && row.fields.status == "todo"
            && row.fields.priority == (if cmd.priority == "" then "medium" else cmd.priority)
            && row.fields.assignee == (if cmd.assigneeId > 0 then Some(cmd.assigneeId) else None)
    ensures e.entry.request.taskId == e.task.id && e.entry.request.changedBy == e.create.creatorId
            && e.entry.request.change == Change(Created, None, Some("todo"))
    ensures Apply(s, e) == Tables(s.users, s.teams, s.members, s.tasks + [e.task], s.history + [e.entry])
  {
  }

  /** The columns that an update leaves: what is given replaces what was there. */
  lemma UpdatedColumns(s: Tables, e: Event, b: Task, a: Task)
    requires Legal(s, e) && e.TaskUpdated?
    requires FindTask(s.tasks, e.update.taskId) == Some(b) && FindTask(Apply(s, e).tasks, e.update.taskId) == Some(a)
    ensures var cmd := e.update;
            && a.id == b.id && a.teamId == b.teamId && a.createdBy == b.createdBy && a.createdAt == b.createdAt
            && a.updatedAt == (if a.fields != b.fields then e.at else b.updatedAt)
            && a.fields.title == (if cmd.title.Some? then cmd.title.value else b.fields.title)
            && a.fields.description == (if cmd.description.Some? then cmd.description.value else b.fields.description)
            && a.fields.status == (if cmd.status.Some? then cmd.status.value else b.fields.status)
            && a.fields.priority == (if cmd.priority.Some? then cmd.priority.value else b.fields.priority)
            && a.fields.assignee == (if cmd.assigneeId.None? then b.fields.assignee
                                     else if cmd.assigneeId.value > 0 then Some(cmd.assigneeId.value) else None)
  {
    FindTaskUpdated(s.tasks, e.update.taskId, Patched(b.fields, e.update), e.at, e.update.taskId);
  }

  /** How an assignee is written in an entry. */
  function AssigneeText(assignee: Option<int>): Option<string> {
    if assignee.Some? then Some(FormatInt(assignee.value)) else None
  }

  /** The changes from one version to another: of each column that differs, its old and its new text. */
  predicate IsChange(c: Change, b: Fields, a: Fields) {
    || (a.title != b.title && c == Change(Title, Some(b.title), Some(a.title)))
    || (a.description != b.description && c == Change(Description, Some(b.description), Some(a.description)))
    || (a.status != b.status && c == Change(Status, Some(b.status), Some(a.status)))
    || (a.priority != b.priority && c == Change(Priority, Some(b.priority), Some(a.priority)))
    || (a.assignee != b.assignee && c == Change(Assignee, AssigneeText(b.assignee), AssigneeText(a.assignee)))
  }

  lemma DiffIsChanges(b: Fields, a: Fields, c: Change)
    ensures c in Diff(b, a) <==> IsChange(c, b, a)
  {
    DiffMembers(c, b, a);
    DecodeEncode(b.assignee);
    DecodeEncode(a.assignee);
  }

  /** The entries of an update: by its actor, on its task, one for each column that changes, no column twice. */
  lemma UpdateEntries(s: Tables, e: Event, b: Task, a: Task)
    requires Legal(s, e) && e.TaskUpdated?
    requires FindTask(s.tasks, e.update.taskId) == Some(b) && FindTask(Apply(s, e).tasks, e.update.taskId) == Some(a)
    ensures Apply(s, e).history == s.history + e.entries
    ensures forall h :: h in e.entries ==>
              && h.request.taskId == e.update.taskId && h.request.changedBy == e.update.actorId
              && IsChange(h.request.change, b.fields, a.fields)
    ensures forall c :: IsChange(c, b.fields, a.fields) ==> exists h :: h in e.entries && h.request.change == c
    ensures forall i, j :: 0 <= i < j < |e.entries| ==>
              e.entries[i].request.change.field != e.entries[j].request.change.field
  {
    var changes := Diff(b.fields, Patched(b.fields, e.update));
    FindTaskUpdated(s.tasks, e.update.taskId, Patched(b.fields, e.update), e.at, e.update.taskId);
    assert a.fields == Patched(b.fields, e.update);
    DiffIsMinimal(b.fields, a.fields);
    forall h | h in e.entries
      ensures h.request.taskId == e.update.taskId && h.request.changedBy == e.update.actorId
      ensures IsChange(h.request.change, b.fields, a.fields)
    {
      var i :| 0 <= i < |e.entries| && e.entries[i] == h;
      DiffIsChanges(b.fields, a.fields, changes[i]);
    }
    forall c | IsChange(c, b.fields, a.fields) ensures exists h :: h in e.entries && h.request.change == c {
      DiffIsChanges(b.fields, a.fields, c);
      var i :| 0 <= i < |changes| && changes[i] == c;
      assert e.entries[i] in e.entries;
    }
  }

  /** Other tasks, users, teams and memberships are not touched by an update. */
  lemma UpdateTouchesOneTask(s: Tables, e: Event, other: int)
    requires Legal(s, e) && e.TaskUpdated? && other != e.update.taskId
    ensures FindTask(Apply(s, e).tasks, other) == FindTask(s.tasks, other)
    ensures |Apply(s, e).tasks| == |s.tasks|
    ensures Apply(s, e).users == s.users && Apply(s, e).teams == s.teams && Apply(s, e).members == s.members
  {
    var before := FindTask(s.tasks, e.update.taskId).value.fields;
    FindTaskUpdated(s.tasks, e.update.taskId, Patched(before, e.update), e.at, other);
  }

  /** A new team comes with its owner; an invitation adds the invitee with the offered role. */
  lemma TeamContents(s: Tables, e: Event)
    requires Legal(s, e) && (e.TeamCreated? || e.Invited?)
    ensures e.TeamCreated? ==>
              Apply(s, e) == Tables(s.users, s.teams + [e.team],
                                    s.members + [TeamMember(e.team.id, e.team.createdBy, Owner)],
                                    s.tasks, s.history)
    ensures e.Invited? ==>
              Apply(s, e) == Tables(s.users, s.teams,
                                    s.members + [TeamMember(e.invite.teamId, e.invite.inviteeId, e.invite.role)],
                                    s.tasks, s.history)
  {
  }

  // ---- Integrity ----

  /** In every run of committed calls ids and memberships are unique, every reference of a row is to a row that
      exists, and the entries of one task have increasing ids and times that do not go back. */
  lemma KeysHold(run: seq<Event>)
    requires LegalRun(EMPTY, run)
    ensures var s := After(EMPTY, run);
            && (forall i, j :: 0 <= i < j < |s.teams| ==> s.teams[i].id != s.teams[j].id)
            && (forall i, j :: 0 <= i < j < |s.tasks| ==> s.tasks[i].id != s.tasks[j].id)
            && (forall i, j :: 0 <= i < j < |s.members| ==>
                  s.members[i].teamId != s.members[j].teamId || s.members[i].userId != s.members[j].userId)
            && (forall i, j :: 0 <= i < j < |s.history|
                               && s.history[i].request.taskId == s.history[j].request.taskId ==>
                  s.history[i].id < s.history[j].id && s.history[i].changedAt <= s.history[j].changedAt)
    ensures var s := After(EMPTY, run);
            && (forall t :: t in s.teams ==> t.createdBy in s.users)
            && (forall m :: m in s.members ==> m.userId in s.users && exists t :: t in s.teams && t.id == m.teamId)
            && (forall k :: k in s.tasks ==>
                  && k.createdBy in s.users && (exists t :: t in s.teams && t.id == k.teamId)
                  && (k.fields.assignee.Some? ==> k.fields.assignee.value in s.users))
            && (forall h :: h in s.history ==>
                  h.request.changedBy in s.users && exists k :: k in s.tasks && k.id == h.request.taskId)
  {
    RunKeepsWellFormed(EMPTY, run);
    var s := After(EMPTY, run);
    forall k | k in s.tasks ensures TaskReferenced(s.users, s.teams, k) {
    }
    forall h | h in s.history ensures exists k :: k in s.tasks && k.id == h.request.taskId {
      assert EntryReferenced(s.users, s.tasks, h.request);
      assert FindTask(s.tasks, h.request.taskId).value in s.tasks;
    }
  }
}
