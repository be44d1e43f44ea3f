/** The team statistics query as it is written - joins, groups, distinct counts, sort - against a direct definition. */
module Analytics {
  import opened Results
  import opened Entities
  import opened Sql
  import opened Store
  import opened TaskQueries

  // ---- Counting distinct values ----

  function CountDistinct<T(!new,==)>(rows: seq<T>, value: T -> Option<int>): nat {
    |set r | r in rows && value(r).Some? :: value(r).value|
  }

  // ---- TeamStats ----

  datatype TeamStatsRow = TeamStatsRow(teamId: int, teamName: string, membersCount: nat, doneTasks: nat)

  datatype JoinedRow = JoinedRow(team: Team, member: Option<TeamMember>, task: Option<Task>)

  function InTeam(): (Team, TeamMember) -> bool {
    (t: Team, m: TeamMember) => m.teamId == t.id
  }

  function TaskInTeam(): ((Team, Option<TeamMember>), Task) -> bool {
    (p: (Team, Option<TeamMember>), k: Task) => k.teamId == p.0.id
  }

  /** teams LEFT JOIN team_members LEFT JOIN tasks: members times tasks for every team. */
  function Joined(s: Tables): seq<JoinedRow> {
    Map(LeftJoin(LeftJoin(s.teams, s.members, InTeam()), s.tasks, TaskInTeam()),
        (p: ((Team, Option<TeamMember>), Option<Task>)) => JoinedRow(p.0.0, p.0.1, p.1))
  }

  function GroupKey(): JoinedRow -> (int, string) {
    (r: JoinedRow) => (r.team.id, r.team.name)
  }

  function HasKey(key: (int, string)): JoinedRow -> bool {
    (r: JoinedRow) => (r.team.id, r.team.name) == key
  }

  predicate RecentlyDone(same: Collation, cutoff: int, t: Task) {
    same(t.fields.status, STATUS_DONE) && t.updatedAt >= cutoff
  }

  function MemberId(): JoinedRow -> Option<int> {
    (r: JoinedRow) => if r.member.Some? then Some(r.member.value.userId) else None
  }

  function DoneId(same: Collation, cutoff: int): JoinedRow -> Option<int> {
    (r: JoinedRow) => if r.task.Some? && RecentlyDone(same, cutoff, r.task.value) then Some(r.task.value.id) else None
  }

  function Aggregate(same: Collation, cutoff: int, rows: seq<JoinedRow>, key: (int, string)): TeamStatsRow {
    var group := Filter(rows, HasKey(key));
    TeamStatsRow(key.0, key.1, CountDistinct(group, MemberId()), CountDistinct(group, DoneId(same, cutoff)))
  }

  function LowerTeam(): (TeamStatsRow, TeamStatsRow) -> bool {
    (a: TeamStatsRow, b: TeamStatsRow) => a.teamId < b.teamId
  }

  function StatsByKey(same: Collation, cutoff: int, s: Tables): ((int, string)) -> TeamStatsRow {
    (key: (int, string)) => Aggregate(same, cutoff, Joined(s), key)
  }

  function TeamStats(same: Collation, cutoff: int, s: Tables): seq<TeamStatsRow> {
    Sort(Map(Keys(Joined(s), GroupKey()), StatsByKey(same, cutoff, s)), LowerTeam())
  }

  function MembersOf(team: int): TeamMember -> bool {
    (m: TeamMember) => m.teamId == team
  }

  function DoneIn(same: Collation, cutoff: int, team: int): Task -> bool {
    (t: Task) => t.teamId == team && same(t.fields.status, "done") && t.updatedAt >= cutoff
  }

  /** What the row of a team is meant to say. */
  function StatsOf(same: Collation, cutoff: int, s: Tables, t: Team): TeamStatsRow {
    TeamStatsRow(t.id, t.name, |Filter(s.members, MembersOf(t.id))|, |Filter(s.tasks, DoneIn(same, cutoff, t.id))|)
  }

  lemma JoinedMembers(s: Tables, r: JoinedRow)
    ensures r in Joined(s) <==>
            && r.team in s.teams
            && Partner(r.team, r.member, s.members, InTeam())
            && Partner((r.team, r.member), r.task, s.tasks, TaskInTeam())
  {
    var pairs := LeftJoin(s.teams, s.members, InTeam());
    var triples := LeftJoin(pairs, s.tasks, TaskInTeam());
    var p := ((r.team, r.member), r.task);
    LeftJoinRows(s.teams, s.members, InTeam(), (r.team, r.member));
    LeftJoinRows(pairs, s.tasks, TaskInTeam(), p);
    if r in Joined(s) {
      var k :| 0 <= k < |triples| && Joined(s)[k] == r;
      assert triples[k] == p;
    }
    if p in triples {
      var k :| 0 <= k < |triples| && triples[k] == p;
      assert Joined(s)[k] == r;
    }
  }

  /** Some partner always exists: a match, or NULL. */
  lemma SomePartner<A(!new), B(!new)>(a: A, bs: seq<B>, on: (A, B) -> bool) returns (b: Option<B>)
    ensures Partner(a, b, bs, on)
  {
    if v :| v in bs && on(a, v) {
      b := Some(v);
    } else {
      b := None;
    }
  }

  lemma SameTeam(s: Tables, t: Team, u: Team)
    requires UniqueTeams(s.teams) && t in s.teams && u in s.teams && t.id == u.id
    ensures t == u
  {
  }

  function Group(s: Tables, t: Team): seq<JoinedRow> {
    Filter(Joined(s), HasKey((t.id, t.name)))
  }

  lemma GroupRows(s: Tables, t: Team, r: JoinedRow)
    requires WellFormed(s) && t in s.teams
    ensures r in Group(s, t) <==>
            r.team == t && Partner(t, r.member, s.members, InTeam())
                && Partner((t, r.member), r.task, s.tasks, TaskInTeam())
  {
    JoinedMembers(s, r);
    if r in Group(s, t) {
      SameTeam(s, r.team, t);
    }
  }

  /** Two tables that show the same values show the same set of them. */
  lemma SameValues<A(!new), B(!new)>(xs: seq<A>, value: A -> Option<int>, ys: seq<B>, id: B -> int)
    requires forall a :: a in xs && value(a).Some? ==> exists b :: b in ys && id(b) == value(a).value
    requires forall b :: b in ys ==> exists a :: a in xs && value(a) == Some(id(b))
    ensures CountDistinct(xs, value) == |Image(ys, id)|
  {
    assert (set a | a in xs && value(a).Some? :: value(a).value) == Image(ys, id);
  }

  lemma MemberShown(s: Tables, t: Team, m: TeamMember)
    requires WellFormed(s) && t in s.teams && m in Filter(s.members, MembersOf(t.id))
    ensures exists r :: r in Group(s, t) && MemberId()(r) == Some(m.userId)
  {
    var task := SomePartner((t, Some(m)), s.tasks, TaskInTeam());
    var r := JoinedRow(t, Some(m), task);
    GroupRows(s, t, r);
    assert r in Group(s, t) && MemberId()(r) == Some(m.userId);
  }

  function UserId(): TeamMember -> int {
    (m: TeamMember) => m.userId
  }

  lemma MembersOfDiffer(members: seq<TeamMember>, team: int)
    requires UniqueMembers(members)
    ensures |Image(Filter(members, MembersOf(team)), UserId())| == |Filter(members, MembersOf(team))|
  {
    var differ := (a: TeamMember, b: TeamMember) => a.userId != b.userId;
    forall i, j | 0 <= i < j < |members| && MembersOf(team)(members[i]) && MembersOf(team)(members[j])
      ensures differ(members[i], members[j])
    {
      assert (members[i].teamId, members[i].userId) != (members[j].teamId, members[j].userId);
    }
    FilterPairwise(members, MembersOf(team), differ);
    var mine := Filter(members, MembersOf(team));
    forall i, j | 0 <= i < j < |mine| ensures UserId()(mine[i]) != UserId()(mine[j]) {
      assert differ(mine[i], mine[j]);
    }
    DistinctValues(mine, UserId());
  }

  /** DISTINCT undoes the multiplication of members by tasks. */
  lemma MembersCounted(s: Tables, t: Team)
    requires WellFormed(s) && t in s.teams
    ensures CountDistinct(Group(s, t), MemberId()) == |Filter(s.members, MembersOf(t.id))|
  {
    var mine := Filter(s.members, MembersOf(t.id));
    forall r | r in Group(s, t) && MemberId()(r).Some?
      ensures exists m :: m in mine && UserId()(m) == MemberId()(r).value
    {
      GroupRows(s, t, r);
      assert r.member.value in mine && UserId()(r.member.value) == MemberId()(r).value;
    }
    forall m | m in mine ensures exists r :: r in Group(s, t) && MemberId()(r) == Some(UserId()(m)) {
      MemberShown(s, t, m);
    }
    SameValues(Group(s, t), MemberId(), mine, UserId());
    MembersOfDiffer(s.members, t.id);
  }

  function TaskId(): Task -> int {
    (k: Task) => k.id
  }

  lemma DoneShown(same: Collation, cutoff: int, s: Tables, t: Team, k: Task)
    requires WellFormed(s) && t in s.teams && k in Filter(s.tasks, DoneIn(same, cutoff, t.id))
    ensures exists r :: r in Group(s, t) && DoneId(same, cutoff)(r) == Some(k.id)
  {
    var member := SomePartner(t, s.members, InTeam());
    var r := JoinedRow(t, member, Some(k));
    GroupRows(s, t, r);
    assert r in Group(s, t) && DoneId(same, cutoff)(r) == Some(k.id);
  }

  lemma OnlyDoneShown(same: Collation, cutoff: int, s: Tables, t: Team, r: JoinedRow)
    requires WellFormed(s) && t in s.teams && r in Group(s, t) && DoneId(same, cutoff)(r).Some?
    ensures exists k :: k in Filter(s.tasks, DoneIn(same, cutoff, t.id)) && TaskId()(k) == DoneId(same, cutoff)(r).value
  {
    GroupRows(s, t, r);
    assert r.task.value in Filter(s.tasks, DoneIn(same, cutoff, t.id))
           && TaskId()(r.task.value) == DoneId(same, cutoff)(r).value;
  }

  lemma DoneDiffer(same: Collation, cutoff: int, tasks: seq<Task>, team: int)
    requires UniqueTasks(tasks)
    ensures |Image(Filter(tasks, DoneIn(same, cutoff, team)), TaskId())| == |Filter(tasks, DoneIn(same, cutoff, team))|
  {
    FilterUnique(tasks, DoneIn(same, cutoff, team));
    DistinctValues(Filter(tasks, DoneIn(same, cutoff, team)), TaskId());
  }

  lemma DoneTasksCounted(same: Collation, cutoff: int, s: Tables, t: Team)
    requires WellFormed(s) && t in s.teams
    ensures CountDistinct(Group(s, t), DoneId(same, cutoff)) == |Filter(s.tasks, DoneIn(same, cutoff, t.id))|
  {
    var group, done, value := Group(s, t), Filter(s.tasks, DoneIn(same, cutoff, t.id)), DoneId(same, cutoff);
    forall r | r in group && value(r).Some? ensures exists k :: k in done && TaskId()(k) == value(r).value {
      OnlyDoneShown(same, cutoff, s, t, r);
    }
    forall k | k in done ensures exists r :: r in group && value(r) == Some(TaskId()(k)) {
      DoneShown(same, cutoff, s, t, k);
    }
    SameValues(group, value, done, TaskId());
    DoneDiffer(same, cutoff, s.tasks, t.id);
  }

  /** Every team has a group, and groups are teams. */
  lemma GroupsAreTeams(s: Tables, key: (int, string))
    ensures key in Keys(Joined(s), GroupKey()) <==> exists t :: t in s.teams && (t.id, t.name) == key
  {
    if t :| t in s.teams && (t.id, t.name) == key {
      var member := SomePartner(t, s.members, InTeam());
      var task := SomePartner((t, member), s.tasks, TaskInTeam());
      var r := JoinedRow(t, member, task);
      JoinedMembers(s, r);
      assert r in Joined(s) && GroupKey()(r) == key;
    }
    if key in Keys(Joined(s), GroupKey()) {
      var r :| r in Joined(s) && GroupKey()(r) == key;
      JoinedMembers(s, r);
      assert r.team in s.teams;
    }
  }

  lemma TeamAggregated(same: Collation, cutoff: int, s: Tables, t: Team)
    requires WellFormed(s) && t in s.teams
    ensures Aggregate(same, cutoff, Joined(s), (t.id, t.name)) == StatsOf(same, cutoff, s, t)
  {
    MembersCounted(s, t);
    DoneTasksCounted(same, cutoff, s, t);
  }

  lemma GroupIdsDiffer(s: Tables, i: nat, j: nat)
    requires WellFormed(s) && i != j && i < |Keys(Joined(s), GroupKey())| && j < |Keys(Joined(s), GroupKey())|
    ensures Keys(Joined(s), GroupKey())[i].0 != Keys(Joined(s), GroupKey())[j].0
  {
    var keys := Keys(Joined(s), GroupKey());
    assert keys[i] in keys && keys[j] in keys;
    GroupsAreTeams(s, keys[i]);
    GroupsAreTeams(s, keys[j]);
    var t :| t in s.teams && (t.id, t.name) == keys[i];
    var u :| u in s.teams && (u.id, u.name) == keys[j];
    if t.id == u.id {
      SameTeam(s, t, u);
    }
  }

  lemma StatsOrderable(same: Collation, cutoff: int, s: Tables)
    requires WellFormed(s)
    ensures Orderable(Map(Keys(Joined(s), GroupKey()), StatsByKey(same, cutoff, s)), LowerTeam())
  {
    var keys := Keys(Joined(s), GroupKey());
    var stats := Map(keys, StatsByKey(same, cutoff, s));
    forall i, j | 0 <= i < |stats| && 0 <= j < |stats| && i != j
      ensures LowerTeam()(stats[i], stats[j]) || LowerTeam()(stats[j], stats[i])
    {
      GroupIdsDiffer(s, i, j);
      assert stats[i].teamId == keys[i].0 && stats[j].teamId == keys[j].0;
    }
  }

  lemma StatsSorted(same: Collation, cutoff: int, s: Tables)
    requires WellFormed(s)
    ensures Sorted(TeamStats(same, cutoff, s), LowerTeam())
  {
    StatsOrderable(same, cutoff, s);
    SortSorts(Map(Keys(Joined(s), GroupKey()), StatsByKey(same, cutoff, s)), LowerTeam());
  }

  lemma RowIsTeam(same: Collation, cutoff: int, s: Tables, k: nat)
    requires WellFormed(s) && k < |Keys(Joined(s), GroupKey())|
    ensures exists t :: t in s.teams
              && Map(Keys(Joined(s), GroupKey()), StatsByKey(same, cutoff, s))[k] == StatsOf(same, cutoff, s, t)
  {
    var keys := Keys(Joined(s), GroupKey());
    assert keys[k] in keys;
    GroupsAreTeams(s, keys[k]);
    var t :| t in s.teams && (t.id, t.name) == keys[k];
    TeamAggregated(same, cutoff, s, t);
  }

  lemma TeamHasRow(same: Collation, cutoff: int, s: Tables, t: Team)
    requires WellFormed(s) && t in s.teams
    ensures StatsOf(same, cutoff, s, t) in Map(Keys(Joined(s), GroupKey()), StatsByKey(same, cutoff, s))
  {
    var keys := Keys(Joined(s), GroupKey());
    GroupsAreTeams(s, (t.id, t.name));
    TeamAggregated(same, cutoff, s, t);
    var k :| 0 <= k < |keys| && keys[k] == (t.id, t.name);
    assert Map(keys, StatsByKey(same, cutoff, s))[k] == StatsOf(same, cutoff, s, t);
  }

  lemma StatsRow(same: Collation, cutoff: int, s: Tables, row: TeamStatsRow)
    requires WellFormed(s)
    ensures row in TeamStats(same, cutoff, s) <==> exists t :: t in s.teams && row == StatsOf(same, cutoff, s, t)
  {
    var stats := Map(Keys(Joined(s), GroupKey()), StatsByKey(same, cutoff, s));
    SortPermutes(stats, LowerTeam());
    SameElements(Sort(stats, LowerTeam()), stats);
    if row in stats {
      var k :| 0 <= k < |stats| && stats[k] == row;
      RowIsTeam(same, cutoff, s, k);
    }
    if t :| t in s.teams && row == StatsOf(same, cutoff, s, t) {
      TeamHasRow(same, cutoff, s, t);
    }
  }

  /** The number of members of a team: of the distinct users with a membership of it. */
  lemma MembersAsSet(members: seq<TeamMember>, team: int)
    requires UniqueMembers(members)
    ensures |Filter(members, MembersOf(team))| == |set m | m in members && m.teamId == team :: m.userId|
  {
    MembersOfDiffer(members, team);
    assert Image(Filter(members, MembersOf(team)), UserId()) == set m | m in members && m.teamId == team :: m.userId;
  }

  lemma DoneAsSet(same: Collation, cutoff: int, tasks: seq<Task>, team: int)
    requires UniqueTasks(tasks)
    ensures |Filter(tasks, DoneIn(same, cutoff, team))|
         == |set t | t in tasks && t.teamId == team && same(t.fields.status, "done") && t.updatedAt >= cutoff|
  {
    FilterCounts(tasks, DoneIn(same, cutoff, team));
    assert Chosen(tasks, DoneIn(same, cutoff, team))
        == set t | t in tasks && t.teamId == team && same(t.fields.status, "done") && t.updatedAt >= cutoff;
  }

  /** One row per team, with or without members and tasks, in order of id, with the name of the team, the number of
      its members and the number of its tasks that are done and were updated since the cutoff. */
  lemma TeamStatsExact(same: Collation, cutoff: int, s: Tables)
    requires WellFormed(s)
    ensures forall row ::
              row in TeamStats(same, cutoff, s) <==> (exists t :: t in s.teams && row == StatsOf(same, cutoff, s, t))
    ensures forall t :: t in s.teams ==>
              var row := StatsOf(same, cutoff, s, t);
              && row.teamId == t.id && row.teamName == t.name
              && row.membersCount == |set m | m in s.members && m.teamId == t.id :: m.userId|
              && row.doneTasks == |set k | k in s.tasks && k.teamId == t.id
                                           && same(k.fields.status, "done") && k.updatedAt >= cutoff|
    ensures forall i, j :: 0 <= i < j < |TeamStats(same, cutoff, s)| ==>
              TeamStats(same, cutoff, s)[i].teamId < TeamStats(same, cutoff, s)[j].teamId
  {
    forall row
      ensures row in TeamStats(same, cutoff, s) <==> exists t :: t in s.teams && row == StatsOf(same, cutoff, s, t)
    {
      StatsRow(same, cutoff, s, row);
    }
    forall t | t in s.teams
      ensures StatsOf(same, cutoff, s, t).membersCount == |set m | m in s.members && m.teamId == t.id :: m.userId|
      ensures StatsOf(same, cutoff, s, t).doneTasks
           == |set k | k in s.tasks && k.teamId == t.id && same(k.fields.status, "done") && k.updatedAt >= cutoff|
    {
      MembersAsSet(s.members, t.id);
      DoneAsSet(same, cutoff, s.tasks, t.id);
    }
    StatsSorted(same, cutoff, s);
    forall i, j | 0 <= i < j < |TeamStats(same, cutoff, s)|
      ensures TeamStats(same, cutoff, s)[i].teamId < TeamStats(same, cutoff, s)[j].teamId
    {
      assert LowerTeam()(TeamStats(same, cutoff, s)[i], TeamStats(same, cutoff, s)[j]);
    }
  }
}
