/** The top-creators query: group, number the rows of each team by a window, keep three, sort. */
module TopCreators {
  import opened Entities
  import opened Sql
  import opened Store

  datatype CreatorCount = CreatorCount(teamId: int, userId: int, count: nat)

  datatype TopCreator = TopCreator(teamId: int, userId: int, tasksCreated: nat, rank: nat)

  // ---- The query ----

  function Since(cutoff: int): Task -> bool {
    (t: Task) => t.createdAt >= cutoff
  }

  function GroupKey(): Task -> (int, int) {
    (t: Task) => (t.teamId, t.createdBy)
  }

  function HasKey(key: (int, int)): Task -> bool {
    (t: Task) => (t.teamId, t.createdBy) == key
  }

  function CountGroup(window: seq<Task>): ((int, int)) -> CreatorCount {
    (key: (int, int)) => CreatorCount(key.0, key.1, |Filter(window, HasKey(key))|)
  }

  /** GROUP BY team_id, created_by with COUNT(*) */
  function Groups(window: seq<Task>): seq<CreatorCount> {
    Map(Keys(window, GroupKey()), CountGroup(window))
  }

  /** ORDER BY COUNT(*) DESC, created_by */
  function MoreTasks(): (CreatorCount, CreatorCount) -> bool {
    (a: CreatorCount, b: CreatorCount) => a.count > b.count || (a.count == b.count && a.userId < b.userId)
  }

  function InTeam(team: int): CreatorCount -> bool {
    (g: CreatorCount) => g.teamId == team
  }

  /** The rows of one PARTITION BY team_id, in window order. */
  function Partition(groups: seq<CreatorCount>, team: int): seq<CreatorCount> {
    Sort(Filter(groups, InTeam(team)), MoreTasks())
  }

  /** ROW_NUMBER() */
  function Numbered(p: seq<CreatorCount>): seq<TopCreator> {
    seq(|p|, i requires 0 <= i < |p| => TopCreator(p[i].teamId, p[i].userId, p[i].count, i + 1))
  }

  function NumberAll(groups: seq<CreatorCount>, teams: seq<int>): seq<TopCreator> {
    if teams == [] then [] else Numbered(Partition(groups, teams[0])) + NumberAll(groups, teams[1..])
  }

  function TeamOf(): CreatorCount -> int {
    (g: CreatorCount) => g.teamId
  }

  function Ranked(groups: seq<CreatorCount>): seq<TopCreator> {
    NumberAll(groups, Keys(groups, TeamOf()))
  }

  function TopThree(): TopCreator -> bool {
    (r: TopCreator) => r.rank <= 3
  }

  /** ORDER BY team_id, rnk */
  function ByTeamAndRank(): (TopCreator, TopCreator) -> bool {
    (a: TopCreator, b: TopCreator) => a.teamId < b.teamId || (a.teamId == b.teamId && a.rank < b.rank)
  }

  function TopCreatorsPerTeam(cutoff: int, tasks: seq<Task>): seq<TopCreator> {
    Sort(Filter(Ranked(Groups(Filter(tasks, Since(cutoff)))), TopThree()), ByTeamAndRank())
  }

  // ---- What it is meant to say ----

  function CreatedIn(cutoff: int, team: int, user: int): Task -> bool {
    (t: Task) => t.createdAt >= cutoff && t.teamId == team && t.createdBy == user
  }

  /** How many tasks of the team the user created in the window. */
  function Created(cutoff: int, tasks: seq<Task>, team: int, user: int): nat {
    |Filter(tasks, CreatedIn(cutoff, team, user))|
  }

  predicate Outranks(cutoff: int, tasks: seq<Task>, team: int, u: int, v: int) {
    var cu, cv := Created(cutoff, tasks, team, u), Created(cutoff, tasks, team, v);
    cu > cv || (cu == cv && u < v)
  }

  /** The users with at least one task of the team in the window. */
  function Creators(cutoff: int, tasks: seq<Task>, team: int): set<int> {
    set t | t in tasks && t.createdAt >= cutoff && t.teamId == team :: t.createdBy
  }

  function Ahead(cutoff: int, tasks: seq<Task>, team: int, user: int): set<int> {
    set v | v in Creators(cutoff, tasks, team) && Outranks(cutoff, tasks, team, v, user)
  }

  /** One more than the number of creators ahead. */
  function RankOf(cutoff: int, tasks: seq<Task>, team: int, user: int): nat {
    1 + |Ahead(cutoff, tasks, team, user)|
  }

  // ---- Groups ----

  predicate IsGroup(cutoff: int, tasks: seq<Task>, g: CreatorCount) {
    g.userId in Creators(cutoff, tasks, g.teamId) && g.count == Created(cutoff, tasks, g.teamId, g.userId)
  }

  lemma CountIsCreated(cutoff: int, tasks: seq<Task>, team: int, user: int)
    ensures |Filter(Filter(tasks, Since(cutoff)), HasKey((team, user)))| == Created(cutoff, tasks, team, user)
  {
  }

  lemma KeysAreCreators(cutoff: int, tasks: seq<Task>, team: int, user: int)
    ensures (team, user) in Keys(Filter(tasks, Since(cutoff)), GroupKey()) <==> user in Creators(cutoff, tasks, team)
  {
  }

  lemma GroupRows(cutoff: int, tasks: seq<Task>, g: CreatorCount)
    ensures g in Groups(Filter(tasks, Since(cutoff))) <==> IsGroup(cutoff, tasks, g)
  {
    var window := Filter(tasks, Since(cutoff));
    var keys := Keys(window, GroupKey());
    CountIsCreated(cutoff, tasks, g.teamId, g.userId);
    KeysAreCreators(cutoff, tasks, g.teamId, g.userId);
    if g in Groups(window) {
      var k :| 0 <= k < |keys| && Groups(window)[k] == g;
      assert keys[k] in keys;
    }
    if IsGroup(cutoff, tasks, g) {
      var k :| 0 <= k < |keys| && keys[k] == (g.teamId, g.userId);
      assert Groups(window)[k] == g;
    }
  }

  /** The creators of the team once each, best first. */
  ghost predicate IsPartition(cutoff: int, tasks: seq<Task>, team: int, p: seq<CreatorCount>) {
    && (forall g :: g in p <==> g.teamId == team && IsGroup(cutoff, tasks, g))
    && Sorted(p, MoreTasks())
  }

  lemma MineOrderable(window: seq<Task>, team: int)
    ensures Orderable(Filter(Groups(window), InTeam(team)), MoreTasks())
  {
    var groups := Groups(window);
    var keys := Keys(window, GroupKey());
    var differ := (a: CreatorCount, b: CreatorCount) => a.userId != b.userId;
    forall i, j | 0 <= i < j < |groups| && InTeam(team)(groups[i]) && InTeam(team)(groups[j])
      ensures differ(groups[i], groups[j])
    {
      assert keys[i] != keys[j];
    }
    FilterPairwise(groups, InTeam(team), differ);
    var mine := Filter(groups, InTeam(team));
    forall i, j | 0 <= i < |mine| && 0 <= j < |mine| && i != j
      ensures MoreTasks()(mine[i], mine[j]) || MoreTasks()(mine[j], mine[i])
    {
      if i < j {
        assert differ(mine[i], mine[j]);
      } else {
        assert differ(mine[j], mine[i]);
      }
    }
  }

  lemma PartitionRows(cutoff: int, tasks: seq<Task>, team: int)
    ensures IsPartition(cutoff, tasks, team, Partition(Groups(Filter(tasks, Since(cutoff))), team))
  {
    var groups := Groups(Filter(tasks, Since(cutoff)));
    var mine := Filter(groups, InTeam(team));
    forall g ensures g in groups <==> IsGroup(cutoff, tasks, g) {
      GroupRows(cutoff, tasks, g);
    }
    SortPermutes(mine, MoreTasks());
    SameElements(Sort(mine, MoreTasks()), mine);
    MineOrderable(Filter(tasks, Since(cutoff)), team);
    SortSorts(mine, MoreTasks());
  }

  function UserOf(): CreatorCount -> int {
    (g: CreatorCount) => g.userId
  }

  ghost function Users(p: seq<CreatorCount>): set<int> {
    Image(p, UserOf())
  }

  lemma BetterIsOutranking(cutoff: int, tasks: seq<Task>, team: int, p: seq<CreatorCount>, k: nat, i: nat)
    requires k < |p| && i < |p|
    requires IsPartition(cutoff, tasks, team, p)
    ensures k < i <==> Outranks(cutoff, tasks, team, p[k].userId, p[i].userId)
    ensures k != i ==> p[k].userId != p[i].userId
  {
  }

  lemma UsersCounted(cutoff: int, tasks: seq<Task>, team: int, p: seq<CreatorCount>, i: nat)
    requires i <= |p|
    requires IsPartition(cutoff, tasks, team, p)
    ensures |Users(p[..i])| == i
  {
    var front := p[..i];
    forall k, l | 0 <= k < l < |front| ensures UserOf()(front[k]) != UserOf()(front[l]) {
      BetterIsOutranking(cutoff, tasks, team, p, k, l);
    }
    DistinctValues(front, UserOf());
  }

  lemma AheadIsFront(cutoff: int, tasks: seq<Task>, team: int, p: seq<CreatorCount>, i: nat, v: int)
    requires i < |p|
    requires IsPartition(cutoff, tasks, team, p)
    ensures v in Ahead(cutoff, tasks, team, p[i].userId) <==> exists g :: g in p[..i] && g.userId == v
  {
    if v in Ahead(cutoff, tasks, team, p[i].userId) {
      var g := CreatorCount(team, v, Created(cutoff, tasks, team, v));
      assert g in p;
      var k :| 0 <= k < |p| && p[k] == g;
      BetterIsOutranking(cutoff, tasks, team, p, k, i);
      assert p[..i][k] == g;
    }
    if g :| g in p[..i] && g.userId == v {
      var k :| 0 <= k < i && p[..i][k] == g;
      assert p[k] in p;
      BetterIsOutranking(cutoff, tasks, team, p, k, i);
    }
  }

  lemma PositionInSorted(cutoff: int, tasks: seq<Task>, team: int, p: seq<CreatorCount>, i: nat)
    requires i < |p|
    requires IsPartition(cutoff, tasks, team, p)
    ensures RankOf(cutoff, tasks, team, p[i].userId) == i + 1
  {
    var front := Users(p[..i]);
    forall v ensures v in Ahead(cutoff, tasks, team, p[i].userId) <==> v in front {
      AheadIsFront(cutoff, tasks, team, p, i, v);
    }
    assert Ahead(cutoff, tasks, team, p[i].userId) == front;
    UsersCounted(cutoff, tasks, team, p, i);
  }

  /** The position in the partition is the number of creators ahead. */
  lemma PositionIsRank(cutoff: int, tasks: seq<Task>, team: int, i: nat)
    requires i < |Partition(Groups(Filter(tasks, Since(cutoff))), team)|
    ensures var g := Partition(Groups(Filter(tasks, Since(cutoff))), team)[i];
            RankOf(cutoff, tasks, team, g.userId) == i + 1
  {
    PartitionRows(cutoff, tasks, team);
    PositionInSorted(cutoff, tasks, team, Partition(Groups(Filter(tasks, Since(cutoff))), team), i);
  }

  // ---- The numbered rows ----

  lemma {:induction false} NumberAllRows(groups: seq<CreatorCount>, teams: seq<int>, r: TopCreator)
    ensures r in NumberAll(groups, teams) <==> exists t :: t in teams && r in Numbered(Partition(groups, t))
  {
    if teams != [] {
      NumberAllRows(groups, teams[1..], r);
      if t :| t in teams && r in Numbered(Partition(groups, t)) {
        assert t == teams[0] || t in teams[1..];
      }
    }
  }

  /** A creator with the exact number of tasks and the rank that the others ahead leave. */
  predicate IsRanked(cutoff: int, tasks: seq<Task>, r: TopCreator) {
    && r.userId in Creators(cutoff, tasks, r.teamId)
    && r.tasksCreated == Created(cutoff, tasks, r.teamId, r.userId)
    && r.rank == RankOf(cutoff, tasks, r.teamId, r.userId)
  }

  lemma NumberedRows(cutoff: int, tasks: seq<Task>, team: int, r: TopCreator)
    ensures r in Numbered(Partition(Groups(Filter(tasks, Since(cutoff))), team))
            <==> r.teamId == team && IsRanked(cutoff, tasks, r)
  {
    var p := Partition(Groups(Filter(tasks, Since(cutoff))), team);
    PartitionRows(cutoff, tasks, team);
    if r in Numbered(p) {
      var i :| 0 <= i < |p| && Numbered(p)[i] == r;
      PositionIsRank(cutoff, tasks, team, i);
      assert p[i] in p;
    }
    if r.teamId == team && IsRanked(cutoff, tasks, r) {
      var g := CreatorCount(team, r.userId, r.tasksCreated);
      assert g in p;
      var i :| 0 <= i < |p| && p[i] == g;
      PositionIsRank(cutoff, tasks, team, i);
      assert Numbered(p)[i] == r;
    }
  }

  lemma RankedRows(cutoff: int, tasks: seq<Task>, r: TopCreator)
    ensures r in Ranked(Groups(Filter(tasks, Since(cutoff)))) <==> IsRanked(cutoff, tasks, r)
  {
    var groups := Groups(Filter(tasks, Since(cutoff)));
    var teams := Keys(groups, TeamOf());
    NumberAllRows(groups, teams, r);
    NumberedRows(cutoff, tasks, r.teamId, r);
    if t :| t in teams && r in Numbered(Partition(groups, t)) {
      NumberedRows(cutoff, tasks, t, r);
    }
    if IsRanked(cutoff, tasks, r) {
      var g := CreatorCount(r.teamId, r.userId, r.tasksCreated);
      GroupRows(cutoff, tasks, g);
      assert g in groups && TeamOf()(g) == r.teamId;
    }
  }

  function OtherSlot(): (TopCreator, TopCreator) -> bool {
    (a: TopCreator, b: TopCreator) => a.teamId != b.teamId || a.rank != b.rank
  }

  lemma PartitionTeam(groups: seq<CreatorCount>, team: int, i: nat)
    requires i < |Partition(groups, team)|
    ensures Partition(groups, team)[i].teamId == team
  {
    var mine := Filter(groups, InTeam(team));
    SortPermutes(mine, MoreTasks());
    SameElements(Sort(mine, MoreTasks()), mine);
    assert Sort(mine, MoreTasks())[i] in mine;
  }

  lemma NumberAllTeam(groups: seq<CreatorCount>, teams: seq<int>, j: nat)
    requires j < |NumberAll(groups, teams)|
    ensures NumberAll(groups, teams)[j].teamId in teams
  {
    var r := NumberAll(groups, teams)[j];
    NumberAllRows(groups, teams, r);
    var t :| t in teams && r in Numbered(Partition(groups, t));
    var k :| 0 <= k < |Numbered(Partition(groups, t))| && Numbered(Partition(groups, t))[k] == r;
    PartitionTeam(groups, t, k);
  }

  lemma {:induction false} RankedDiffer(groups: seq<CreatorCount>, teams: seq<int>)
    requires forall i, j :: 0 <= i < j < |teams| ==> teams[i] != teams[j]
    ensures Sorted(NumberAll(groups, teams), OtherSlot())
  {
    if teams != [] {
      RankedDiffer(groups, teams[1..]);
      var first, rest := Numbered(Partition(groups, teams[0])), NumberAll(groups, teams[1..]);
      forall i | 0 <= i < |first| ensures first[i].teamId == teams[0] {
        PartitionTeam(groups, teams[0], i);
      }
      forall j | 0 <= j < |rest| ensures rest[j].teamId in teams[1..] {
        NumberAllTeam(groups, teams[1..], j);
      }
      SortedConcat(first, rest, OtherSlot());
    }
  }

  lemma KeptOrderable(all: seq<TopCreator>)
    requires Sorted(all, OtherSlot())
    ensures Orderable(Filter(all, TopThree()), ByTeamAndRank())
  {
    var kept := Filter(all, TopThree());
    FilterPairwise(all, TopThree(), OtherSlot());
    forall i, j | 0 <= i < |kept| && 0 <= j < |kept| && i != j
      ensures ByTeamAndRank()(kept[i], kept[j]) || ByTeamAndRank()(kept[j], kept[i])
    {
      if i < j {
        assert OtherSlot()(kept[i], kept[j]);
      } else {
        assert OtherSlot()(kept[j], kept[i]);
      }
    }
  }

  lemma TopSorted(groups: seq<CreatorCount>)
    ensures Sorted(Sort(Filter(Ranked(groups), TopThree()), ByTeamAndRank()), ByTeamAndRank())
  {
    RankedDiffer(groups, Keys(groups, TeamOf()));
    KeptOrderable(Ranked(groups));
    SortSorts(Filter(Ranked(groups), TopThree()), ByTeamAndRank());
  }

  lemma TopRow(cutoff: int, tasks: seq<Task>, r: TopCreator)
    ensures r in TopCreatorsPerTeam(cutoff, tasks) <==> IsRanked(cutoff, tasks, r) && r.rank <= 3
  {
    var kept := Filter(Ranked(Groups(Filter(tasks, Since(cutoff)))), TopThree());
    SortPermutes(kept, ByTeamAndRank());
    SameElements(Sort(kept, ByTeamAndRank()), kept);
    RankedRows(cutoff, tasks, r);
  }

  /** The query returns exactly the creators with rank one to three in their team, with exact counts, sorted by
      team and then rank without ties. */
  lemma TopCreatorsExact(cutoff: int, tasks: seq<Task>)
    ensures forall r :: r in TopCreatorsPerTeam(cutoff, tasks) <==> IsRanked(cutoff, tasks, r) && r.rank <= 3
    ensures var rows := TopCreatorsPerTeam(cutoff, tasks);
            forall i, j :: 0 <= i < j < |rows| ==>
              rows[i].teamId < rows[j].teamId || (rows[i].teamId == rows[j].teamId && rows[i].rank < rows[j].rank)
  {
    forall r ensures r in TopCreatorsPerTeam(cutoff, tasks) <==> IsRanked(cutoff, tasks, r) && r.rank <= 3 {
      TopRow(cutoff, tasks, r);
    }
    TopSorted(Groups(Filter(tasks, Since(cutoff))));
    var rows := TopCreatorsPerTeam(cutoff, tasks);
    forall i, j | 0 <= i < j < |rows| ensures ByTeamAndRank()(rows[i], rows[j]) {
    }
  }

  lemma CreatedCounts(cutoff: int, tasks: seq<Task>, team: int, user: int)
    requires UniqueTasks(tasks)
    ensures Created(cutoff, tasks, team, user)
         == |set t | t in tasks && t.createdAt >= cutoff && t.teamId == team && t.createdBy == user|
  {
    FilterCounts(tasks, CreatedIn(cutoff, team, user));
    assert Chosen(tasks, CreatedIn(cutoff, team, user))
        == set t | t in tasks && t.createdAt >= cutoff && t.teamId == team && t.createdBy == user;
  }

  /** What a ranked row says: the user has created tasks of the team since the cutoff, so many of them, and comes
      after exactly the creators with more tasks, or as many and a lower id. */
  lemma RankedMeans(cutoff: int, tasks: seq<Task>, r: TopCreator)
    requires UniqueTasks(tasks) && IsRanked(cutoff, tasks, r)
    ensures exists t :: t in tasks && t.createdAt >= cutoff && t.teamId == r.teamId && t.createdBy == r.userId
    ensures r.tasksCreated
         == |set t | t in tasks && t.createdAt >= cutoff && t.teamId == r.teamId && t.createdBy == r.userId|
    ensures forall v ::
              v in Ahead(cutoff, tasks, r.teamId, r.userId) <==>
                && (exists t :: t in tasks && t.createdAt >= cutoff && t.teamId == r.teamId && t.createdBy == v)
                && (Created(cutoff, tasks, r.teamId, v) > r.tasksCreated
                    || (Created(cutoff, tasks, r.teamId, v) == r.tasksCreated && v < r.userId))
    ensures r.rank == 1 + |Ahead(cutoff, tasks, r.teamId, r.userId)|
  {
    CreatedCounts(cutoff, tasks, r.teamId, r.userId);
  }

  // ---- Consequences ----

  lemma {:induction false} Smaller(a: set<int>, b: set<int>)
    requires a <= b
    ensures |a| <= |b|
  {
    assert b == a + (b - a);
  }

  /** Whoever is left out comes after everyone listed for the same team. */
  lemma OmittedComeAfter(cutoff: int, tasks: seq<Task>, r: TopCreator, user: int)
    requires r in TopCreatorsPerTeam(cutoff, tasks) && user in Creators(cutoff, tasks, r.teamId)
    requires forall q :: q in TopCreatorsPerTeam(cutoff, tasks) ==> !(q.teamId == r.teamId && q.userId == user)
    ensures Created(cutoff, tasks, r.teamId, r.userId) > Created(cutoff, tasks, r.teamId, user)
            || (Created(cutoff, tasks, r.teamId, r.userId) == Created(cutoff, tasks, r.teamId, user) && r.userId < user)
  {
    TopCreatorsExact(cutoff, tasks);
    var q := TopCreator(r.teamId, user, Created(cutoff, tasks, r.teamId, user), RankOf(cutoff, tasks, r.teamId, user));
    assert IsRanked(cutoff, tasks, q);
    if !Outranks(cutoff, tasks, r.teamId, r.userId, user) {
      var mine, theirs := Ahead(cutoff, tasks, r.teamId, user), Ahead(cutoff, tasks, r.teamId, r.userId);
      assert mine <= theirs;
      Smaller(mine, theirs);
    }
  }

  lemma CreatorListed(cutoff: int, tasks: seq<Task>, team: int, p: seq<CreatorCount>, u: int)
    requires IsPartition(cutoff, tasks, team, p)
    ensures u in Creators(cutoff, tasks, team) <==> u in Users(p)
  {
    if u in Creators(cutoff, tasks, team) {
      var g := CreatorCount(team, u, Created(cutoff, tasks, team, u));
      assert g in p && g.userId == u;
    }
  }

  lemma AllCreatorsListed(cutoff: int, tasks: seq<Task>, team: int, p: seq<CreatorCount>)
    requires IsPartition(cutoff, tasks, team, p)
    ensures |p| == |Creators(cutoff, tasks, team)|
  {
    forall u ensures u in Creators(cutoff, tasks, team) <==> u in Users(p) {
      CreatorListed(cutoff, tasks, team, p, u);
    }
    assert Creators(cutoff, tasks, team) == Users(p);
    assert p[..|p|] == p;
    UsersCounted(cutoff, tasks, team, p, |p|);
  }

  /** No rank up to three is skipped while the team still has creators. */
  lemma RanksHaveNoGaps(cutoff: int, tasks: seq<Task>, team: int, rank: nat)
    requires 1 <= rank <= 3 && rank <= |Creators(cutoff, tasks, team)|
    ensures exists r :: r in TopCreatorsPerTeam(cutoff, tasks) && r.teamId == team && r.rank == rank
  {
    var p := Partition(Groups(Filter(tasks, Since(cutoff))), team);
    PartitionRows(cutoff, tasks, team);
    AllCreatorsListed(cutoff, tasks, team, p);
    var r := Numbered(p)[rank - 1];
    assert r in Numbered(p);
    NumberedRows(cutoff, tasks, team, r);
    TopRow(cutoff, tasks, r);
  }

  function RowOfTeam(team: int): TopCreator -> bool {
    (r: TopCreator) => r.teamId == team
  }

  function Rank(): TopCreator -> int {
    (r: TopCreator) => r.rank
  }

  function ListedRows(cutoff: int, tasks: seq<Task>, team: int): seq<TopCreator> {
    Filter(TopCreatorsPerTeam(cutoff, tasks), RowOfTeam(team))
  }

  /** Only other creators are ahead of a creator. */
  lemma RankAtMostCreators(cutoff: int, tasks: seq<Task>, team: int, user: int)
    requires user in Creators(cutoff, tasks, team)
    ensures RankOf(cutoff, tasks, team, user) <= |Creators(cutoff, tasks, team)|
  {
    Smaller(Ahead(cutoff, tasks, team, user), Creators(cutoff, tasks, team) - {user});
  }

  lemma RanksOfRows(cutoff: int, tasks: seq<Task>, team: int, rank: int)
    ensures rank in Image(ListedRows(cutoff, tasks, team), Rank())
            <==> 1 <= rank <= 3 && rank <= |Creators(cutoff, tasks, team)|
  {
    if 1 <= rank <= 3 && rank <= |Creators(cutoff, tasks, team)| {
      RanksHaveNoGaps(cutoff, tasks, team, rank);
      var r :| r in TopCreatorsPerTeam(cutoff, tasks) && r.teamId == team && r.rank == rank;
      assert r in ListedRows(cutoff, tasks, team) && Rank()(r) == rank;
    }
    if r :| r in ListedRows(cutoff, tasks, team) && Rank()(r) == rank {
      TopRow(cutoff, tasks, r);
      RankAtMostCreators(cutoff, tasks, team, r.userId);
    }
  }

  lemma RanksDiffer(cutoff: int, tasks: seq<Task>, team: int)
    ensures var rows := ListedRows(cutoff, tasks, team);
            forall i, j :: 0 <= i < j < |rows| ==> Rank()(rows[i]) != Rank()(rows[j])
  {
    var rows, differ := ListedRows(cutoff, tasks, team), (a: TopCreator, b: TopCreator) => a.rank != b.rank;
    TopSorted(Groups(Filter(tasks, Since(cutoff))));
    FilterPairwise(TopCreatorsPerTeam(cutoff, tasks), RowOfTeam(team), differ);
    forall i, j | 0 <= i < j < |rows| ensures Rank()(rows[i]) != Rank()(rows[j]) {
      assert differ(rows[i], rows[j]);
    }
  }

  ghost function FirstRanks(n: nat): (r: set<int>)
    ensures |r| == n
    ensures forall rank :: rank in r <==> 1 <= rank <= n
  {
    if n == 0 then {} else FirstRanks(n - 1) + {n}
  }

  lemma ImageIsRanks(cutoff: int, tasks: seq<Task>, team: int, listed: nat)
    requires listed == if |Creators(cutoff, tasks, team)| < 3 then |Creators(cutoff, tasks, team)| else 3
    ensures Image(ListedRows(cutoff, tasks, team), Rank()) == FirstRanks(listed)
  {
    forall rank ensures rank in Image(ListedRows(cutoff, tasks, team), Rank()) <==> rank in FirstRanks(listed) {
      RanksOfRows(cutoff, tasks, team, rank);
    }
  }

  lemma RowsCounted(cutoff: int, tasks: seq<Task>, team: int)
    ensures var creators := |Creators(cutoff, tasks, team)|;
            |ListedRows(cutoff, tasks, team)| == if creators < 3 then creators else 3
  {
    var creators := |Creators(cutoff, tasks, team)|;
    var listed: nat := if creators < 3 then creators else 3;
    RanksDiffer(cutoff, tasks, team);
    DistinctValues(ListedRows(cutoff, tasks, team), Rank());
    ImageIsRanks(cutoff, tasks, team, listed);
  }

  /** Each team has as many rows as it has creators in the window, but no more than three. */
  lemma RowsPerTeam(cutoff: int, tasks: seq<Task>, team: int)
    ensures var creators := |set t | t in tasks && t.createdAt >= cutoff && t.teamId == team :: t.createdBy|;
            |ListedRows(cutoff, tasks, team)| == if creators < 3 then creators else 3
  {
    RowsCounted(cutoff, tasks, team);
    assert Creators(cutoff, tasks, team)
        == set t | t in tasks && t.createdAt >= cutoff && t.teamId == team :: t.createdBy;
  }
}
