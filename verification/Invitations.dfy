/** Who invited whom: in every run each team is a tree of invitations rooted at its creator. */
module Invitations {
  import opened Results
  import opened Entities
  import opened Store
  import opened Interleaving
  import opened Membership
  import opened Outcomes
  import TaskQueries

  type Inviters = map<(int, int), int>

  /** The user created the team. */
  ghost predicate IsCreator(teams: seq<Team>, team: int, user: int) {
    exists t :: t in teams && t.id == team && t.createdBy == user
  }

  /** At position j stands the user's row, with a role that may invite. */
  predicate InvitesAt(members: seq<TeamMember>, j: nat, team: int, user: int) {
    j < |members| && members[j].teamId == team && members[j].userId == user
    && (members[j].role == Owner || members[j].role == Admin)
  }

  /** An owner created the team and was invited by nobody; anybody else was invited by somebody who joined
      earlier with a role that may invite. */
  ghost predicate JoinedProperly(teams: seq<Team>, members: seq<TeamMember>, inviter: Inviters, k: nat)
    requires k < |members|
  {
    var m := members[k];
    && m.role.IsValid()
    && if m.role == Owner then IsCreator(teams, m.teamId, m.userId) && (m.teamId, m.userId) !in inviter
       else (m.teamId, m.userId) in inviter
            && exists j :: 0 <= j < k && InvitesAt(members, j, m.teamId, inviter[(m.teamId, m.userId)])
  }

  ghost predicate KeysOk(teams: seq<Team>, members: seq<TeamMember>, nextTeam: int) {
    && UniqueTeams(teams)
    && UniqueMembers(members)
    && (forall i :: 0 <= i < |teams| ==> teams[i].id < nextTeam)
    && (forall k :: 0 <= k < |members| ==> members[k].teamId < nextTeam)
  }

  ghost predicate OwnersPresent(teams: seq<Team>, members: seq<TeamMember>) {
    forall i :: 0 <= i < |teams| ==>
      FindMember(members, teams[i].id, teams[i].createdBy) == Some(TeamMember(teams[i].id, teams[i].createdBy, Owner))
  }

  ghost predicate InviteesAreMembers(members: seq<TeamMember>, inviter: Inviters) {
    forall team, user :: (team, user) in inviter ==> FindMember(members, team, user).Some?
  }

  ghost predicate AllJoinedProperly(teams: seq<Team>, members: seq<TeamMember>, inviter: Inviters) {
    forall k :: 0 <= k < |members| ==> JoinedProperly(teams, members, inviter, k)
  }

  ghost predicate Rooted(s: State) {
    && KeysOk(s.tables.teams, s.tables.members, s.nextTeam)
    && OwnersPresent(s.tables.teams, s.tables.members)
    && InviteesAreMembers(s.tables.members, s.inviter)
    && AllJoinedProperly(s.tables.teams, s.tables.members, s.inviter)
  }

  lemma {:induction false} FoundAt(members: seq<TeamMember>, team: int, user: int) returns (k: nat)
    requires FindMember(members, team, user).Some?
    ensures k < |members| && members[k] == FindMember(members, team, user).value
  {
    if members[0].teamId == team && members[0].userId == user {
      k := 0;
    } else {
      k := FoundAt(members[1..], team, user);
      k := k + 1;
    }
  }

  /** Earlier members keep what is known about how they joined. */
  lemma OldJoinsStay(teams: seq<Team>, members: seq<TeamMember>, inviter: Inviters,
                     teams': seq<Team>, members': seq<TeamMember>, inviter': Inviters, k: nat)
    requires k < |members| && JoinedProperly(teams, members, inviter, k)
    requires members <= members' && teams <= teams'
    requires var key := (members[k].teamId, members[k].userId);
             (key in inviter <==> key in inviter') && (key in inviter ==> inviter'[key] == inviter[key])
    ensures JoinedProperly(teams', members', inviter', k)
  {
    var m := members[k];
    if m.role == Owner {
      var t :| t in teams && t.id == m.teamId && t.createdBy == m.userId;
      assert t in teams';
    } else {
      var j :| 0 <= j < k && InvitesAt(members, j, m.teamId, inviter[(m.teamId, m.userId)]);
      assert InvitesAt(members', j, m.teamId, inviter'[(m.teamId, m.userId)]);
    }
  }

  lemma RootedAfterTeam(teams: seq<Team>, members: seq<TeamMember>, inviter: Inviters, team: Team)
    requires KeysOk(teams, members, team.id) && OwnersPresent(teams, members)
    requires InviteesAreMembers(members, inviter) && AllJoinedProperly(teams, members, inviter)
    ensures var teams', members' := teams + [team], members + [TeamMember(team.id, team.createdBy, Owner)];
            && KeysOk(teams', members', team.id + 1) && OwnersPresent(teams', members')
            && InviteesAreMembers(members', inviter) && AllJoinedProperly(teams', members', inviter)
  {
    var row := TeamMember(team.id, team.createdBy, Owner);
    var teams', members' := teams + [team], members + [row];
    assert FindMember(members, team.id, team.createdBy).None? by {
      if FindMember(members, team.id, team.createdBy).Some? {
        var k := FoundAt(members, team.id, team.createdBy);
      }
    }
    forall i | 0 <= i < |teams'|
      ensures FindMember(members', teams'[i].id, teams'[i].createdBy)
              == Some(TeamMember(teams'[i].id, teams'[i].createdBy, Owner))
    {
      FindMemberAppend(members, row, teams'[i].id, teams'[i].createdBy);
    }
    forall t, u | (t, u) in inviter ensures FindMember(members', t, u).Some? {
      MemberStays(members, members', t, u);
    }
    forall k | 0 <= k < |members| ensures JoinedProperly(teams', members', inviter, k) {
      OldJoinsStay(teams, members, inviter, teams', members', inviter, k);
    }
    assert team in teams';
    assert JoinedProperly(teams', members', inviter, |members|);
  }

  lemma RootedAfterJoin(teams: seq<Team>, members: seq<TeamMember>, inviter: Inviters, nextTeam: int,
                        cmd: InviteCommand)
    requires KeysOk(teams, members, nextTeam) && OwnersPresent(teams, members)
    requires InviteesAreMembers(members, inviter) && AllJoinedProperly(teams, members, inviter)
    requires FindMember(members, cmd.teamId, cmd.inviteeId).None?
    requires var actor := FindMember(members, cmd.teamId, cmd.actorId);
             actor.Some? && actor.value.role.CanInvite() && cmd.role.IsValid() && cmd.role != Owner
    ensures var members' := members + [TeamMember(cmd.teamId, cmd.inviteeId, cmd.role)];
            var inviter' := inviter[(cmd.teamId, cmd.inviteeId) := cmd.actorId];
            && KeysOk(teams, members', nextTeam) && OwnersPresent(teams, members')
            && InviteesAreMembers(members', inviter') && AllJoinedProperly(teams, members', inviter')
  {
    var row := TeamMember(cmd.teamId, cmd.inviteeId, cmd.role);
    var members' := members + [row];
    var inviter' := inviter[(cmd.teamId, cmd.inviteeId) := cmd.actorId];
    var j := FoundAt(members, cmd.teamId, cmd.actorId);
    assert InvitesAt(members', j, cmd.teamId, cmd.actorId);
    forall k | 0 <= k < |members| ensures !(members[k].teamId == cmd.teamId && members[k].userId == cmd.inviteeId) {
      assert members[k] in members;
    }
    forall i | 0 <= i < |teams|
      ensures FindMember(members', teams[i].id, teams[i].createdBy)
              == Some(TeamMember(teams[i].id, teams[i].createdBy, Owner))
    {
      MemberStays(members, members', teams[i].id, teams[i].createdBy);
    }
    forall t, u | (t, u) in inviter' ensures FindMember(members', t, u).Some? {
      FindMemberAppend(members, row, t, u);
    }
    forall k | 0 <= k < |members| ensures JoinedProperly(teams, members', inviter', k) {
      OldJoinsStay(teams, members, inviter, teams, members', inviter', k);
    }
    assert JoinedProperly(teams, members', inviter', |members|);
  }

  lemma StaysRooted(s: State, a: Action)
    requires Rooted(s) && Consistent(s) && Enabled(s, a)
    ensures Rooted(Next(s, a))
  {
    match a
    case CreateTeam(name, owner) =>
      RootedAfterTeam(s.tables.teams, s.tables.members, s.inviter, Team(s.nextTeam, name, owner));
    case AddInvitee(id) =>
      assert RequestOk(s.tables, s.requests[id]);
      RootedAfterJoin(s.tables.teams, s.tables.members, s.inviter, s.nextTeam, s.requests[id].invite);
    case _ =>
  }

  lemma {:induction false} AlwaysRooted(s: State, run: seq<Action>)
    requires Rooted(s) && Consistent(s) && LegalActions(s, run)
    ensures Rooted(AfterActions(s, run))
    decreases |run|
  {
    if run != [] {
      StaysRooted(s, run[0]);
      StaysConsistent(s, run[0]);
      AlwaysRooted(Next(s, run[0]), run[1..]);
    }
  }

  // ---- The tree ----

  /** The user was invited by this member, who may invite. */
  predicate InvitedBy(s: State, team: int, user: int, host: int) {
    && (team, user) in s.inviter && s.inviter[(team, user)] == host
    && FindMember(s.tables.members, team, host).Some?
    && FindMember(s.tables.members, team, host).value.role in {Owner, Admin}
  }

  /** Each user of the path was invited by the next one. */
  ghost predicate Climbs(s: State, team: int, path: seq<int>) {
    forall i, j :: 0 <= i < j < |path| && j == i + 1 ==> InvitedBy(s, team, path[i], path[j])
  }

  /** From every member the invitations lead up to the creator. */
  lemma {:induction false} EveryoneDescendsFromCreator(s: State, k: nat) returns (path: seq<int>)
    requires Rooted(s) && k < |s.tables.members|
    ensures var m := s.tables.members[k];
            path != [] && path[0] == m.userId && Climbs(s, m.teamId, path)
                && IsCreator(s.tables.teams, m.teamId, path[|path| - 1])
    decreases k
  {
    var m := s.tables.members[k];
    assert JoinedProperly(s.tables.teams, s.tables.members, s.inviter, k);
    if m.role == Owner {
      path := [m.userId];
    } else {
      var j :| 0 <= j < k && InvitesAt(s.tables.members, j, m.teamId, s.inviter[(m.teamId, m.userId)]);
      var rest := EveryoneDescendsFromCreator(s, j);
      path := [m.userId] + rest;
      FindMemberAt(s.tables.members, j);
    }
  }

  lemma {:induction false} PositionsFall(s: State, team: int, path: seq<int>, i: nat, j: nat) returns (ki: nat, kj: nat)
    requires Rooted(s) && Climbs(s, team, path) && i < j < |path|
    requires HasMember(s.tables, team, path[0])
    ensures kj < ki < |s.tables.members|
    ensures (s.tables.members[ki].teamId, s.tables.members[ki].userId) == (team, path[i])
    ensures (s.tables.members[kj].teamId, s.tables.members[kj].userId) == (team, path[j])
    decreases j
  {
    var kl: nat;
    if j - 1 > i {
      ki, kl := PositionsFall(s, team, path, i, j - 1);
    } else {
      assert HasMember(s.tables, team, path[i]) by {
        if i > 0 {
          assert InvitedBy(s, team, path[i - 1], path[i]);
        }
      }
      ki := FoundAt(s.tables.members, team, path[i]);
      kl := ki;
    }
    assert JoinedProperly(s.tables.teams, s.tables.members, s.inviter, kl);
    assert InvitedBy(s, team, path[j - 1], path[j]);
    kj :| 0 <= kj < kl && InvitesAt(s.tables.members, kj, team, path[j]);
  }

  /** Going up, positions in the order of joining only get smaller, so nobody invited themselves, however indirectly. */
  lemma {:induction false} NobodyDescendsFromThemselves(s: State, team: int, path: seq<int>, i: nat, j: nat)
    requires Rooted(s) && Climbs(s, team, path) && i < j < |path|
    requires HasMember(s.tables, team, path[0])
    ensures path[i] != path[j]
  {
    var ki, kj := PositionsFall(s, team, path, i, j);
  }

  /** Whoever has invited somebody is an owner or an admin of the team. */
  lemma InviterMayInvite(s: State, team: int, user: int)
    requires Rooted(s) && (team, user) in s.inviter
    ensures IsOwnerOrAdmin(s.tables.members, team, s.inviter[(team, user)])
  {
    var k := FoundAt(s.tables.members, team, user);
    assert JoinedProperly(s.tables.teams, s.tables.members, s.inviter, k);
    var j :| 0 <= j < k && InvitesAt(s.tables.members, j, team, s.inviter[(team, user)]);
    assert s.tables.members[j] in s.tables.members;
  }

  predicate Distinct(path: seq<int>) {
    forall i, j :: 0 <= i < j < |path| ==> path[i] != path[j]
  }

  lemma ClimbsWithoutCycle(s: State, team: int, path: seq<int>)
    requires Rooted(s) && Climbs(s, team, path) && path != [] && HasMember(s.tables, team, path[0])
    ensures Distinct(path)
  {
    forall i, j | 0 <= i < j < |path| ensures path[i] != path[j] {
      NobodyDescendsFromThemselves(s, team, path, i, j);
    }
  }

  /** The invitations lead up from the member to a creator of the team. */
  ghost predicate DescendsFromCreator(s: State, m: TeamMember) {
    exists path :: path != [] && path[0] == m.userId && Climbs(s, m.teamId, path)
                   && IsCreator(s.tables.teams, m.teamId, path[|path| - 1])
  }

  /** The creator of a team is its one and only owner and nobody is a member twice; everybody else was invited, by
      owners and admins, and descends from the creator; and going up the invitations nobody is met twice. */
  ghost predicate InvitationTrees(s: State) {
    && UniqueMembers(s.tables.members)
    && (forall t :: t in s.tables.teams ==> IsMember(s.tables.members, t.id, t.createdBy))
    && (forall m :: m in s.tables.members ==>
          && (m.role == Owner <==> IsCreator(s.tables.teams, m.teamId, m.userId))
          && (m.role == Owner || (m.teamId, m.userId) in s.inviter)
          && DescendsFromCreator(s, m))
    && (forall team, user :: (team, user) in s.inviter ==>
          IsOwnerOrAdmin(s.tables.members, team, s.inviter[(team, user)]))
    && (forall team, path ::
          Climbs(s, team, path) && path != [] && HasMember(s.tables, team, path[0]) ==> Distinct(path))
  }

  lemma MemberInTree(s: State, m: TeamMember)
    requires Rooted(s) && m in s.tables.members
    ensures m.role == Owner <==> IsCreator(s.tables.teams, m.teamId, m.userId)
    ensures m.role == Owner || (m.teamId, m.userId) in s.inviter
    ensures DescendsFromCreator(s, m)
  {
    var k :| 0 <= k < |s.tables.members| && s.tables.members[k] == m;
    assert JoinedProperly(s.tables.teams, s.tables.members, s.inviter, k);
    FindMemberAt(s.tables.members, k);
    var path := EveryoneDescendsFromCreator(s, k);
  }

  lemma RootedIsTrees(s: State)
    requires Rooted(s)
    ensures InvitationTrees(s)
  {
    forall t | t in s.tables.teams ensures IsMember(s.tables.members, t.id, t.createdBy) {
      var i :| 0 <= i < |s.tables.teams| && s.tables.teams[i] == t;
      assert FindMember(s.tables.members, s.tables.teams[i].id, s.tables.teams[i].createdBy).Some?;
    }
    forall m | m in s.tables.members
      ensures m.role == Owner <==> IsCreator(s.tables.teams, m.teamId, m.userId)
      ensures m.role == Owner || (m.teamId, m.userId) in s.inviter
      ensures DescendsFromCreator(s, m)
    {
      MemberInTree(s, m);
    }
    forall team, user | (team, user) in s.inviter
      ensures IsOwnerOrAdmin(s.tables.members, team, s.inviter[(team, user)])
    {
      InviterMayInvite(s, team, user);
    }
    forall team, path | Climbs(s, team, path) && path != [] && HasMember(s.tables, team, path[0])
      ensures Distinct(path)
    {
      ClimbsWithoutCycle(s, team, path);
    }
  }

  /** In every run each team is a tree of invitations below its creator. */
  lemma TeamsAreInvitationTrees(same: TaskQueries.Collation, run: seq<Action>)
    requires LegalActions(Init(same), run)
    ensures InvitationTrees(AfterActions(Init(same), run))
  {
    AlwaysConsistent(Init(same), run);
    AlwaysRooted(Init(same), run);
    RootedIsTrees(AfterActions(Init(same), run));
  }
}
