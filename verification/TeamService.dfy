/** Creating teams and inviting members. Calls run one at a time here; see Interleaving for overlapping ones. */
module TeamService {
  import opened Results
  import opened Entities
  import opened Store
  import opened Database
  import opened Repositories
  import opened Outcomes

  class Service {
    const db: Server
    const uow: UnitOfWork
    const teams: TeamRepository
    const members: TeamMemberRepository
    const users: UserRepository

    ghost predicate Ready()
      reads db
    {
      && uow.db == db && teams.db == db && members.db == db && users.db == db
      && db.Valid() && db.tx == None
    }

    constructor (db: Server)
      requires db.Valid() && db.tx == None
      ensures Ready() && this.db == db
    {
      this.db := db;
      uow := new UnitOfWork(db);
      teams := new TeamRepository(db);
      members := new TeamMemberRepository(db);
      users := new UserRepository(db);
    }

    method CreateInTx(ctx: Context, ownerId: int, name: string) returns (r: Result<Team>)
      requires teams.db == db && members.db == db
      requires db.Valid() && ctx == InTx && db.tx.Some?
      modifies db, db.faults
      ensures db.Valid() && db.tx.Some? && db.tables == old(db.tables)
      ensures r.Ok? ==> r.value.name == name && r.value.createdBy == ownerId
                        && Legal(old(db.View(ctx)), TeamCreated(r.value))
                        && db.View(ctx) == Apply(old(db.View(ctx)), TeamCreated(r.value))
      ensures r.Err? ==> r.error == Error.Database
      ensures db.faults.Explain(r.Err? && ownerId in old(db.View(ctx)).users)
    {
      ghost var before := db.View(ctx);
      r := teams.Create(ctx, name, ownerId);
      if r.Err? {
        return;
      }
      assert !HasMember(before, r.value.id, ownerId);
      var added := members.Add(ctx, TeamMember(r.value.id, ownerId, Owner));
      if added.Err? {
        return Err(added.error);
      }
    }

    /** The team and its owner row appear together or not at all. */
    method CreateTeam(ownerId: int, name: string) returns (r: Result<Team>)
      requires Ready()
      modifies db, db.faults
      ensures Ready()
      ensures r.Ok? ==> r.value.name == name && r.value.createdBy == ownerId
                        && Legal(old(db.tables), TeamCreated(r.value))
                        && db.tables == Apply(old(db.tables), TeamCreated(r.value))
      ensures r.Ok? ==> db.tables.teams == old(db.tables.teams) + [r.value]
                        && db.tables.members == old(db.tables.members) + [TeamMember(r.value.id, ownerId, Owner)]
      ensures r.Err? ==> r.error == Error.Database && db.tables == old(db.tables)
      ensures db.faults.Explain(r.Err? && ownerId in old(db.tables).users)
    {
      var ctx :- uow.Begin();
      r := CreateInTx(ctx, ownerId, name);
      var failure := uow.End(if r.Ok? then None else Some(r.error));
      if failure.Some? {
        return Err(failure.value);
      }
    }

    /** One legal invitation, or no change and the error the command deserves. */
    method Invite(cmd: InviteCommand) returns (r: Result<()>)
      requires Ready()
      modifies db, db.faults
      ensures Ready()
      ensures r.Ok? ==> Legal(old(db.tables), Invited(cmd)) && db.tables == Apply(old(db.tables), Invited(cmd))
      ensures r.Ok? ==> && IsOwnerOrAdmin(old(db.tables.members), cmd.teamId, cmd.actorId)
                        && (cmd.role == Admin || cmd.role == Member)
                        && cmd.inviteeId in old(db.tables.users)
                        && !IsMember(old(db.tables.members), cmd.teamId, cmd.inviteeId)
                        && db.tables.members
                           == old(db.tables.members) + [TeamMember(cmd.teamId, cmd.inviteeId, cmd.role)]
      ensures !IsOwnerOrAdmin(old(db.tables.members), cmd.teamId, cmd.actorId) ==>
                r == Err(Forbidden) || r == Err(Error.Database)
      ensures r == Err(Forbidden) ==> !IsOwnerOrAdmin(old(db.tables.members), cmd.teamId, cmd.actorId)
      ensures r.Err? ==> db.tables == old(db.tables)
                         && (r.error == Error.Database || InviteVerdict(old(db.tables), cmd) == Some(r.error))
      ensures db.faults.Explain(r == Err(Error.Database))
    {
      InviteOutcome(db.tables, cmd);
      var actor := members.Get(Pool, cmd.teamId, cmd.actorId);
      if actor.Err? {
        return if actor.error == NotFound then Err(Forbidden) else Err(actor.error);
      }
      if !actor.value.role.CanInvite() {
        return Err(Forbidden);
      }
      if !cmd.role.IsValid() || cmd.role == Owner {
        return Err(InvalidRole);
      }
      var user := users.GetByID(Pool, cmd.inviteeId);
      if user.Err? {
        return if user.error == NotFound then Err(UserNotFound) else Err(user.error);
      }
      var added := members.Add(Pool, TeamMember(cmd.teamId, cmd.inviteeId, cmd.role));
      if added.Err? {
        return if added.error == AlreadyExists then Err(AlreadyMember) else Err(added.error);
      }
      return Ok(());
    }
  }
}
