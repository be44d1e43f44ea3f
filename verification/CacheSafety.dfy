/** What a cached list can be, when readers, writers and invalidations overlap in any way. */
module CacheSafety {
  import opened Entities
  import opened Patch
  import opened Store
  import opened TaskQueries
  import opened CacheKeys
  import opened Interleaving
  import opened Membership

  /** The committed tasks after the first n commits. */
  function TasksAt(commits: seq<Commit>, n: nat): seq<Task>
    requires n <= |commits|
  {
    if n == 0 then [] else commits[n - 1].tasks
  }

  /** An entry is the answer the database gave to its own query at some commit. */
  predicate Genuine(same: Collation, commits: seq<Commit>, key: string, e: Entry, now: nat) {
    && key == TeamTasksKey(e.query)
    && e.readAt <= |commits|
    && e.rows == Listing(same, TasksAt(commits, e.readAt), e.query)
    && e.presentSince <= e.setAt < now
  }

  /** After a successful invalidation, only entries written after its scan began are left of its team. */
  predicate Swept(c: Commit, e: Entry) {
    c.outcome.Done? && e.query.teamId == c.team ==> c.outcome.start < e.setAt
  }

  ghost predicate OneTeam(same: Collation, commits: seq<Commit>, i: nat)
    requires i < |commits|
  {
    forall f: ListFilter :: f.teamId != commits[i].team ==>
      Listing(same, TasksAt(commits, i + 1), f) == Listing(same, TasksAt(commits, i), f)
  }

  predicate CommitOk(c: Commit, now: nat) {
    c.at < now && (c.outcome.Done? ==> c.at < c.outcome.start < now)
  }

  predicate PointsAt(commits: seq<Commit>, commit: nat, team: int) {
    commit < |commits| && commits[commit].team == team
  }

  type Cached = map<string, Entry>

  /** What the local variables of a request say about the commits and the cache. */
  ghost predicate RequestTracks(same: Collation, commits: seq<Commit>, cache: Cached, now: nat, r: Request) {
    match r
    case Committed(team, commit) => PointsAt(commits, commit, team)
    case Scanning(team, commit, start) => PointsAt(commits, commit, team) && commits[commit].at < start < now
    case Scanned(team, commit, start, keys) =>
      && PointsAt(commits, commit, team) && commits[commit].at < start < now
      && (forall k :: k in keys ==> GlobMatch(TeamPattern(team), k))
      && (forall k :: k in cache && cache[k].query.teamId == team && cache[k].presentSince <= start ==> k in keys)
    case ListRead(query, rows, readAt) => readAt <= |commits| && rows == Listing(same, TasksAt(commits, readAt), query)
    case _ => true
  }

  ghost predicate EntriesOk(same: Collation, commits: seq<Commit>, cache: Cached, now: nat) {
    && (forall k :: k in cache ==> Genuine(same, commits, k, cache[k], now))
    && (forall i, k :: 0 <= i < |commits| && k in cache ==> Swept(commits[i], cache[k]))
  }

  ghost predicate CommitsOk(same: Collation, tasks: seq<Task>, commits: seq<Commit>, now: nat) {
    && tasks == TasksAt(commits, |commits|)
    && (forall i :: 0 <= i < |commits| ==> OneTeam(same, commits, i))
    && (forall i :: 0 <= i < |commits| ==> CommitOk(commits[i], now))
  }

  /** An invalidation that is still to come belongs to a request that is under way. */
  predicate Owns(r: Request, commit: nat) {
    (r.Committed? || r.Scanning? || r.Scanned?) && r.commit == commit
  }

  ghost predicate PendingOwned(s: State) {
    forall i :: 0 <= i < |s.commits| && s.commits[i].outcome == Pending ==>
        exists id :: id in s.requests && Owns(s.requests[id], i)
  }

  ghost predicate RequestsTrack(s: State) {
    forall id :: id in s.requests ==> RequestTracks(s.same, s.commits, s.cache, s.now, s.requests[id])
  }

  ghost predicate Tracked(s: State) {
    && EntriesOk(s.same, s.commits, s.cache, s.now)
    && CommitsOk(s.same, s.tables.tasks, s.commits, s.now)
    && RequestsTrack(s)
    && PendingOwned(s)
  }

  // ---- Commits ----

  /** A write changes lists of its own team only. */
  lemma WriteTouchesOneTeam(s: State, a: Action, f: ListFilter)
    requires Consistent(s) && Enabled(s, a) && (a.CommitCreate? || a.CommitUpdate?)
    requires f.teamId != Next(s, a).commits[|s.commits|].team
    ensures Listing(s.same, Next(s, a).tables.tasks, f) == Listing(s.same, s.tables.tasks, f)
  {
    match a
    case CommitCreate(id, at) =>
      ListingAfterInsert(s.same, s.tables.tasks, Next(s, a).tables.tasks[|s.tables.tasks|], f);
    case CommitUpdate(id, at) =>
      var r := s.requests[id];
      assert RequestOk(s.tables, r);
      forall t | t in s.tables.tasks && t.id == r.read.id ensures t.teamId == r.read.teamId {
        var k :| 0 <= k < |s.tables.tasks| && s.tables.tasks[k] == t;
        FindTaskAt(s.tables.tasks, k);
      }
      ListingAfterUpdate(s.same, s.tables.tasks, r.read.id, r.after, at, f);
  }

  lemma GenuineAfterCommit(same: Collation, commits: seq<Commit>, key: string, e: Entry, now: nat, c: Commit)
    requires Genuine(same, commits, key, e, now)
    ensures Genuine(same, commits + [c], key, e, now + 1)
  {
  }

  lemma EntriesAfterCommit(same: Collation, commits: seq<Commit>, cache: Cached, now: nat, c: Commit)
    requires EntriesOk(same, commits, cache, now) && c.outcome == Pending
    ensures EntriesOk(same, commits + [c], cache, now + 1)
  {
    forall k | k in cache ensures Genuine(same, commits + [c], k, cache[k], now + 1) {
      GenuineAfterCommit(same, commits, k, cache[k], now, c);
    }
    forall i, k | 0 <= i < |commits + [c]| && k in cache ensures Swept((commits + [c])[i], cache[k]) {
      if i < |commits| {
        assert Swept(commits[i], cache[k]);
      }
    }
  }

  lemma OneTeamAfterCommit(same: Collation, commits: seq<Commit>, c: Commit, i: nat)
    requires i < |commits| && OneTeam(same, commits, i)
    ensures OneTeam(same, commits + [c], i)
  {
  }

  lemma CommitsAfterCommit(same: Collation, tasks: seq<Task>, commits: seq<Commit>, now: nat, c: Commit)
    requires CommitsOk(same, tasks, commits, now) && c.at == now && c.outcome == Pending
    requires forall f: ListFilter :: f.teamId != c.team ==> Listing(same, c.tasks, f) == Listing(same, tasks, f)
    ensures CommitsOk(same, c.tasks, commits + [c], now + 1)
  {
    forall i | 0 <= i < |commits + [c]| ensures OneTeam(same, commits + [c], i) {
      if i < |commits| {
        OneTeamAfterCommit(same, commits, c, i);
      } else {
        assert TasksAt(commits + [c], i) == tasks && TasksAt(commits + [c], i + 1) == c.tasks;
      }
    }
  }

  lemma RequestAfterCommit(same: Collation, commits: seq<Commit>, cache: Cached, now: nat, c: Commit, r: Request)
    requires RequestTracks(same, commits, cache, now, r)
    ensures RequestTracks(same, commits + [c], cache, now + 1, r)
  {
  }

  lemma RequestsAfterCommit(s: State, id: nat, c: Commit, s': State)
    requires RequestsTrack(s) && PendingOwned(s)
    requires id in s.requests && (s.requests[id].AssigneeChecked? || s.requests[id].PatchBuilt?)
    requires s'.same == s.same && s'.commits == s.commits + [c] && s'.cache == s.cache && s'.now == s.now + 1
    requires s'.requests == s.requests[id := Committed(c.team, |s.commits|)]
    ensures RequestsTrack(s') && PendingOwned(s')
  {
    forall n | n in s'.requests ensures RequestTracks(s'.same, s'.commits, s'.cache, s'.now, s'.requests[n]) {
      if n != id {
        RequestAfterCommit(s.same, s.commits, s.cache, s.now, c, s.requests[n]);
      }
    }
    forall i | 0 <= i < |s'.commits| && s'.commits[i].outcome == Pending
      ensures exists n :: n in s'.requests && Owns(s'.requests[n], i)
    {
      if i == |s.commits| {
        assert Owns(s'.requests[id], i);
      } else {
        var n :| n in s.requests && Owns(s.requests[n], i);
        assert Owns(s'.requests[n], i);
      }
    }
  }

  /** A step that commits tasks differing from the ones before in lists of one team only. */
  lemma TracksAfterWrite(s: State, id: nat, c: Commit, s': State)
    requires Tracked(s) && id in s.requests && (s.requests[id].AssigneeChecked? || s.requests[id].PatchBuilt?)
    requires c.at == s.now && c.outcome == Pending && s'.tables.tasks == c.tasks
    requires forall f: ListFilter :: f.teamId != c.team ==>
             Listing(s.same, c.tasks, f) == Listing(s.same, s.tables.tasks, f)
    requires s'.same == s.same && s'.commits == s.commits + [c] && s'.cache == s.cache && s'.now == s.now + 1
    requires s'.requests == s.requests[id := Committed(c.team, |s.commits|)]
    ensures Tracked(s')
  {
    EntriesAfterCommit(s.same, s.commits, s.cache, s.now, c);
    CommitsAfterCommit(s.same, s.tables.tasks, s.commits, s.now, c);
    RequestsAfterCommit(s, id, c, s');
  }

  lemma TracksAfterCommit(s: State, a: Action)
    requires Consistent(s) && Tracked(s) && Enabled(s, a) && (a.CommitCreate? || a.CommitUpdate?)
    ensures Tracked(Next(s, a))
  {
    var c := Next(s, a).commits[|s.commits|];
    forall f: ListFilter | f.teamId != c.team
      ensures Listing(s.same, c.tasks, f) == Listing(s.same, s.tables.tasks, f)
    {
      WriteTouchesOneTeam(s, a, f);
    }
    TracksAfterWrite(s, a.id, c, Next(s, a));
  }

  // ---- The cache ----

  /** A step that leaves the tasks and the commits alone, and of the cache at most removes entries. */
  lemma TracksAfterRemoval(s: State, s': State)
    requires Tracked(s)
    requires s'.same == s.same && s'.tables.tasks == s.tables.tasks && s'.commits == s.commits && s.now <= s'.now
    requires forall k :: k in s'.cache ==> k in s.cache && s'.cache[k] == s.cache[k]
    requires forall id :: id in s'.requests && (id !in s.requests || s'.requests[id] != s.requests[id])
               ==> RequestTracks(s.same, s.commits, s'.cache, s'.now, s'.requests[id])
    requires forall id, i :: id in s.requests && Owns(s.requests[id], i) ==>
             id in s'.requests && Owns(s'.requests[id], i)
    ensures Tracked(s')
  {
  }

  lemma EntriesAfterSet(same: Collation, commits: seq<Commit>, cache: Cached, now: nat, key: string, e: Entry)
    requires EntriesOk(same, commits, cache, now) && Genuine(same, commits, key, e, now + 1) && e.setAt == now
    requires forall i :: 0 <= i < |commits| ==> CommitOk(commits[i], now)
    ensures EntriesOk(same, commits, cache[key := e], now + 1)
  {
    var cache' := cache[key := e];
    forall k | k in cache' ensures Genuine(same, commits, k, cache'[k], now + 1) {
      if k != key {
        assert Genuine(same, commits, k, cache[k], now);
      }
    }
    forall i, k | 0 <= i < |commits| && k in cache' ensures Swept(commits[i], cache'[k]) {
      assert CommitOk(commits[i], now);
      if k != key {
        assert Swept(commits[i], cache[k]);
      }
    }
  }

  /** An overwritten entry keeps its place in a scan: its key was present all along. */
  lemma RequestsAfterSet(s: State, id: nat, key: string, e: Entry, s': State)
    requires RequestsTrack(s) && PendingOwned(s) && id in s.requests && s.requests[id].ListRead?
    requires s'.same == s.same && s'.commits == s.commits && s'.cache == s.cache[key := e] && s'.now == s.now + 1
    requires s'.requests == s.requests - {id}
    requires if key in s.cache then e.presentSince == s.cache[key].presentSince && e.query == s.cache[key].query
             else e.presentSince == s.now
    ensures RequestsTrack(s') && PendingOwned(s')
  {
    forall n | n in s'.requests ensures RequestTracks(s'.same, s'.commits, s'.cache, s'.now, s'.requests[n]) {
      assert RequestTracks(s.same, s.commits, s.cache, s.now, s.requests[n]);
    }
    forall i | 0 <= i < |s'.commits| && s'.commits[i].outcome == Pending
      ensures exists n :: n in s'.requests && Owns(s'.requests[n], i)
    {
      var n :| n in s.requests && Owns(s.requests[n], i);
      assert Owns(s'.requests[n], i);
    }
  }

  lemma TracksAfterWriteBack(s: State, id: nat, key: string, e: Entry, s': State)
    requires Tracked(s) && id in s.requests && s.requests[id].ListRead?
    requires Genuine(s.same, s.commits, key, e, s.now + 1) && e.setAt == s.now
    requires s'.same == s.same && s'.commits == s.commits && s'.cache == s.cache[key := e] && s'.now == s.now + 1
    requires s'.tables == s.tables && s'.requests == s.requests - {id}
    requires if key in s.cache then e.presentSince == s.cache[key].presentSince && e.query == s.cache[key].query
             else e.presentSince == s.now
    ensures Tracked(s')
  {
    EntriesAfterSet(s.same, s.commits, s.cache, s.now, key, e);
    RequestsAfterSet(s, id, key, e, s');
  }

  /** What a reader caches is what it has read, under the key of its own query. */
  lemma SetIsGenuine(s: State, id: nat)
    requires Tracked(s) && Enabled(s, SetList(id))
    ensures var key := TeamTasksKey(s.requests[id].query);
            var e := Next(s, SetList(id)).cache[key];
            Genuine(s.same, s.commits, key, e, s.now + 1) && (key in s.cache ==> e.query == s.cache[key].query)
  {
    var r := s.requests[id];
    var key := TeamTasksKey(r.query);
    assert RequestTracks(s.same, s.commits, s.cache, s.now, r);
    if key in s.cache {
      assert Genuine(s.same, s.commits, key, s.cache[key], s.now);
      KeyInjective(r.query, s.cache[key].query);
    }
  }

  lemma TracksAfterSet(s: State, id: nat)
    requires Tracked(s) && Enabled(s, SetList(id))
    ensures Tracked(Next(s, SetList(id)))
  {
    var key := TeamTasksKey(s.requests[id].query);
    SetIsGenuine(s, id);
    TracksAfterWriteBack(s, id, key, Next(s, SetList(id)).cache[key], Next(s, SetList(id)));
  }

  /** Recording how an invalidation ended: a success needs its team's entries to be swept. */
  lemma CommitSettled(same: Collation, tasks: seq<Task>, commits: seq<Commit>, cache: Cached, now: nat,
                      commit: nat, outcome: Outcome)
    requires CommitsOk(same, tasks, commits, now) && EntriesOk(same, commits, cache, now) && commit < |commits|
    requires outcome.Done? ==> commits[commit].at < outcome.start < now
    requires outcome.Done? ==> forall k :: k in cache && cache[k].query.teamId == commits[commit].team ==>
             outcome.start < cache[k].setAt
    ensures var commits' := commits[commit := commits[commit].(outcome := outcome)];
            CommitsOk(same, tasks, commits', now + 1) && EntriesOk(same, commits', cache, now + 1)
  {
    var commits' := commits[commit := commits[commit].(outcome := outcome)];
    assert forall n :: 0 <= n <= |commits| ==> TasksAt(commits', n) == TasksAt(commits, n);
    forall i | 0 <= i < |commits'| ensures OneTeam(same, commits', i) {
      assert OneTeam(same, commits, i);
    }
    forall i, k | 0 <= i < |commits'| && k in cache ensures Swept(commits'[i], cache[k]) {
      assert Swept(commits[i], cache[k]);
    }
  }

  /** How an invalidation ended matters to no other request. */
  lemma RequestAfterSettling(same: Collation, commits: seq<Commit>, cache: Cached, cache': Cached, now: nat,
                             commit: nat, outcome: Outcome, r: Request)
    requires RequestTracks(same, commits, cache, now, r) && commit < |commits|
    requires forall k :: k in cache' ==> k in cache && cache'[k] == cache[k]
    ensures RequestTracks(same, commits[commit := commits[commit].(outcome := outcome)], cache', now + 1, r)
  {
  }

  lemma RequestsAfterSettling(s: State, s': State, id: nat, outcome: Outcome)
    requires RequestsTrack(s) && PendingOwned(s) && id in s.requests && outcome != Pending
    requires s.requests[id].Committed? || s.requests[id].Scanning? || s.requests[id].Scanned?
    requires forall k :: k in s'.cache ==> k in s.cache && s'.cache[k] == s.cache[k]
    requires s.requests[id].commit < |s.commits|
    requires s'.same == s.same && s'.now == s.now + 1 && s'.requests == s.requests - {id}
    requires s'.commits == Settled(s, s.requests[id].commit, outcome)
    ensures RequestsTrack(s') && PendingOwned(s')
  {
    forall n | n in s'.requests ensures RequestTracks(s'.same, s'.commits, s'.cache, s'.now, s'.requests[n]) {
      RequestAfterSettling(s.same, s.commits, s.cache, s'.cache, s.now, s.requests[id].commit, outcome, s.requests[n]);
    }
    forall i | 0 <= i < |s'.commits| && s'.commits[i].outcome == Pending
      ensures exists n :: n in s'.requests && Owns(s'.requests[n], i)
    {
      var n :| n in s.requests && Owns(s.requests[n], i);
      assert Owns(s'.requests[n], i);
    }
  }

  lemma TracksAfterSettling(s: State, s': State, id: nat, outcome: Outcome)
    requires Tracked(s) && id in s.requests && outcome != Pending
    requires s.requests[id].Committed? || s.requests[id].Scanning? || s.requests[id].Scanned?
    requires forall k :: k in s'.cache ==> k in s.cache && s'.cache[k] == s.cache[k]
    requires var c := s.requests[id].commit;
             && s' == s.(requests := s.requests - {id}, now := s.now + 1, cache := s'.cache,
                  commits := Settled(s, c, outcome))
             && c < |s.commits|
             && (outcome.Done? ==> s.commits[c].at < outcome.start < s.now)
             && (outcome.Done? ==> forall k :: k in s'.cache && s'.cache[k].query.teamId == s.commits[c].team ==>
                  outcome.start < s'.cache[k].setAt)
    ensures Tracked(s')
  {
    assert EntriesOk(s.same, s.commits, s'.cache, s.now);
    CommitSettled(s.same, s.tables.tasks, s.commits, s'.cache, s.now, s.requests[id].commit, outcome);
    RequestsAfterSettling(s, s', id, outcome);
  }

  /** The delete of an invalidation: what it leaves of its team was written after its scan began. */
  lemma TracksAfterDelete(s: State, id: nat)
    requires Tracked(s) && Enabled(s, Delete(id))
    ensures Tracked(Next(s, Delete(id)))
  {
    var s' := Next(s, Delete(id));
    var r := s.requests[id];
    assert RequestTracks(s.same, s.commits, s.cache, s.now, r);
    forall k | k in s'.cache && s'.cache[k].query.teamId == r.team ensures r.start < s'.cache[k].setAt {
      assert Genuine(s.same, s.commits, k, s.cache[k], s.now);
    }
    TracksAfterSettling(s, s', id, Done(r.start));
  }

  /** A request that owes no invalidation vanishes. */
  lemma TracksAfterDrop(s: State, id: nat)
    requires Tracked(s) && id in s.requests
    requires !s.requests[id].Committed? && !s.requests[id].Scanning? && !s.requests[id].Scanned?
    ensures Tracked(Finished(s, id))
  {
    TracksAfterRemoval(s, Finished(s, id));
  }

  lemma TracksAfterAbandon(s: State, id: nat)
    requires Tracked(s) && Enabled(s, Abandon(id))
    ensures Tracked(Next(s, Abandon(id)))
  {
    var r := s.requests[id];
    assert RequestTracks(s.same, s.commits, s.cache, s.now, r);
    if r.Committed? || r.Scanning? || r.Scanned? {
      TracksAfterSettling(s, Next(s, Abandon(id)), id, Failed);
    } else {
      TracksAfterDrop(s, id);
    }
  }

  /** A step that only moves one request on. */
  lemma TracksAfterMove(s: State, id: nat, r: Request)
    requires Tracked(s) && RequestTracks(s.same, s.commits, s.cache, s.now + 1, r)
    requires id in s.requests ==> forall i :: Owns(s.requests[id], i) ==> Owns(r, i)
    ensures Tracked(WithRequest(s, id, r))
  {
    var s' := WithRequest(s, id, r);
    forall i | 0 <= i < |s'.commits| && s'.commits[i].outcome == Pending
      ensures exists n :: n in s'.requests && Owns(s'.requests[n], i)
    {
      var n :| n in s.requests && Owns(s.requests[n], i);
      assert Owns(s'.requests[n], i);
    }
  }

  lemma ScanReturnsEnough(s: State, id: nat, keys: set<string>)
    requires Tracked(s) && Enabled(s, EndScan(id, keys))
    ensures var r := s.requests[id];
            RequestTracks(s.same, s.commits, s.cache, s.now + 1, Scanned(r.team, r.commit, r.start, keys))
  {
    var r := s.requests[id];
    assert RequestTracks(s.same, s.commits, s.cache, s.now, r);
    forall k | k in s.cache && s.cache[k].query.teamId == r.team && s.cache[k].presentSince <= r.start
      ensures k in keys
    {
      assert Genuine(s.same, s.commits, k, s.cache[k], s.now);
      PatternHitsOwnTeam(r.team, s.cache[k].query);
      assert MustReturn(s.cache[k], k, r);
    }
  }

  lemma TracksAfterScanStep(s: State, a: Action)
    requires Tracked(s) && Enabled(s, a) && (a.BeginScan? || a.EndScan?)
    ensures Tracked(Next(s, a))
  {
    var r := s.requests[a.id];
    assert RequestTracks(s.same, s.commits, s.cache, s.now, r);
    match a
    case BeginScan(id) =>
      assert CommitOk(s.commits[r.commit], s.now);
      TracksAfterMove(s, id, Scanning(r.team, r.commit, s.now));
    case EndScan(id, keys) =>
      ScanReturnsEnough(s, id, keys);
      TracksAfterMove(s, id, Scanned(r.team, r.commit, r.start, keys));
  }

  lemma TracksAfterRead(s: State, a: Action)
    requires Tracked(s) && Enabled(s, a) && (a.Miss? || a.ReadList?)
    ensures Tracked(Next(s, a))
  {
    match a
    case Miss(id, _, query) => TracksAfterMove(s, id, Missed(query));
    case ReadList(id) =>
      TracksAfterMove(s, id,
          ListRead(s.requests[id].query, Listing(s.same, s.tables.tasks, s.requests[id].query), |s.commits|));
  }

  lemma TracksAfterInviteCheck(s: State, a: Action)
    requires Tracked(s) && Enabled(s, a) && (a.CheckInviter? || a.FindInvitee?)
    ensures Tracked(Next(s, a))
  {
    match a
    case CheckInviter(id, cmd) => TracksAfterMove(s, id, InviterChecked(cmd));
    case FindInvitee(id) => TracksAfterMove(s, id, InviteeFound(s.requests[id].invite));
  }

  lemma TracksAfterTeamStep(s: State, a: Action)
    requires Tracked(s) && Enabled(s, a) && (a.Register? || a.CreateTeam? || a.AddInvitee? || a.Expire?)
    ensures Tracked(Next(s, a))
  {
    TracksAfterRemoval(s, Next(s, a));
  }

  lemma TracksAfterTaskStep(s: State, a: Action)
    requires Tracked(s) && Enabled(s, a)
    requires a.CheckCreator? || a.CheckAssignee? || a.ReadTask? || a.CheckActor? || a.BuildPatch?
    ensures Tracked(Next(s, a))
  {
    match a
    case CheckCreator(id, cmd) => TracksAfterMove(s, id, CreatorChecked(cmd));
    case CheckAssignee(id) =>
      var cmd := s.requests[id].create;
      TracksAfterMove(s, id, AssigneeChecked(cmd, ResolvedId(cmd.assigneeId)));
    case ReadTask(id, cmd) => TracksAfterMove(s, id, TaskRead(cmd, FindTask(s.tables.tasks, cmd.taskId).value));
    case CheckActor(id) => TracksAfterMove(s, id, ActorChecked(s.requests[id].update, s.requests[id].read));
    case BuildPatch(id) =>
      var r := s.requests[id];
      TracksAfterMove(s, id, PatchBuilt(r.update, r.read, Patched(r.read.fields, r.update)));
  }

  lemma StaysTracked(s: State, a: Action)
    requires Consistent(s) && Tracked(s) && Enabled(s, a)
    ensures Tracked(Next(s, a))
  {
    if a.CommitCreate? || a.CommitUpdate? {
      TracksAfterCommit(s, a);
    } else if a.SetList? {
      TracksAfterSet(s, a.id);
    } else if a.Delete? {
      TracksAfterDelete(s, a.id);
    } else if a.Abandon? {
      TracksAfterAbandon(s, a.id);
    } else if a.BeginScan? || a.EndScan? {
      TracksAfterScanStep(s, a);
    } else if a.Miss? || a.ReadList? {
      TracksAfterRead(s, a);
    } else if a.CheckCreator? || a.CheckAssignee? || a.ReadTask? || a.CheckActor? || a.BuildPatch? {
      TracksAfterTaskStep(s, a);
    } else if a.CheckInviter? || a.FindInvitee? {
      TracksAfterInviteCheck(s, a);
    } else {
      TracksAfterTeamStep(s, a);
    }
  }

  lemma {:induction false} AlwaysTracked(s: State, run: seq<Action>)
    requires Consistent(s) && Tracked(s) && LegalActions(s, run)
    ensures Tracked(AfterActions(s, run))
    decreases |run|
  {
    if run != [] {
      StaysTracked(s, run[0]);
      StaysConsistent(s, run[0]);
      AlwaysTracked(Next(s, run[0]), run[1..]);
    }
  }

  // ---- What a hit can return ----

  /** The commit does not change the list. */
  predicate LeavesList(same: Collation, commits: seq<Commit>, i: nat, f: ListFilter)
    requires i < |commits|
  {
    Listing(same, TasksAt(commits, i + 1), f) == Listing(same, TasksAt(commits, i), f)
  }

  /** Lists of a team change only at commits to that team. */
  lemma {:induction false} SameBetween(same: Collation, commits: seq<Commit>, f: ListFilter, n: nat, m: nat)
    requires n <= m <= |commits|
    requires forall i :: n <= i < m ==> LeavesList(same, commits, i, f)
    ensures Listing(same, TasksAt(commits, m), f) == Listing(same, TasksAt(commits, n), f)
    decreases m - n
  {
    if n < m {
      SameBetween(same, commits, f, n, m - 1);
      assert LeavesList(same, commits, m - 1, f);
    }
  }

  lemma OtherTeamLeavesList(same: Collation, commits: seq<Commit>, i: nat, f: ListFilter)
    requires i < |commits| && OneTeam(same, commits, i) && commits[i].team != f.teamId
    ensures LeavesList(same, commits, i, f)
  {
  }

  lemma SameSinceRead(s: State, f: ListFilter, n: nat)
    requires CommitsOk(s.same, s.tables.tasks, s.commits, s.now) && n <= |s.commits|
    requires forall i :: n <= i < |s.commits| ==> s.commits[i].team != f.teamId
    ensures Listing(s.same, s.tables.tasks, f) == Listing(s.same, TasksAt(s.commits, n), f)
  {
    forall i | n <= i < |s.commits| ensures LeavesList(s.same, s.commits, i, f) {
      OtherTeamLeavesList(s.same, s.commits, i, f);
    }
    SameBetween(s.same, s.commits, f, n, |s.commits|);
  }

  /** The commit may leave the entry stale: the entry's read did not see it, and either its invalidation has not
      succeeded, or the entry was written after that invalidation began, by a reader that had read before the commit. */
  predicate MayStale(c: Commit, i: nat, e: Entry) {
    && e.readAt <= i
    && c.team == e.query.teamId
    && (c.outcome.Done? ==> c.at < c.outcome.start < e.setAt)
  }

  lemma {:induction false} CollationStays(s: State, run: seq<Action>)
    requires LegalActions(s, run)
    ensures AfterActions(s, run).same == s.same
    decreases |run|
  {
    if run != [] {
      CollationStays(Next(s, run[0]), run[1..]);
    }
  }

  /** In every state of every run, a hit for a query is that query's own list as of some commit; and it is the
      current list unless a commit it has not seen is not yet invalidated, lost its invalidation, or was overtaken
      by a slow reader. Every commit it has not seen is of that kind, and an invalidation that is still to come
      has a request under way that will do it. */
  lemma HitsAreCurrentOrOvertaken(same: Collation, run: seq<Action>, f: ListFilter)
    requires LegalActions(Init(same), run)
    requires TeamTasksKey(f) in AfterActions(Init(same), run).cache
    ensures var s := AfterActions(Init(same), run);
            var e := s.cache[TeamTasksKey(f)];
            && e.query == f
            && e.readAt <= |s.commits|
            && s.tables.tasks == TasksAt(s.commits, |s.commits|)
            && e.rows == Listing(same, TasksAt(s.commits, e.readAt), f)
            && (forall i :: e.readAt <= i < |s.commits| && s.commits[i].team == f.teamId ==>
                 MayStale(s.commits[i], i, e))
            && (e.rows == Listing(same, s.tables.tasks, f)
                || exists i :: e.readAt <= i < |s.commits| && MayStale(s.commits[i], i, e))
    ensures PendingOwned(AfterActions(Init(same), run))
  {
    AlwaysConsistent(Init(same), run);
    AlwaysTracked(Init(same), run);
    CollationStays(Init(same), run);
    var s := AfterActions(Init(same), run);
    var e := s.cache[TeamTasksKey(f)];
    assert Genuine(s.same, s.commits, TeamTasksKey(f), e, s.now);
    KeyInjective(f, e.query);
    forall i | e.readAt <= i < |s.commits| && s.commits[i].team == f.teamId ensures MayStale(s.commits[i], i, e) {
      assert Swept(s.commits[i], e);
      assert CommitOk(s.commits[i], s.now);
    }
    if forall i :: e.readAt <= i < |s.commits| ==> s.commits[i].team != f.teamId {
      SameSinceRead(s, f, e.readAt);
    }
  }
}
