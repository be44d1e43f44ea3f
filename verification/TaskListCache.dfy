/** The cached lists and their invalidation by scan and delete. */
module TaskListCache {
  import opened Results
  import opened Entities
  import opened CacheKeys
  import opened Faults

  /** What invalidating a team leaves: every key outside the team's prefix, with its list. */
  function WithoutTeam(entries: map<string, seq<Task>>, team: int): map<string, seq<Task>> {
    map k | k in entries && !GlobMatch(TeamPattern(team), k) :: entries[k]
  }

  /** Every list of the team is gone and no list of another team is touched. */
  lemma InvalidationIsExact(entries: map<string, seq<Task>>, team: int, f: ListFilter)
    ensures TeamTasksKey(f) in WithoutTeam(entries, team) <==> TeamTasksKey(f) in entries && f.teamId != team
    ensures f.teamId != team && TeamTasksKey(f) in entries
            ==> WithoutTeam(entries, team)[TeamTasksKey(f)] == entries[TeamTasksKey(f)]
  {
    PatternHitsOwnTeam(team, f);
  }

  class Cache {
    const faults: FaultLog
    var entries: map<string, seq<Task>>

    constructor ()
      ensures entries == map[] && fresh(faults)
    {
      faults := new FaultLog();
      entries := map[];
    }

    method Get(key: string) returns (r: Result<Option<seq<Task>>>)
      modifies faults
      ensures faults.Explain(r.Err?)
      ensures r.Ok? ==> r.value == if key in entries then Some(entries[key]) else None
    {
      var broken := faults.Send();
      if broken {
        return Err(Database);
      }
      return Ok(if key in entries then Some(entries[key]) else None);
    }

    /** An error does not tell whether the entry was written. */
    method Set(key: string, tasks: seq<Task>) returns (r: Result<()>)
      modifies this`entries, faults
      ensures r.Ok? ==> entries == old(entries)[key := tasks]
      ensures r.Err? ==> entries == old(entries) || entries == old(entries)[key := tasks]
      ensures faults.Explain(r.Err?)
    {
      var broken := faults.Send();
      if broken {
        return Err(Database);
      }
      entries := entries[key := tasks];
      broken := faults.Send();
      if broken {
        return Err(Database);
      }
      return Ok(());
    }

    /** The keys that match, all of them, in any order and possibly repeated. */
    method Scan(pattern: string) returns (r: Result<seq<string>>)
      modifies faults
      ensures faults.Explain(r.Err?)
      ensures r.Ok? ==> forall k :: k in r.value <==> k in entries && GlobMatch(pattern, k)
    {
      var found: seq<string> := [];
      var hits := set k | k in entries && GlobMatch(pattern, k);
      var left := hits;
      while left != {}
        invariant left <= hits
        invariant forall k :: k in found <==> k in hits && k !in left
      {
        var k :| k in left;
        var twice := *;
        found := found + if twice then [k, k] else [k];
        left := left - {k};
      }
      var broken := faults.Send();
      if broken {
        return Err(Database);
      }
      return Ok(found);
    }

    method Del(keys: seq<string>) returns (r: Result<()>)
      modifies this`entries, faults
      ensures r.Ok? ==> entries == old(entries) - (set k | k in keys)
      ensures r.Err? ==> entries == old(entries) || entries == old(entries) - (set k | k in keys)
      ensures faults.Explain(r.Err?)
    {
      var broken := faults.Send();
      if broken {
        return Err(Database);
      }
      entries := entries - (set k | k in keys);
      broken := faults.Send();
      if broken {
        return Err(Database);
      }
      return Ok(());
    }

    method InvalidateTeam(team: int) returns (r: Result<()>)
      modifies this`entries, faults
      ensures r.Ok? ==> entries == WithoutTeam(old(entries), team)
      ensures r.Err? ==> entries == old(entries) || entries == WithoutTeam(old(entries), team)
      ensures faults.Explain(r.Err?)
    {
      var iter := Scan(TeamPattern(team));
      if iter.Err? {
        return Err(iter.error);
      }
      var keys: seq<string> := [];
      var next := 0;
      while next < |iter.value|
        invariant next <= |iter.value|
        invariant keys == iter.value[..next]
      {
        keys := keys + [iter.value[next]];
        next := next + 1;
      }
      assert keys == iter.value;
      assert entries - (set k | k in keys) == WithoutTeam(entries, team);
      if |keys| == 0 {
        return Ok(());
      }
      r := Del(keys);
    }
  }
}
