/** The cache when calls come one after the other and invalidations succeed: every list, cached or not, is the one
    the database would give now. */
module Coherence {
  import opened Results
  import opened Entities
  import opened Patch
  import opened Store
  import opened TaskQueries
  import opened CacheKeys
  import opened TaskListCache

  /** A cache whose every list is what the database would answer now. */
  ghost predicate CoherentWith(same: Collation, tasks: seq<Task>, entries: map<string, seq<Task>>) {
    forall f :: TeamTasksKey(f) in entries ==> entries[TeamTasksKey(f)] == Listing(same, tasks, f)
  }

  /** Dropping the lists of the written team is enough: those of other teams did not change. */
  lemma CoherentAfterInvalidation(same: Collation, tasks: seq<Task>, tasks': seq<Task>, entries: map<string,
                                  seq<Task>>, team: int)
    requires CoherentWith(same, tasks, entries)
    requires forall f: ListFilter :: f.teamId != team ==> Listing(same, tasks', f) == Listing(same, tasks, f)
    ensures CoherentWith(same, tasks', WithoutTeam(entries, team))
  {
    forall f | TeamTasksKey(f) in WithoutTeam(entries, team)
      ensures WithoutTeam(entries, team)[TeamTasksKey(f)] == Listing(same, tasks', f)
    {
      InvalidationIsExact(entries, team, f);
    }
  }

  /** Caching the answer to one query cannot spoil the answer to another. */
  lemma CoherentAfterSet(same: Collation, tasks: seq<Task>, entries: map<string, seq<Task>>, f: ListFilter)
    requires CoherentWith(same, tasks, entries)
    ensures CoherentWith(same, tasks, entries[TeamTasksKey(f) := Listing(same, tasks, f)])
  {
    forall g ensures TeamTasksKey(g) == TeamTasksKey(f) ==> g == f {
      KeyInjective(g, f);
    }
  }

  /** A committed task call touches lists of its own team only. */
  lemma CallTouchesOneTeam(same: Collation, s: Tables, e: Event, team: int)
    requires WellFormed(s) && Legal(s, e)
    requires e.TaskCreated? ==> e.create.teamId == team
    requires e.TaskUpdated? ==> FindTask(s.tasks, e.update.taskId).value.teamId == team
    ensures forall f: ListFilter :: f.teamId != team ==>
            Listing(same, Apply(s, e).tasks, f) == Listing(same, s.tasks, f)
  {
    forall f: ListFilter | f.teamId != team ensures Listing(same, Apply(s, e).tasks, f) == Listing(same, s.tasks, f) {
      match e
      case TaskCreated(_, task, _) =>
        ListingAfterInsert(same, s.tasks, task, f);
      case TaskUpdated(cmd, at, _) =>
        forall t | t in s.tasks && t.id == cmd.taskId ensures t.teamId == team {
          var k :| 0 <= k < |s.tasks| && s.tasks[k] == t;
          FindTaskAt(s.tasks, k);
        }
        ListingAfterUpdate(same, s.tasks, cmd.taskId, Patched(FindTask(s.tasks, cmd.taskId).value.fields, cmd), at, f);
      case _ =>
    }
  }

  // ---- Runs of calls, lists and evictions ----

  datatype Node = Node(tables: Tables, entries: map<string, seq<Task>>)

  datatype Step = Call(call: Event) | Ask(query: ListFilter) | Evict(key: string)

  predicate Possible(n: Node, step: Step) {
    step.Call? ==> Legal(n.tables, step.call)
  }

  /** The team whose lists a call invalidates. */
  function WrittenTeam(s: Tables, e: Event): Option<int>
    requires Legal(s, e)
  {
    match e
    case TaskCreated(cmd, _, _) => Some(cmd.teamId)
    case TaskUpdated(cmd, _, _) => Some(FindTask(s.tasks, cmd.taskId).value.teamId)
    case _ => None
  }

  /** A call invalidates its team; a list that is not cached is read and cached, unless the server refuses it. */
  function Do(same: Collation, n: Node, step: Step): Node
    requires Possible(n, step)
  {
    match step
    case Call(e) =>
      var team := WrittenTeam(n.tables, e);
      Node(Apply(n.tables, e), if team.Some? then WithoutTeam(n.entries, team.value) else n.entries)
    case Ask(f) =>
      if TeamTasksKey(f) in n.entries || f.limit < 0 || f.offset < 0 then n
      else n.(entries := n.entries[TeamTasksKey(f) := Listing(same, n.tables.tasks, f)])
    case Evict(key) => n.(entries := n.entries - {key})
  }

  predicate PossibleSteps(same: Collation, n: Node, steps: seq<Step>)
    decreases |steps|
  {
    steps != [] ==> Possible(n, steps[0]) && PossibleSteps(same, Do(same, n, steps[0]), steps[1..])
  }

  function DoAll(same: Collation, n: Node, steps: seq<Step>): Node
    requires PossibleSteps(same, n, steps)
    decreases |steps|
  {
    if steps == [] then n else DoAll(same, Do(same, n, steps[0]), steps[1..])
  }

  /** What a list call returns: the cached list if there is one. */
  function Answer(same: Collation, n: Node, f: ListFilter): seq<Task> {
    if TeamTasksKey(f) in n.entries then n.entries[TeamTasksKey(f)] else Listing(same, n.tables.tasks, f)
  }

  lemma StaysCoherent(same: Collation, n: Node, step: Step)
    requires WellFormed(n.tables) && CoherentWith(same, n.tables.tasks, n.entries) && Possible(n, step)
    ensures var n' := Do(same, n, step); WellFormed(n'.tables) && CoherentWith(same, n'.tables.tasks, n'.entries)
  {
    match step
    case Call(e) =>
      ApplyKeepsWellFormed(n.tables, e);
      var team := WrittenTeam(n.tables, e);
      if team.Some? {
        CallTouchesOneTeam(same, n.tables, e, team.value);
        CoherentAfterInvalidation(same, n.tables.tasks, Apply(n.tables, e).tasks, n.entries, team.value);
      }
    case Ask(f) => CoherentAfterSet(same, n.tables.tasks, n.entries, f);
    case Evict(_) =>
  }

  lemma {:induction false} RunStaysCoherent(same: Collation, n: Node, steps: seq<Step>)
    requires WellFormed(n.tables) && CoherentWith(same, n.tables.tasks, n.entries) && PossibleSteps(same, n, steps)
    ensures var n' := DoAll(same, n, steps); CoherentWith(same, n'.tables.tasks, n'.entries)
    decreases |steps|
  {
    if steps != [] {
      StaysCoherent(same, n, steps[0]);
      RunStaysCoherent(same, Do(same, n, steps[0]), steps[1..]);
    }
  }

  /** In every such run every list answers like the database, hit or miss. */
  lemma ListsAreCurrent(same: Collation, steps: seq<Step>, f: ListFilter)
    requires PossibleSteps(same, Node(EMPTY, map[]), steps)
    ensures var n := DoAll(same, Node(EMPTY, map[]), steps); Answer(same, n, f) == Listing(same, n.tables.tasks, f)
  {
    RunStaysCoherent(same, Node(EMPTY, map[]), steps);
  }
}
