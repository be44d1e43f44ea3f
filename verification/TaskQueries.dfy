/** The task list: a query text grown condition by condition with its arguments, what the server makes of
    it, and what it is meant to return. */
module TaskQueries {
  import opened Results
  import opened Entities
  import opened Sql
  import opened Store

  /** How the collation of the status column compares two strings. */
  type Collation = (string, string) -> bool

  // ---- What a list is ----

  predicate Matches(same: Collation, f: ListFilter, t: Task) {
    && t.teamId == f.teamId
    && (f.status != "" ==> same(t.fields.status, f.status))
    && (f.assigneeId > 0 ==> t.fields.assignee == Some(f.assigneeId))
  }

  function Matching(same: Collation, f: ListFilter): Task -> bool {
    (t: Task) => Matches(same, f, t)
  }

  predicate NewestFirst(a: Task, b: Task) {
    a.id > b.id
  }

  /** Every task the filter selects, newest first. */
  function Selected(same: Collation, tasks: seq<Task>, f: ListFilter): seq<Task> {
    Sort(Filter(tasks, Matching(same, f)), NewestFirst)
  }

  /** The page the filter asks for. A negative limit or offset is refused by the server. */
  function Listing(same: Collation, tasks: seq<Task>, f: ListFilter): (r: seq<Task>) {
    if f.limit < 0 || f.offset < 0 then [] else Slice(Selected(same, tasks, f), f.limit, f.offset)
  }

  // ---- The query text and its interpretation ----

  datatype TaskColumn = TeamIdColumn | StatusColumn | AssigneeIdColumn

  datatype Token =
    | SelectTasksWhere
    | Col(column: TaskColumn)
    | EqualsSign
    | Placeholder
    | And
    | OrderByIdDesc
    | Limit
    | Offset

  datatype Arg = IntArg(n: int) | TextArg(s: string)

  datatype Bound = Bound(column: TaskColumn, arg: Arg)

  function Placeholders(query: seq<Token>): nat {
    if query == [] then 0 else (if query[0] == Placeholder then 1 else 0) + Placeholders(query[1..])
  }

  lemma {:induction false} PlaceholdersAppend(a: seq<Token>, b: seq<Token>)
    ensures Placeholders(a + b) == Placeholders(a) + Placeholders(b)
  {
    if a == [] {
      assert a + b == b;
    } else {
      PlaceholdersAppend(a[1..], b);
      assert (a + b)[1..] == a[1..] + b;
    }
  }

  predicate CellEquals(same: Collation, t: Task, b: Bound) {
    match b.column
    case TeamIdColumn => b.arg == IntArg(t.teamId)
    case StatusColumn => b.arg.TextArg? && same(t.fields.status, b.arg.s)
    case AssigneeIdColumn => b.arg.IntArg? && t.fields.assignee == Some(b.arg.n)
  }

  function AllHold(same: Collation, bounds: seq<Bound>): Task -> bool {
    (t: Task) => forall b :: b in bounds ==> CellEquals(same, t, b)
  }

  datatype Parsed = Parsed(bounds: seq<Bound>, rest: seq<Token>, left: seq<Arg>)

  /** Reads `column = ? AND column = ? ...`, giving each placeholder the next argument. */
  function ParseConditions(query: seq<Token>, args: seq<Arg>): Option<Parsed>
    decreases |query|
  {
    if |query| >= 3 && query[0].Col? && query[1] == EqualsSign && query[2] == Placeholder && args != [] then
      var first := Bound(query[0].column, args[0]);
      if |query| > 3 && query[3] == And then
        match ParseConditions(query[4..], args[1..])
        case Some(p) => Some(Parsed([first] + p.bounds, p.rest, p.left))
        case None => None
      else Some(Parsed([first], query[3..], args[1..]))
    else None
  }

  const TAIL := [OrderByIdDesc, Limit, Placeholder, Offset, Placeholder]

  /** The server: parse, bind the arguments by position, select, sort and cut; None is an error. */
  function Execute(same: Collation, query: seq<Token>, args: seq<Arg>, tasks: seq<Task>): Option<seq<Task>> {
    if query == [] || query[0] != SelectTasksWhere then None
    else
      match ParseConditions(query[1..], args)
      case None => None
      case Some(p) =>
        if p.rest == TAIL && |p.left| == 2 && p.left[0].IntArg? && p.left[1].IntArg?
           && p.left[0].n >= 0 && p.left[1].n >= 0 then
          Some(Slice(Sort(Filter(tasks, AllHold(same, p.bounds)), NewestFirst), p.left[0].n, p.left[1].n))
        else None
  }

  // ---- Building the query ----

  function Condition(c: TaskColumn): seq<Token> {
    [Col(c), EqualsSign, Placeholder]
  }

  /** `strings.Join(conditions, " AND ")` */
  function Join(conditions: seq<seq<Token>>): seq<Token> {
    if conditions == [] then []
    else if |conditions| == 1 then conditions[0]
    else conditions[0] + [And] + Join(conditions[1..])
  }

  lemma PlaceholdersOfCondition(c: TaskColumn)
    ensures Placeholders(Condition(c)) == 1
  {
  }

  lemma PlaceholdersOfTail()
    ensures Placeholders(TAIL) == 2
  {
  }

  lemma {:induction false} PlaceholdersOfJoin(conditions: seq<seq<Token>>, columns: seq<TaskColumn>)
    requires |conditions| == |columns| > 0
    requires forall i :: 0 <= i < |columns| ==> conditions[i] == Condition(columns[i])
    ensures Placeholders(Join(conditions)) == |columns|
  {
    var head := Condition(columns[0]);
    PlaceholdersOfCondition(columns[0]);
    if |columns| > 1 {
      PlaceholdersOfJoin(conditions[1..], columns[1..]);
      PlaceholdersAppend(head + [And], Join(conditions[1..]));
      PlaceholdersAppend(head, [And]);
    }
  }

  lemma BuiltPlaceholders(conditions: seq<seq<Token>>, columns: seq<TaskColumn>)
    requires |conditions| == |columns| > 0
    requires forall i :: 0 <= i < |columns| ==> conditions[i] == Condition(columns[i])
    ensures Placeholders([SelectTasksWhere] + Join(conditions) + TAIL) == |columns| + 2
  {
    PlaceholdersOfJoin(conditions, columns);
    PlaceholdersOfTail();
    PlaceholdersAppend([SelectTasksWhere] + Join(conditions), TAIL);
    PlaceholdersAppend([SelectTasksWhere], Join(conditions));
  }

  function Bind(columns: seq<TaskColumn>, values: seq<Arg>): seq<Bound>
    requires |columns| == |values|
  {
    if columns == [] then [] else [Bound(columns[0], values[0])] + Bind(columns[1..], values[1..])
  }

  /** Joined conditions parse back to the columns and, in the same order, the arguments. */
  lemma {:induction false} ParseJoined(conditions: seq<seq<Token>>, columns: seq<TaskColumn>, values: seq<Arg>,
                                       more: seq<Arg>)
    requires |conditions| == |columns| == |values| > 0
    requires forall i :: 0 <= i < |columns| ==> conditions[i] == Condition(columns[i])
    ensures ParseConditions(Join(conditions) + TAIL, values + more)
         == Some(Parsed(Bind(columns, values), TAIL, more))
    decreases |columns|
  {
    var q, args := Join(conditions) + TAIL, values + more;
    if |columns| == 1 {
      assert q[3..] == TAIL;
      assert args[1..] == more;
      assert Bind(columns[1..], values[1..]) == [];
      assert q[0] == Col(columns[0]) && q[1] == EqualsSign && q[2] == Placeholder && q[3] == OrderByIdDesc;
      assert Bind(columns, values) == [Bound(columns[0], values[0])];
    } else {
      ParseJoined(conditions[1..], columns[1..], values[1..], more);
      assert q[4..] == Join(conditions[1..]) + TAIL;
      assert args[1..] == values[1..] + more;
    }
  }

  /** Joined conditions select the rows on which every column equals its argument. */
  lemma ExecuteJoined(same: Collation, tasks: seq<Task>, conditions: seq<seq<Token>>, columns: seq<TaskColumn>,
                      values: seq<Arg>,
                      limit: int, offset: int)
    requires |conditions| == |columns| == |values| > 0
    requires forall i :: 0 <= i < |columns| ==> conditions[i] == Condition(columns[i])
    ensures Execute(same, [SelectTasksWhere] + Join(conditions) + TAIL, values + [IntArg(limit), IntArg(offset)], tasks)
         == if limit >= 0 && offset >= 0
            then Some(Slice(Sort(Filter(tasks, AllHold(same, Bind(columns, values))), NewestFirst), limit, offset))
            else None
  {
    var query := [SelectTasksWhere] + Join(conditions) + TAIL;
    assert query[1..] == Join(conditions) + TAIL;
    ParseJoined(conditions, columns, values, [IntArg(limit), IntArg(offset)]);
  }

  lemma {:induction false} BindAt(columns: seq<TaskColumn>, values: seq<Arg>)
    requires |columns| == |values|
    ensures |Bind(columns, values)| == |columns|
    ensures forall i :: 0 <= i < |columns| ==> Bind(columns, values)[i] == Bound(columns[i], values[i])
  {
    if columns != [] {
      BindAt(columns[1..], values[1..]);
    }
  }

  lemma BoundPairs(f: ListFilter, columns: seq<TaskColumn>, values: seq<Arg>)
    requires |columns| == |values|
    requires columns == [TeamIdColumn] + (if f.status != "" then [StatusColumn] else [])
             + (if f.assigneeId > 0 then [AssigneeIdColumn] else [])
    requires values == [IntArg(f.teamId)] + (if f.status != "" then [TextArg(f.status)] else [])
                     + (if f.assigneeId > 0 then [IntArg(f.assigneeId)] else [])
    ensures Bind(columns, values) == [Bound(TeamIdColumn, IntArg(f.teamId))]
                     + (if f.status != "" then [Bound(StatusColumn, TextArg(f.status))] else [])
                     + (if f.assigneeId > 0 then [Bound(AssigneeIdColumn, IntArg(f.assigneeId))] else [])
  {
    BindAt(columns, values);
  }

  lemma BoundsMeanFilter(same: Collation, f: ListFilter, bounds: seq<Bound>, t: Task)
    requires bounds == [Bound(TeamIdColumn, IntArg(f.teamId))]
                     + (if f.status != "" then [Bound(StatusColumn, TextArg(f.status))] else [])
                     + (if f.assigneeId > 0 then [Bound(AssigneeIdColumn, IntArg(f.assigneeId))] else [])
    ensures AllHold(same, bounds)(t) == Matches(same, f, t)
  {
    assert Bound(TeamIdColumn, IntArg(f.teamId)) in bounds;
    if f.status != "" {
      assert bounds[1] in bounds;
    }
    if f.assigneeId > 0 {
      assert bounds[|bounds| - 1] in bounds;
    }
  }

  lemma BuiltMeaning(same: Collation, tasks: seq<Task>, f: ListFilter, conditions: seq<seq<Token>>,
                     columns: seq<TaskColumn>, values: seq<Arg>)
    requires |conditions| == |columns| == |values|
    requires forall i :: 0 <= i < |columns| ==> conditions[i] == Condition(columns[i])
    requires columns == [TeamIdColumn] + (if f.status != "" then [StatusColumn] else [])
             + (if f.assigneeId > 0 then [AssigneeIdColumn] else [])
    requires values == [IntArg(f.teamId)] + (if f.status != "" then [TextArg(f.status)] else [])
                     + (if f.assigneeId > 0 then [IntArg(f.assigneeId)] else [])
    ensures Execute(same, [SelectTasksWhere] + Join(conditions) + TAIL, values + [IntArg(f.limit), IntArg(f.offset)],
            tasks)
         == if f.limit >= 0 && f.offset >= 0 then Some(Listing(same, tasks, f)) else None
  {
    var bounds := Bind(columns, values);
    ExecuteJoined(same, tasks, conditions, columns, values, f.limit, f.offset);
    BoundPairs(f, columns, values);
    forall t | t in tasks ensures AllHold(same, bounds)(t) == Matching(same, f)(t) {
      BoundsMeanFilter(same, f, bounds, t);
    }
    FilterSameCondition(tasks, AllHold(same, bounds), Matching(same, f));
  }

  method BuildListQuery(f: ListFilter) returns (query: seq<Token>, args: seq<Arg>)
    ensures Placeholders(query) == |args|
    ensures forall same, tasks :: Execute(same, query, args, tasks)
                               == if f.limit >= 0 && f.offset >= 0 then Some(Listing(same, tasks, f)) else None
  {
    ghost var columns := [TeamIdColumn];
    var conditions := [Condition(TeamIdColumn)];
    args := [IntArg(f.teamId)];
    if f.status != "" {
      conditions := conditions + [Condition(StatusColumn)];
      args := args + [TextArg(f.status)];
      columns := columns + [StatusColumn];
    }
    if f.assigneeId > 0 {
      conditions := conditions + [Condition(AssigneeIdColumn)];
      args := args + [IntArg(f.assigneeId)];
      columns := columns + [AssigneeIdColumn];
    }
    query := [SelectTasksWhere] + Join(conditions) + TAIL;
    ghost var values := args;
    args := args + [IntArg(f.limit), IntArg(f.offset)];

    BuiltPlaceholders(conditions, columns);
    forall same, tasks
      ensures Execute(same, query, args, tasks)
           == if f.limit >= 0 && f.offset >= 0 then Some(Listing(same, tasks, f)) else None
    {
      BuiltMeaning(same, tasks, f, conditions, columns, values);
    }
  }

  // ---- Order, pages ----

  lemma FilterUnique(tasks: seq<Task>, keep: Task -> bool)
    requires UniqueTasks(tasks)
    ensures UniqueTasks(Filter(tasks, keep))
  {
    var differ := (a: Task, b: Task) => a.id != b.id;
    FilterPairwise(tasks, keep, differ);
    assert Sorted(Filter(tasks, keep), differ);
  }

  /** The selection lists each task of the team that has the status and the assignee asked for, if any is asked for,
      once, with strictly decreasing ids. */
  lemma SelectedIsExact(same: Collation, tasks: seq<Task>, f: ListFilter)
    requires UniqueTasks(tasks)
    ensures forall t :: t in Selected(same, tasks, f) <==>
              && t in tasks && t.teamId == f.teamId
              && (f.status != "" ==> same(t.fields.status, f.status))
              && (f.assigneeId > 0 ==> t.fields.assignee == Some(f.assigneeId))
    ensures forall i, j :: 0 <= i < j < |Selected(same, tasks, f)| ==>
              Selected(same, tasks, f)[i].id > Selected(same, tasks, f)[j].id
    ensures Sorted(Selected(same, tasks, f), NewestFirst)
  {
    var hits := Filter(tasks, Matching(same, f));
    SortPermutes(hits, NewestFirst);
    SameElements(Selected(same, tasks, f), hits);
    FilterUnique(tasks, Matching(same, f));
    SortSorts(hits, NewestFirst);
    forall i, j | 0 <= i < j < |Selected(same, tasks, f)|
      ensures Selected(same, tasks, f)[i].id > Selected(same, tasks, f)[j].id
    {
      assert NewestFirst(Selected(same, tasks, f)[i], Selected(same, tasks, f)[j]);
    }
  }

  /** A list holds the rows of the selection from the offset on, up to the limit. */
  lemma ListingIsPage(same: Collation, tasks: seq<Task>, f: ListFilter)
    requires f.limit >= 0 && f.offset >= 0
    ensures var all, page := Selected(same, tasks, f), Listing(same, tasks, f);
            && |page| == (if |all| <= f.offset then 0
                          else if |all| - f.offset <= f.limit then |all| - f.offset else f.limit)
            && forall k :: 0 <= k < |page| ==> page[k] == all[f.offset + k]
  {
  }

  /** Every list is in strictly decreasing order of ids and holds tasks of the team with the status and the assignee
      asked for. */
  lemma ListingIsNewestFirst(same: Collation, tasks: seq<Task>, f: ListFilter)
    requires UniqueTasks(tasks)
    ensures var page := Listing(same, tasks, f);
            && (forall i, j :: 0 <= i < j < |page| ==> page[i].id > page[j].id)
            && (forall t :: t in page ==>
                  && t in tasks && t.teamId == f.teamId
                  && (f.status != "" ==> same(t.fields.status, f.status))
                  && (f.assigneeId > 0 ==> t.fields.assignee == Some(f.assigneeId)))
  {
    SelectedIsExact(same, tasks, f);
    if f.limit >= 0 && f.offset >= 0 {
      ListingIsPage(same, tasks, f);
      var all, page := Selected(same, tasks, f), Listing(same, tasks, f);
      forall t | t in page ensures t in all {
        var k :| 0 <= k < |page| && page[k] == t;
        assert all[f.offset + k] in all;
      }
    }
  }

  function PageAt(same: Collation, tasks: seq<Task>, f: ListFilter): nat -> seq<Task> {
    (offset: nat) => Listing(same, tasks, f.(offset := offset))
  }

  lemma PageOf(same: Collation, tasks: seq<Task>, f: ListFilter, offset: nat)
    requires f.limit > 0
    ensures PageAt(same, tasks, f)(offset) == Slice(Selected(same, tasks, f), f.limit, offset)
  {
    FilterSameCondition(tasks, Matching(same, f.(offset := offset)), Matching(same, f));
  }

  /** Paging through a list that does not change, until a page comes back empty, yields every matching task
      exactly once, newest first, and no page is longer than the limit. */
  lemma PagesAreComplete(same: Collation, tasks: seq<Task>, f: ListFilter)
    requires UniqueTasks(tasks) && f.limit > 0
    ensures forall k: nat :: PageAt(same, tasks, f)(k) == Slice(Selected(same, tasks, f), f.limit, k)
    ensures var all := Collect(PageAt(same, tasks, f), Selected(same, tasks, f), f.limit, 0);
            && (forall t :: t in all <==>
                  && t in tasks && t.teamId == f.teamId
                  && (f.status != "" ==> same(t.fields.status, f.status))
                  && (f.assigneeId > 0 ==> t.fields.assignee == Some(f.assigneeId)))
            && (forall i, j :: 0 <= i < j < |all| ==> all[i].id > all[j].id)
    ensures forall k: nat :: |PageAt(same, tasks, f)(k)| <= f.limit
  {
    forall k: nat ensures PageAt(same, tasks, f)(k) == Slice(Selected(same, tasks, f), f.limit, k) {
      PageOf(same, tasks, f, k);
    }
    SelectedIsExact(same, tasks, f);
    assert Selected(same, tasks, f)[0..] == Selected(same, tasks, f);
  }

  // ---- Lists of one team do not see writes to another ----

  lemma ListingAfterInsert(same: Collation, tasks: seq<Task>, row: Task, f: ListFilter)
    requires row.teamId != f.teamId
    ensures Listing(same, tasks + [row], f) == Listing(same, tasks, f)
  {
    FilterAppend(tasks, [row], Matching(same, f));
    FilterNone([row], Matching(same, f));
    assert Filter(tasks + [row], Matching(same, f)) == Filter(tasks, Matching(same, f));
  }

  lemma ListingAfterUpdate(same: Collation, tasks: seq<Task>, id: int, fields: Fields, now: int, f: ListFilter)
    requires forall t :: t in tasks && t.id == id ==> t.teamId != f.teamId
    ensures Listing(same, UpdateRow(tasks, id, fields, now), f) == Listing(same, tasks, f)
  {
    FilterSameWhereKept(UpdateRow(tasks, id, fields, now), tasks, Matching(same, f));
  }
}
