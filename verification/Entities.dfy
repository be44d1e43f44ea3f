/** The rows of the schema, the roles and statuses, and the commands the services accept. */
module Entities {
  import opened Results
  import opened Decimal

  const STATUS_TODO := "todo"
  const STATUS_IN_PROGRESS := "in_progress"
  const STATUS_DONE := "done"
  const DEFAULT_PRIORITY := "medium"

  predicate ValidStatus(s: string) {
    s == STATUS_TODO || s == STATUS_IN_PROGRESS || s == STATUS_DONE
  }

  /** `Other` stands for any string that is none of the three role constants. */
  datatype Role = Owner | Admin | Member | Other(name: string) {
    predicate CanInvite() {
      Owner? || Admin?
    }

    predicate IsValid() {
      !Other?
    }
  }

  /** The five columns that UPDATE rewrites. */
  datatype Fields = Fields(
    title: string,
    description: string,
    status: string,
    priority: string,
    assignee: Option<int>)

  datatype Task = Task(
    id: int,
    teamId: int,
    fields: Fields,
    createdBy: int,
    createdAt: int,
    updatedAt: int)

  datatype Team = Team(id: int, name: string, createdBy: int)

  datatype TeamMember = TeamMember(teamId: int, userId: int, role: Role)

  datatype Field = Created | Title | Description | Status | Priority | Assignee

  /** One audit entry: a field with its old and new text, NULL being None. */
  datatype Change = Change(field: Field, oldValue: Option<string>, newValue: Option<string>)

  datatype HistoryRequest = HistoryRequest(taskId: int, changedBy: int, change: Change)

  datatype History = History(id: int, request: HistoryRequest, changedAt: int)

  datatype CreateTaskCommand = CreateTaskCommand(
    teamId: int,
    creatorId: int,
    title: string,
    description: string,
    priority: string,
    assigneeId: int)

  datatype UpdateTaskCommand = UpdateTaskCommand(
    taskId: int,
    actorId: int,
    title: Option<string>,
    description: Option<string>,
    status: Option<string>,
    priority: Option<string>,
    assigneeId: Option<int>)

  datatype InviteCommand = InviteCommand(teamId: int, actorId: int, inviteeId: int, role: Role)

  datatype ListFilter = ListFilter(teamId: int, status: string, assigneeId: int, limit: int, offset: int)

  /** `MapPtr` with the decimal printer: how an assignee is written in the log. */
  function Encode(assignee: Option<int>): Option<string> {
    match assignee
    case None => None
    case Some(v) => Some(FormatInt(v))
  }

  function Decode(text: Option<string>): Option<int> {
    match text
    case None => None
    case Some(s) => Some(IntValue(s))
  }

  lemma DecodeEncode(assignee: Option<int>)
    ensures Decode(Encode(assignee)) == assignee
  {
    if assignee.Some? {
      FormatRoundTrip(assignee.value);
    }
  }
}
