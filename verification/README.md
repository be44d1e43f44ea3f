# Team task manager: a verified model

The service keeps users, teams, memberships, team tasks and an audit log in MySQL, and caches task lists in Redis.
This project models everything below the HTTP handlers that changes or reads those tables and that cache, and proves
what the design relies on:

- **The audit log.** An update writes a row and one log entry per changed column in one transaction. In every run of
  committed calls the log of a row is chained column by column, can be undone back to the columns of the creation and
  replayed to the current ones, and comes back from the history query in recording order however coarse the clock is
  (`AuditLog`). When updates overlap, the second may silently write back a column it has only read; then
  undoing still ends at the columns of the creation in every run (`OverlappingLog`), but chaining and
  replaying can fail (`LostUpdate` gives the run). `Faithfulness` says exactly when: the history of a row is faithful
  at every moment if and only if each update of that row that writes sees the current columns; and after any update, if
  and only if the log before it was faithful to what that update had read. Overlapping requests amount to the same
  calls one after the other as long as no update overwrites what it has not seen (`Serializability`).
- **All or nothing.** Any statement of any repository may fail. A failed call leaves every table as it was. Its error
  is the one the command deserves, or a database error, and then a command was refused on the way: where nothing is
  refused, a call succeeds exactly when its checks on the data do, except that an unregistered owner of a new team
  and a negative page are left to the server to refuse (`Faults`, `Database`, `Repositories`, `TaskService`,
  `TeamService`).
- **The list cache.** Keys are injective for arbitrary status texts, the invalidation pattern of a team matches exactly
  that team's keys, and in serial runs with successful invalidations every list, hit or miss, is the database's
  (`CacheKeys`, `TaskListCache`, `Coherence`). With overlapping readers, writers and scans, `CacheSafety` says
  which commits a hit may have missed. The repository's README (line 145) says that creating or updating invalidates
  the team's cache; `Races` gives a run in which every invalidation succeeds and a stale list stays behind.
  `CacheFreshness` gives the condition: a reader caches a current list, whatever list of the team it has asked for, if
  and only if the team still has the rows it had at the read; and if all readers of a team do, its lists are current
  as soon as its invalidations have succeeded.
- **Membership.** Under any interleaving, assignees, creators and authors of log entries belong to the right team, so
  the consistency query finds nothing (`Membership`), and each team is a tree of invitations below its one owner
  (`Invitations`).
- **Queries.** The dynamically built list query, its pages, and the analytics queries with their joins, groups and
  window are modelled as written and shown equal to direct definitions (`TaskQueries`, `Analytics`, `TopCreators`).

What each call answers and which columns and entries it writes is spelled out over the rows of the tables in `Outcomes`,
with the texts and comparisons of the source.

Services and repositories are classes over a `Server` whose statements may fail at any time; their contracts tie the
new tables to functions and events of `Store`, about which the run theorems are proved. Overlapping requests are a
state machine of single repository and cache calls (`Interleaving`). `dafny verify dfyconfig.toml` checks the project.

Assumptions: auto-increment ids are never reused, not even after a rollback; the server clock does not go back; the
driver reports changed rows (the connection string does not ask for found rows); `SCAN` returns at least the matching
keys that are present from its start to its end; status equality in SQL is an arbitrary relation `same`.

## Model

| member | source | states |
|---|---|---|
| AuditLog.HistoryIsFaithful | internal/service/task_service.go:173-225 | in every run of committed calls, what the history query returns for a created row starts with its only `created` entry, undoes to the columns of the creation, replays to the current ones, is chained for every column and folds to the current status |
| AuditLog.LogExplainsRun | internal/service/task_service.go:198-213 | between any two moments of a run a row's log only grows, and the added part explains the change of its columns, backwards, forwards and column by column |
| AuditLog.CallExplained | internal/service/task_service.go:193-213 | a committed call keeps the identity of every existing row, only appends to its log, and what it appends explains how its columns changed |
| AuditLog.ChainLinks | internal/service/task_service.go:267-290 | in a chained log the next entry of a column starts at the value where the previous one ended, and the last one ends at the current value |
| AuditLog.ChainStart | internal/service/task_service.go:267-290 | in a chained log the first entry of a column starts at the value of the creation; a column without entries did not change |
| AuditLog.DiffChained | internal/service/task_service.go:227-255 | the entries of one update are chained for every column |
| AuditLog.CreationLogged | internal/service/task_service.go:87-113 | a creation adds the row and starts its log with one `created` entry and nothing else |
| AuditLog.EveryTaskWasCreated | internal/service/task_service.go:88-97 | every row of a run comes from a creation of that run, so the history theorem covers all rows |
| AuditLog.ListByTaskIsExact | internal/repository/task_history_repository.go:48-53 | the query returns every entry of the row once, by time and, at equal times, by id |
| AuditLog.ListByTaskIsRecordingOrder | internal/repository/task_history_repository.go:48-62 | sorting by time and id returns the entries in the order in which they were recorded, even when times repeat |
| AuditLog.UpdateIsIdempotent | internal/service/task_service.go:188-196 | repeating a command that succeeded is legal exactly with no entries, and then leaves all tables as they are |
| OverlappingLog.UndoSurvivesOverlap | internal/service/task_service.go:173-225 | in every run of overlapping requests, undoing what the history query returns from the current columns gives the columns of the creation |
| OverlappingLog.UndoneStays | internal/service/task_service.go:198-213 | no step changes where the log of a row leads back to, not even an update of a stale version |
| OverlappingLog.OriginAfterUpdate | internal/service/task_service.go:198-213 | after an update of a stale version all versions read so far still lead back to the same columns |
| OverlappingLog.UndoIsOrigin | internal/service/task_service.go:267-290 | undoing leads, for each column, to the old value of its first entry, or to the current value if it has none |
| Serializability.OverlapIsSerial | internal/service/task_service.go:71-121 | overlapping requests in which every update sees current columns leave the same tables as their calls made one after the other in commit order |
| Serializability.UpdateIsCallIff | internal/service/task_service.go:173-217 | the commit of an update does what the serial call does if and only if the row still has the columns that were read, or nothing is to be written |
| Serializability.StepIsCall | internal/service/team_service.go:91-130 | any other committing step, with checks made before the transaction, is a legal serial call at its commit |
| Faithfulness.FaithfulUnlessOverwritten | internal/service/task_service.go:173-225 | for each row created in a run of overlapping requests, its history is faithful at every later moment if and only if every later update of this row that writes sees the current columns; then it is faithful at the end |
| Faithfulness.FaithfulIffNeverOverwritten | internal/service/task_service.go:198-213 | from any consistent state with a faithful history of a row, the history stays faithful along a run if and only if no update of that row overwrites columns it has not seen; updates of other rows do not matter |
| Faithfulness.StepFaithfulIff | internal/service/task_service.go:198-213 | after any step the history of a row is faithful if and only if it was before or, when the step writes the row, if and only if the log was faithful to what that update had read |
| Faithfulness.FaithfulIffReadFaithful | internal/service/task_service.go:263-290 | appending the entries of an update leaves a faithful log if and only if the log was faithful to the version the update had read |
| LostUpdate.FaithfulnessCanFail | internal/service/task_service.go:177-217 | a concrete legal run of two overlapping updates after which the title is not chained, and replaying the history does not give the current columns |
| LostUpdate.ExistingTaskReportedMissing | internal/repository/task_repository.go:144-151 | a concrete legal run after which an update of an existing row, with a change to write, is refused as if the row were missing |
| Races.UpdateReversibleIffNotOverlapped | internal/service/task_service.go:198-213 | the entries of a committed update lead back to the columns it replaced if and only if those are the columns it had read |
| Races.RefusedIffAlreadyWritten | internal/repository/task_repository.go:144-151 | an update of an existing row is refused as missing if and only if it has something to write and another update has already given the row those values |
| Races.StaleListCanRemain | internal/service/task_service.go:118-158 | a concrete legal run at whose end all requests are finished, all invalidations have succeeded and a cached list is stale |
| CacheFreshness.ListsCurrentUnlessOvertaken | internal/service/task_service.go:141-158 | in every interleaved run in which readers of a team cache only while the team has the rows they read, every cached list of the team is current once all its invalidations have succeeded |
| CacheFreshness.CachesCurrentIff | internal/service/task_service.go:147-158 | along a run, readers of a team cache current lists, whatever lists of the team they ask for, if and only if none caches after the team's rows have changed since its read |
| CacheFreshness.WriteBackIsCurrentIff | internal/service/task_service.go:158 | the same for one step: what is cached is current for every query of the team if and only if the team's rows are as they were read |
| CacheFreshness.ListsAgreeIff | internal/repository/task_repository.go:89-114 | two tables answer every list query of a team alike if and only if they hold the same rows of the team |
| Patch.UndoDiff | internal/service/task_service.go:263-290 | the entries of an update, undone from the new version, give the old one, including an absent assignee |
| Patch.RedoDiff | internal/service/task_service.go:263-290 | the entries of an update, replayed on the old version, give the new one |
| Patch.DiffIsMinimal | internal/service/task_service.go:227-255 | there is exactly one entry for each column that differs and none for the others; no entries if and only if all five columns agree |
| Patch.StepsMakeDiff | internal/service/task_service.go:234-252 | the column-by-column steps add up to the patched version and to the diff between the version read and the version patched |
| Patch.PatchIsIdempotent | internal/service/task_service.go:227-255 | applying a command twice is applying it once, with nothing to record the second time |
| Patch.TaskPatch.Record | internal/service/task_service.go:263-265 | appends one entry with the patch's row and actor |
| Patch.TaskPatch.SetString | internal/service/task_service.go:267-273 | sets the named text column if a value is given and records it exactly if it differs; nothing else changes |
| Patch.TaskPatch.SetTexts | internal/service/task_service.go:234-236 | the three text columns are set and recorded in order |
| Patch.TaskPatch.SetStatus | internal/service/task_service.go:275-281 | sets the status and records it exactly if it differs |
| Patch.TaskPatch.SetAssignee | internal/service/task_service.go:283-290 | sets the assignee and records it, printed, exactly if it differs, absence included |
| Decimal.NumeralText | internal/service/task_service.go:287 | numerals have the usual digits, the most significant first, and a sign only below zero |
| Entities.DecodeEncode | internal/utils/ptr.go:11-23 | the printed assignee of the log can be read back, absence included |
| Decimal.FormatRoundTrip | internal/service/task_service.go:287-288 | reading a printed integer gives the integer |
| TaskService.Service.CreateTask | internal/service/task_service.go:71-121 | on success the tables change by one legal creation, whose columns and entry are those of the command, and, if the invalidation worked, the cache by that team's lists; on any failure nothing changes; the error is deserved, or it and a lost invalidation come from a refused command |
| TaskService.Service.DoCreate | internal/service/task_service.go:87-116 | the unit of work adds the row and its entry together or changes nothing, and fails only if a command was refused |
| TaskService.Service.CreateInTx | internal/service/task_service.go:88-113 | inside the transaction the row and its `created` entry are added together; committed tables stay untouched |
| TaskService.Service.UpdateTask | internal/service/task_service.go:173-225 | on success the tables change by one legal update and the row returned is the new one, with the commanded columns; on any failure nothing changes; the error is deserved, so an existing row is never reported missing, or it comes from a refused command |
| TaskService.Service.DoUpdate | internal/service/task_service.go:177-220 | the unit of work is one legal update or changes nothing |
| TaskService.Service.WriteIfChanged | internal/service/task_service.go:193-216 | without changes nothing is written and the row is returned as it is; with changes the update is written, one legal update in both cases |
| TaskService.Service.WriteInTx | internal/service/task_service.go:198-216 | the row gets its new columns, one entry per change follows in order, and the row returned is the new one |
| TaskService.Service.UpdateInTx | internal/service/task_service.go:177-217 | inside the transaction the whole update happens or an error is returned; committed tables stay untouched |
| TaskService.Service.BuildPatch | internal/service/task_service.go:227-255 | the patched row differs only in the commanded columns and comes with exactly the entries of the difference; refusals are deserved |
| TaskService.Service.AddAll | internal/service/task_service.go:209-213 | inserts one row per entry, in order, and stops at the first failure |
| TaskService.Service.ListTasks | internal/service/task_service.go:132-161 | with a coherent cache the answer is the database's list, hit or miss, newest first, and the cache stays coherent; in any case only this query's entry may be written, and unless the cache refuses a command the call is the read-through step |
| TaskService.Service.Fetch | internal/service/task_service.go:147-160 | the database's list is returned and, unless the cache refuses it, cached |
| TaskService.Service.GetHistory | internal/service/task_service.go:292-307 | members of the row's team get its history; the errors say what is missing |
| TaskService.Service.EnsureMember | internal/service/task_service.go:313-324 | succeeds only for members and refuses only non-members |
| TaskService.Service.ResolveAssignee | internal/service/task_service.go:326-341 | a non-positive id means nobody; anybody else must be a member |
| TaskService.Service.Invalidate | internal/service/task_service.go:118 | the discarded error leaves the team's lists dropped or the cache unchanged |
| TeamService.Service.CreateTeam | internal/service/team_service.go:50-78 | the team and its owner's membership appear together or not at all |
| TeamService.Service.CreateInTx | internal/service/team_service.go:53-72 | inside the transaction both rows are added; it fails only for an unknown owner or a refused command |
| TeamService.Service.Invite | internal/service/team_service.go:91-130 | one legal invitation by an owner or admin, or no change and the deserved error or a refused command |
| Outcomes.CreateOutcome | internal/service/task_service.go:71-79 | creating is forbidden exactly to users without a membership of the team, and the assignee is refused exactly if a positive id has none |
| Outcomes.UpdateOutcome | internal/service/task_service.go:178-194 | an update is answered `not found` exactly without a row, `forbidden` exactly to non-members, `invalid status` exactly for a text other than todo, in_progress and done, and the assignee is refused exactly if a positive id has no membership |
| Outcomes.InviteOutcome | internal/service/team_service.go:91-127 | inviting is forbidden exactly to users who are neither owner nor admin; then the role must be admin or member, the invitee registered, and not a member yet, in this order |
| Outcomes.CreationContents | internal/service/task_service.go:81-109 | one row with the given texts, status todo, the given priority or medium, and the assignee if positive; one `created` entry by the creator; nothing else changes |
| Outcomes.UpdatedColumns | internal/service/task_service.go:227-255 | given texts, status, priority and assignee replace the old ones, missing ones stay, and a non-positive assignee means nobody |
| Outcomes.UpdateEntries | internal/service/task_service.go:263-290 | one entry by the actor for each of the five columns that changes, with its old and new text, and no other |
| Outcomes.UpdateTouchesOneTask | internal/repository/task_repository.go:125-129 | other rows, users, teams and memberships stay as they were |
| Outcomes.KeysHold | migrations/001_init_schema.up.sql:1-63 | in every run of committed calls ids and memberships are unique, every reference of a row is to an existing row, and the entries of one row have increasing ids and times that do not go back |
| Outcomes.TeamContents | internal/service/team_service.go:53-68 | a new team comes with an owner membership of its creator; an invitation adds one membership with the offered role |
| Database.UnitOfWork.Begin | internal/infrastructure/unit_of_work.go:29-39 | the closure's context carries a transaction that starts from the committed tables |
| Database.UnitOfWork.End | internal/infrastructure/unit_of_work.go:34-43 | after an error of the closure or of the commit the tables are those before; otherwise those of the transaction; no transaction stays open |
| Database.UnitOfWork.Commit | internal/infrastructure/unit_of_work.go:43 | publishes all writes of the transaction or none |
| Repositories.TaskRepository.Create | internal/repository/task_repository.go:35-60 | adds a row with a fresh id through the executor of the context and returns that row |
| Repositories.TaskRepository.InsertRow | internal/repository/task_repository.go:41-57 | the insert fails only on a foreign key or a refused command, and yields the id of the row added |
| Repositories.TaskRepository.GetByID | internal/repository/task_repository.go:62-79 | finds the row seen through the executor; `not found` only if there is none |
| Repositories.TaskRepository.List | internal/repository/task_repository.go:89-114 | returns the page of matching rows, by strictly decreasing id; negative limits and offsets are refused |
| Repositories.TaskRepository.Update | internal/repository/task_repository.go:125-154 | success only if a column of an existing row changed; `not found` only if none did |
| Repositories.TaskRepository.ExecUpdate | internal/repository/task_repository.go:131-147 | rewrites the five columns of the addressed row and reports the number of changed rows |
| Repositories.TaskHistoryRepository.Add | internal/repository/task_history_repository.go:28-46 | appends one entry with a fresh id and the server's time; fails only on a foreign key or a refused command |
| Repositories.TaskHistoryRepository.ListByTask | internal/repository/task_history_repository.go:48-62 | returns the sorted entries of one row |
| Repositories.TeamMemberRepository.Add | internal/repository/team_member_repository.go:28-48 | adds a membership unless the pair exists, and says so if and only if it does |
| Repositories.TeamMemberRepository.Get | internal/repository/team_member_repository.go:50-67 | looks the membership up by its key |
| Repositories.TeamMemberRepository.IsTeamMember | internal/service/membership.go:11-22 | a missing membership is the answer no; other errors are passed on |
| Repositories.TeamRepository.Create | internal/repository/team_repository.go:27-44 | adds a team with a fresh id and returns it |
| Repositories.UserRepository.GetByID | internal/repository/user_repository.go:61-72 | finds a user; `not found` only if there is none |
| Store.NoRowChangedIff | internal/repository/task_repository.go:144-151 | no row counts as changed if and only if the row is missing or has all five values already |
| Store.FindTaskUpdated | internal/repository/task_repository.go:125-129 | after an update a lookup sees the new columns in the addressed row and every other row as before |
| Store.RunKeepsWellFormed | migrations/001_init_schema.up.sql:20-63 | in every run the primary keys stay unique, every foreign key of the five tables is met and each row's log is in order |
| CacheKeys.KeyInjective | internal/infrastructure/cache/task_cache.go:80-83 | two queries share a key if and only if they are the same query, whatever text the status is |
| CacheKeys.KeyText | internal/infrastructure/cache/task_cache.go:55-83 | keys and patterns are the texts that the format strings describe |
| CacheKeys.LabelledNumeral | internal/infrastructure/cache/task_cache.go:81-82 | a labelled numeral at the end of a key can be read off whatever precedes it |
| CacheKeys.TeamOfKey | internal/infrastructure/cache/task_cache.go:81-82 | the team can be read off a key whatever follows it |
| CacheKeys.PatternHitsOwnTeam | internal/infrastructure/cache/task_cache.go:54-57 | the pattern of a team matches a key if and only if it is a key of that team |
| CacheKeys.GlobIsPrefix | internal/infrastructure/cache/task_cache.go:55 | a pattern that ends in its only star matches exactly the texts it is a prefix of |
| TaskListCache.InvalidationIsExact | internal/infrastructure/cache/task_cache.go:54-76 | after an invalidation no list of the team is left and every other list is as before |
| TaskListCache.Cache.Get | internal/infrastructure/cache/task_cache.go:24-39 | a hit returns what is stored under the key |
| TaskListCache.Cache.Set | internal/infrastructure/cache/task_cache.go:41-52 | writes one entry; an error leaves it written or not |
| TaskListCache.Cache.Scan | internal/infrastructure/cache/task_cache.go:57-65 | finds exactly the matching keys, in any order, possibly repeated |
| TaskListCache.Cache.Del | internal/infrastructure/cache/task_cache.go:71-73 | removes exactly the given keys; an error leaves them removed or not |
| TaskListCache.Cache.InvalidateTeam | internal/infrastructure/cache/task_cache.go:54-76 | success removes all lists of the team and no other; an error leaves that done or not |
| Coherence.ListsAreCurrent | internal/service/task_service.go:132-161 | in every serial run of calls with successful invalidations, lists and evictions, each list answers like the database, hit or miss |
| Coherence.CallTouchesOneTeam | internal/service/task_service.go:222 | a call changes lists of its own team only |
| Coherence.CoherentAfterInvalidation | internal/service/task_service.go:118 | dropping the written team's lists is enough to keep the cache current |
| Coherence.CoherentAfterSet | internal/service/task_service.go:158 | caching one answer spoils no other |
| CacheSafety.HitsAreCurrentOrOvertaken | internal/service/task_service.go:141-158 | in every interleaved run a hit is its own query's list as of some commit, and each later commit to the team has an invalidation pending or lost, or one that the entry was written after; without such a commit the hit is current |
| CacheSafety.StaysTracked | internal/infrastructure/cache/task_cache.go:54-76 | every step of readers, writers, scans, deletes and expiry keeps the invariant behind it |
| CacheSafety.ScanReturnsEnough | internal/infrastructure/cache/task_cache.go:57-65 | a scan returns every key of the team that was there before it began |
| CacheSafety.WriteTouchesOneTeam | internal/service/task_service.go:222 | an overlapping commit changes lists of one team only, even when it writes a stale version |
| Membership.TasksNameMembersOnly | internal/repository/analytics_repository.go:91-102 | in every interleaved run assignees, creators and authors of entries are members of the row's team and the consistency query is empty |
| Membership.InconsistentTasksExact | internal/repository/analytics_repository.go:91-102 | the consistency query finds exactly the rows assigned to a non-member, in order of id |
| Membership.StaysConsistent | internal/service/task_service.go:71-121 | every step keeps members, rows, entries and unfinished requests consistent |
| Membership.RequestOkStays | internal/service/task_service.go:72-79 | a check made before the transaction is still true at the write, because membership only grows |
| Invitations.TeamsAreInvitationTrees | internal/service/team_service.go:53-72 | in every interleaved run the creator is a team's one owner, nobody is a member twice, everybody descends from the creator by invitations of owners and admins, and climbing these invitations meets nobody twice |
| Invitations.NobodyDescendsFromThemselves | internal/service/team_service.go:91-127 | chains of invitations have no cycles |
| Invitations.EveryoneDescendsFromCreator | internal/service/team_service.go:101-121 | from every member the invitations lead up to the creator |
| TaskQueries.BuildListQuery | internal/repository/task_repository.go:89-106 | the query has as many placeholders as arguments, and the server's reading of it returns the filtered, ordered page on every table |
| TaskQueries.ParseJoined | internal/repository/task_repository.go:103-105 | joined conditions read back as the columns, each bound to its own argument |
| TaskQueries.BoundsMeanFilter | internal/repository/task_repository.go:90-101 | the bound conditions hold of a row exactly when the filter matches it |
| TaskQueries.SelectedIsExact | internal/repository/task_repository.go:103-105 | each row of the team with the status and the assignee asked for is listed once, by strictly decreasing id |
| TaskQueries.ListingIsPage | internal/repository/task_repository.go:103-106 | a list holds the selected rows from the offset on, up to the limit |
| TaskQueries.ListingIsNewestFirst | internal/repository/task_repository.go:103-106 | every list has strictly decreasing ids and only rows that were asked for |
| TaskQueries.PagesAreComplete | internal/repository/task_repository.go:103-106 | the pages until the first empty one give every matching row once, newest first, none longer than the limit |
| Analytics.TeamStatsExact | internal/repository/analytics_repository.go:25-39 | one row per team, by strictly increasing id, with the number of users that have a membership and the number of rows with status done that were updated since the cutoff, teams without either included |
| Analytics.MembersCounted | internal/repository/analytics_repository.go:29-35 | counting distinct members undoes the multiplication by the second join |
| Analytics.DoneTasksCounted | internal/repository/analytics_repository.go:30-36 | counting distinct recently done rows undoes the multiplication by the first join |
| Analytics.GroupsAreTeams | internal/repository/analytics_repository.go:34-37 | every team has a group, and every group is a team |
| TopCreators.TopCreatorsExact | internal/repository/analytics_repository.go:57-74 | exactly the creators ranked one to three in their team, with exact counts, in strict order of team and rank |
| TopCreators.RankedMeans | internal/repository/analytics_repository.go:60-70 | a listed creator has created rows of the team since the cutoff, exactly as many as stated, and comes after exactly the creators with more, or as many and a lower id |
| TopCreators.PositionIsRank | internal/repository/analytics_repository.go:64-67 | the row number is one more than the number of creators ahead |
| TopCreators.RanksHaveNoGaps | internal/repository/analytics_repository.go:72 | no rank up to three is missing while the team has that many creators |
| TopCreators.RowsPerTeam | internal/repository/analytics_repository.go:57-74 | each team has as many rows as it has creators in the window, but no more than three |
| TopCreators.OmittedComeAfter | internal/repository/analytics_repository.go:66-72 | whoever is left out comes after everyone listed for the team |

## Left out

- HTTP handlers, request and response objects, middleware, error-to-status mapping, configuration and start-up.
- Registration and login (a registered user is only an id), tokens and password hashing.
- Comments: the same membership check followed by one insert.
- Listing the teams of a user: one join that only reads.
- JSON encoding of cached lists and the Redis and MySQL client libraries.
- Integer width: ids, limits and offsets are unbounded; column lengths and other server-side refusals are nondeterministic failures.
- Wall-clock arithmetic: the start of an analytics window is a parameter.
- Cascading deletes: no service deletes users, teams or tasks.
- The closures given to the unit of work are written inline between its beginning and its end.
- The classes run one call at a time; overlapping requests are modelled on values, where the writes of a transaction appear at its commit, its reads see committed tables (a snapshot can only show fewer members, which refuses more), and ids of log entries are handed out at the commit (the row lock makes that the insertion order for one row).
- Database.UnitOfWork.Begin: no unit of work is opened inside another, as no service does that.
- Database.UnitOfWork.Commit: a commit whose answer is lost counts as not committed; in the state machine a request may vanish right after its commit.
- TaskListCache.Cache.Scan: returns exactly the matching keys, because no other call runs meanwhile; the state machine has the weaker guarantee.
- CacheKeys.GlobIsPrefix: of the glob characters only the star is modelled; the others do not occur in the pattern.
- Decimal.FormatRoundTrip: the reader of numerals is defined for the proof; the service never parses the log.
