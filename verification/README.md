# A verified model of the team and task service

The service keeps teams, members, tasks and an audit history in MySQL, serves task lists through a versioned
Redis cache, limits requests per user with a Redis script, and reports on teams with three relational queries.
This project models those parts in Dafny and proves what they guarantee over every interleaving of calls and
every failure of a statement or a command.

There are two views of the same code, and lemmas that join them.

* **A state machine** (`Service.dfy`). Any number of list, create, update and invite calls are in flight, each at
  a program point of its use case. An action is one SQL statement, one transaction step or one Redis command of
  one call, and it may succeed, fail without effect, or take effect while its reply is lost. MySQL keeps a log of
  committed states; an update transaction holds its row lock from the UPDATE to the commit, and reads the task
  before it begins. `Reached(ttl, actions)` is the state after any list of actions.
  `created`, `stale`, `invites`, `origin`, `floors`, `announced` and `maxDelay` are history variables: they
  record what happened and decide nothing.
* **The calls as the code writes them** (`MySqlAdapter.dfy`, `RedisAdapter.dfy`, `UseCases.dfy`, and the limiter
  in `RateLimiter.dfy`): classes with methods, loops and early returns, with one parameter per statement that says
  how it ends. Each method is proved equal to a function in `Calls.dfy`. `ListMeaning.dfy`, `UpdateMeaning.dfy` and
  `CreateMeaning.dfy` say what these functions do in the words of the input and the tables, and `SoloRuns.dfy` proves
  that the steps of a call in the state machine, taken in a row, amount to them.

How the cache argument goes: every commit has an index in the log; a version of a team has a *floor*, the last
commit there was when the version began; every cached list has the index of the state it was read from. A call that
reads a version queries the database later than the version began, so the index is never below the floor of the
version the list is stored under, even for a slow reader that stores under a version left behind long ago
(`CacheSafety.dfy`, `CacheRuns.dfy`). Any increase of the version takes in every commit made before it, also those
whose own invalidation was lost.

Where the code differs from what one might expect, the model follows the code:

* MySQL counts an affected row only when a column changes, so an update to values that are already there rolls
  back with "task not found" (`Store.ZeroRowsExactly`). Where updates of a task do not overlap, this never happens to a
  call that has read its task (`SequentialRuns.ReadTasksAreFound`). Where two overlap, it happens to the second exactly
  when the first has written all that the second was going to write, as when both start the task
  (`OverlappingUpdates.OverlapsEnd`, `ExistingTaskNotFound`).
* The old values of the history chain up exactly for tasks that no stale update has hit; `stale` is set at the
  commit of an update that changes a field which no longer holds what had been read. Updates that do not overlap are
  never stale. Two overlapping updates that change one field break the chain, unless the second fails
  as above (`OverlappingUpdates.ChainsCanBreak`).
* A task that an update returns need not have every value asked for: a field that was already right when the call read
  it is not written, and another call may have changed it since (`AskedValues.ReturnedAsAskedExactly`). One call renames
  the task while another starts it and asks for the title it has: the second gets the new title
  (`OverlappingUpdates.AnswerNotAsAsked`).
* Between a commit and its invalidation a member's lists can go back in time: a slow reader may still store an older
  list under the current version (`StaleHits.ListsCanGoBack`). Once the version has been increased they cannot
  (`CacheTheorems.ListsGoForward`).
* `Teams.Create` accepts names of up to 255 characters but the column holds 150, so names of 151 to 255 characters fail
  in the database (`Calls.TeamNamesAcceptedExactly`; internal/migrations/000001_init_schema.up.sql:17).
* A rate-limit window below one millisecond passes the configuration check but limits nothing
  (`RateLimiter.UnlimitedExactly`).
* Nothing checks that the cache's time to live is positive. It has to be: with any other the age of hits has no bound
  (`StaleHits.StalenessBoundedExactly`).
* `TaskRepository.Create` loads the inserted row in a second statement; when that fails the call fails, but the task
  exists and its team is not invalidated (`UnannouncedTasks.FailedReloadLeavesTask`). So a create that fails has added
  its row exactly when the insert took effect and its reply or the reload was lost (`Calls.CreateMeans`).

Files, from the bottom up: `Domain`, `Decimal`, `CacheKeys`, `Sorting`, `Relations` (values and tools); `TaskQueries`,
`TaskUpdates`, `AuditLog`, `Store`, `RedisStore` (what queries, SET lists, history, tables and Redis mean); `Service`,
`Runs`, `StoreSafety`, `ServiceSafety`, `StoreTheorems`, `HistoryIds`, `Effects`, `Failures` (the state machine and
its stored data); `CacheSafety`, `CacheRuns`, `CacheTheorems`, `CreationOrder`, `UnannouncedTasks`, `StaleHits` (the
cache protocol); `Reports`, `CreatorRanking`, `TopCreators`, `HistoryQueries`, `ReportTheorems` (reports, history and
the schema); `RateLimiter`; `Transactions`, `Calls`, `ListMeaning`, `UpdateMeaning`, `CreateMeaning`, `MySqlAdapter`,
`RedisAdapter`, `UseCases`, `SoloRuns` (the calls, what they mean in terms of their input, their own form, and their
steps); `AskedValues`, `SequentialRuns`, `OverlappingUpdates`, `Beginnings` (updates that do not and that do overlap).

## Model

| member | source | states |
|---|---|---|
| `CacheTheorems.ListsAreFresh` | internal/usecase/task/task.go:248-306 | In every run, with any calls and failures in between, a list that is returned is the filtered list of one committed database state, and that state includes every commit made before the last increase of the team's version that preceded the call, so every commit whose invalidation had succeeded by then |
| `CacheTheorems.EveryListAnswers` | internal/usecase/task/task.go:219-306 | In every run, whatever a list call has returned, from the cache or not, is in a state of the log what its own input asks for: the rows with that team, status and assignee, newest first, from the offset up to the limit |
| `CreationOrder.ListedInCommitOrder` | internal/adapter/mysql/task_repository.go:162-165 | In every run the tasks of a returned list are in the order of the commits that added them, newest first |
| `CreationOrder.CreatedAtItsCommit` | internal/migrations/000001_init_schema.up.sql:68-69 | In every run a task's creation time is the time of the commit in the log that added it, which is recorded with the task's team |
| `CacheTheorems.ListsFailExactly` | internal/usecase/task/task.go:205-304 | In every run and for every step, a list call fails exactly where the membership check or the query fails, or the caller is no member, or the filter is bad; no failing cache command is an error |
| `CacheTheorems.ListsBeginExactly` | internal/usecase/task/task.go:193-204 | In every run a new list call fails at once exactly when an id, the limit or the offset is out of range |
| `CacheTheorems.InvalidatedWritesAreVisible` | internal/usecase/task/task.go:455-466 | Once a create or update call has invalidated its team, any list call of the team that begins later answers from a state at or after that commit which holds the task, and lists it if it matches and the list has one page; unless the team was written since, the row is the very one that an update returned |
| `CacheTheorems.HealedCacheIsCoherent` | internal/adapter/redis/task_cache.go:79-125 | In every reachable state in which the team's version has been increased since the team's last commit, by anyone and with or without a reply, a live list under the current version is what the database would list now, whatever invalidations were lost before |
| `CacheTheorems.QuietCacheIsCoherent` | internal/adapter/redis/task_cache.go:79-125 | In particular this holds in every reachable state where all commits of the team have been invalidated |
| `CacheTheorems.ListsGoForward` | internal/usecase/task/task.go:248-306 | In every run, when the version has been increased since the last commit of the team that a returned list shows, every list call of the team that begins later, by anyone and with any filter, returns the list of that same state or a later one |
| `StaleHits.ListsCanGoBack` | internal/usecase/task/task.go:283-304 | Without that, for every time to live, there is a run in which a call has returned a list with a task and a call of the same member for the same list, which begins later, returns one without it |
| `CacheTheorems.HitsAreRecent` | internal/adapter/redis/task_cache.go:95-100 | With a positive time to live, a hit includes every commit older than the time to live plus the longest delay between a query and the storing of its list, even when invalidations fail |
| `StaleHits.StalenessBoundedExactly` | internal/adapter/redis/task_cache.go:95-100 | Over all runs whose lists are stored within a given delay, a number bounds the age of hits if and only if the time to live is positive and the number is at least the time to live plus the delay; for any other there is a run with a hit that misses an older commit |
| `CacheTheorems.FailedGetNeverStores` | internal/usecase/task/task.go:253-304 | A call whose cache read failed never writes to the cache again, whatever else runs |
| `CacheTheorems.ListsGoToMembers` | internal/usecase/task/task.go:205-219 | In every run, whoever receives a list is a member of its team, and the list holds tasks of that team only |
| `CacheRuns.CacheReachedOk` | internal/usecase/task/task.go:283-304 | Every reachable state satisfies the cache invariant: the version counts the invalidations, and each live entry was read at or after the floor of its version |
| `CacheRuns.HitMeaning` | internal/adapter/redis/task_cache.go:51-76 | What is found under a filter and version was stored for that same filter and version, from a state not below the version's floor |
| `CacheSafety.DataLog` | internal/adapter/mysql/task_repository.go:223-359 | Each step of a writing call adds at most one commit, which removes no member and changes no list of another team |
| `CacheKeys.TaskListKeyInjective` | internal/adapter/redis/task_cache.go:153-181 | List keys are equal only for the same filter and version, for every filter that the status check lets through |
| `CacheKeys.KeyspacesDisjoint` | internal/adapter/redis/task_cache.go:146-181 | No list key is a version key, and no rate-limit key is either |
| `CacheKeys.SplitJoin` | internal/adapter/redis/task_cache.go:172-180 | Splitting a key at its colons gives back the parts it was formatted from |
| `Decimal.ParseFormatInt` | internal/usecase/task/task.go:522-529 | The decimal text of an integer, negative ones included, reads back as that integer |
| `Domain.TrimSpaceMeaning` | internal/usecase/task/task.go:125-131 | Trimming takes away the white space around a string and nothing else |
| `RedisAdapter.TaskCache.Get` | internal/adapter/redis/task_cache.go:31-77 | Version first, then the entry under it: a missing version is 0, a missing entry a miss with the version, anything else an error and not a miss |
| `RedisAdapter.TaskCache.Set` | internal/adapter/redis/task_cache.go:79-108 | Stores the list under the given version with the expiry of the time to live, or not at all, or with a lost reply |
| `RedisAdapter.TaskCache.InvalidateTeam` | internal/adapter/redis/task_cache.go:110-125 | Adds one to the team's version, a missing one counting as 0, unless the command fails |
| `ServiceSafety.ReachedOk` | internal/usecase/task/task.go:121-467 | Every reachable state satisfies every invariant of the stored data, and every call in flight may still rely on what it checked |
| `StoreTheorems.AssigneesAreMembers` | internal/adapter/mysql/report_repository.go:157-205 | In every run every assignee is a member of the task's team, so the report of invalid assignees is empty; creators and authors of history are members too |
| `StoreTheorems.OwnershipHolds` | internal/adapter/mysql/team_repository.go:41-84 | In every run each team has one owner row, that of its recorded creator, no admin exists, and every other member was invited by that owner |
| `StoreTheorems.CompletionHolds` | internal/usecase/task/task.go:348-406 | In every run, stale updates included, a task has a completion time exactly when it is done, its status is one of three, and its title is trimmed, not empty and at most 255 characters |
| `StoreTheorems.HistoryAgreesWithRow` | internal/adapter/mysql/task_repository.go:310-335 | In every run, concurrent or not, replaying a task's new values over the task as created gives the row; a field's last entry tells its column, and a field without entry has its created value |
| `StoreTheorems.HistoryChainsExactly` | internal/adapter/mysql/task_repository.go:310-335 | The history chains from old to new values exactly when no stale update hit the task; then undoing it gives the created task and each field's entries link up |
| `SequentialRuns.SequentialHistoriesChain` | internal/usecase/task/task.go:324-462 | In every run in which no two updates of one task overlap, whatever else interleaves or fails, every history chains, undoes to the created task and replays to the row |
| `SequentialRuns.ReadTasksAreFound` | internal/adapter/mysql/task_repository.go:298-308 | In every such run, an update call that has read its task never ends in "task not found" |
| `SequentialRuns.SequentialAnswersAreAsAsked` | internal/usecase/task/task.go:345-466 | In every such run, the task that an update commits and returns has all values asked for |
| `OverlappingUpdates.OverlapsEnd` | internal/usecase/task/task.go:324-462 | From any reachable state with a task that nobody is writing, two updates by members that both read it before either writes, whatever allowed change each asks for, are a run: the first returns what it asked for; the second ends in "task not found" exactly when the first has written all that it would write, and otherwise returns and leaves its changes merged into the first's task; the task becomes stale exactly when both change one field and the second does not fail |
| `OverlappingUpdates.ChainsCanBreak` | internal/usecase/task/task.go:324-462 | Where both change one field and the first has not written all that the second would, the task's history does not chain in the state so reached |
| `OverlappingUpdates.ExistingTaskNotFound` | internal/adapter/mysql/task_repository.go:298-308 | Where the first has written all that the second would, the second has ended in "task not found", though the task exists and the caller is a member |
| `OverlappingUpdates.AnswerNotAsAsked` | internal/usecase/task/task.go:345-466 | Otherwise the second's answer is as it asked exactly when the first has left alone every asked field that the second read as already right |
| `OverlappingUpdates.OverlapsHappen` | internal/usecase/task/task.go:324-462 | All three go wrong in runs from the empty service: a history that does not chain, an existing task not found, an answer without a value asked for |
| `AskedValues.ReturnedAsAskedExactly` | internal/usecase/task/task.go:345-466 | In every run, the task that an update commits and returns has all values asked for exactly when every asked field that was read as already right was still right in the row it met |
| `AuditLog.UpdateHistoryMeaning` | internal/usecase/task/task.go:345-449 | The entries of one update replay the row it met to the row it left, and chain exactly if no changed field was stale |
| `AuditLog.UndoReplay` | internal/usecase/task/task.go:506-529 | On a chained history, folding the old values backwards undoes folding the new values |
| `TaskUpdates.SetListMeaning` | internal/adapter/mysql/task_repository.go:241-295 | For every diff the use case can make, no field is unsupported, placeholders and arguments pair up, and running the SET list on any row moves exactly the changed columns of the wanted task into it |
| `Store.ZeroRowsExactly` | internal/adapter/mysql/task_repository.go:287-308 | The update reports no affected row exactly when there is no such task or every column it writes already holds the wanted value; otherwise it leaves the merged row |
| `Calls.FailedUpdateChangesNothing` | internal/adapter/mysql/task_repository.go:229-358 | The statements write a copy of the tables; whichever of them fails, with or without effect on the copy, the rollback leaves the tables outside unchanged, unless only the commit's reply is lost |
| `Calls.RunUpdateKeepsOutside` | internal/adapter/mysql/task_repository.go:287-347 | At no statement before the commit does anyone else see a write of the transaction |
| `Calls.CommittedUpdateWritesBoth` | internal/adapter/mysql/task_repository.go:310-358 | Whenever the commit takes effect, the tables are the old ones with the merged row and exactly one new history entry per change, in order, and an answer is that row |
| `Transactions.InsertAllWritesAll` | internal/adapter/mysql/task_repository.go:310-335 | Without a failure the loop of history inserts leaves in the copy one row per change, with consecutive ids, and nothing else changed |
| `Calls.UpdateIsIdempotent` | internal/usecase/task/task.go:309-467 | Repeating a successful update with nothing in between returns the same task with the same completion time, writes no row and no history, and does not invalidate |
| `UpdateMeaning.UpdateCallEnds` | internal/usecase/task/task.go:309-467 | In the fields of the input, and for every failure: each error exactly when it applies; otherwise the task with every value asked for, its completion time, and one history entry for each field that changes, by the caller and under the column's name; written only if a field changes, and wholly or not at all |
| `UpdateMeaning.AssigneeAlone` | internal/usecase/task/task.go:317-322 | An update of the assignee alone, by a member, to a member or to nobody, succeeds and leaves that assignee |
| `Calls.CreateMeans` | internal/usecase/task/task.go:121-191 | A create adds one row, with the trimmed title, status todo, no completion time and the database's time as creation and update time, exactly when its checks pass, the references hold and the insert takes effect; it returns that row exactly when also neither the reply nor the reload is lost, and a failed create has changed the tables exactly when one of them was; a failed one never invalidates |
| `CreateMeaning.CreateCallEnds` | internal/usecase/task/task.go:121-191 | In the fields of the input, and for every failure: "invalid input", "forbidden" and "assignee is no member" each exactly when they apply, and otherwise the whole new row and tables, or the failure of a statement |
| `UnannouncedTasks.FailedReloadLeavesTask` | internal/adapter/mysql/task_repository.go:65-118 | From any reachable state, a create call whose checks pass is a run in which the insert succeeds, the reload fails, the call ends in an error, the row is there and the cache is untouched |
| `ListMeaning.ListCallEnds` | internal/usecase/task/task.go:193-307 | How a list call ends, in the words of its input and for every failure: which error comes exactly when; on a hit, what is held under the current version for the input; otherwise the rows with the input's team, its trimmed status if that is not blank and its assignee if one is given, newest first, from the offset up to the limit. Only after a miss are they stored, under the version read and with the time to live; a failing cache is no error |
| `Calls.BuiltQueryMeans` | internal/adapter/mysql/task_repository.go:120-181 | For all four filter shapes every argument meets its own placeholder, and the query filters, sorts newest first, skips the offset and stops at the limit |
| `Calls.InviteMeans` | internal/usecase/team/team.go:134-220 | For every failure: an invitation adds a plain member exactly when an owner or admin invites a known user who is no member and the insert takes effect; "invalid input", "forbidden", "user not found" and "already a member" each come exactly when they apply, and change nothing |
| `Calls.TeamNamesAcceptedExactly` | internal/usecase/team/team.go:84-113 | For every caller, name and failure: a blank name, one of more than 255 characters and an id that is not positive are invalid input; the team is stored with its owner exactly when the trimmed name has at most 150 characters, the caller is known and the transaction takes effect; anything else fails in the database |
| `TaskQueries.AllMatchingMeaning` | internal/adapter/mysql/task_repository.go:162-165 | The unpaged list holds exactly the matching rows, each once, and no other order of them satisfies the ORDER BY |
| `TaskQueries.PaginationComplete` | internal/adapter/mysql/task_repository.go:120-202 | Walking the pages with any page size shows every matching task exactly once, in order |
| `MySqlAdapter.TaskRepository.Create` | internal/adapter/mysql/task_repository.go:65-118 | Insert and reload as two statements: the row stays when the reload fails, and an id is used up in any case |
| `MySqlAdapter.TaskRepository.List` | internal/adapter/mysql/task_repository.go:120-202 | The query built step by step, and scanned row by row with its nullable columns, returns the filtered, sorted and paged list |
| `MySqlAdapter.TaskRepository.Update` | internal/adapter/mysql/task_repository.go:223-359 | The loops over the changes build the SET list and write row and history to an open transaction, which ends in a commit or a rollback; an error leaves the stored tables as they were unless the commit's reply was lost |
| `MySqlAdapter.TaskRepository.History` | internal/adapter/mysql/task_repository.go:361-439 | Over a legal store, the scanned records are exactly the stored entries of the task, each once, with the name and e-mail of its author, nulls decoded, in the order of time and id |
| `HistoryQueries.ScannedHistory` | internal/adapter/mysql/task_repository.go:367-429 | For every store with known authors, the join with the authors loses and repeats no entry, and scanning its rows gives exactly the task's history in order |
| `ReportTheorems.HistoryListsEverything` | internal/adapter/mysql/task_repository.go:361-439 | In every run the history call gives every entry of the task with its author, in the order of the commits |
| `MySqlAdapter.TeamRepository.CreateWithOwner` | internal/adapter/mysql/team_repository.go:24-91 | The two inserts write to an open transaction, each of which may fail, and which ends in a commit or a rollback; an error leaves the tables as they were unless the commit's reply was lost |
| `Calls.TeamAndOwnerTogether` | internal/adapter/mysql/team_repository.go:24-91 | Wherever it fails, the team and its owner row appear together or not at all, and they appear exactly when both inserts are possible and answered and the commit takes effect |
| `MySqlAdapter.TeamRepository.AddMember` | internal/adapter/mysql/team_repository.go:198-228 | Adds a plain member; a user who is one already is refused and nothing changes |
| `MySqlAdapter.ReportRepository.GetTeamStatistics` | internal/adapter/mysql/report_repository.go:22-81 | Over a legal store, one line per team in id order with members and recently finished tasks counted separately, as `Reports.StatisticsCount` says |
| `MySqlAdapter.ReportRepository.GetTopTaskCreators` | internal/adapter/mysql/report_repository.go:83-155 | Over a legal store, exactly the first three creators of each team by the tasks they created, with their places, in order, as `TopCreators.ReportIsTopThree` says |
| `MySqlAdapter.ReportRepository.FindTasksWithInvalidAssignees` | internal/adapter/mysql/report_repository.go:157-227 | Names, in id order, exactly the tasks whose assignee is no member, and is empty exactly when there are none; no null assignee comes to the scan, and a failing scan gives an error and no partial report |
| `UseCases.Tasks.Create` | internal/usecase/task/task.go:121-191 | The checks in the code's order, the insert, and the invalidation, as one specified call, which ends as `CreateMeaning` says |
| `UseCases.Tasks.List` | internal/usecase/task/task.go:193-307 | Cache first, database on a miss or an error, and a store only after a miss, under the version read, as one specified call, which ends as `ListMeaning` says |
| `UseCases.Tasks.Update` | internal/usecase/task/task.go:309-467 | Read, checks, diff, transaction and invalidation, as one specified call, which ends as `UpdateMeaning` says; the team is invalidated only if a row was written |
| `UseCases.Tasks.History` | internal/usecase/task/task.go:469-504 | An answer goes only to a member of the task's team and is the task's whole history; "forbidden", "not found" and "invalid input" are each given exactly when they apply |
| `UseCases.Teams.Create` | internal/usecase/team/team.go:84-113 | Checks the trimmed name, then creates the team with its owner |
| `UseCases.Teams.Invite` | internal/usecase/team/team.go:134-220 | The trimmed and lower-cased address, then owner or admin only, then a known user, then a new member row |
| `SoloRuns.UpdateStepsAreTheCall` | internal/usecase/task/task.go:309-467 | From any reachable state where nobody holds the task's row, the run that goes on with the steps of one update reaches the state in which the specified call ends: answer, tables, invalidation, and no stale update |
| `SoloRuns.CreateStepsAreTheCall` | internal/usecase/task/task.go:121-191 | The same for the run that goes on with a create call |
| `SoloRuns.ListStepsAreTheCall` | internal/usecase/task/task.go:193-307 | The same for the run that goes on with a list call |
| `SoloRuns.InviteStepsAreTheCall` | internal/usecase/team/team.go:134-220 | The same for the run that goes on with an invitation |
| `SoloRuns.CreateTeamStepIsTheCall` | internal/usecase/team/team.go:84-113 | Creating a team is one step, with the tables of the specified call |
| `SoloRuns.UpdateIsIdempotentWhenReached` | internal/usecase/task/task.go:309-467 | Idempotence of updates in every reachable state, without further assumptions |
| `SoloRuns.ReachedCallsEndWell` | internal/usecase/task/task.go:121-467 | From every reachable state and for every failure, the create, list and update calls end as their meanings say, without further assumptions |
| `Failures.CreateFailsAt` | internal/usecase/task/task.go:121-191 | At any point of a run, a create call ends in an error when a statement fails, and in success when only its invalidation does |
| `Failures.UpdateFailsAt` | internal/usecase/task/task.go:309-467 | The same for an update call |
| `Failures.InviteFailsAt` | internal/usecase/team/team.go:134-220 | The same for an invitation |
| `Reports.StatisticsMeaning` | internal/adapter/mysql/report_repository.go:26-45 | For every legal store the grouped double LEFT JOIN with COUNT DISTINCT gives one line per team in id order, with members and recently finished tasks as if counted separately, zeros included |
| `Reports.StatisticsCount` | internal/adapter/mysql/report_repository.go:26-45 | Told by counting: one line for every team and no other, in id order, with the number of its members and of its tasks that are done and were completed at the given time or later |
| `Reports.InvalidAssigneesMeaning` | internal/adapter/mysql/report_repository.go:182-198 | The scanned report names, in id order, exactly the tasks whose assignee is no member, and no null reaches the scan |
| `CreatorRanking.TopCreatorsMeaning` | internal/adapter/mysql/report_repository.go:90-136 | For every legal store and month the report lists exactly the first min(3, n) of each team's ranking, with positions 1, 2, 3, team by team |
| `TopCreators.ReportIsTopThree` | internal/adapter/mysql/report_repository.go:83-155 | Told by counting: of two listed creators of a team the one in front created more tasks in the month, or as many and has the smaller id; so it is between a listed and an omitted one; the places of a team are 1, 2, 3, or as many of them as it has creators, each once; every line names its team and user and counts that user's tasks |
| `CreatorRanking.RankingMeaning` | internal/adapter/mysql/report_repository.go:112-122 | A team's ranking holds each user with a task in the month once, by count descending and id ascending, without ties |
| `CreatorRanking.OmittedRankLast` | internal/adapter/mysql/report_repository.go:124-135 | A creator left out ranks strictly after every one listed, and is left out only where more than three created tasks |
| `CreatorRanking.CountsAddUp` | internal/adapter/mysql/report_repository.go:90-110 | The counts of all creators of a team add up to the team's tasks in the month |
| `ReportTheorems.StoreIsLegal` | internal/migrations/000001_init_schema.up.sql:1-131 | Every reachable state respects the primary keys, the unique e-mail addresses and the foreign keys of users, teams, members, tasks and history |
| `HistoryIds.ReachedUnique` | internal/migrations/000001_init_schema.up.sql:106-108 | In every run history ids are unique, across tasks and across the transactions that are still open |
| `ReportTheorems.StatisticsAreRight` | internal/adapter/mysql/report_repository.go:22-81 | Both meanings of the statistics hold in every reachable state |
| `ReportTheorems.TopCreatorsAreRight` | internal/adapter/mysql/report_repository.go:83-155 | Both meanings of the creator report hold, and the counts add up, in every reachable state |
| `ReportTheorems.PagesAreComplete` | internal/adapter/mysql/task_repository.go:120-202 | In every reachable state the pages together show every matching task once, in order |
| `RateLimiter.PassedInAnyInterval` | internal/adapter/redis/rate_limiter.go:11-59 | In every run the requests of a user that pass in any half-open interval of k windows are at most (k + 1) times the limit, plus one per limiter failure in the interval |
| `RateLimiter.PassedWithinWindows` | internal/adapter/redis/rate_limiter.go:11-59 | The same for intervals of any length, with the number of windows that cover it |
| `RateLimiter.LimiterIsExact` | internal/adapter/redis/rate_limiter.go:39-59 | Among other users and without failures, each window admits exactly its first `limit` requests; its requests are contiguous and within its length, the first request after its end opens the next and is admitted; every stored counter has an expiry |
| `RateLimiter.VerdictsExactly` | internal/controller/middleware/rate_limit.go:28-70 | For every request of every run, failures included: an unknown user is turned away and counts nothing; a request whose limiter call fails passes; any other is admitted exactly when it is among the first `limit` requests counted in its window, those without a reply included |
| `RateLimiter.UsersAreIndependent` | internal/adapter/redis/rate_limiter.go:43-50 | What a user is told is what the user would be told alone |
| `RateLimiter.UnlimitedExactly` | internal/config/validation.go:17-27 | Of the windows the configuration accepts, exactly those below one millisecond admit any number of requests at one moment |
| `RateLimiter.RateLimiterClient.RunScript` | internal/adapter/redis/rate_limiter.go:11-19 | INCR, then PEXPIRE on the first count, as one step; a time that is not positive deletes the counter |
| `RateLimiter.Limiter.Allow` | internal/adapter/redis/rate_limiter.go:39-59 | One run of the script; allowed exactly while its count is within the limit, and an error, not a refusal, when there is no reply |
| `RateLimiter.Limiter.Limit` | internal/controller/middleware/rate_limit.go:28-70 | An unknown user is turned away and changes no counter; an error of the limiter lets the request pass; otherwise it passes exactly when fewer than `limit` were counted in the open window |

## Left out

- OverlappingUpdates.OverlapsEnd: is about the order read, read, commit, commit without failures; for any other interleaving `StoreTheorems.HistoryChainsExactly`, `AskedValues.ReturnedAsAskedExactly` and `Store.ZeroRowsExactly` say when the three things go wrong.
- CacheTheorems.QuietCacheIsCoherent: assumes that Redis never drops a version counter; cached lists may be dropped at any time.
- CacheTheorems.HitsAreRecent: the storing delay is measured over the run, since nothing in the code bounds it; clocks of the service, MySQL and Redis are one non-decreasing clock.
- StaleHits.StalenessBoundedExactly: go-redis reads a time to live of exactly -1 nanosecond as "keep the old expiry", which is not modelled.
- RateLimiter.PassedInAnyInterval: counts windows of whole milliseconds, as the script does; a key counts as gone from the moment of its expiry on.
- SoloRuns.UpdateStepsAreTheCall: the failing cases of single calls are covered by the methods and functions of the call, the interleaved ones by the state machine.
- UseCases.Teams.Invite: lower-casing is a parameter, since it is that of the standard library, and the notification has no effect on the data.
- CreatorRanking.TopCreatorsMeaning: the month and the seven days of the statistics are given as bounds; MySQL's calendar functions are not modelled.
- HTTP handlers, DTOs, routing, metrics, logging, configuration loading, start-up and shutdown.
- Registration, login, tokens and password hashing; a registered user appears in the state machine as one inserted row.
- Listing a user's teams, task comments, and deletions by foreign-key cascade: no code here deletes or edits members, teams or users.
- JSON encoding of cached lists is the identity; a value that does not decode is a cache error.
- MySQL internals: collation (equality is exact), DATETIME rounding, the length of TEXT columns, AUTO_INCREMENT and counters beyond 64 bits. Statements are atomic, a row lock is held from the UPDATE to the end of the transaction, and the database clock does not go back.
- Characters are Dafny characters, and a length is the number of them, as the code counts runes.
