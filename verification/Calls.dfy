/** What each call does from its first to its last step when nothing runs in between, failures included. */
module Calls {
  import opened Domain
  import opened Sorting
  import opened TaskQueries
  import opened TaskUpdates
  import opened Store
  import opened RedisStore
  import opened Service
  import opened Transactions

  // ----- TaskRepository.List

  /** The query text and its arguments, for each of the four filter shapes. */
  function BuildSelect(f: TaskFilter): (SelectTasks, seq<SqlValue>) {
    var conditions, arguments := ["team_id"], [IntValue(f.teamID)];
    var conditions, arguments :=
      if f.status.Some? then conditions + ["status"] else conditions,
      if f.status.Some? then arguments + [TextValue(f.status.value)] else arguments;
    var conditions, arguments :=
      if f.assigneeID.Some? then conditions + ["assignee_id"] else conditions,
      if f.assigneeID.Some? then arguments + [IntValue(f.assigneeID.value)] else arguments;
    (SelectTasks(conditions), arguments + [IntValue(f.limit), IntValue(f.offset)])
  }

  lemma ConditionsMean(f: TaskFilter, row: Task)
    ensures |BuildSelect(f).1| == |BuildSelect(f).0.conditions| + 2
    ensures Satisfies(row, BuildSelect(f).0.conditions, BuildSelect(f).1) <==> Matches(f, row)
  {
    var conditions, arguments := BuildSelect(f).0.conditions, BuildSelect(f).1;
    assert conditions[0] == "team_id" && arguments[0] == IntValue(f.teamID);
    if f.status.Some? {
      assert conditions[1] == "status" && arguments[1] == TextValue(f.status.value);
      assert f.assigneeID.Some? ==> conditions[2] == "assignee_id" && arguments[2] == IntValue(f.assigneeID.value);
    } else {
      assert f.assigneeID.Some? ==> conditions[1] == "assignee_id" && arguments[1] == IntValue(f.assigneeID.value);
    }
  }

  /** Each argument meets its own placeholder: the built query filters, sorts, skips and limits as the filter says. */
  lemma BuiltQueryMeans(f: TaskFilter, tasks: seq<Task>)
    ensures ExecuteSelect(BuildSelect(f).0, BuildSelect(f).1, tasks)
         == if f.limit < 0 || f.offset < 0 then None else Some(ListTasks(tasks, f))
  {
    var conditions, arguments := BuildSelect(f).0.conditions, BuildSelect(f).1;
    var n := |conditions|;
    ArgumentsEnd(f);
    if f.limit >= 0 && f.offset >= 0 {
      forall row | row in tasks ensures RowSelector(conditions, arguments)(row) == FilterSelector(f)(row) {
        ConditionsMean(f, row);
      }
      hide Satisfies, Matches, BuildSelect, Filter, Sort;
      FilterCongruence(RowSelector(conditions, arguments), FilterSelector(f), tasks);
    }
  }

  lemma ArgumentsEnd(f: TaskFilter)
    ensures var n := |BuildSelect(f).0.conditions|;
      && |BuildSelect(f).1| == n + 2
      && BuildSelect(f).1[n] == IntValue(f.limit) && BuildSelect(f).1[n + 1] == IntValue(f.offset)
  {
  }

  // ----- TaskRepository.Create

  datatype CreateFaults = CreateFaults(creator: Outcome, assignee: Outcome, insert: Outcome, reload: Outcome, announce: Outcome)

  function RepositoryCreate(db: Tables, draft: Draft, insert: Outcome, reload: Outcome): (Tables, Result<Task>) {
    var drawn := db.(ids := db.ids.(task := db.ids.task + 1));
    var r := InsertTask(db.store, db.ids.task, draft, db.now);
    if insert.FailsBefore? || r.Err? then (drawn, Err(Infrastructure))
    else
      var inserted := drawn.(store := r.value);
      if insert.FailsAfter? || !reload.Succeeds? then (inserted, Err(Infrastructure))
      else
        var found := FindTask(r.value, db.ids.task);
        (inserted, if found.None? then Err(TaskNotFound) else Ok(found.value))
  }

  // ----- TaskRepository.Update

  /** How the statements of an update end; `lost` is the history insert whose reply is lost, if one is. */
  datatype UpdateFaults = UpdateFaults(
    find: Outcome, requester: Outcome, assignee: Outcome,
    begin: Outcome, exec: Outcome, lost: Option<nat>, reload: Outcome, commit: Outcome, announce: Outcome)

  const NO_FAULTS := UpdateFaults(Succeeds, Succeeds, Succeeds, Succeeds, Succeeds, None, Succeeds, Succeeds, Succeeds)

  /** The statements between the begin and the end of the transaction. */
  function RunUpdate(tx: Transaction, list: SetList, taskID: int, changedBy: int, changes: seq<TaskChange>, f: UpdateFaults):
    (Transaction, Result<Task>)
  {
    if f.exec.FailsBefore? then (tx, Err(Infrastructure))
    else
      var (updated, error) := UpdateRow(tx, list, taskID);
      if error.Some? then (updated, Err(error.value))
      else if f.exec.FailsAfter? then (updated, Err(Infrastructure))
      else
        var (written, failed) := InsertAll(updated, taskID, changedBy, changes, f.lost);
        var found := FindTask(written.work, taskID);
        if failed.Some? then (written, Err(failed.value))
        else if !f.reload.Succeeds? then (written, Err(Infrastructure))
        else if found.None? then (written, Err(TaskNotFound))
        else (written, Ok(found.value))
  }

  /** The end of a transaction: a commit if every statement has succeeded, and a rollback otherwise. */
  function EndTransaction<T>(tx: Transaction, r: Result<T>, commit: Outcome): (Tables, Result<T>) {
    if r.Err? then (EndWithRollback(tx), r)
    else if commit.FailsBefore? then (EndWithRollback(tx), Err(Infrastructure))
    else (EndWithCommit(tx), if commit.FailsAfter? then Err(Infrastructure) else r)
  }

  function RepositoryUpdate(db: Tables, task: Task, changedBy: int, changes: seq<TaskChange>, f: UpdateFaults): (Tables, Result<Task>) {
    var list := CompileChanges(task, changes);
    if !f.begin.Succeeds? then (db, Err(Infrastructure))
    else if list.Err? then (EndWithRollback(Begin(db)), Err(list.error))
    else if list.value.columns == [] then (EndWithRollback(Begin(db)), Ok(task))
    else
      var (tx, r) := RunUpdate(Begin(db), list.value, task.id, changedBy, changes, f);
      EndTransaction(tx, r, f.commit)
  }

  /** At no statement of the transaction, whichever fails, do others see any of its writes. */
  lemma RunUpdateKeepsOutside(tx: Transaction, list: SetList, taskID: int, changedBy: int, changes: seq<TaskChange>, f: UpdateFaults)
    ensures RunUpdate(tx, list, taskID, changedBy, changes, f).0.outside == tx.outside
  {
    hide ExecUpdate, InsertAll, FindTask;
    InsertAllKeepsOutside(UpdateRow(tx, list, taskID).0, taskID, changedBy, changes, f.lost);
  }

  /** Whatever statement fails, the row and its history stay as they were, unless only the reply of the commit is lost. */
  lemma FailedUpdateChangesNothing(db: Tables, task: Task, changedBy: int, changes: seq<TaskChange>, f: UpdateFaults)
    requires RepositoryUpdate(db, task, changedBy, changes, f).1.Err? && !f.commit.FailsAfter?
    ensures RepositoryUpdate(db, task, changedBy, changes, f).0.store == db.store
  {
    hide CompileChanges, RunUpdate;
    var list := CompileChanges(task, changes);
    if list.Ok? {
      RunUpdateKeepsOutside(Begin(db), list.value, task.id, changedBy, changes, f);
    }
  }

  /** What the transaction has written once its statements have succeeded. */
  lemma RunUpdateWrites(tx: Transaction, list: SetList, taskID: int, changedBy: int, changes: seq<TaskChange>, f: UpdateFaults)
    requires RunUpdate(tx, list, taskID, changedBy, changes, f).1.Ok?
    ensures ExecUpdate(tx.work, list, taskID, tx.now) == RunUpdate(tx, list, taskID, changedBy, changes, f).1
    ensures
      var (written, r) := RunUpdate(tx, list, taskID, changedBy, changes, f);
      var rows := HistoryRows(tx.ids.history, taskID, changedBy, changes, tx.now);
      && EndWithCommit(written) == Tables(CommitUpdate(tx.work, r.value, rows), tx.ids.(history := tx.ids.history + |changes|), tx.now)
      && FindTask(written.work, taskID) == Some(r.value)
  {
    assert ExecUpdate(tx.work, list, taskID, tx.now).Ok?;
    UpdatedId(tx.work, list, taskID, tx.now);
    var row := ExecUpdate(tx.work, list, taskID, tx.now).value;
    IndexAfterUpdate(tx.work.tasks, TaskIndex(tx.work.tasks, taskID), row);
    CommittedIsCommitUpdate(tx, list, taskID, changedBy, changes, f.lost);
    hide ExecUpdate, InsertAll, HistoryRows, TaskIndex;
  }

  /**
   * Whenever the commit takes effect, with or without a reply, the tables are the old ones with the updated
   * row and one history entry per change, in order; and the updated row is what an answer returns.
   */
  lemma CommittedUpdateWritesBoth(db: Tables, task: Task, changedBy: int, changes: seq<TaskChange>, f: UpdateFaults)
    requires changes != []
    requires RepositoryUpdate(db, task, changedBy, changes, f).1.Ok? || RepositoryUpdate(db, task, changedBy, changes, f).0.store != db.store
    ensures
      var (db', r) := RepositoryUpdate(db, task, changedBy, changes, f);
      var list := CompileChanges(task, changes);
      && list.Ok?
      && ExecUpdate(db.store, list.value, task.id, db.now).Ok?
      && var row := ExecUpdate(db.store, list.value, task.id, db.now).value;
         var rows := HistoryRows(db.ids.history, task.id, changedBy, changes, db.now);
         && db' == Tables(CommitUpdate(db.store, row, rows), db.ids.(history := db.ids.history + |changes|), db.now)
         && FindTask(db'.store, task.id) == Some(row)
         && (r.Ok? ==> r == Ok(row))
  {
    var list := CompileChanges(task, changes);
    hide CompileChanges, ExecUpdate, HistoryRows, CommitUpdate, FindTask, RunUpdate;
    if list.Ok? {
      RunUpdateKeepsOutside(Begin(db), list.value, task.id, changedBy, changes, f);
      if RunUpdate(Begin(db), list.value, task.id, changedBy, changes, f).1.Ok? {
        RunUpdateWrites(Begin(db), list.value, task.id, changedBy, changes, f);
      }
    }
  }

  /** The update transaction when every statement succeeds. */
  lemma UnhinderedUpdate(db: Tables, task: Task, author: int, changes: seq<TaskChange>, list: SetList, row: Task)
    requires CompileChanges(task, changes) == Ok(list) && list.columns != [] && changes != []
    requires ExecUpdate(db.store, list, task.id, db.now) == Ok(row) && HasUser(db.store, author)
    ensures RepositoryUpdate(db, task, author, changes, NO_FAULTS)
         == (Tables(CommitUpdate(db.store, row, HistoryRows(db.ids.history, task.id, author, changes, db.now)),
                    db.ids.(history := db.ids.history + |changes|), db.now), Ok(row))
  {
    UnhinderedRun(Begin(db), list, task.id, author, changes);
    hide CompileChanges, ExecUpdate, HistoryRows, CommitUpdate, FindTask, RunUpdate, HasUser;
    CommittedUpdateWritesBoth(db, task, author, changes, NO_FAULTS);
  }

  lemma UnhinderedRun(tx: Transaction, list: SetList, taskID: int, author: int, changes: seq<TaskChange>)
    requires ExecUpdate(tx.work, list, taskID, tx.now).Ok? && HasUser(tx.work, author)
    ensures RunUpdate(tx, list, taskID, author, changes, NO_FAULTS).1.Ok?
  {
    RunUpdateEnds(tx, list, taskID, author, changes, NO_FAULTS);
    hide ExecUpdate, RunUpdate, HasUser;
  }

  /** Every statement before the commit has its effect and its reply. */
  predicate Answered(f: UpdateFaults, changes: nat) {
    f.begin.Succeeds? && f.exec.Succeeds? && !(f.lost.Some? && f.lost.value < changes) && f.reload.Succeeds?
  }

  /** An update that can be made fails exactly when a statement does. */
  lemma RunUpdateEnds(tx: Transaction, list: SetList, taskID: int, author: int, changes: seq<TaskChange>, f: UpdateFaults)
    requires ExecUpdate(tx.work, list, taskID, tx.now).Ok? && HasUser(tx.work, author) && f.begin.Succeeds?
    ensures RunUpdate(tx, list, taskID, author, changes, f).1.Ok? <==> Answered(f, |changes|)
    ensures RunUpdate(tx, list, taskID, author, changes, f).1.Err? ==>
      RunUpdate(tx, list, taskID, author, changes, f).1 == Err(Infrastructure)
  {
    UpdatedId(tx.work, list, taskID, tx.now);
    var row := ExecUpdate(tx.work, list, taskID, tx.now).value;
    IndexAfterUpdate(tx.work.tasks, TaskIndex(tx.work.tasks, taskID), row);
    var updated := UpdateRow(tx, list, taskID).0;
    assert HasUser(updated.work, author);
    InsertAllEnds(updated, taskID, author, changes, f.lost);
    if InsertAll(updated, taskID, author, changes, f.lost).1.None? {
      InsertAllWritesAll(updated, taskID, author, changes, f.lost);
    }
    hide ExecUpdate, InsertAll, HistoryRows, TaskIndex, HasUser;
  }

  /** The update transaction, of an update that can be made. */
  lemma RepositoryUpdateEnds(db: Tables, task: Task, author: int, changes: seq<TaskChange>, list: SetList, row: Task, f: UpdateFaults)
    requires CompileChanges(task, changes) == Ok(list) && list.columns != [] && changes != []
    requires ExecUpdate(db.store, list, task.id, db.now) == Ok(row) && HasUser(db.store, author)
    ensures
      var (db', r) := RepositoryUpdate(db, task, author, changes, f);
      && r == (if Answered(f, |changes|) && f.commit.Succeeds? then Ok(row) else Err(Infrastructure))
      && db'.store == (if Answered(f, |changes|) && !f.commit.FailsBefore?
                       then CommitUpdate(db.store, row, HistoryRows(db.ids.history, task.id, author, changes, db.now))
                       else db.store)
  {
    if f.begin.Succeeds? {
      RunUpdateEnds(Begin(db), list, task.id, author, changes, f);
      RunUpdateKeepsOutside(Begin(db), list, task.id, author, changes, f);
      if Answered(f, |changes|) {
        RunUpdateWrites(Begin(db), list, task.id, author, changes, f);
      }
    }
    hide CompileChanges, ExecUpdate, HistoryRows, CommitUpdate, FindTask, RunUpdate, HasUser;
  }

  lemma {:induction false} AppliedId(row: Task, columns: seq<string>, arguments: seq<SqlValue>)
    requires ApplySet(row, columns, arguments).Some?
    ensures var r := ApplySet(row, columns, arguments).value;
      r.id == row.id && r.teamID == row.teamID && r.createdBy == row.createdBy && r.createdAt == row.createdAt
    decreases |columns|
  {
    if columns != [] {
      AppliedId(Assign(row, columns[0], arguments[0]).value, columns[1..], arguments[1..]);
    }
  }

  lemma UpdatedId(st: Store, list: SetList, taskID: int, now: int)
    requires ExecUpdate(st, list, taskID, now).Ok?
    ensures ExecUpdate(st, list, taskID, now).value.id == taskID
    ensures TaskIndex(st.tasks, taskID) < |st.tasks|
  {
    hide HasUser;
    AppliedId(st.tasks[TaskIndex(st.tasks, taskID)], list.columns, list.arguments);
  }

  lemma {:induction false} IndexAfterUpdate(tasks: seq<Task>, i: nat, row: Task)
    requires i == TaskIndex(tasks, row.id) && i < |tasks|
    ensures TaskIndex(tasks[i := row], row.id) == i
  {
    if i > 0 {
      assert tasks[i := row][1..] == tasks[1..][i - 1 := row];
      IndexAfterUpdate(tasks[1..], i - 1, row);
    }
  }

  // ----- Tasks.Update

  /** How an update call ends; `wrote` says that a row was written, and so that the team is invalidated. */
  datatype UpdateEnd = UpdateEnd(db: Tables, result: Result<Task>, wrote: bool)

  /** The part of the call after the values have been checked. */
  function ApplyUpdate(db: Tables, current: Task, input: UpdateInput, appTime: int, f: UpdateFaults): UpdateEnd {
    var wanted := Wanted(current, input, appTime);
    var changes := Changes(current, wanted);
    if changes == [] then UpdateEnd(db, Ok(current), false)
    else
      var (db', r) := RepositoryUpdate(db, wanted, input.requestedBy, changes, f);
      UpdateEnd(db', r, r.Ok?)
  }

  function UpdateCall(db: Tables, input: UpdateInput, appTime: int, f: UpdateFaults): UpdateEnd {
    var found := FindTask(db.store, input.taskID);
    if !RequestOk(input) then UpdateEnd(db, Err(InvalidInput), false)
    else if !f.find.Succeeds? then UpdateEnd(db, Err(Infrastructure), false)
    else if found.None? then UpdateEnd(db, Err(TaskNotFound), false)
    else if !f.requester.Succeeds? then UpdateEnd(db, Err(Infrastructure), false)
    else if !IsMember(db.store, found.value.teamID, input.requestedBy) then UpdateEnd(db, Err(Forbidden), false)
    else if !ValuesOk(input) || (AsksForAssignee(input) && input.assigneeID.value <= 0) then UpdateEnd(db, Err(InvalidInput), false)
    else if AsksForAssignee(input) && !f.assignee.Succeeds? then UpdateEnd(db, Err(Infrastructure), false)
    else if AsksForAssignee(input) && !IsMember(db.store, found.value.teamID, input.assigneeID.value) then
      UpdateEnd(db, Err(AssigneeNotTeamMember), false)
    else ApplyUpdate(db, found.value, input, appTime, f)
  }

  /** The effect of the invalidation on Redis. */
  function Invalidate(redis: Redis, teamID: int, o: Outcome): Redis {
    var r := Incr(redis, teamID);
    if o.FailsBefore? || r.Err? then redis else r.value
  }

  /** The task already is what the input asks for. */
  predicate AsAsked(task: Task, input: UpdateInput) {
    && (input.title.Some? ==> task.title == TrimSpace(input.title.value))
    && (input.description.Some? ==> task.description == input.description.value)
    && (input.status.Some? ==> task.status == TrimSpace(input.status.value))
    && (input.assigneeIDSet ==> task.assigneeID == input.assigneeID)
  }

  /** There is nothing to change exactly when the task already is what is asked, whatever the time. */
  lemma NothingToChange(task: Task, input: UpdateInput, appTime: int)
    ensures Changes(task, Wanted(task, input, appTime)) == [] <==> AsAsked(task, input)
  {
    FreshMergeIsWanted(task, input, appTime);
    hide TrimSpace, Changes;
  }

  lemma WantedAsAsked(task: Task, input: UpdateInput, appTime: int, now: int)
    ensures AsAsked(Wanted(task, input, appTime), input)
    ensures AsAsked(Wanted(task, input, appTime).(updatedAt := now), input)
    ensures Wanted(task, input, appTime).id == task.id
    ensures Wanted(task, input, appTime).teamID == task.teamID
  {
    hide TrimSpace;
  }

  /** What a row the tables can hold satisfies: the status check, the title column and the foreign key of the assignee. */
  predicate RowHolds(st: Store, row: Task) {
    ValidStatus(row.status) && |row.title| <= MAX_TITLE && (row.assigneeID.Some? ==> HasUser(st, row.assigneeID.value))
  }

  lemma WantedHolds(st: Store, task: Task, input: UpdateInput, appTime: int)
    requires RowHolds(st, task) && ValuesOk(input)
    requires AsksForAssignee(input) ==> HasUser(st, input.assigneeID.value)
    ensures RowHolds(st, Wanted(task, input, appTime))
  {
    hide TrimSpace, HasUser;
  }

  /** Alone, an update meets the row it has read: the statement finds it, changes it, and leaves exactly the wanted task. */
  lemma FreshExec(st: Store, current: Task, input: UpdateInput, appTime: int, now: int)
    requires FindTask(st, current.id) == Some(current) && RowHolds(st, current) && ValuesOk(input)
    requires AsksForAssignee(input) ==> HasUser(st, input.assigneeID.value)
    requires Changes(current, Wanted(current, input, appTime)) != []
    ensures
      var wanted := Wanted(current, input, appTime);
      var list := CompileChanges(wanted, Changes(current, wanted));
      list.Ok? && list.value.columns != [] && ExecUpdate(st, list.value, current.id, now) == Ok(wanted.(updatedAt := now))
  {
    var wanted := Wanted(current, input, appTime);
    WantedHolds(st, current, input, appTime);
    FreshMergeIsWanted(current, input, appTime);
    SetListMeaning(current, current, wanted);
    hide Wanted, Changes, CompileChanges, ApplySet, Merge, HasUser, ValuesOk;
  }

  /** An update that meets no failure, on a row it may change, leaves exactly the wanted task. */
  lemma ApplyUpdateMeans(db: Tables, current: Task, input: UpdateInput, appTime: int)
    requires FindTask(db.store, current.id) == Some(current) && RowHolds(db.store, current) && ValuesOk(input)
    requires HasUser(db.store, input.requestedBy) && (AsksForAssignee(input) ==> HasUser(db.store, input.assigneeID.value))
    ensures
      var end := ApplyUpdate(db, current, input, appTime, NO_FAULTS);
      var wanted := Wanted(current, input, appTime);
      && end.result == Ok(if end.wrote then wanted.(updatedAt := db.now) else current)
      && (end.wrote <==> !AsAsked(current, input))
      && FindTask(end.db.store, current.id) == Some(end.result.value)
      && AsAsked(end.result.value, input)
      && end.result.value.teamID == current.teamID
      && end.db.store.members == db.store.members
  {
    var wanted := Wanted(current, input, appTime);
    var changes := Changes(current, wanted);
    NothingToChange(current, input, appTime);
    WantedAsAsked(current, input, appTime, db.now);
    if changes != [] {
      FreshExec(db.store, current, input, appTime, db.now);
      hide Wanted, Changes, CompileChanges, ExecUpdate, HasUser, ValuesOk, AsAsked, RowHolds;
      UnhinderedUpdate(db, wanted, input.requestedBy, changes, CompileChanges(wanted, changes).value, wanted.(updatedAt := db.now));
      CommittedUpdateWritesBoth(db, wanted, input.requestedBy, changes, NO_FAULTS);
    }
  }

  /**
   * Update is idempotent. Repeated at any later time with the same input and with no other writer in
   * between, it returns the same task with the same completion time, writes nothing, adds no history and
   * does not invalidate the team.
   */
  lemma UpdateIsIdempotent(db: Tables, input: UpdateInput, t1: int, t2: int, later: int)
    requires UniqueIDs(db.store.tasks)
    requires forall row :: row in db.store.tasks ==> RowHolds(db.store, row)
    requires forall m :: m in db.store.members ==> HasUser(db.store, m.userID)
    requires UpdateCall(db, input, t1, NO_FAULTS).result.Ok?
    ensures
      var first := UpdateCall(db, input, t1, NO_FAULTS);
      UpdateCall(first.db.(now := later), input, t2, NO_FAULTS) == UpdateEnd(first.db.(now := later), first.result, false)
  {
    var first := UpdateCall(db, input, t1, NO_FAULTS);
    var current := FindTask(db.store, input.taskID).value;
    MemberIsUser(db.store, current.teamID, input.requestedBy);
    if AsksForAssignee(input) {
      MemberIsUser(db.store, current.teamID, input.assigneeID.value);
    }
    assert first == ApplyUpdate(db, current, input, t1, NO_FAULTS);
    assert RowHolds(db.store, current);
    hide UpdateCall, ApplyUpdate, RowHolds, HasUser, ValuesOk, AsAsked, FindTask, Wanted;
    ApplyUpdateMeans(db, current, input, t1);
    RepeatedCall(db, first.db.(now := later), input, current, first.result.value, t2);
  }

  lemma MemberIsUser(st: Store, teamID: int, userID: int)
    requires IsMember(st, teamID, userID) && forall m :: m in st.members ==> HasUser(st, m.userID)
    ensures HasUser(st, userID)
  {
    hide HasUser;
  }

  /** A call that passed its checks passes them again, and finds nothing to change. */
  lemma RepeatedCall(db: Tables, db': Tables, input: UpdateInput, current: Task, task: Task, t2: int)
    requires RequestOk(input) && ValuesOk(input) && (AsksForAssignee(input) ==> input.assigneeID.value > 0)
    requires IsMember(db.store, current.teamID, input.requestedBy)
    requires AsksForAssignee(input) ==> IsMember(db.store, current.teamID, input.assigneeID.value)
    requires FindTask(db'.store, input.taskID) == Some(task) && AsAsked(task, input) && task.teamID == current.teamID
    requires db'.store.members == db.store.members
    ensures UpdateCall(db', input, t2, NO_FAULTS) == UpdateEnd(db', Ok(task), false)
  {
    NothingToChange(task, input, t2);
    hide AsAsked, Changes, Wanted, ValuesOk, RequestOk, RepositoryUpdate, FindTask;
  }

  // ----- Tasks.Create

  /** How a create call ends; `wrote` says that it goes on to invalidate the team. */
  datatype CreateEnd = CreateEnd(db: Tables, result: Result<Task>, wrote: bool)

  function CreateCall(db: Tables, input: CreateInput, f: CreateFaults): CreateEnd {
    if !CreateInputOk(input) then CreateEnd(db, Err(InvalidInput), false)
    else if !f.creator.Succeeds? then CreateEnd(db, Err(Infrastructure), false)
    else if !IsMember(db.store, input.teamID, input.createdBy) then CreateEnd(db, Err(Forbidden), false)
    else if input.assigneeID.Some? && input.assigneeID.value <= 0 then CreateEnd(db, Err(InvalidInput), false)
    else if input.assigneeID.Some? && !f.assignee.Succeeds? then CreateEnd(db, Err(Infrastructure), false)
    else if input.assigneeID.Some? && !IsMember(db.store, input.teamID, input.assigneeID.value) then
      CreateEnd(db, Err(AssigneeNotTeamMember), false)
    else
      var (db', r) := RepositoryCreate(db, DraftOf(input), f.insert, f.reload);
      CreateEnd(db', r, r.Ok?)
  }

  lemma {:induction false} IndexOfNew(tasks: seq<Task>, row: Task)
    requires forall other :: other in tasks ==> other.id != row.id
    ensures TaskIndex(tasks + [row], row.id) == |tasks|
  {
    if tasks != [] {
      assert (tasks + [row])[1..] == tasks[1..] + [row];
      IndexOfNew(tasks[1..], row);
    }
  }

  /** The checks of a create call, each of which must also have been answered. */
  predicate CreatePasses(db: Tables, input: CreateInput, f: CreateFaults) {
    && CreateInputOk(input)
    && f.creator.Succeeds? && IsMember(db.store, input.teamID, input.createdBy)
    && (input.assigneeID.Some? ==>
          input.assigneeID.value > 0 && f.assignee.Succeeds? && IsMember(db.store, input.teamID, input.assigneeID.value))
  }

  /** The foreign keys of the new row. */
  predicate ReferencesOk(st: Store, input: CreateInput) {
    HasTeam(st, input.teamID) && HasUser(st, input.createdBy) && (input.assigneeID.Some? ==> HasUser(st, input.assigneeID.value))
  }

  /**
   * A create call that succeeds returns the one row it has added, with the trimmed title and status todo. It adds
   * the row exactly when its checks pass and the insert takes effect. It then fails all the same exactly when
   * the reply of the insert or the reload is lost, and no invalidation follows.
   */
  lemma CreateMeans(db: Tables, input: CreateInput, f: CreateFaults)
    requires forall row :: row in db.store.tasks ==> row.id < db.ids.task
    ensures
      var end := CreateCall(db, input, f);
      var row := NewRow(db.ids.task, DraftOf(input), db.now);
      var inserted := CreatePasses(db, input, f) && !f.insert.FailsBefore? && ReferencesOk(db.store, input);
      var lost := f.insert.FailsAfter? || !f.reload.Succeeds?;
      && (row.id, row.teamID, row.createdBy) == (db.ids.task, input.teamID, input.createdBy)
      && (row.title, row.description, row.assigneeID) == (TrimSpace(input.title), input.description, input.assigneeID)
      && row.status == STATUS_TODO && row.completedAt.None? && row.createdAt == db.now && row.updatedAt == db.now
      && end.db.store == (if inserted then db.store.(tasks := db.store.tasks + [row]) else db.store)
      && (end.result.Ok? <==> inserted && !lost)
      && (end.result.Ok? ==> end.result == Ok(row) && end.wrote)
      && (end.result.Err? ==> !end.wrote)
      && (end.result.Err? && end.db.store != db.store <==> inserted && lost)
  {
    var row := NewRow(db.ids.task, DraftOf(input), db.now);
    NewRowFields(db.ids.task, input, db.now);
    PassingCall(db, input, f);
    RepositoryCreateMeans(db, DraftOf(input), f.insert, f.reload);
    if CreatePasses(db, input, f) {
      InsertTaskOkExactly(db.store, db.ids.task, input, db.now);
    }
    assert |db.store.tasks + [row]| != |db.store.tasks|;
    hide RepositoryCreate, CreateCall, CreatePasses, ReferencesOk, InsertTask, DraftOf, TrimSpace, NewRow;
  }

  lemma NewRowFields(id: int, input: CreateInput, now: int)
    ensures var row := NewRow(id, DraftOf(input), now);
      && (row.id, row.teamID, row.createdBy) == (id, input.teamID, input.createdBy)
      && (row.title, row.description, row.assigneeID) == (TrimSpace(input.title), input.description, input.assigneeID)
      && row.status == STATUS_TODO && row.completedAt.None? && row.createdAt == now && row.updatedAt == now
  {
    hide TrimSpace;
  }

  /** A call that passes its checks goes on to the repository; any other ends in an error and changes nothing. */
  lemma PassingCall(db: Tables, input: CreateInput, f: CreateFaults)
    ensures CreatePasses(db, input, f) ==>
      var (db', r) := RepositoryCreate(db, DraftOf(input), f.insert, f.reload); CreateCall(db, input, f) == CreateEnd(db', r, r.Ok?)
    ensures !CreatePasses(db, input, f) ==>
      CreateCall(db, input, f).db == db && CreateCall(db, input, f).result.Err? && !CreateCall(db, input, f).wrote
    ensures CreatePasses(db, input, f) ==> CreateInputOk(input)
  {
    hide RepositoryCreate, DraftOf, IsMember, CreateInputOk;
  }

  lemma InsertTaskOkExactly(st: Store, id: int, input: CreateInput, now: int)
    requires CreateInputOk(input)
    ensures InsertTask(st, id, DraftOf(input), now).Ok? <==> ReferencesOk(st, input)
  {
    hide HasTeam, HasUser, TrimSpace;
  }

  lemma RepositoryCreateMeans(db: Tables, draft: Draft, insert: Outcome, reload: Outcome)
    requires forall row :: row in db.store.tasks ==> row.id < db.ids.task
    ensures
      var (db', r) := RepositoryCreate(db, draft, insert, reload);
      var row := NewRow(db.ids.task, draft, db.now);
      var inserted := !insert.FailsBefore? && InsertTask(db.store, db.ids.task, draft, db.now).Ok?;
      && db'.store == (if inserted then db.store.(tasks := db.store.tasks + [row]) else db.store)
      && (r.Ok? <==> inserted && insert.Succeeds? && reload.Succeeds?)
      && (r.Ok? ==> r.value == row)
  {
    var row := NewRow(db.ids.task, draft, db.now);
    IndexOfNew(db.store.tasks, row);
    InsertedRow(db.store, db.ids.task, draft, db.now);
    hide InsertTask, TaskIndex;
  }

  lemma InsertedRow(st: Store, id: int, draft: Draft, now: int)
    ensures InsertTask(st, id, draft, now).Ok? ==>
      InsertTask(st, id, draft, now).value == st.(tasks := st.tasks + [NewRow(id, draft, now)])
  {
    hide HasTeam, HasUser;
  }

  // ----- Tasks.List

  datatype ListFaults = ListFaults(member: Outcome, version: Outcome, entry: Outcome, query: Outcome, store: Outcome)

  /** What the cache answers: an error, or the version and the list found under it, if one is. */
  datatype CacheAnswer = CacheAnswer(version: int, found: Option<seq<Task>>)

  function CacheGet(redis: Redis, now: int, filter: TaskFilter, version: Outcome, entry: Outcome): Result<CacheAnswer> {
    var v := RedisStore.CurrentVersion(redis, filter.teamID);
    if !version.Succeeds? then Err(Infrastructure)
    else if v.Err? then Err(v.error)
    else
      var found := GetList(redis, filter, v.value, now);
      if !entry.Succeeds? then Err(Infrastructure)
      else if found.Err? then Err(found.error)
      else Ok(CacheAnswer(v.value, found.value))
  }

  function CacheSet(redis: Redis, now: int, ttl: int, filter: TaskFilter, version: int, tasks: seq<Task>, o: Outcome): Redis {
    if o.FailsBefore? then redis else RedisStore.SetList(redis, filter, version, tasks, now, ttl)
  }

  /** How a list call ends: what Redis holds then, and the answer. */
  datatype ListEnd = ListEnd(redis: Redis, result: Result<seq<Task>>)

  /** `now` is the clock of Redis. */
  function ListCall(db: Tables, redis: Redis, now: int, ttl: int, input: ListInput, f: ListFaults): ListEnd {
    var filter := ParseFilter(input);
    if !ListNumbersOk(input) then ListEnd(redis, Err(InvalidInput))
    else if !f.member.Succeeds? then ListEnd(redis, Err(Infrastructure))
    else if !IsMember(db.store, input.teamID, input.requestedBy) then ListEnd(redis, Err(Forbidden))
    else if filter.Err? then ListEnd(redis, Err(filter.error))
    else
      var cached := CacheGet(redis, now, filter.value, f.version, f.entry);
      if cached.Ok? && cached.value.found.Some? then ListEnd(redis, Ok(cached.value.found.value))
      else if !f.query.Succeeds? then ListEnd(redis, Err(Infrastructure))
      else
        var rows := ListTasks(db.store.tasks, filter.value);
        ListEnd(if cached.Ok? then CacheSet(redis, now, ttl, filter.value, cached.value.version, rows, f.store) else redis, Ok(rows))
  }

  // ----- Teams.Create and Teams.Invite

  /** How the statements of creating a team end. */
  datatype TeamFaults = TeamFaults(begin: Outcome, team: Outcome, owner: Outcome, commit: Outcome)

  const NO_TEAM_FAULTS := TeamFaults(Succeeds, Succeeds, Succeeds, Succeeds)

  /** The two inserts, between which the transaction can fail. */
  function RunCreateTeam(tx: Transaction, name: string, owner: int, f: TeamFaults): (Transaction, Result<TeamRow>) {
    if f.team.FailsBefore? then (tx, Err(Infrastructure))
    else
      var (withTeam, teamID) := InsertTeam(tx, name, owner);
      if teamID.Err? || f.team.FailsAfter? || f.owner.FailsBefore? then (withTeam, Err(Infrastructure))
      else
        var (withOwner, error) := InsertTeamMember(withTeam, teamID.value, owner, ROLE_OWNER);
        if error.Some? || f.owner.FailsAfter? then (withOwner, Err(Infrastructure))
        else (withOwner, Ok(TeamRow(teamID.value, name, owner)))
  }

  function RepositoryCreateTeam(db: Tables, name: string, owner: int, f: TeamFaults): (Tables, Result<TeamRow>) {
    if !f.begin.Succeeds? then (db, Err(Infrastructure))
    else
      var (tx, r) := RunCreateTeam(Begin(db), name, owner, f);
      EndTransaction(tx, r, f.commit)
  }

  /** Nobody outside sees the team before its owner is there, too. */
  lemma RunCreateTeamKeepsOutside(tx: Transaction, name: string, owner: int, f: TeamFaults)
    ensures RunCreateTeam(tx, name, owner, f).0.outside == tx.outside && RunCreateTeam(tx, name, owner, f).0.now == tx.now
  {
    hide HasUser, HasTeam, FindMember;
  }

  /** Both inserts are possible exactly when the name fits, the user exists, and no row refers to the new id yet. */
  predicate TeamFits(db: Tables, name: string, owner: int) {
    |name| <= MAX_TEAM_NAME_COLUMN && HasUser(db.store, owner) && FindMember(db.store.members, db.ids.team, owner).None?
  }

  /**
   * A team and its owner appear together or not at all, wherever the transaction fails: exactly when both inserts
   * are possible and answered and the commit takes effect.
   */
  lemma TeamAndOwnerTogether(db: Tables, name: string, owner: int, f: TeamFaults)
    ensures
      var (db', r) := RepositoryCreateTeam(db, name, owner, f);
      var id := db.ids.team;
      var committed := TeamFits(db, name, owner) && f.begin.Succeeds? && f.team.Succeeds? && f.owner.Succeeds? && !f.commit.FailsBefore?;
      && db'.store == (if committed then db.store.(teams := db.store.teams + [TeamRow(id, name, owner)],
                                                   members := db.store.members + [MemberRow(id, owner, ROLE_OWNER)])
                       else db.store)
      && r == (if committed && f.commit.Succeeds? then Ok(TeamRow(id, name, owner)) else Err(Infrastructure))
      && db'.now == db.now
  {
    RunCreateTeamKeepsOutside(Begin(db), name, owner, f);
    if TeamFits(db, name, owner) {
      BothInserted(Begin(db), name, owner);
    }
    hide HasUser, HasTeam, FindMember;
  }

  lemma BothInserted(tx: Transaction, name: string, owner: int)
    requires |name| <= MAX_TEAM_NAME_COLUMN && HasUser(tx.work, owner) && FindMember(tx.work.members, tx.ids.team, owner).None?
    ensures
      var id := tx.ids.team;
      var (withTeam, teamID) := InsertTeam(tx, name, owner);
      && teamID == Ok(id)
      && InsertTeamMember(withTeam, id, owner, ROLE_OWNER)
         == (tx.(ids := tx.ids.(team := id + 1),
                 work := tx.work.(teams := tx.work.teams + [TeamRow(id, name, owner)],
                                  members := tx.work.members + [MemberRow(id, owner, ROLE_OWNER)])), None)
  {
    var withTeam := InsertTeam(tx, name, owner).0;
    assert TeamRow(tx.ids.team, name, owner) in withTeam.work.teams;
    hide FindMember;
  }

  function CreateTeamCall(db: Tables, userID: int, name: string, f: TeamFaults): (Tables, Result<TeamRow>) {
    var title := TrimSpace(name);
    if userID <= 0 || !ValidTitle(title) then (db, Err(InvalidInput)) else RepositoryCreateTeam(db, title, userID, f)
  }

  /**
   * Which names make a team. The use case refuses a blank name and one of more than 255 characters, but the column
   * holds 150 only: a trimmed name of 151 to 255 is an error of the database, as is an unknown caller.
   */
  lemma TeamNamesAcceptedExactly(db: Tables, userID: int, name: string, f: TeamFaults)
    ensures
      var (db', r) := CreateTeamCall(db, userID, name, f);
      var n := |TrimSpace(name)|;
      var team := TeamRow(db.ids.team, TrimSpace(name), userID);
      var stored := userID > 0 && 0 < n <= 150 && HasUser(db.store, userID) && FindMember(db.store.members, team.id, userID).None?
        && f.begin.Succeeds? && f.team.Succeeds? && f.owner.Succeeds? && !f.commit.FailsBefore?;
      && (r == Err(InvalidInput) <==> userID <= 0 || n == 0 || n > 255)
      && (r == Ok(team) <==> stored && f.commit.Succeeds?)
      && (r.Ok? || r.error == InvalidInput || r.error == Infrastructure)
      && (r.Ok? ==> r.value == team)
      && db'.store == (if stored then db.store.(teams := db.store.teams + [team],
                                                members := db.store.members + [MemberRow(team.id, userID, "owner")])
                       else db.store)
  {
    TeamAndOwnerTogether(db, TrimSpace(name), userID, f);
    hide TrimSpace, HasUser, FindMember, RepositoryCreateTeam;
  }

  function InviteCall(db: Tables, input: InviteInput, role: Outcome, find: Outcome, add: Outcome): (Tables, Result<int>) {
    var member := FindTeamRole(db.store, input.teamID, input.invitedBy);
    var user := FindByEmail(db.store.users, input.email);
    if input.teamID <= 0 || input.invitedBy <= 0 || input.email == "" then (db, Err(InvalidInput))
    else if !role.Succeeds? then (db, Err(Infrastructure))
    else if member.None? || (member.value != ROLE_OWNER && member.value != ROLE_ADMIN) then (db, Err(Forbidden))
    else if !find.Succeeds? then (db, Err(Infrastructure))
    else if user.None? then (db, Err(UserNotFound))
    else
      var added := InsertMember(db.store, input.teamID, user.value.id);
      if add.FailsBefore? then (db, Err(Infrastructure))
      else if added.Err? then (db, Err(added.error))
      else (db.(store := added.value), if add.FailsAfter? then Err(Infrastructure) else Ok(user.value.id))
  }

  /** The caller is an owner or an admin of the team. */
  predicate MayInvite(st: Store, teamID: int, userID: int) {
    MemberRow(teamID, userID, "owner") in st.members || MemberRow(teamID, userID, "admin") in st.members
  }

  /**
   * How an invitation ends. An owner or admin of a team can invite a known user who is no member yet, who then has a
   * row as a plain member; every other case has its error, and changes nothing.
   */
  lemma InviteMeans(db: Tables, input: InviteInput, role: Outcome, find: Outcome, add: Outcome)
    requires forall m :: m in db.store.members ==> HasTeam(db.store, m.teamID)
    requires forall i, j :: 0 <= i < j < |db.store.members| ==>
      !(db.store.members[i].teamID == db.store.members[j].teamID && db.store.members[i].userID == db.store.members[j].userID)
    ensures
      var (db', r) := InviteCall(db, input, role, find, add);
      var user := FindByEmail(db.store.users, input.email);
      var asked := input.teamID > 0 && input.invitedBy > 0 && input.email != "";
      var looked := asked && role.Succeeds? && MayInvite(db.store, input.teamID, input.invitedBy) && find.Succeeds?;
      var member := user.Some? && IsMember(db.store, input.teamID, user.value.id);
      var added := looked && user.Some? && !member && !add.FailsBefore?;
      && (r == Err(InvalidInput) <==> !asked)
      && (r == Err(Forbidden) <==> asked && role.Succeeds? && !MayInvite(db.store, input.teamID, input.invitedBy))
      && (r == Err(UserNotFound) <==> looked && user.None?)
      && (r == Err(TeamMemberAlreadyExists) <==> looked && member && !add.FailsBefore?)
      && (r.Ok? <==> added && add.Succeeds?)
      && (r.Ok? ==> user == Some(UserRow(r.value, user.value.name, input.email)))
      && (r.Err? ==> r.error in {InvalidInput, Forbidden, UserNotFound, TeamMemberAlreadyExists, Infrastructure})
      && db' == (if added then db.(store := db.store.(members := db.store.members + [MemberRow(input.teamID, user.value.id, "member")]))
                 else db)
  {
    var member := FindMember(db.store.members, input.teamID, input.invitedBy);
    var user := FindByEmail(db.store.users, input.email);
    if member.Some? {
      OneRole(db.store.members, member.value);
      assert HasTeam(db.store, input.teamID);
    }
    if user.Some? {
      assert HasUser(db.store, user.value.id);
      AlreadyMember(db.store, input.teamID, user.value.id);
    }
    hide FindMember, FindByEmail, HasTeam, HasUser, IsMember;
  }

  lemma OneRole(members: seq<MemberRow>, m: MemberRow)
    requires forall i, j :: 0 <= i < j < |members| ==>
      !(members[i].teamID == members[j].teamID && members[i].userID == members[j].userID)
    requires m in members
    ensures forall other :: other in members && other.teamID == m.teamID && other.userID == m.userID ==> other == m
  {
  }

  lemma AlreadyMember(st: Store, teamID: int, userID: int)
    ensures FindMember(st.members, teamID, userID).Some? <==> IsMember(st, teamID, userID)
  {
  }
}
