/** What an update call does, in terms of its input and the tables: when it succeeds and what it leaves, and which error comes when. */
module UpdateMeaning {
  import opened Domain
  import opened TaskQueries
  import opened TaskUpdates
  import opened Store
  import opened Transactions
  import opened Calls

  // ----- the input

  /** An id is missing, or nothing is asked for. */
  predicate BadRequest(input: UpdateInput) {
    || input.taskID <= 0 || input.requestedBy <= 0
    || (input.title.None? && input.description.None? && input.status.None? && !input.assigneeIDSet)
  }

  predicate BadTitle(title: string) {
    TrimSpace(title) == "" || |TrimSpace(title)| > 255
  }

  predicate BadStatus(status: string) {
    TrimSpace(status) != "todo" && TrimSpace(status) != "in_progress" && TrimSpace(status) != "done"
  }

  /** A value that is given is not allowed. */
  predicate BadValues(input: UpdateInput) {
    || (input.title.Some? && BadTitle(input.title.value))
    || (input.status.Some? && BadStatus(input.status.value))
    || (input.assigneeIDSet && input.assigneeID.Some? && input.assigneeID.value <= 0)
  }

  /** A new assignee is named who is no member of the team. */
  predicate StrangeAssignee(st: Store, teamID: int, input: UpdateInput) {
    input.assigneeIDSet && input.assigneeID.Some? && !IsMember(st, teamID, input.assigneeID.value)
  }

  // ----- the row

  /** The task with the values asked for. */
  predicate Becomes(row: Task, input: UpdateInput, appTime: int, task: Task) {
    && (task.id, task.teamID, task.createdBy, task.createdAt) == (row.id, row.teamID, row.createdBy, row.createdAt)
    && task.title == (if input.title.Some? then TrimSpace(input.title.value) else row.title)
    && task.description == (if input.description.Some? then input.description.value else row.description)
    && task.status == (if input.status.Some? then TrimSpace(input.status.value) else row.status)
    && task.assigneeID == (if input.assigneeIDSet then input.assigneeID else row.assigneeID)
    && task.completedAt == (if task.status == row.status then row.completedAt else if task.status == "done" then Some(appTime) else None)
  }

  predicate Differ(a: Task, b: Task) {
    a.title != b.title || a.description != b.description || a.status != b.status || a.assigneeID != b.assigneeID
  }

  /** The change of one field, by the name of its column. */
  predicate ChangeOf(row: Task, task: Task, c: TaskChange) {
    || (row.title != task.title && c == TaskChange("title", Some(row.title), Some(task.title)))
    || (row.description != task.description && c == TaskChange("description", Some(row.description), Some(task.description)))
    || (row.status != task.status && c == TaskChange("status", Some(row.status), Some(task.status)))
    || (row.assigneeID != task.assigneeID
        && c == TaskChange("assignee_id", OptionalInt64String(row.assigneeID), OptionalInt64String(task.assigneeID)))
  }

  /** One new entry of the history for each field that changes, by the caller and at the time of the database. */
  ghost predicate Records(rows: seq<HistoryRow>, row: Task, task: Task, changedBy: int, firstID: int, now: int) {
    && (forall k :: 0 <= k < |rows| ==> (rows[k].id, rows[k].taskID, rows[k].changedBy, rows[k].changedAt) == (firstID + k, row.id, changedBy, now))
    && (forall k :: 0 <= k < |rows| ==> ChangeOf(row, task, rows[k].change))
    && (forall c :: ChangeOf(row, task, c) ==> exists k :: 0 <= k < |rows| && rows[k].change == c)
    && (forall i, j :: 0 <= i < j < |rows| ==> rows[i].change.fieldName != rows[j].change.fieldName)
  }

  /** The tables in which the row has become the task, with some new entries of the history. */
  predicate Rewritten(st: Store, st': Store, row: Task, task: Task, rows: seq<HistoryRow>) {
    && st' == st.(tasks := st'.tasks, history := st.history + rows)
    && |st'.tasks| == |st.tasks|
    && forall k :: 0 <= k < |st.tasks| ==> st'.tasks[k] == if st.tasks[k].id == row.id then task else st.tasks[k]
  }

  /** The tables after an update of the row that takes effect. */
  ghost predicate Updates(db: Tables, st': Store, row: Task, input: UpdateInput, task: Task) {
    exists rows ::
      && Records(rows, row, task, input.requestedBy, db.ids.history, db.now)
      && Rewritten(db.store, st', row, task, rows)
  }

  lemma WantedBecomes(row: Task, input: UpdateInput, appTime: int, now: int)
    ensures Becomes(row, input, appTime, Wanted(row, input, appTime))
    ensures Becomes(row, input, appTime, Wanted(row, input, appTime).(updatedAt := now))
    ensures Differ(row, Wanted(row, input, appTime)) <==> Changes(row, Wanted(row, input, appTime)) != []
    ensures !Differ(row, Wanted(row, input, appTime)) <==> AsAsked(row, input)
  {
    WantedFields(row, input, appTime);
    NothingToChange(row, input, appTime);
    hide Wanted, TrimSpace, Changes;
  }

  /** The differences are recorded one by one, each once. */
  lemma ChangesAreChanges(row: Task, task: Task)
    ensures var changes := Changes(row, task);
      && (forall k :: 0 <= k < |changes| ==> ChangeOf(row, task, changes[k]))
      && (forall c :: ChangeOf(row, task, c) ==> exists k :: 0 <= k < |changes| && changes[k] == c)
      && (forall i, j :: 0 <= i < j < |changes| ==> changes[i].fieldName != changes[j].fieldName)
  {
    var changes := Changes(row, task);
    var s1, s2, s3, s4 := SectionTitle(row, task), SectionDescription(row, task), SectionStatus(row, task), SectionAssignee(row, task);
    assert changes == s1 + s2 + s3 + s4;
    forall c | ChangeOf(row, task, c) ensures exists k :: 0 <= k < |changes| && changes[k] == c {
      assert c in s1 || c in s2 || c in s3 || c in s4;
      assert c in changes;
    }
  }

  lemma HistoryRecords(row: Task, task: Task, changedBy: int, firstID: int, now: int)
    ensures Records(HistoryRows(firstID, row.id, changedBy, Changes(row, task), now), row, task, changedBy, firstID, now)
  {
    ChangesAreChanges(row, task);
    var changes := Changes(row, task);
    var rows := HistoryRows(firstID, row.id, changedBy, changes, now);
    hide Changes, HistoryRows, ChangeOf;
    forall c | ChangeOf(row, task, c) ensures exists k :: 0 <= k < |rows| && rows[k].change == c {
      var k :| 0 <= k < |changes| && changes[k] == c;
      assert rows[k].change == c;
    }
  }

  lemma CommitRewrites(st: Store, row: Task, task: Task, rows: seq<HistoryRow>)
    requires UniqueIDs(st.tasks) && FindTask(st, row.id) == Some(row) && task.id == row.id
    ensures Rewritten(st, CommitUpdate(st, task, rows), row, task, rows)
  {
    var i := TaskIndex(st.tasks, row.id);
    assert forall k :: 0 <= k < |st.tasks| && k != i ==> st.tasks[k].id != row.id;
  }

  // ----- the call

  /** The rows that the tables can hold, with known members. */
  ghost predicate SoundRows(st: Store) {
    && UniqueIDs(st.tasks)
    && (forall row :: row in st.tasks ==> RowHolds(st, row))
    && (forall m :: m in st.members ==> HasUser(st, m.userID))
  }

  function FieldsChanged(a: Task, b: Task): nat {
    (if a.title != b.title then 1 else 0) + (if a.description != b.description then 1 else 0)
    + (if a.status != b.status then 1 else 0) + (if a.assigneeID != b.assigneeID then 1 else 0)
  }

  /** How an update ends that may be made: with the task as asked, which is written only if it differs from the row. */
  ghost predicate EndsWith(db: Tables, row: Task, input: UpdateInput, appTime: int, f: UpdateFaults, end: UpdateEnd, task: Task) {
    var written := Differ(row, task) && Answered(f, FieldsChanged(row, task)) && !f.commit.FailsBefore?;
    && Becomes(row, input, appTime, task)
    && task.updatedAt == (if Differ(row, task) then db.now else row.updatedAt)
    && end.result == (if !Differ(row, task) || (written && f.commit.Succeeds?) then Ok(task) else Err(Infrastructure))
    && (end.wrote <==> written && f.commit.Succeeds?)
    && (if written then Updates(db, end.db.store, row, input, task) else end.db.store == db.store)
  }

  /** The call gets as far as the check of the caller. */
  predicate CallerChecked(db: Tables, input: UpdateInput, f: UpdateFaults) {
    !BadRequest(input) && f.find.Succeeds? && FindTask(db.store, input.taskID).Some? && f.requester.Succeeds?
  }

  /** The call gets as far as the new values. */
  predicate CallerMay(db: Tables, input: UpdateInput, f: UpdateFaults) {
    CallerChecked(db, input, f) && IsMember(db.store, FindTask(db.store, input.taskID).value.teamID, input.requestedBy)
  }

  /** The call passes all its checks. */
  predicate MayUpdate(db: Tables, input: UpdateInput, f: UpdateFaults) {
    && CallerMay(db, input, f) && !BadValues(input)
    && (input.assigneeIDSet && input.assigneeID.Some? ==> f.assignee.Succeeds?)
    && !StrangeAssignee(db.store, FindTask(db.store, input.taskID).value.teamID, input)
  }

  /** How an update call ends: which error comes when, and otherwise as a permitted update does. */
  ghost predicate UpdateEndsWell(db: Tables, input: UpdateInput, appTime: int, f: UpdateFaults, end: UpdateEnd) {
    var found := FindTask(db.store, input.taskID);
    && (end.result == Err(InvalidInput) <==> BadRequest(input) || (CallerMay(db, input, f) && BadValues(input)))
    && (end.result == Err(TaskNotFound) <==> !BadRequest(input) && f.find.Succeeds? && found.None?)
    && (end.result == Err(Forbidden) <==> CallerChecked(db, input, f) && !CallerMay(db, input, f))
    && (end.result == Err(AssigneeNotTeamMember) <==>
          CallerMay(db, input, f) && !BadValues(input) && f.assignee.Succeeds? && StrangeAssignee(db.store, found.value.teamID, input))
    && (MayUpdate(db, input, f) ==> exists task :: EndsWith(db, found.value, input, appTime, f, end, task))
    && (!MayUpdate(db, input, f) ==> end.result.Err? && end.db.store == db.store && !end.wrote)
  }

  lemma CountsChanges(row: Task, task: Task)
    ensures |Changes(row, task)| == FieldsChanged(row, task)
    ensures Changes(row, task) == [] <==> !Differ(row, task)
  {
  }

  lemma RequestsOk(input: UpdateInput)
    ensures RequestOk(input) <==> !BadRequest(input)
    ensures !ValuesOk(input) || (AsksForAssignee(input) && input.assigneeID.value <= 0) <==> BadValues(input)
  {
    hide TrimSpace;
  }

  lemma ApplyEnds(db: Tables, row: Task, input: UpdateInput, appTime: int, f: UpdateFaults)
    requires SoundRows(db.store) && FindTask(db.store, row.id) == Some(row) && ValuesOk(input)
    requires HasUser(db.store, input.requestedBy) && (AsksForAssignee(input) ==> HasUser(db.store, input.assigneeID.value))
    ensures exists task :: EndsWith(db, row, input, appTime, f, ApplyUpdate(db, row, input, appTime, f), task)
  {
    var wanted := Wanted(row, input, appTime);
    var changes := Changes(row, wanted);
    WantedBecomes(row, input, appTime, db.now);
    CountsChanges(row, wanted);
    var end := ApplyUpdate(db, row, input, appTime, f);
    if changes == [] {
      UnchangedEnds(db, row, input, appTime, f, end);
    } else {
      var task := wanted.(updatedAt := db.now);
      FreshExec(db.store, row, input, appTime, db.now);
      hide Changes, CompileChanges, ExecUpdate, HasUser, ValuesOk, RowHolds, Becomes, FindTask, Wanted, UniqueIDs, SoundRows;
      RepositoryUpdateEnds(db, wanted, input.requestedBy, changes, CompileChanges(wanted, changes).value, task, f);
      WrittenEnds(db, row, input, appTime, f, end, wanted);
    }
  }

  lemma UnchangedEnds(db: Tables, row: Task, input: UpdateInput, appTime: int, f: UpdateFaults, end: UpdateEnd)
    requires Wanted(row, input, appTime) == row && end == UpdateEnd(db, Ok(row), false)
    ensures EndsWith(db, row, input, appTime, f, end, row)
  {
    WantedBecomes(row, input, appTime, db.now);
    hide Wanted, Becomes, AsAsked, Changes;
  }

  lemma WrittenEnds(db: Tables, row: Task, input: UpdateInput, appTime: int, f: UpdateFaults, end: UpdateEnd, wanted: Task)
    requires wanted == Wanted(row, input, appTime) && Changes(row, wanted) != []
    requires UniqueIDs(db.store.tasks) && FindTask(db.store, row.id) == Some(row)
    requires
      var task := wanted.(updatedAt := db.now);
      var answered := Answered(f, |Changes(row, wanted)|);
      && end.result == (if answered && f.commit.Succeeds? then Ok(task) else Err(Infrastructure))
      && end.wrote == end.result.Ok?
      && end.db.store == (if answered && !f.commit.FailsBefore?
                          then CommitUpdate(db.store, task, HistoryRows(db.ids.history, row.id, input.requestedBy, Changes(row, wanted), db.now))
                          else db.store)
    ensures EndsWith(db, row, input, appTime, f, end, wanted.(updatedAt := db.now))
  {
    var task := wanted.(updatedAt := db.now);
    var rows := HistoryRows(db.ids.history, row.id, input.requestedBy, Changes(row, wanted), db.now);
    WantedBecomes(row, input, appTime, db.now);
    CountsChanges(row, wanted);
    CountsChanges(row, task);
    assert Changes(row, task) == Changes(row, wanted);
    HistoryRecords(row, task, input.requestedBy, db.ids.history, db.now);
    assert task.id == row.id;
    hide Changes, Wanted, AsAsked, Answered, CommitUpdate, FindTask, UniqueIDs, Records, Rewritten, HistoryRows, Becomes, Differ, FieldsChanged;
    CommitRewrites(db.store, row, task, rows);
  }

  lemma UpdateCallEnds(db: Tables, input: UpdateInput, appTime: int, f: UpdateFaults)
    requires SoundRows(db.store)
    ensures UpdateEndsWell(db, input, appTime, f, UpdateCall(db, input, appTime, f))
  {
    RequestsOk(input);
    hide RequestOk, BadRequest, ValuesOk, BadValues, FindTask, ApplyUpdate, IsMember, EndsWith, SoundRows;
    var found := FindTask(db.store, input.taskID);
    if MayUpdate(db, input, f) {
      UsersKnown(db, input, f);
      ApplyEnds(db, found.value, input, appTime, f);
      OnlyInfrastructure(db, found.value, input, appTime, f, ApplyUpdate(db, found.value, input, appTime, f));
    }
  }

  lemma UsersKnown(db: Tables, input: UpdateInput, f: UpdateFaults)
    requires SoundRows(db.store) && MayUpdate(db, input, f)
    ensures HasUser(db.store, input.requestedBy) && (AsksForAssignee(input) ==> HasUser(db.store, input.assigneeID.value))
    ensures FindTask(db.store, input.taskID).value.id == input.taskID
  {
    hide HasUser, IsMember, BadRequest, BadValues, UniqueIDs, RowHolds;
    var row := FindTask(db.store, input.taskID).value;
    MemberIsUser(db.store, row.teamID, input.requestedBy);
    if AsksForAssignee(input) {
      MemberIsUser(db.store, row.teamID, input.assigneeID.value);
    }
  }

  lemma OnlyInfrastructure(db: Tables, row: Task, input: UpdateInput, appTime: int, f: UpdateFaults, end: UpdateEnd)
    requires exists task :: EndsWith(db, row, input, appTime, f, end, task)
    ensures end.result.Err? ==> end.result == Err(Infrastructure)
  {
    hide Becomes, Updates;
  }

  /** An update of the assignee alone, by a member and to a member or to nobody, is an update like any other. */
  lemma AssigneeAlone(db: Tables, row: Task, who: int, assigneeID: Option<int>, appTime: int)
    requires SoundRows(db.store) && FindTask(db.store, row.id) == Some(row) && row.id > 0
    requires who > 0 && IsMember(db.store, row.teamID, who)
    requires assigneeID.Some? ==> assigneeID.value > 0 && IsMember(db.store, row.teamID, assigneeID.value)
    ensures
      var end := UpdateCall(db, UpdateInput(row.id, who, None, None, None, assigneeID, true), appTime, NO_FAULTS);
      && end.result == Ok(row.(assigneeID := assigneeID, updatedAt := if row.assigneeID == assigneeID then row.updatedAt else db.now))
      && FindTask(end.db.store, row.id) == Some(end.result.value)
  {
    var input := UpdateInput(row.id, who, None, None, None, assigneeID, true);
    UpdateCallEnds(db, input, appTime, NO_FAULTS);
    hide UpdateCall, FindTask, IsMember, SoundRows, Updates, Records;
    var end := UpdateCall(db, input, appTime, NO_FAULTS);
    assert MayUpdate(db, input, NO_FAULTS);
    var task :| EndsWith(db, row, input, appTime, NO_FAULTS, end, task);
    StaysFound(db, row, input, end.db.store, task);
  }

  lemma StaysFound(db: Tables, row: Task, input: UpdateInput, st': Store, task: Task)
    requires FindTask(db.store, row.id) == Some(row) && task.id == row.id
    ensures Updates(db, st', row, input, task) ==> FindTask(st', row.id) == Some(task)
  {
    if Updates(db, st', row, input, task) {
      var rows :| Records(rows, row, task, input.requestedBy, db.ids.history, db.now) && Rewritten(db.store, st', row, task, rows);
      var i := TaskIndex(db.store.tasks, row.id);
      var j := TaskIndex(st'.tasks, row.id);
      assert st'.tasks[i] == task;
    }
  }
}
