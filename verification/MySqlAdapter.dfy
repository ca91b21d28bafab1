/** The MySQL repositories, statement by statement, over a database that other calls leave alone. */
module MySqlAdapter {
  import opened Domain
  import opened Sorting
  import opened TaskQueries
  import opened TaskUpdates
  import opened Store
  import opened Service
  import opened Transactions
  import opened Calls
  import opened Relations
  import opened Reports
  import opened CreatorRanking
  import opened TopCreators
  import opened HistoryQueries

  class Database {
    var store: Store
    var ids: Counters
    var now: int

    constructor (now: int)
      ensures State() == Tables(EMPTY, Counters(1, 1, 1, 1), now)
    {
      store := EMPTY;
      ids := Counters(1, 1, 1, 1);
      this.now := now;
    }

    function State(): Tables
      reads this
    {
      Tables(store, ids, now)
    }
  }

  /** An open transaction: a copy of the tables that others do not see. */
  class MySqlTx {
    const db: Database
    var work: Store

    constructor (db: Database)
      ensures this.db == db && State() == Begin(db.State())
    {
      this.db := db;
      work := db.store;
    }

    function State(): Transaction
      reads this, db
    {
      Transaction(db.store, work, db.ids, db.now)
    }

    method UpdateRow(list: SetList, taskID: int) returns (error: Option<Error>)
      modifies this
      ensures (State(), error) == Transactions.UpdateRow(old(State()), list, taskID)
    {
      hide HasUser, ApplySet;
      var row := ExecUpdate(work, list, taskID, db.now);
      if row.Err? {
        return Some(row.error);
      }
      work := work.(tasks := work.tasks[TaskIndex(work.tasks, taskID) := row.value]);
      return None;
    }

    method InsertHistory(taskID: int, changedBy: int, change: TaskChange) returns (error: Option<Error>)
      modifies this, db`ids
      ensures (State(), error) == Transactions.InsertHistory(old(State()), taskID, changedBy, change)
    {
      hide HasUser;
      var id := db.ids.history;
      db.ids := db.ids.(history := id + 1);
      if !HasUser(work, changedBy) {
        return Some(Infrastructure);
      }
      work := work.(history := work.history + [HistoryRow(id, taskID, changedBy, change, db.now)]);
      return None;
    }

    method InsertTeam(name: string, owner: int) returns (teamID: Result<int>)
      modifies this, db`ids
      ensures (State(), teamID) == Transactions.InsertTeam(old(State()), name, owner)
    {
      hide HasUser;
      var id := db.ids.team;
      db.ids := db.ids.(team := id + 1);
      if |name| > MAX_TEAM_NAME_COLUMN || !HasUser(work, owner) {
        return Err(Infrastructure);
      }
      work := work.(teams := work.teams + [TeamRow(id, name, owner)]);
      return Ok(id);
    }

    method InsertTeamMember(teamID: int, userID: int, role: string) returns (error: Option<Error>)
      modifies this
      ensures (State(), error) == Transactions.InsertTeamMember(old(State()), teamID, userID, role)
    {
      hide HasUser, HasTeam, FindMember;
      if FindMember(work.members, teamID, userID).Some? {
        return Some(TeamMemberAlreadyExists);
      }
      if !HasTeam(work, teamID) || !HasUser(work, userID) {
        return Some(Infrastructure);
      }
      work := work.(members := work.members + [MemberRow(teamID, userID, role)]);
      return None;
    }

    /** The copy becomes what everybody sees. */
    method Commit()
      modifies db`store
      ensures db.State() == EndWithCommit(old(State()))
    {
      db.store := work;
    }

    /** The copy is dropped; ids that were drawn stay drawn. */
    method Rollback()
      modifies this
      ensures work == db.store && db.State() == EndWithRollback(old(State()))
    {
      work := db.store;
    }
  }

  /** The records of an answer are scanned one at a time; nulls become missing values. */
  method ScanTasks(records: seq<TaskRecord>) returns (tasks: seq<Task>)
    ensures tasks == Map(ScanTask, records)
  {
    tasks := [];
    var i := 0;
    while i < |records|
      invariant 0 <= i <= |records| && tasks == Map(ScanTask, records[..i])
    {
      var record := records[i];
      var assigneeID: Option<int>, completedAt: Option<int> := None, None;
      if record.assigneeID.IntValue? {
        assigneeID := Some(record.assigneeID.n);
      }
      if record.completedAt.TimeValue? {
        completedAt := Some(record.completedAt.time);
      }
      tasks := tasks + [Task(record.id, record.teamID, record.title, record.description, record.status, assigneeID,
                             record.createdBy, completedAt, record.createdAt, record.updatedAt)];
      i := i + 1;
    }
    assert records[..i] == records;
  }

  /** Scanning what the driver delivers for stored rows gives back the rows. */
  lemma ScannedRows(rows: seq<Task>)
    ensures Map(ScanTask, Map(RecordOf, rows)) == rows
  {
    forall i | 0 <= i < |rows| ensures Map(ScanTask, Map(RecordOf, rows))[i] == rows[i] {
      ScanTaskOfRecord(rows[i]);
    }
  }

  class TaskRepository {
    const db: Database

    constructor (db: Database)
      ensures this.db == db
    {
      this.db := db;
    }

    method IsTeamMember(teamID: int, userID: int, o: Outcome) returns (r: Result<bool>)
      ensures r == if o.Succeeds? then Ok(IsMember(db.store, teamID, userID)) else Err(Infrastructure)
    {
      if !o.Succeeds? {
        return Err(Infrastructure);
      }
      return Ok(IsMember(db.store, teamID, userID));
    }

    method FindByID(taskID: int, o: Outcome) returns (r: Result<Task>)
      ensures
        var found := FindTask(db.store, taskID);
        r == if !o.Succeeds? then Err(Infrastructure) else if found.None? then Err(TaskNotFound) else Ok(found.value)
    {
      if !o.Succeeds? {
        return Err(Infrastructure);
      }
      var found := FindTask(db.store, taskID);
      if found.None? {
        return Err(TaskNotFound);
      }
      ScanTaskOfRecord(found.value);
      return Ok(ScanTask(RecordOf(found.value)));
    }

    /** Insert, then load the row that was inserted; the two statements are not one transaction. */
    method Create(draft: Draft, insert: Outcome, reload: Outcome) returns (r: Result<Task>)
      modifies db
      ensures (db.State(), r) == RepositoryCreate(old(db.State()), draft, insert, reload)
    {
      var taskID := db.ids.task;
      db.ids := db.ids.(task := taskID + 1);
      if insert.FailsBefore? {
        return Err(Infrastructure);
      }
      var inserted := InsertTask(db.store, taskID, draft, db.now);
      if inserted.Err? {
        return Err(Infrastructure);
      }
      db.store := inserted.value;
      if insert.FailsAfter? {
        return Err(Infrastructure);
      }
      r := FindByID(taskID, reload);
    }

    /** The query is built up with the filter, and its rows are scanned one by one. */
    method List(filter: TaskFilter, o: Outcome) returns (r: Result<seq<Task>>)
      ensures r == if !o.Succeeds? || filter.limit < 0 || filter.offset < 0 then Err(Infrastructure)
                   else Ok(ListTasks(db.store.tasks, filter))
    {
      var conditions := ["team_id"];
      var arguments := [IntValue(filter.teamID)];
      if filter.status.Some? {
        conditions := conditions + ["status"];
        arguments := arguments + [TextValue(filter.status.value)];
      }
      if filter.assigneeID.Some? {
        conditions := conditions + ["assignee_id"];
        arguments := arguments + [IntValue(filter.assigneeID.value)];
      }
      arguments := arguments + [IntValue(filter.limit), IntValue(filter.offset)];
      assert (SelectTasks(conditions), arguments) == BuildSelect(filter);
      BuiltQueryMeans(filter, db.store.tasks);
      hide ListTasks, BuildSelect;
      var rows := ExecuteSelect(SelectTasks(conditions), arguments, db.store.tasks);
      if !o.Succeeds? || rows.None? {
        return Err(Infrastructure);
      }
      var tasks := ScanTasks(Map(RecordOf, rows.value));
      ScannedRows(rows.value);
      return Ok(tasks);
    }

    /**
     * One transaction: the SET list is compiled change by change, the row is updated, one history row is
     * inserted per change, and the row is loaded again before the commit. A call that leaves early rolls back.
     */
    method Update(task: Task, changedBy: int, changes: seq<TaskChange>, f: UpdateFaults) returns (r: Result<Task>)
      modifies db
      ensures (db.State(), r) == RepositoryUpdate(old(db.State()), task, changedBy, changes, f)
      ensures r.Err? && !f.commit.FailsAfter? ==> db.store == old(db.store)
    {
      FailedUpdateKeepsStore(db.State(), task, changedBy, changes, f);
      hide RunUpdate, CompileChanges;
      if !f.begin.Succeeds? {
        return Err(Infrastructure);
      }
      var tx := new MySqlTx(db);
      var list := Assignments(task, changes);
      if list.Err? {
        tx.Rollback();
        return Err(list.error);
      }
      if list.value.columns == [] {
        tx.Rollback();
        return Ok(task);
      }
      r := Write(tx, list.value, task.id, changedBy, changes, f);
      if r.Err? {
        tx.Rollback();
        return r;
      }
      if f.commit.FailsBefore? {
        tx.Rollback();
        return Err(Infrastructure);
      }
      tx.Commit();
      if f.commit.FailsAfter? {
        return Err(Infrastructure);
      }
    }

    /** The SET list, one placeholder and one argument for each column that a change writes. */
    method Assignments(task: Task, changes: seq<TaskChange>) returns (list: Result<SetList>)
      ensures list == CompileChanges(task, changes)
    {
      var assignments: seq<string>, arguments: seq<SqlValue> := [], [];
      var i := 0;
      while i < |changes|
        invariant 0 <= i <= |changes|
        invariant CompileChanges(task, changes[..i]) == Ok(SetList(assignments, arguments))
      {
        CompileSnoc(task, changes[..i], changes[i]);
        assert changes[..i] + [changes[i]] == changes[..i + 1];
        if changes[i].fieldName == FIELD_TITLE {
          assignments := assignments + ["title"];
          arguments := arguments + [TextValue(task.title)];
        } else if changes[i].fieldName == FIELD_DESCRIPTION {
          assignments := assignments + ["description"];
          arguments := arguments + [TextValue(task.description)];
        } else if changes[i].fieldName == FIELD_STATUS {
          assignments := assignments + ["status", "completed_at"];
          arguments := arguments + [TextValue(task.status), NullableTime(task.completedAt)];
        } else if changes[i].fieldName == FIELD_ASSIGNEE {
          assignments := assignments + ["assignee_id"];
          arguments := arguments + [NullableInt64(task.assigneeID)];
        } else {
          UnsupportedStays(task, changes, i + 1);
          return Err(UnsupportedField);
        }
        i := i + 1;
      }
      assert changes[..i] == changes;
      return Ok(SetList(assignments, arguments));
    }

    /** The statements of the transaction once the SET list is there. */
    method Write(tx: MySqlTx, list: SetList, taskID: int, changedBy: int, changes: seq<TaskChange>, f: UpdateFaults) returns (r: Result<Task>)
      modifies tx, tx.db`ids
      ensures (tx.State(), r) == RunUpdate(old(tx.State()), list, taskID, changedBy, changes, f)
    {
      hide ExecUpdate, FindTask, InsertHistory;
      if f.exec.FailsBefore? {
        return Err(Infrastructure);
      }
      var error := tx.UpdateRow(list, taskID);
      if error.Some? {
        return Err(error.value);
      }
      if f.exec.FailsAfter? {
        return Err(Infrastructure);
      }
      ghost var updated := tx.State();
      assert changes[..0] == [];
      var i := 0;
      while i < |changes|
        invariant 0 <= i <= |changes|
        invariant (tx.State(), None) == InsertAll(updated, taskID, changedBy, changes[..i], f.lost)
      {
        InsertNext(updated, taskID, changedBy, changes, f.lost, i);
        error := tx.InsertHistory(taskID, changedBy, changes[i]);
        if error.None? && f.lost == Some(i) {
          error := Some(Infrastructure);
        }
        if error.Some? {
          InsertAllStops(updated, taskID, changedBy, changes, f.lost, i + 1);
          return Err(error.value);
        }
        i := i + 1;
      }
      assert changes[..i] == changes;
      if !f.reload.Succeeds? {
        return Err(Infrastructure);
      }
      var found := FindTask(tx.work, taskID);
      if found.None? {
        return Err(TaskNotFound);
      }
      return Ok(found.value);
    }

    /** The records are scanned one by one: every stored row of the task, with its author, in order. */
    method History(taskID: int, o: Outcome) returns (r: Result<seq<TaskHistory>>)
      requires LegalStore(db.store)
      ensures o.Succeeds? ==> r.Ok? && IsHistoryOf(db.store, taskID, r.value)
      ensures !o.Succeeds? ==> r == Err(Infrastructure)
    {
      if !o.Succeeds? {
        return Err(Infrastructure);
      }
      var records := QueryHistory(db.store, taskID);
      var history: seq<TaskHistory> := [];
      var i := 0;
      while i < |records|
        invariant 0 <= i <= |records| && history == Map(ScanHistory, records[..i])
      {
        var record := records[i];
        var oldValue: Option<string>, newValue: Option<string> := None, None;
        if record.oldValue.TextValue? {
          oldValue := Some(record.oldValue.text);
        }
        if record.newValue.TextValue? {
          newValue := Some(record.newValue.text);
        }
        history := history + [TaskHistory(record.id, record.taskID, record.changedBy, record.changedByName, record.changedByEmail,
                                          record.fieldName, oldValue, newValue, record.changedAt)];
        i := i + 1;
      }
      assert records[..i] == records;
      hide QueryHistory, IsHistoryOf, KeyedBy;
      ScannedHistory(db.store, taskID, history);
      return Ok(history);
    }
  }

  lemma FailedUpdateKeepsStore(db: Tables, task: Task, changedBy: int, changes: seq<TaskChange>, f: UpdateFaults)
    ensures RepositoryUpdate(db, task, changedBy, changes, f).1.Err? && !f.commit.FailsAfter? ==>
      RepositoryUpdate(db, task, changedBy, changes, f).0.store == db.store
  {
    hide RepositoryUpdate;
    if RepositoryUpdate(db, task, changedBy, changes, f).1.Err? && !f.commit.FailsAfter? {
      FailedUpdateChangesNothing(db, task, changedBy, changes, f);
    }
  }

  lemma InsertNext(tx: Transaction, taskID: int, changedBy: int, changes: seq<TaskChange>, lost: Option<nat>, i: nat)
    requires i < |changes| && InsertAll(tx, taskID, changedBy, changes[..i], lost).1.None?
    ensures
      var (after, error) := InsertHistory(InsertAll(tx, taskID, changedBy, changes[..i], lost).0, taskID, changedBy, changes[i]);
      InsertAll(tx, taskID, changedBy, changes[..i + 1], lost)
        == (after, if error.None? && lost == Some(i) then Some(Infrastructure) else error)
  {
    hide InsertHistory;
    assert changes[..i + 1][..i] == changes[..i];
  }

  /** Once a change has no column, the whole list is refused. */
  lemma {:induction false} UnsupportedStays(task: Task, changes: seq<TaskChange>, n: nat)
    requires n <= |changes| && CompileChanges(task, changes[..n]).Err?
    ensures CompileChanges(task, changes) == Err(UnsupportedField)
    decreases |changes| - n
  {
    if n == |changes| {
      assert changes[..n] == changes;
    } else {
      CompileSnoc(task, changes[..n], changes[n]);
      assert changes[..n] + [changes[n]] == changes[..n + 1];
      UnsupportedStays(task, changes, n + 1);
    }
  }

  class TeamRepository {
    const db: Database

    constructor (db: Database)
      ensures this.db == db
    {
      this.db := db;
    }

    /** Two inserts in one transaction, with a rollback wherever it fails. */
    method CreateWithOwner(name: string, createdBy: int, f: TeamFaults) returns (r: Result<TeamRow>)
      modifies db
      ensures (db.State(), r) == RepositoryCreateTeam(old(db.State()), name, createdBy, f)
      ensures r.Err? && !f.commit.FailsAfter? ==> db.store == old(db.store)
    {
      TeamAndOwnerTogether(db.State(), name, createdBy, f);
      hide Transactions.InsertTeam, Transactions.InsertTeamMember;
      if !f.begin.Succeeds? {
        return Err(Infrastructure);
      }
      var tx := new MySqlTx(db);
      r := InsertBoth(tx, name, createdBy, f);
      if r.Err? {
        tx.Rollback();
        return r;
      }
      if f.commit.FailsBefore? {
        tx.Rollback();
        return Err(Infrastructure);
      }
      tx.Commit();
      if f.commit.FailsAfter? {
        return Err(Infrastructure);
      }
    }

    method InsertBoth(tx: MySqlTx, name: string, createdBy: int, f: TeamFaults) returns (r: Result<TeamRow>)
      modifies tx, tx.db`ids
      ensures (tx.State(), r) == RunCreateTeam(old(tx.State()), name, createdBy, f)
    {
      hide Transactions.InsertTeam, Transactions.InsertTeamMember;
      if f.team.FailsBefore? {
        return Err(Infrastructure);
      }
      var teamID := tx.InsertTeam(name, createdBy);
      if teamID.Err? || f.team.FailsAfter? || f.owner.FailsBefore? {
        return Err(Infrastructure);
      }
      var error := tx.InsertTeamMember(teamID.value, createdBy, ROLE_OWNER);
      if error.Some? || f.owner.FailsAfter? {
        return Err(Infrastructure);
      }
      return Ok(TeamRow(teamID.value, name, createdBy));
    }

    method FindForMember(teamID: int, userID: int, o: Outcome) returns (r: Result<string>)
      ensures
        var role := FindTeamRole(db.store, teamID, userID);
        r == if !o.Succeeds? then Err(Infrastructure) else if role.None? then Err(Forbidden) else Ok(role.value)
    {
      if !o.Succeeds? {
        return Err(Infrastructure);
      }
      var role := FindTeamRole(db.store, teamID, userID);
      if role.None? {
        return Err(Forbidden);
      }
      return Ok(role.value);
    }

    /** The primary key refuses a user who is a member already. */
    method AddMember(teamID: int, userID: int, o: Outcome) returns (r: Result<()>)
      modifies db
      ensures db.ids == old(db.ids) && db.now == old(db.now)
      ensures
        var added := InsertMember(old(db.store), teamID, userID);
        && db.store == (if added.Ok? && !o.FailsBefore? then added.value else old(db.store))
        && r == (if o.FailsBefore? then Err(Infrastructure)
                 else if added.Err? then Err(added.error)
                 else if o.FailsAfter? then Err(Infrastructure) else Ok(()))
    {
      if o.FailsBefore? {
        return Err(Infrastructure);
      }
      var added := InsertMember(db.store, teamID, userID);
      if added.Err? {
        return Err(added.error);
      }
      db.store := added.value;
      return if o.FailsAfter? then Err(Infrastructure) else Ok(());
    }
  }

  class ReportRepository {
    const db: Database

    constructor (db: Database)
      ensures this.db == db
    {
      this.db := db;
    }

    /** The joined query says of every team what counting separately says. */
    method GetTeamStatistics(since: int, o: Outcome) returns (r: Result<seq<TeamStatistics>>)
      requires LegalStore(db.store)
      ensures r == if o.Succeeds? then Ok(Map(StatisticsOf(db.store, since), Sort(TeamBefore, db.store.teams))) else Err(Infrastructure)
      ensures r.Ok? ==> StatisticsReport(db.store, since, r.value)
    {
      StatisticsMeaning(db.store, since);
      StatisticsCount(db.store, since);
      hide StatisticsOf, QueryStatistics, Map, StatisticsReport;
      if !o.Succeeds? {
        return Err(Infrastructure);
      }
      return Ok(QueryStatistics(db.store, since));
    }

    method GetTopTaskCreators(month: Month, o: Outcome) returns (r: Result<seq<TopTaskCreator>>)
      requires LegalStore(db.store)
      ensures o.Succeeds? ==> r.Ok? && Ordered(LineBefore, r.value) && forall line :: line in r.value <==> PodiumLine(db.store, month, line)
      ensures o.Succeeds? ==> TopThree(db.store, month, r.value)
      ensures !o.Succeeds? ==> r == Err(Infrastructure)
    {
      TopCreatorsMeaning(db.store, month);
      ReportIsTopThree(db.store, month);
      hide PodiumLine, QueryTopCreators, Ordered, TopThree;
      if !o.Succeeds? {
        return Err(Infrastructure);
      }
      return Ok(QueryTopCreators(db.store, month));
    }

    /** A null assignee could not be scanned, and would fail the call; the condition of the query lets none through. */
    method FindTasksWithInvalidAssignees(o: Outcome, lost: Option<nat>) returns (r: Result<seq<InvalidTaskAssignee>>)
      requires LegalStore(db.store)
      ensures !o.Succeeds? ==> r == Err(Infrastructure)
      ensures o.Succeeds? && lost.None? ==> r.Ok?
      ensures r.Ok? ==> InvalidReport(db.store, r.value)
    {
      InvalidAssigneesMeaning(db.store);
      hide QueryInvalidAssignees, InvalidReport, ScanInvalid, KeyedBy, LegalStore;
      if !o.Succeeds? {
        return Err(Infrastructure);
      }
      var records := QueryInvalidAssignees(db.store);
      var tasks: seq<InvalidTaskAssignee> := [];
      var i := 0;
      while i < |records|
        invariant 0 <= i <= |records| && tasks == Map(ScanInvalid, records[..i])
      {
        if !records[i].assigneeID.IntValue? || lost == Some(i) {
          return Err(Infrastructure);
        }
        tasks := tasks + [ScanInvalid(records[i])];
        i := i + 1;
      }
      assert records[..i] == records;
      return Ok(tasks);
    }
  }
}
