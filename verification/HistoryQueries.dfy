/** The rows that MySQL sends and the values they are scanned into; the history query and what it means. */
module HistoryQueries {
  import opened Domain
  import opened Sorting
  import opened TaskQueries
  import opened TaskUpdates
  import opened Store
  import opened Relations
  import opened Reports

  // ----- a row of the tasks table

  /** A row as the driver delivers it: nullable columns are SQL values. */
  datatype TaskRecord = TaskRecord(
    id: int, teamID: int, title: string, description: string, status: string,
    assigneeID: SqlValue, createdBy: int, completedAt: SqlValue, createdAt: int, updatedAt: int)

  function RecordOf(task: Task): TaskRecord {
    TaskRecord(task.id, task.teamID, task.title, task.description, task.status,
               NullableInt64(task.assigneeID), task.createdBy, NullableTime(task.completedAt), task.createdAt, task.updatedAt)
  }

  /** `scanTask`: a null leaves the pointer nil. */
  function ScanTask(record: TaskRecord): Task {
    Task(record.id, record.teamID, record.title, record.description, record.status,
         if record.assigneeID.IntValue? then Some(record.assigneeID.n) else None,
         record.createdBy,
         if record.completedAt.TimeValue? then Some(record.completedAt.time) else None,
         record.createdAt, record.updatedAt)
  }

  /** Scanning a stored row gives back the row, nulls included. */
  lemma ScanTaskOfRecord(task: Task)
    ensures ScanTask(RecordOf(task)) == task
  {
  }

  // ----- the history of a task

  datatype TaskHistory = TaskHistory(
    id: int, taskID: int, changedBy: int, changedByName: string, changedByEmail: string,
    fieldName: string, oldValue: Option<string>, newValue: Option<string>, changedAt: int)

  datatype HistoryRecord = HistoryRecord(
    id: int, taskID: int, changedBy: int, changedByName: string, changedByEmail: string,
    fieldName: string, oldValue: SqlValue, newValue: SqlValue, changedAt: int)

  type AuthoredRow = (HistoryRow, UserRow)

  predicate AuthorOn(h: HistoryRow, u: UserRow) {
    u.id == h.changedBy
  }

  function OfTask(taskID: int): AuthoredRow -> bool {
    (row: AuthoredRow) => row.0.taskID == taskID
  }

  predicate AuthoredBefore(a: AuthoredRow, b: AuthoredRow) {
    HistoryBefore(a.0, b.0)
  }

  function NullableString(value: Option<string>): SqlValue {
    if value.None? then NullValue else TextValue(value.value)
  }

  function HistoryRecordOf(row: AuthoredRow): HistoryRecord {
    var (h, u) := row;
    HistoryRecord(h.id, h.taskID, h.changedBy, u.name, u.email,
                  h.change.fieldName, NullableString(h.change.oldValue), NullableString(h.change.newValue), h.changedAt)
  }

  /** task_history INNER JOIN users ON ... WHERE task_id = ? ORDER BY changed_at ASC, id ASC. */
  function QueryHistory(st: Store, taskID: int): seq<HistoryRecord> {
    Map(HistoryRecordOf, Sort(AuthoredBefore, Filter(OfTask(taskID), InnerJoin(AuthorOn, st.history, st.users))))
  }

  function ScanString(value: SqlValue): Option<string> {
    if value.TextValue? then Some(value.text) else None
  }

  function ScanHistory(r: HistoryRecord): TaskHistory {
    TaskHistory(r.id, r.taskID, r.changedBy, r.changedByName, r.changedByEmail,
                r.fieldName, ScanString(r.oldValue), ScanString(r.newValue), r.changedAt)
  }

  // ----- what the history call gives

  /** The entry that a stored row and its author make. */
  predicate EntryOf(e: TaskHistory, h: HistoryRow, u: UserRow) {
    && (e.id, e.taskID, e.changedBy, e.changedAt) == (h.id, h.taskID, h.changedBy, h.changedAt)
    && TaskChange(e.fieldName, e.oldValue, e.newValue) == h.change
    && u.id == h.changedBy && (e.changedByName, e.changedByEmail) == (u.name, u.email)
  }

  predicate EntryBefore(a: TaskHistory, b: TaskHistory) {
    a.changedAt < b.changedAt || (a.changedAt == b.changedAt && a.id < b.id)
  }

  /** Every stored row of the task, once, with its author, in the order of time and id. */
  ghost predicate IsHistoryOf(st: Store, taskID: int, entries: seq<TaskHistory>) {
    && |entries| == |HistoryOf(st, taskID)|
    && (forall h :: h in st.history && h.taskID == taskID ==> exists e, u :: e in entries && u in st.users && EntryOf(e, h, u))
    && (forall e :: e in entries ==> exists h, u :: h in HistoryOf(st, taskID) && u in st.users && EntryOf(e, h, u))
    && (forall i, j :: 0 <= i < j < |entries| ==> EntryBefore(entries[i], entries[j]))
  }

  function WithAuthor(st: Store): HistoryRow -> UserRow {
    (h: HistoryRow) => UserRowOf(st.users, h.changedBy)
  }

  ghost predicate AuthorsKnown(st: Store) {
    KeyedBy(UserKey, st.users) && forall h :: h in st.history ==> HasUser(st, h.changedBy)
  }

  lemma AuthorReference(st: Store, h: HistoryRow)
    requires AuthorsKnown(st) && h in st.history
    ensures WithAuthor(st)(h) in st.users && WithAuthor(st)(h).id == h.changedBy
    ensures Filter(Matching(AuthorOn, h), st.users) == [WithAuthor(st)(h)]
  {
    assert HasUser(st, h.changedBy);
    UserRowFound(st.users, h.changedBy);
    FilterByKey(UserKey, st.users, Matching(AuthorOn, h), WithAuthor(st)(h));
  }

  /** The join with the authors drops no row and repeats none, so it may as well come last. */
  lemma JoinComesLast(st: Store, taskID: int)
    requires AuthorsKnown(st)
    ensures Sort(AuthoredBefore, Filter(OfTask(taskID), InnerJoin(AuthorOn, st.history, st.users)))
         == Map(Beside(WithAuthor(st)), Sort(HistoryBefore, HistoryOf(st, taskID)))
  {
    forall h | h in st.history ensures Filter(Matching(AuthorOn, h), st.users) == [WithAuthor(st)(h)] {
      AuthorReference(st, h);
    }
    InnerJoinOfReferences(AuthorOn, st.history, st.users, WithAuthor(st));
    hide InnerJoin, AuthorsKnown, Filter;
    FilterMap(Beside(WithAuthor(st)), OfTask(taskID), TaskSelector(taskID), st.history);
    SortMap(Beside(WithAuthor(st)), AuthoredBefore, HistoryBefore, HistoryOf(st, taskID));
  }

  lemma ScanOfRecord(h: HistoryRow, u: UserRow)
    requires u.id == h.changedBy
    ensures EntryOf(ScanHistory(HistoryRecordOf((h, u))), h, u)
  {
  }

  lemma QueryLength(st: Store, taskID: int)
    requires AuthorsKnown(st)
    ensures |QueryHistory(st, taskID)| == |HistoryOf(st, taskID)|
  {
    JoinComesLast(st, taskID);
    hide Sort, Filter, InnerJoin, AuthorsKnown;
  }

  /** Each record scans to the entry of its stored row. */
  lemma ScannedRow(st: Store, taskID: int, i: nat)
    requires AuthorsKnown(st) && i < |HistoryOf(st, taskID)|
    requires |QueryHistory(st, taskID)| == |HistoryOf(st, taskID)|
    ensures
      var h := Sort(HistoryBefore, HistoryOf(st, taskID))[i];
      EntryOf(ScanHistory(QueryHistory(st, taskID)[i]), h, WithAuthor(st)(h)) && WithAuthor(st)(h) in st.users
  {
    var rows := Sort(HistoryBefore, HistoryOf(st, taskID));
    JoinComesLast(st, taskID);
    SortElements(HistoryBefore, HistoryOf(st, taskID));
    hide Sort, Filter, InnerJoin, AuthorsKnown, WithAuthor;
    assert rows[i] in rows;
    AuthorReference(st, rows[i]);
    ScanOfRecord(rows[i], WithAuthor(st)(rows[i]));
  }

  lemma EntriesOfRows(st: Store, taskID: int, rows: seq<HistoryRow>, entries: seq<TaskHistory>)
    requires |entries| == |rows| == |HistoryOf(st, taskID)| && Ordered(HistoryBefore, rows)
    requires forall h :: h in rows <==> h in HistoryOf(st, taskID)
    requires forall h :: h in rows <==> h in st.history && h.taskID == taskID
    requires forall i :: 0 <= i < |rows| ==> exists u :: u in st.users && EntryOf(entries[i], rows[i], u)
    ensures IsHistoryOf(st, taskID, entries)
  {
    hide HistoryOf;
    forall h | h in st.history && h.taskID == taskID ensures exists e, u :: e in entries && u in st.users && EntryOf(e, h, u) {
      var i :| 0 <= i < |rows| && rows[i] == h;
      assert entries[i] in entries;
    }
    forall e | e in entries ensures exists h, u :: h in HistoryOf(st, taskID) && u in st.users && EntryOf(e, h, u) {
      var i :| 0 <= i < |entries| && entries[i] == e;
      assert rows[i] in rows;
    }
    forall i, j | 0 <= i < j < |entries| ensures EntryBefore(entries[i], entries[j]) {
      assert HistoryBefore(rows[i], rows[j]);
    }
  }

  /** Scanning the records of the query gives the history. */
  lemma ScannedHistory(st: Store, taskID: int, entries: seq<TaskHistory>)
    requires AuthorsKnown(st) && KeyedBy(HistoryKey, st.history)
    requires entries == Map(ScanHistory, QueryHistory(st, taskID))
    ensures IsHistoryOf(st, taskID, entries)
  {
    var rows := Sort(HistoryBefore, HistoryOf(st, taskID));
    JoinComesLast(st, taskID);
    assert |entries| == |rows|;
    HistorySorted(st, taskID);
    SortElements(HistoryBefore, HistoryOf(st, taskID));
    hide Sort, HistoryOf, InnerJoin, KeyedBy, Ordered, QueryHistory, ScanHistory, EntryOf, WithAuthor, AuthorsKnown;
    forall i | 0 <= i < |rows| ensures exists u :: u in st.users && EntryOf(entries[i], rows[i], u) {
      ScannedRow(st, taskID, i);
    }
    EntriesOfRows(st, taskID, rows, entries);
  }

  lemma HistorySorted(st: Store, taskID: int)
    requires KeyedBy(HistoryKey, st.history)
    ensures var rows := Sort(HistoryBefore, HistoryOf(st, taskID));
      && Ordered(HistoryBefore, rows)
      && (forall h :: h in rows <==> h in st.history && h.taskID == taskID)
  {
    var rows := HistoryOf(st, taskID);
    FilterKeyed(TaskSelector(taskID), HistoryKey, st.history);
    assert forall i, j :: 0 <= i < j < |rows| ==> HistoryKey(rows[i]) != HistoryKey(rows[j]);
    hide Filter;
    SortOrdered(HistoryBefore, rows);
    SortElements(HistoryBefore, rows);
  }
}
