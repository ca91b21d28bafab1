/** The MySQL tables, and what each statement or transaction of the repositories does to them. */
module Store {
  import opened Domain
  import opened Sorting
  import opened TaskUpdates

  const MAX_TEAM_NAME_COLUMN := 150

  datatype UserRow = UserRow(id: int, name: string, email: string)
  datatype TeamRow = TeamRow(id: int, name: string, createdBy: int)
  datatype MemberRow = MemberRow(teamID: int, userID: int, role: string)
  datatype HistoryRow = HistoryRow(id: int, taskID: int, changedBy: int, change: TaskChange, changedAt: int)

  datatype Store = Store(
    users: seq<UserRow>,
    teams: seq<TeamRow>,
    members: seq<MemberRow>,
    tasks: seq<Task>,
    history: seq<HistoryRow>)

  const EMPTY := Store([], [], [], [], [])

  // ----- reads

  predicate HasUser(st: Store, userID: int) {
    exists u | u in st.users :: u.id == userID
  }

  predicate HasTeam(st: Store, teamID: int) {
    exists t | t in st.teams :: t.id == teamID
  }

  predicate IsMember(st: Store, teamID: int, userID: int) {
    exists m | m in st.members :: m.teamID == teamID && m.userID == userID
  }

  /** The first row with the email; the column is unique. */
  function FindByEmail(users: seq<UserRow>, email: string): (r: Option<UserRow>)
    ensures r.Some? ==> r.value in users && r.value.email == email
    ensures r.None? ==> forall u :: u in users ==> u.email != email
  {
    if users == [] then None
    else if users[0].email == email then Some(users[0])
    else FindByEmail(users[1..], email)
  }

  /** The member row of a user in a team; the pair is the primary key. */
  function FindMember(members: seq<MemberRow>, teamID: int, userID: int): (r: Option<MemberRow>)
    ensures r.Some? ==> r.value in members && r.value.teamID == teamID && r.value.userID == userID
    ensures r.None? ==> forall m :: m in members ==> !(m.teamID == teamID && m.userID == userID)
  {
    if members == [] then None
    else if members[0].teamID == teamID && members[0].userID == userID then Some(members[0])
    else FindMember(members[1..], teamID, userID)
  }

  /** `FindForMember`: the caller's role, through an inner join of the team and the member row. */
  function FindTeamRole(st: Store, teamID: int, userID: int): (r: Option<string>)
    ensures r.Some? ==> HasTeam(st, teamID) && MemberRow(teamID, userID, r.value) in st.members
  {
    var m := FindMember(st.members, teamID, userID);
    if m.None? || !HasTeam(st, teamID) then None else Some(m.value.role)
  }

  /** The position of a task row, or the number of rows when there is none. */
  function TaskIndex(tasks: seq<Task>, taskID: int): (i: nat)
    ensures i <= |tasks|
    ensures i < |tasks| ==> tasks[i].id == taskID
    ensures forall j :: 0 <= j < i ==> tasks[j].id != taskID
  {
    if tasks == [] || tasks[0].id == taskID then 0 else 1 + TaskIndex(tasks[1..], taskID)
  }

  function FindTask(st: Store, taskID: int): (r: Option<Task>)
    ensures r.Some? ==> r.value in st.tasks && r.value.id == taskID
    ensures r.None? ==> forall row :: row in st.tasks ==> row.id != taskID
  {
    var i := TaskIndex(st.tasks, taskID);
    if i < |st.tasks| then Some(st.tasks[i]) else None
  }

  function TaskSelector(taskID: int): HistoryRow -> bool {
    (h: HistoryRow) => h.taskID == taskID
  }

  /** The history rows of one task in commit order. */
  function HistoryOf(st: Store, taskID: int): seq<HistoryRow> {
    Filter(TaskSelector(taskID), st.history)
  }

  function ChangesOf(rows: seq<HistoryRow>): (changes: seq<TaskChange>)
    ensures |changes| == |rows|
    ensures forall i :: 0 <= i < |rows| ==> changes[i] == rows[i].change
  {
    if rows == [] then [] else ChangesOf(rows[..|rows| - 1]) + [rows[|rows| - 1].change]
  }

  /** ORDER BY changed_at ASC, id ASC. */
  predicate HistoryBefore(a: HistoryRow, b: HistoryRow) {
    a.changedAt < b.changedAt || (a.changedAt == b.changedAt && a.id < b.id)
  }

  // ----- writes

  function InsertUser(st: Store, id: int, name: string, email: string): Result<Store> {
    if FindByEmail(st.users, email).Some? then Err(Infrastructure)
    else Ok(st.(users := st.users + [UserRow(id, name, email)]))
  }

  /** The two inserts of `CreateWithOwner`, as the one transaction they are. */
  function InsertTeamWithOwner(st: Store, id: int, name: string, owner: int): Result<Store> {
    if |name| > MAX_TEAM_NAME_COLUMN || !HasUser(st, owner) then Err(Infrastructure)
    else Ok(st.(teams := st.teams + [TeamRow(id, name, owner)],
                members := st.members + [MemberRow(id, owner, ROLE_OWNER)]))
  }

  function InsertMember(st: Store, teamID: int, userID: int): Result<Store> {
    if FindMember(st.members, teamID, userID).Some? then Err(TeamMemberAlreadyExists)
    else if !HasTeam(st, teamID) || !HasUser(st, userID) then Err(Infrastructure)
    else Ok(st.(members := st.members + [MemberRow(teamID, userID, ROLE_MEMBER)]))
  }

  /** The columns `TaskRepository.Create` inserts. */
  datatype Draft = Draft(
    teamID: int, title: string, description: string, status: string, assigneeID: Option<int>, createdBy: int)

  function NewRow(id: int, draft: Draft, now: int): Task {
    Task(id, draft.teamID, draft.title, draft.description, draft.status, draft.assigneeID, draft.createdBy,
         None, now, now)
  }

  function InsertTask(st: Store, id: int, draft: Draft, now: int): Result<Store> {
    if !HasTeam(st, draft.teamID) || !HasUser(st, draft.createdBy)
       || (draft.assigneeID.Some? && !HasUser(st, draft.assigneeID.value))
       || !ValidStatus(draft.status) || |draft.title| > MAX_TITLE
    then Err(Infrastructure)
    else Ok(st.(tasks := st.tasks + [NewRow(id, draft, now)]))
  }

  /**
   * UPDATE tasks SET ... WHERE id = ?, followed by the check of the affected rows. MySQL counts a row
   * only when a column really changes, so an update to the values already there reports no row.
   */
  function ExecUpdate(st: Store, list: SetList, taskID: int, now: int): Result<Task> {
    var i := TaskIndex(st.tasks, taskID);
    if i == |st.tasks| then Err(TaskNotFound)
    else
      var r := ApplySet(st.tasks[i], list.columns, list.arguments);
      if r.None? || |r.value.title| > MAX_TITLE
         || (r.value.assigneeID.Some? && !HasUser(st, r.value.assigneeID.value)) then Err(Infrastructure)
      else if r.value == st.tasks[i] then Err(TaskNotFound)
      else Ok(r.value.(updatedAt := now))
  }

  /** The commit of an update transaction: the row and its history become visible together. */
  function CommitUpdate(st: Store, row: Task, rows: seq<HistoryRow>): Store {
    var i := TaskIndex(st.tasks, row.id);
    if i == |st.tasks| then st
    else st.(tasks := st.tasks[i := row], history := st.history + rows)
  }

  /** The history rows of an update, when nothing else draws ids in between. */
  function HistoryRows(firstID: int, taskID: int, changedBy: int, changes: seq<TaskChange>, now: int): (rows: seq<HistoryRow>)
    ensures |rows| == |changes|
    ensures forall i :: 0 <= i < |rows| ==> rows[i] == HistoryRow(firstID + i, taskID, changedBy, changes[i], now)
  {
    seq(|changes|, i requires 0 <= i < |changes| => HistoryRow(firstID + i, taskID, changedBy, changes[i], now))
  }

  // ----- facts about the tables

  lemma ChangesOfAppend(xs: seq<HistoryRow>, ys: seq<HistoryRow>)
    ensures ChangesOf(xs + ys) == ChangesOf(xs) + ChangesOf(ys)
  {
  }

  /**
   * When the update statement reports no row: exactly when there is no such task, or when every column
   * the update would write already holds the wanted value.
   */
  lemma ZeroRowsExactly(st: Store, current: Task, wanted: Task, now: int)
    requires ValidStatus(wanted.status) && |wanted.title| <= MAX_TITLE
    requires forall row :: row in st.tasks ==> |row.title| <= MAX_TITLE
    requires wanted.assigneeID.Some? ==> HasUser(st, wanted.assigneeID.value)
    requires forall row :: row in st.tasks && row.assigneeID.Some? ==> HasUser(st, row.assigneeID.value)
    ensures CompileChanges(wanted, Changes(current, wanted)).Ok?
    ensures
      var r := ExecUpdate(st, CompileChanges(wanted, Changes(current, wanted)).value, current.id, now);
      var found := FindTask(st, current.id);
      && (r == Err(TaskNotFound) <==> found.None? || Merge(found.value, current, wanted) == found.value)
      && (r.Ok? ==> (found.Some? && r.value == Merge(found.value, current, wanted).(updatedAt := now)))
      && (r.Err? ==> r.error == TaskNotFound)
  {
    var found := FindTask(st, current.id);
    if found.Some? {
      SetListMeaning(found.value, current, wanted);
    } else {
      SetListMeaning(current, current, wanted);
    }
  }
}
