/** The invariants of the stored data, and what each database write needs to keep them. */
module StoreSafety {
  import opened Domain
  import opened Sorting
  import opened TaskQueries
  import opened TaskUpdates
  import opened AuditLog
  import opened Store

  predicate TeamKeys(teams: seq<TeamRow>) {
    forall i, j :: 0 <= i < j < |teams| ==> teams[i].id != teams[j].id
  }

  predicate MemberKeys(members: seq<MemberRow>) {
    forall i, j :: 0 <= i < j < |members| ==>
      !(members[i].teamID == members[j].teamID && members[i].userID == members[j].userID)
  }

  ghost predicate MembersLinked(st: Store) {
    forall m :: m in st.members ==> HasTeam(st, m.teamID) && HasUser(st, m.userID)
  }

  ghost predicate OwnersPresent(st: Store) {
    forall t :: t in st.teams ==> MemberRow(t.id, t.createdBy, ROLE_OWNER) in st.members
  }

  ghost predicate RolesOk(st: Store, invites: map<(int, int), int>) {
    forall m, t :: m in st.members && t in st.teams && m.teamID == t.id ==> MemberRowOk(m, t, invites)
  }

  /** Every team has its creator as owner row, and every other member was invited by that owner. */
  ghost predicate MembersOk(st: Store, invites: map<(int, int), int>) {
    && TeamKeys(st.teams)
    && MemberKeys(st.members)
    && MembersLinked(st)
    && OwnersPresent(st)
    && RolesOk(st, invites)
  }

  predicate MemberRowOk(m: MemberRow, t: TeamRow, invites: map<(int, int), int>) {
    || (m.role == ROLE_OWNER && m.userID == t.createdBy)
    || (m.role == ROLE_MEMBER && m.userID != t.createdBy
        && (t.id, m.userID) in invites && invites[(t.id, m.userID)] == t.createdBy)
  }

  /** A task row: creator and assignee are members, completion agrees with the status, the title is clean. */
  ghost predicate RowOk(st: Store, row: Task) {
    && IsMember(st, row.teamID, row.createdBy)
    && (row.assigneeID.Some? ==> IsMember(st, row.teamID, row.assigneeID.value))
    && (row.completedAt.Some? <==> row.status == STATUS_DONE)
    && ValidStatus(row.status)
    && StoredTitle(row.title)
  }

  ghost predicate TasksOk(st: Store) {
    && UniqueIDs(st.tasks)
    && (forall row :: row in st.tasks ==> RowOk(st, row))
  }

  /** The author of a history entry is a member of the task's team. */
  ghost predicate AuthorOk(st: Store, taskID: int, author: int) {
    exists row :: row in st.tasks && row.id == taskID && IsMember(st, row.teamID, author)
  }

  /** Per task, history is committed in the order of ids and of times. */
  ghost predicate HistoryOk(st: Store, nextID: int, now: int) {
    && (forall h :: h in st.history ==>
          AuthorOk(st, h.taskID, h.changedBy) && WellFormed(h.change) && h.id < nextID && h.changedAt <= now)
    && (forall i, j :: 0 <= i < j < |st.history| && st.history[i].taskID == st.history[j].taskID ==>
          HistoryBefore(st.history[i], st.history[j]) && st.history[i].id < st.history[j].id)
  }

  /** The history of a task, replayed over the task as created, is the row; and it is chained unless a stale update hit it. */
  ghost predicate RowAudited(st: Store, row: Task, created: map<int, Task>, stale: set<int>) {
    && row.id in created
    && created[row.id].teamID == row.teamID
    && created[row.id].createdBy == row.createdBy
    && var changes := ChangesOf(HistoryOf(st, row.id));
       var origin := FieldsOf(created[row.id]);
       && FieldsOf(row) == Replay(origin, changes)
       && (Chained(origin, changes) <==> row.id !in stale)
  }

  ghost predicate AuditOk(st: Store, created: map<int, Task>, stale: set<int>) {
    forall row :: row in st.tasks ==> RowAudited(st, row, created, stale)
  }

  ghost predicate IdsOk(st: Store, nextTeam: int, nextTask: int, stale: set<int>) {
    && nextTask > 0
    && (forall t :: t in st.teams ==> t.id < nextTeam)
    && (forall row :: row in st.tasks ==> 0 < row.id < nextTask)
    && (forall id :: id in stale ==> id < nextTask)
  }

  /** A later database state: members stay, and tasks other than the touched one stay as they are. */
  ghost predicate Extends(st: Store, st': Store, touched: int) {
    && (forall u :: u in st.users ==> u in st'.users)
    && (forall t :: t in st.teams ==> t in st'.teams)
    && (forall m :: m in st.members ==> m in st'.members)
    && (forall row :: row in st.tasks && row.id != touched ==> row in st'.tasks)
    && (forall row :: row in st.tasks ==> HasTask(st', row.id, row.teamID))
    && (forall h :: h in st'.history && h.taskID != touched ==> h in st.history)
  }

  predicate HasTask(st: Store, taskID: int, teamID: int) {
    exists row | row in st.tasks :: row.id == taskID && row.teamID == teamID
  }

  lemma IsMemberGrows(st: Store, st': Store, teamID: int, userID: int)
    requires forall m :: m in st.members ==> m in st'.members
    requires IsMember(st, teamID, userID)
    ensures IsMember(st', teamID, userID)
  {
  }

  lemma RowOkGrows(st: Store, st': Store, row: Task)
    requires forall m :: m in st.members ==> m in st'.members
    requires RowOk(st, row)
    ensures RowOk(st', row)
  {
    IsMemberGrows(st, st', row.teamID, row.createdBy);
    if row.assigneeID.Some? {
      IsMemberGrows(st, st', row.teamID, row.assigneeID.value);
    }
  }

  lemma MemberOfIsUser(st: Store, invites: map<(int, int), int>, teamID: int, userID: int)
    requires MembersOk(st, invites) && IsMember(st, teamID, userID)
    ensures HasUser(st, userID) && HasTeam(st, teamID)
  {
    var m :| m in st.members && m.teamID == teamID && m.userID == userID;
  }

  // ----- users, teams and members

  /** More users, teams and members keep every row linked. */
  lemma LinksGrow(st: Store, st': Store)
    requires MembersLinked(st)
    requires forall u :: u in st.users ==> u in st'.users
    requires forall t :: t in st.teams ==> t in st'.teams
    requires forall m :: m in st'.members && m !in st.members ==> HasTeam(st', m.teamID) && HasUser(st', m.userID)
    ensures MembersLinked(st')
  {
    forall m | m in st'.members ensures HasTeam(st', m.teamID) && HasUser(st', m.userID) {
      if m in st.members {
        assert HasTeam(st, m.teamID) && HasUser(st, m.userID);
      }
    }
  }

  lemma UserInserted(st: Store, invites: map<(int, int), int>, id: int, name: string, email: string)
    requires MembersOk(st, invites)
    requires InsertUser(st, id, name, email).Ok?
    ensures MembersOk(InsertUser(st, id, name, email).value, invites)
    ensures Extends(st, InsertUser(st, id, name, email).value, 0)
  {
    hide TeamKeys, MemberKeys, MembersLinked, MemberRowOk, FindByEmail;
    LinksGrow(st, InsertUser(st, id, name, email).value);
  }

  lemma OldTeamIds(st: Store, id: int)
    requires MembersLinked(st)
    requires forall t :: t in st.teams ==> t.id < id
    ensures forall m :: m in st.members ==> m.teamID < id
  {
    hide HasUser;
    forall m | m in st.members ensures m.teamID < id {
      assert HasTeam(st, m.teamID);
    }
  }

  lemma MemberKeysInserted(members: seq<MemberRow>, m0: MemberRow)
    requires MemberKeys(members)
    requires forall m :: m in members ==> !(m.teamID == m0.teamID && m.userID == m0.userID)
    ensures MemberKeys(members + [m0])
  {
    assert forall i :: 0 <= i < |members| ==> members[i] in members;
  }

  lemma TeamRolesInserted(st: Store, st': Store, invites: map<(int, int), int>, team: TeamRow, m0: MemberRow)
    requires RolesOk(st, invites) && OwnersPresent(st)
    requires st'.teams == st.teams + [team] && st'.members == st.members + [m0]
    requires m0 == MemberRow(team.id, team.createdBy, ROLE_OWNER)
    requires forall t :: t in st.teams ==> t.id < team.id
    requires forall m :: m in st.members ==> m.teamID < team.id
    ensures RolesOk(st', invites) && OwnersPresent(st')
  {
    forall m, t | m in st'.members && t in st'.teams && m.teamID == t.id ensures MemberRowOk(m, t, invites) {
      assert m in st.members || m == m0;
      assert t in st.teams || t == team;
    }
    forall t | t in st'.teams ensures MemberRow(t.id, t.createdBy, ROLE_OWNER) in st'.members {
      assert t in st.teams || t == team;
    }
  }

  lemma TeamInserted(st: Store, invites: map<(int, int), int>, id: int, name: string, owner: int)
    requires MembersOk(st, invites)
    requires forall t :: t in st.teams ==> t.id < id
    requires InsertTeamWithOwner(st, id, name, owner).Ok?
    ensures MembersOk(InsertTeamWithOwner(st, id, name, owner).value, invites)
    ensures Extends(st, InsertTeamWithOwner(st, id, name, owner).value, 0)
  {
    hide MemberKeys, MembersLinked, OwnersPresent, RolesOk, HasUser;
    var st' := InsertTeamWithOwner(st, id, name, owner).value;
    var team, m0 := TeamRow(id, name, owner), MemberRow(id, owner, ROLE_OWNER);
    OldTeamIds(st, id);
    MemberKeysInserted(st.members, m0);
    assert st'.members == st.members + [m0] && st'.teams == st.teams + [team];
    TeamRolesInserted(st, st', invites, team, m0);
    NewOwnerLinked(st, st', team, m0);
    LinksGrow(st, st');
  }

  lemma NewOwnerLinked(st: Store, st': Store, team: TeamRow, m0: MemberRow)
    requires HasUser(st, m0.userID) && st'.users == st.users
    requires st'.teams == st.teams + [team] && st'.members == st.members + [m0] && m0.teamID == team.id
    ensures forall m :: m in st'.members && m !in st.members ==> HasTeam(st', m.teamID) && HasUser(st', m.userID)
  {
    assert team in st'.teams;
  }

  lemma MemberRolesInserted(st: Store, st': Store, invites: map<(int, int), int>, m0: MemberRow, inviter: int)
    requires RolesOk(st, invites) && OwnersPresent(st)
    requires st'.teams == st.teams && st'.members == st.members + [m0] && m0.role == ROLE_MEMBER
    requires forall m :: m in st.members ==> !(m.teamID == m0.teamID && m.userID == m0.userID)
    requires forall t :: t in st.teams && t.id == m0.teamID ==> t.createdBy == inviter
    ensures RolesOk(st', invites[(m0.teamID, m0.userID) := inviter]) && OwnersPresent(st')
  {
    forall m, t | m in st'.members && t in st'.teams && m.teamID == t.id
      ensures MemberRowOk(m, t, invites[(m0.teamID, m0.userID) := inviter])
    {
      if m in st.members {
        assert MemberRowOk(m, t, invites);
      } else {
        assert m == m0;
        assert MemberRow(t.id, t.createdBy, ROLE_OWNER) in st.members;
      }
    }
  }

  lemma MemberInserted(st: Store, invites: map<(int, int), int>, teamID: int, userID: int, inviter: int)
    requires MembersOk(st, invites)
    requires InsertMember(st, teamID, userID).Ok?
    requires forall t :: t in st.teams && t.id == teamID ==> t.createdBy == inviter
    ensures MembersOk(InsertMember(st, teamID, userID).value, invites[(teamID, userID) := inviter])
    ensures Extends(st, InsertMember(st, teamID, userID).value, 0)
  {
    hide TeamKeys, MemberKeys, MembersLinked, OwnersPresent, RolesOk;
    var st' := InsertMember(st, teamID, userID).value;
    var m0 := MemberRow(teamID, userID, ROLE_MEMBER);
    assert st'.members == st.members + [m0];
    MemberKeysInserted(st.members, m0);
    MemberRolesInserted(st, st', invites, m0, inviter);
    LinksGrow(st, st');
  }

  /** Only the owner of a team passes the role check of an invitation. */
  lemma InviterIsOwner(st: Store, invites: map<(int, int), int>, m: MemberRow)
    requires MembersOk(st, invites) && m in st.members
    requires m.role == ROLE_OWNER || m.role == ROLE_ADMIN
    ensures forall t :: t in st.teams && t.id == m.teamID ==> t.createdBy == m.userID
  {
    forall t | t in st.teams && t.id == m.teamID ensures t.createdBy == m.userID {
      assert MemberRowOk(m, t, invites);
    }
  }

  // ----- tasks

  lemma TaskInserted(st: Store, id: int, draft: Draft, now: int)
    requires TasksOk(st)
    requires forall row :: row in st.tasks ==> row.id < id
    requires InsertTask(st, id, draft, now).Ok?
    requires IsMember(st, draft.teamID, draft.createdBy)
    requires draft.assigneeID.Some? ==> IsMember(st, draft.teamID, draft.assigneeID.value)
    requires draft.status == STATUS_TODO && StoredTitle(draft.title)
    ensures TasksOk(InsertTask(st, id, draft, now).value)
    ensures Extends(st, InsertTask(st, id, draft, now).value, 0)
  {
    var st' := InsertTask(st, id, draft, now).value;
    var row0 := NewRow(id, draft, now);
    assert st'.tasks == st.tasks + [row0];
    RowOkGrows(st, st', row0);
    forall row | row in st'.tasks ensures RowOk(st', row) {
      assert row in st.tasks || row == row0;
      if row in st.tasks { RowOkGrows(st, st', row); }
    }
    forall row | row in st.tasks ensures HasTask(st', row.id, row.teamID) {
      assert row in st'.tasks;
    }
  }

  lemma HistoryTaskIds(st: Store, nextID: int, now: int, id: int)
    requires HistoryOk(st, nextID, now)
    requires forall row :: row in st.tasks ==> row.id < id
    ensures forall h :: h in st.history ==> h.taskID < id
  {
    hide WellFormed, IsMember;
    forall h | h in st.history ensures h.taskID < id {
      assert AuthorOk(st, h.taskID, h.changedBy);
    }
  }

  lemma RowAuditInserted(st: Store, created: map<int, Task>, stale: set<int>, row: Task, row0: Task)
    requires RowAudited(st, row, created, stale) && row.id != row0.id
    ensures RowAudited(st.(tasks := st.tasks + [row0]), row, created[row0.id := row0], stale)
  {
    assert HistoryOf(st.(tasks := st.tasks + [row0]), row.id) == HistoryOf(st, row.id);
  }

  lemma NewRowAudited(st: Store, created: map<int, Task>, stale: set<int>, row0: Task)
    requires forall h :: h in st.history ==> h.taskID < row0.id
    requires row0.id !in stale
    ensures RowAudited(st.(tasks := st.tasks + [row0]), row0, created[row0.id := row0], stale)
  {
    FilterAll(TaskSelector(row0.id), st.history);
    assert HistoryOf(st.(tasks := st.tasks + [row0]), row0.id) == [];
  }

  lemma TaskInsertedAudit(st: Store, created: map<int, Task>, stale: set<int>, id: int, draft: Draft, now: int, nextID: int)
    requires AuditOk(st, created, stale) && HistoryOk(st, nextID, now)
    requires forall row :: row in st.tasks ==> row.id < id
    requires forall x :: x in stale ==> x < id
    requires InsertTask(st, id, draft, now).Ok?
    ensures AuditOk(InsertTask(st, id, draft, now).value, created[id := NewRow(id, draft, now)], stale)
  {
    HistoryTaskIds(st, nextID, now, id);
    hide HistoryOk, RowAudited, HasTeam, HasUser;
    var row0 := NewRow(id, draft, now);
    NewRowAudited(st, created, stale, row0);
    forall row | row in st.tasks ensures RowAudited(st.(tasks := st.tasks + [row0]), row, created[id := row0], stale) {
      RowAuditInserted(st, created, stale, row, row0);
    }
  }

  lemma TaskInsertedHistory(st: Store, id: int, draft: Draft, now: int, nextID: int)
    requires HistoryOk(st, nextID, now) && InsertTask(st, id, draft, now).Ok?
    ensures HistoryOk(InsertTask(st, id, draft, now).value, nextID, now)
  {
    var st' := InsertTask(st, id, draft, now).value;
    hide WellFormed;
    forall h | h in st'.history ensures AuthorOk(st', h.taskID, h.changedBy) {
      assert AuthorOk(st, h.taskID, h.changedBy);
      var row :| row in st.tasks && row.id == h.taskID && IsMember(st, row.teamID, h.changedBy);
      IsMemberGrows(st, st', row.teamID, h.changedBy);
      assert row in st'.tasks;
    }
  }

  // ----- updates

  /** The rows an update adds to the history: one per change, in id order, after everything the task has. */
  ghost predicate PendingRows(st: Store, taskID: int, author: int, changes: seq<TaskChange>, rows: seq<HistoryRow>, nextID: int, now: int) {
    && |rows| <= |changes|
    && (forall i :: 0 <= i < |rows| ==>
          rows[i].taskID == taskID && rows[i].changedBy == author && rows[i].change == changes[i]
          && rows[i].id < nextID && rows[i].changedAt <= now)
    && (forall i, j :: 0 <= i < j < |rows| ==> rows[i].id < rows[j].id && rows[i].changedAt <= rows[j].changedAt)
    && (forall h, i :: h in st.history && h.taskID == taskID && 0 <= i < |rows| ==>
          h.id < rows[i].id && h.changedAt <= rows[i].changedAt)
  }

  /** One more history insert, with a fresh id, at the present time. */
  lemma PendingRowsSnoc(st: Store, taskID: int, author: int, changes: seq<TaskChange>, rows: seq<HistoryRow>, nextID: int, now: int)
    requires HistoryOk(st, nextID, now)
    requires PendingRows(st, taskID, author, changes, rows, nextID, now) && |rows| < |changes|
    ensures PendingRows(st, taskID, author, changes, rows + [HistoryRow(nextID, taskID, author, changes[|rows|], now)], nextID + 1, now)
  {
  }

  /** What the merged row of an update looks like, apart from its time stamp. */
  predicate MergedFrom(pending: Task, before: Task, current: Task, wanted: Task) {
    pending.(updatedAt := before.updatedAt) == Merge(before, current, wanted)
  }

  lemma MergedRowOk(st: Store, pending: Task, before: Task, current: Task, wanted: Task)
    requires MergedFrom(pending, before, current, wanted)
    requires RowOk(st, before) && RowOk(st, wanted)
    requires before.teamID == wanted.teamID
    ensures RowOk(st, pending)
    ensures pending.id == before.id && pending.teamID == before.teamID && pending.createdBy == before.createdBy
  {
    var m := Merge(before, current, wanted);
    assert pending.id == m.id && pending.teamID == m.teamID && pending.createdBy == m.createdBy;
    assert pending.assigneeID == m.assigneeID && pending.status == m.status && pending.completedAt == m.completedAt;
    assert pending.title == m.title;
  }

  /** The rows after a commit: the committed row in place of the old one, every other row as it was. */
  lemma CommittedRows(st: Store, row: Task, before: Task, rows: seq<HistoryRow>)
    requires UniqueIDs(st.tasks)
    requires before in st.tasks && row.id == before.id
    ensures var tasks' := CommitUpdate(st, row, rows).tasks;
      && UniqueIDs(tasks')
      && row in tasks'
      && (forall r :: r in tasks' ==> r == row || (r in st.tasks && r.id != row.id))
      && (forall r :: r in st.tasks && r.id != row.id ==> r in tasks')
    ensures forall r :: r in st.tasks && r.id == row.id ==> r == before
  {
    var i := TaskIndex(st.tasks, row.id);
    var j :| 0 <= j < |st.tasks| && st.tasks[j] == before;
    assert i == j;
    var tasks' := CommitUpdate(st, row, rows).tasks;
    assert tasks' == st.tasks[i := row];
    assert tasks'[i] == row;
    forall r | r in st.tasks && r.id != row.id ensures r in tasks' {
      var k :| 0 <= k < |st.tasks| && st.tasks[k] == r;
      assert tasks'[k] == r;
    }
  }

  lemma UpdateCommitted(st: Store, row: Task, before: Task, rows: seq<HistoryRow>)
    requires TasksOk(st)
    requires before in st.tasks && row.id == before.id && row.teamID == before.teamID
    requires RowOk(st, row)
    requires forall h :: h in rows ==> h.taskID == row.id
    ensures TasksOk(CommitUpdate(st, row, rows))
    ensures Extends(st, CommitUpdate(st, row, rows), row.id)
  {
    CommittedRows(st, row, before, rows);
    var st' := CommitUpdate(st, row, rows);
    forall r | r in st'.tasks ensures RowOk(st', r) {
      RowOkGrows(st, st', r);
    }
    forall r | r in st.tasks ensures HasTask(st', r.id, r.teamID) {
      if r.id == row.id { assert r == before; }
    }
  }

  lemma AuthorsCommitted(st: Store, st': Store, taskID: int, author: int, touched: int)
    requires AuthorOk(st, taskID, author) && Extends(st, st', touched)
    ensures AuthorOk(st', taskID, author)
  {
    var r :| r in st.tasks && r.id == taskID && IsMember(st, r.teamID, author);
    assert HasTask(st', r.id, r.teamID);
    var r' :| r' in st'.tasks && r'.id == r.id && r'.teamID == r.teamID;
    IsMemberGrows(st, st', r'.teamID, author);
  }

  lemma HistoryOrderCommitted(history: seq<HistoryRow>, rows: seq<HistoryRow>, taskID: int)
    requires forall i, j :: 0 <= i < j < |history| && history[i].taskID == history[j].taskID ==>
      HistoryBefore(history[i], history[j]) && history[i].id < history[j].id
    requires forall i :: 0 <= i < |rows| ==> rows[i].taskID == taskID
    requires forall i, j :: 0 <= i < j < |rows| ==> rows[i].id < rows[j].id && rows[i].changedAt <= rows[j].changedAt
    requires forall h, i :: h in history && h.taskID == taskID && 0 <= i < |rows| ==>
      h.id < rows[i].id && h.changedAt <= rows[i].changedAt
    ensures var all := history + rows;
      forall i, j :: 0 <= i < j < |all| && all[i].taskID == all[j].taskID ==>
        HistoryBefore(all[i], all[j]) && all[i].id < all[j].id
  {
    var all, n := history + rows, |history|;
    forall i, j | 0 <= i < j < |all| && all[i].taskID == all[j].taskID
      ensures HistoryBefore(all[i], all[j]) && all[i].id < all[j].id
    {
      if i < n <= j {
        assert all[i] in history && all[j] == rows[j - n];
      }
    }
  }

  lemma HistoryCommitted(st: Store, row: Task, before: Task, rows: seq<HistoryRow>, author: int, changes: seq<TaskChange>, nextID: int, now: int)
    requires TasksOk(st) && HistoryOk(st, nextID, now)
    requires before in st.tasks && row.id == before.id && row.teamID == before.teamID
    requires RowOk(st, row)
    requires IsMember(st, row.teamID, author)
    requires PendingRows(st, row.id, author, changes, rows, nextID, now)
    requires forall i :: 0 <= i < |changes| ==> WellFormed(changes[i])
    ensures HistoryOk(CommitUpdate(st, row, rows), nextID, now)
  {
    CommittedRows(st, row, before, rows) by { hide RowOk; }
    hide RowOk, TasksOk, IsMember, UniqueIDs;
    UpdateCommitted(st, row, before, rows);
    var st' := CommitUpdate(st, row, rows);
    assert st'.history == st.history + rows;
    HistoryOrderCommitted(st.history, rows, row.id);
    assert AuthorOk(st', row.id, author) by {
      IsMemberGrows(st, st', row.teamID, author);
    }
    forall h | h in st'.history
      ensures AuthorOk(st', h.taskID, h.changedBy) && WellFormed(h.change) && h.id < nextID && h.changedAt <= now
    {
      if h in st.history {
        AuthorsCommitted(st, st', h.taskID, h.changedBy, row.id);
      } else {
        assert h in rows;
      }
    }
  }

  lemma FilterAll<T(!new)>(keep: T -> bool, xs: seq<T>)
    ensures (forall x :: x in xs ==> keep(x)) ==> Filter(keep, xs) == xs
    ensures (forall x :: x in xs ==> !keep(x)) ==> Filter(keep, xs) == []
  {
    if xs != [] {
      assert xs[0] in xs && forall x :: x in xs[1..] ==> x in xs;
      FilterAll(keep, xs[1..]);
    }
  }

  /** The committed history of a task is its old history followed by the rows of the update. */
  lemma HistoryOfCommitted(st: Store, row: Task, before: Task, rows: seq<HistoryRow>, taskID: int)
    requires before in st.tasks && row.id == before.id
    requires forall h :: h in rows ==> h.taskID == row.id
    ensures HistoryOf(CommitUpdate(st, row, rows), taskID)
         == HistoryOf(st, taskID) + (if taskID == row.id then rows else [])
  {
    var i := TaskIndex(st.tasks, row.id);
    assert i < |st.tasks|;
    FilterAppend(TaskSelector(taskID), st.history, rows);
    FilterAll(TaskSelector(taskID), rows);
  }

  lemma RowAuditCommitted(st: Store, created: map<int, Task>, stale: set<int>, row: Task, before: Task, current: Task, wanted: Task,
                          rows: seq<HistoryRow>)
    requires RowAudited(st, before, created, stale)
    requires before in st.tasks && before.id == current.id == row.id
    requires row.teamID == before.teamID && row.createdBy == before.createdBy
    requires FieldsOf(row) == FieldsOf(Merge(before, current, wanted))
    requires ChangesOf(rows) == Changes(current, wanted)
    requires forall h :: h in rows ==> h.taskID == row.id
    ensures
      var stale' := if FreshOn(before, current, wanted) then stale else stale + {current.id};
      RowAudited(CommitUpdate(st, row, rows), row, created, stale')
  {
    HistoryOfCommitted(st, row, before, rows, row.id);
    var origin := FieldsOf(created[row.id]);
    var past := HistoryOf(st, row.id);
    ChangesOfAppend(past, rows);
    ReplayAppend(origin, ChangesOf(past), Changes(current, wanted));
    UpdateHistoryMeaning(before, current, wanted);
  }

  lemma PendingChanges(st: Store, taskID: int, author: int, changes: seq<TaskChange>, rows: seq<HistoryRow>, nextID: int, now: int)
    requires PendingRows(st, taskID, author, changes, rows, nextID, now) && |rows| == |changes|
    ensures ChangesOf(rows) == changes
    ensures forall h :: h in rows ==> h.taskID == taskID
  {
  }

  lemma AuditCommitted(st: Store, created: map<int, Task>, stale: set<int>, row: Task, before: Task, current: Task, wanted: Task,
                       rows: seq<HistoryRow>, author: int, nextID: int, now: int)
    requires TasksOk(st) && AuditOk(st, created, stale)
    requires before in st.tasks && before.id == current.id && before.teamID == wanted.teamID
    requires RowOk(st, wanted)
    requires MergedFrom(row, before, current, wanted)
    requires PendingRows(st, row.id, author, Changes(current, wanted), rows, nextID, now)
    requires |rows| == |Changes(current, wanted)|
    ensures
      var stale' := if FreshOn(before, current, wanted) then stale else stale + {current.id};
      AuditOk(CommitUpdate(st, row, rows), created, stale')
  {
    hide RowOk, UniqueIDs, RowAudited, MergedFrom, CommitUpdate, FreshOn, Changes;
    assert RowAudited(st, before, created, stale) && RowOk(st, before);
    MergedRowOk(st, row, before, current, wanted);
    CommittedRows(st, row, before, rows);
    PendingChanges(st, row.id, author, Changes(current, wanted), rows, nextID, now);
    MergedFields(row, before, current, wanted);
    hide PendingRows;
    var st' := CommitUpdate(st, row, rows);
    var stale' := if FreshOn(before, current, wanted) then stale else stale + {current.id};
    RowAuditCommitted(st, created, stale, row, before, current, wanted, rows);
    forall r | r in st'.tasks && r != row ensures RowAudited(st', r, created, stale') {
      assert r in st.tasks && r.id != row.id;
      OtherRowAudited(st, created, stale, stale', row, before, rows, r);
    }
  }

  lemma OtherRowAudited(st: Store, created: map<int, Task>, stale: set<int>, stale': set<int>, row: Task, before: Task,
                        rows: seq<HistoryRow>, r: Task)
    requires RowAudited(st, r, created, stale)
    requires before in st.tasks && before.id == row.id && r.id != row.id
    requires r.id in stale' <==> r.id in stale
    requires forall h :: h in rows ==> h.taskID == row.id
    ensures RowAudited(CommitUpdate(st, row, rows), r, created, stale')
  {
    HistoryOfCommitted(st, row, before, rows, r.id);
    assert HistoryOf(CommitUpdate(st, row, rows), r.id) == HistoryOf(st, r.id);
  }

  lemma MergedFields(pending: Task, before: Task, current: Task, wanted: Task)
    requires MergedFrom(pending, before, current, wanted)
    ensures FieldsOf(pending) == FieldsOf(Merge(before, current, wanted))
  {
    assert FieldsOf(pending.(updatedAt := before.updatedAt)) == FieldsOf(pending);
  }
}
