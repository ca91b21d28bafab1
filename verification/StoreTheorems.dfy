/** What the stored data satisfies in every reachable state, in the words of the tables. */
module StoreTheorems {
  import opened Domain
  import opened Sorting
  import opened TaskUpdates
  import opened AuditLog
  import opened Store
  import opened StoreSafety
  import opened Service
  import opened ServiceSafety
  import opened Relations
  import opened Reports

  // ----- the parts of the invariant

  lemma ReachedParts(ttl: int, actions: seq<Action>)
    ensures DataOk(Reached(ttl, actions).data)
  {
    hide Reached, DataOk, CreatorsOk, InvitersOk, UpdatersOk;
    ReachedOk(ttl, actions);
  }

  lemma DataParts(d: DataSide)
    requires DataOk(d)
    ensures MembersOk(Db(d), d.invites) && TasksOk(Db(d)) && HistoryOk(Db(d), d.ids.history, d.now)
    ensures AuditOk(Db(d), d.created, d.stale)
  {
    hide MembersOk, TasksOk, HistoryOk, AuditOk, IdsOk;
  }

  // ----- membership

  /**
   * No run, however its calls interleave and fail, leaves a task with an assignee who is not a member of
   * the task's team, so the report of such tasks is empty; creators and authors of history are members too.
   */
  lemma AssigneesAreMembers(ttl: int, actions: seq<Action>)
    ensures var st := Db(Reached(ttl, actions).data);
      && QueryInvalidAssignees(st) == []
      && (forall row :: row in st.tasks ==> IsMember(st, row.teamID, row.createdBy))
      && (forall h :: h in st.history ==> exists row :: row in st.tasks && row.id == h.taskID && IsMember(st, row.teamID, h.changedBy))
  {
    var d := Reached(ttl, actions).data;
    ReachedParts(ttl, actions);
    DataParts(d);
    hide Reached, DataOk, MembersOk, AuditOk, IsMember, QueryInvalidAssignees, WellFormed, StoredTitle;
    TasksKeyed(Db(d));
    InvalidAssigneesMeaning(Db(d));
    hide KeyedBy;
    forall h | h in Db(d).history
      ensures exists row :: row in Db(d).tasks && row.id == h.taskID && IsMember(Db(d), row.teamID, h.changedBy) {
      assert AuthorOk(Db(d), h.taskID, h.changedBy);
    }
  }

  lemma TasksKeyed(st: Store)
    requires TasksOk(st)
    ensures KeyedBy(TaskKey, st.tasks)
  {
    hide RowOk;
  }

  /** A team has one owner, who is the user recorded as its creator; nobody is an admin; the owner invited everybody else. */
  ghost predicate TeamOwned(st: Store, t: TeamRow, invites: map<(int, int), int>) {
    && MemberRow(t.id, t.createdBy, ROLE_OWNER) in st.members
    && (forall m :: m in st.members && m.teamID == t.id ==>
          && (m.role == ROLE_OWNER <==> m.userID == t.createdBy)
          && m.role != ROLE_ADMIN
          && (m.role != ROLE_OWNER ==> (t.id, m.userID) in invites && invites[(t.id, m.userID)] == t.createdBy))
    && (forall i, j :: 0 <= i < j < |st.members| ==> !(OwnerOf(st.members[i], t) && OwnerOf(st.members[j], t)))
  }

  predicate OwnerOf(m: MemberRow, t: TeamRow) {
    m.teamID == t.id && m.role == ROLE_OWNER
  }

  lemma OwnershipHolds(ttl: int, actions: seq<Action>)
    ensures var d := Reached(ttl, actions).data; forall t :: t in Db(d).teams ==> TeamOwned(Db(d), t, d.invites)
  {
    var d := Reached(ttl, actions).data;
    ReachedParts(ttl, actions);
    DataParts(d);
    hide Reached, DataOk, TasksOk, HistoryOk, AuditOk, TeamOwned;
    forall t | t in Db(d).teams ensures TeamOwned(Db(d), t, d.invites) {
      OwnedTeam(Db(d), t, d.invites);
    }
  }

  lemma OwnedTeam(st: Store, t: TeamRow, invites: map<(int, int), int>)
    requires MembersOk(st, invites) && t in st.teams
    ensures TeamOwned(st, t, invites)
  {
    hide HasTeam, HasUser, MembersLinked;
    forall m | m in st.members && m.teamID == t.id ensures MemberRowOk(m, t, invites) {
    }
  }

  /** A task is completed exactly when it is done, its status is one of the three, and its title is trimmed and fits. */
  lemma CompletionHolds(ttl: int, actions: seq<Action>)
    ensures forall row :: row in Db(Reached(ttl, actions).data).tasks ==>
      && (row.completedAt.Some? <==> row.status == STATUS_DONE)
      && ValidStatus(row.status)
      && row.title != "" && |row.title| <= 255 && TrimSpace(row.title) == row.title
  {
    var d := Reached(ttl, actions).data;
    ReachedParts(ttl, actions);
    DataParts(d);
    hide Reached, DataOk, MembersOk, AuditOk, HistoryOk, IsMember, TrimSpace;
    forall row | row in Db(d).tasks ensures RowOk(Db(d), row) {
    }
  }

  // ----- the audit history

  lemma AuditParts(ttl: int, actions: seq<Action>, row: Task)
    requires row in Db(Reached(ttl, actions).data).tasks
    ensures var d := Reached(ttl, actions).data;
      && RowAudited(Db(d), row, d.created, d.stale)
      && (forall i :: 0 <= i < |ChangesOf(HistoryOf(Db(d), row.id))| ==> WellFormed(ChangesOf(HistoryOf(Db(d), row.id))[i]))
  {
    var d := Reached(ttl, actions).data;
    ReachedParts(ttl, actions);
    DataParts(d);
    hide Reached, DataOk, MembersOk, TasksOk, RowAudited, AuthorOk, HistoryBefore, WellFormed;
    var rows := HistoryOf(Db(d), row.id);
    hide HistoryOf, ChangesOf;
    assert forall h :: h in rows ==> h in Db(d).history;
    forall i | 0 <= i < |rows| ensures WellFormed(ChangesOf(rows)[i]) {
      assert rows[i] in rows;
    }
  }

  /**
   * Concurrent or not, the audit log agrees with the row: replaying the new values over the task as it was
   * created gives the row, and so the last entry of a field, if there is one, tells what the column holds.
   */
  lemma HistoryAgreesWithRow(ttl: int, actions: seq<Action>, row: Task, fieldName: string, last: int)
    requires row in Db(Reached(ttl, actions).data).tasks && KnownField(fieldName)
    requires var changes := ChangesOf(HistoryOf(Db(Reached(ttl, actions).data), row.id));
      && -1 <= last < |changes|
      && (last >= 0 ==> changes[last].fieldName == fieldName)
      && (forall i :: last < i < |changes| ==> changes[i].fieldName != fieldName)
    ensures
      var d := Reached(ttl, actions).data;
      var changes := ChangesOf(HistoryOf(Db(d), row.id));
      && row.id in d.created
      && FieldsOf(row) == Replay(FieldsOf(d.created[row.id]), changes)
      && FieldText(FieldsOf(row), fieldName) == (if last < 0 then FieldText(FieldsOf(d.created[row.id]), fieldName) else changes[last].newValue)
  {
    var d := Reached(ttl, actions).data;
    AuditParts(ttl, actions, row);
    var changes := ChangesOf(HistoryOf(Db(d), row.id));
    var origin := FieldsOf(d.created[row.id]);
    assert FieldsOf(row) == Replay(origin, changes);
    hide Reached, ChangesOf, HistoryOf, WellFormed, Replay, Chained, FieldsOf, FieldText, RowAudited;
    LastEntryIsCurrent(origin, changes, fieldName, last);
  }

  /**
   * The old values chain up exactly when no update of the task was stale, that is, changed a field that
   * another update had changed since it was read. Then undoing the history gives the created task, and
   * consecutive entries of a field link up.
   */
  lemma HistoryChainsExactly(ttl: int, actions: seq<Action>, row: Task)
    requires row in Db(Reached(ttl, actions).data).tasks
    ensures
      var d := Reached(ttl, actions).data;
      var changes := ChangesOf(HistoryOf(Db(d), row.id));
      && row.id in d.created
      && var origin := FieldsOf(d.created[row.id]);
      && (Chained(origin, changes) <==> row.id !in d.stale)
      && (row.id !in d.stale ==>
            && Undo(FieldsOf(row), changes) == origin
            && (forall i, j :: 0 <= i < j < |changes| && NextOfField(changes, i, j) ==> changes[i].newValue == changes[j].oldValue))
  {
    var d := Reached(ttl, actions).data;
    AuditParts(ttl, actions, row);
    var changes := ChangesOf(HistoryOf(Db(d), row.id));
    var origin := FieldsOf(d.created[row.id]);
    assert FieldsOf(row) == Replay(origin, changes) && (Chained(origin, changes) <==> row.id !in d.stale);
    hide Reached, ChangesOf, HistoryOf, WellFormed, Replay, Chained, FieldsOf, RowAudited, Undo;
    if row.id !in d.stale {
      UndoReplay(origin, changes);
      forall i, j | 0 <= i < j < |changes| && NextOfField(changes, i, j) ensures changes[i].newValue == changes[j].oldValue {
        EntriesLink(origin, changes, i, j);
      }
    }
  }

  /** Entry j is the next one, after entry i, of the same field. */
  predicate NextOfField(changes: seq<TaskChange>, i: int, j: int)
    requires 0 <= i < j < |changes|
  {
    changes[i].fieldName == changes[j].fieldName && forall k :: i < k < j ==> changes[k].fieldName != changes[i].fieldName
  }

  lemma TrimmedStatuses()
    ensures TrimSpace(STATUS_IN_PROGRESS) == STATUS_IN_PROGRESS && TrimSpace(STATUS_DONE) == STATUS_DONE
  {
    hide TrimSpace;
    TrimSpaceFixed(STATUS_IN_PROGRESS);
    TrimSpaceFixed(STATUS_DONE);
  }

  // ----- the history call

  lemma HistoryOrdered(st: Store, nextID: int, now: int, taskID: int)
    requires HistoryOk(st, nextID, now)
    ensures Ordered(HistoryBefore, HistoryOf(st, taskID))
  {
    hide AuthorOk, WellFormed;
    OrderedFilter(st.history, taskID);
  }

  lemma {:induction false} OrderedFilter(history: seq<HistoryRow>, taskID: int)
    requires forall i, j :: 0 <= i < j < |history| && history[i].taskID == history[j].taskID ==> HistoryBefore(history[i], history[j])
    ensures Ordered(HistoryBefore, Filter(TaskSelector(taskID), history))
  {
    hide HistoryBefore;
    if history != [] {
      OrderedFilter(history[1..], taskID);
      var rest := Filter(TaskSelector(taskID), history[1..]);
      if history[0].taskID == taskID {
        forall i | 0 <= i < |rest| ensures HistoryBefore(history[0], rest[i]) {
          assert rest[i] in history[1..];
        }
      }
    }
  }
}
