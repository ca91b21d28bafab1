/** Every reachable database state is legal for the schema, so the reports and the pages mean what they should in every run. */
module ReportTheorems {
  import opened Domain
  import opened Sorting
  import opened TaskQueries
  import opened TaskUpdates
  import opened Store
  import opened StoreSafety
  import opened Service
  import opened ServiceSafety
  import opened Relations
  import opened Reports
  import opened CreatorRanking
  import opened TopCreators
  import opened StoreTheorems
  import opened HistoryIds
  import opened HistoryQueries

  /** User ids are unique, and so are e-mail addresses. */
  ghost predicate UsersOk(d: DataSide) {
    && (forall u :: u in Db(d).users ==> u.id < d.ids.user)
    && KeyedBy(UserKey, Db(d).users)
    && KeyedBy(EmailKey, Db(d).users)
  }

  function EmailKey(u: UserRow): string { u.email }

  predicate UsersSame(d: DataSide, d': DataSide) {
    Db(d').users == Db(d).users && d'.ids.user == d.ids.user
  }

  lemma KeyedSnoc<A, K>(key: A -> K, xs: seq<A>, x: A)
    requires KeyedBy(key, xs) && forall y :: y in xs ==> key(y) != key(x)
    ensures KeyedBy(key, xs + [x])
  {
    assert forall i :: 0 <= i < |xs| ==> xs[i] in xs;
  }

  lemma RegisterUsers(d: DataSide, name: string, email: string)
    requires UsersOk(d)
    ensures UsersOk(Register(d, name, email))
  {
    var row := UserRow(d.ids.user, name, email);
    hide KeyedBy, FindByEmail;
    if InsertUser(Db(d), d.ids.user, name, email).Ok? {
      KeyedSnoc(UserKey, Db(d).users, row);
      KeyedSnoc(EmailKey, Db(d).users, row);
    }
  }

  lemma CreateTeamUsers(d: DataSide, owner: int, name: string, o: Outcome)
    ensures UsersSame(d, CreateTeam(d, owner, name, o))
  {
    hide HasUser, TrimSpace;
  }

  /** A call that moves on touches no table. */
  lemma SetsUsers(d: DataSide, id: nat)
    ensures forall pc: InviterPc :: UsersSame(d, SetInviter(d, id, pc))
    ensures forall pc: CreatorPc :: UsersSame(d, SetCreator(d, id, pc))
    ensures forall pc: UpdaterPc :: UsersSame(d, SetUpdater(d, id, pc))
  {
  }

  lemma InviteUsers(d: DataSide, id: nat, o: Outcome)
    ensures UsersSame(d, InviteStep(d, id, o))
  {
    hide FindTeamRole, FindByEmail, InsertMember, SetInviter, MemberAdded;
    SetsUsers(d, id);
    if id in d.inviters && d.inviters[id].pc.AddingMember? {
      var v := d.inviters[id];
      var r := InsertMember(Db(d), v.input.teamID, v.pc.userID);
      if r.Ok? {
        MemberAddedUsers(d, v.input, v.pc.userID);
        SetsUsers(MemberAdded(d, v.input, v.pc.userID, r.value), id);
      }
    }
  }

  lemma MemberAddedUsers(d: DataSide, input: InviteInput, userID: int)
    requires InsertMember(Db(d), input.teamID, userID).Ok?
    ensures UsersSame(d, MemberAdded(d, input, userID, InsertMember(Db(d), input.teamID, userID).value))
  {
    hide FindMember, HasTeam, HasUser;
  }

  lemma TaskAddedUsers(d: DataSide, input: CreateInput)
    requires InsertTask(Db(d), d.ids.task, DraftOf(input), d.now).Ok?
    ensures UsersSame(d, TaskAdded(d, input, InsertTask(Db(d), d.ids.task, DraftOf(input), d.now).value))
  {
    hide HasTeam, HasUser, TrimSpace, ValidStatus;
  }

  lemma InsertUsers(d: DataSide, id: nat, input: CreateInput, o: Outcome)
    ensures UsersSame(d, InsertStep(d, id, input, o))
  {
    hide InsertTask, TaskAdded, SetCreator, SetInviter, SetUpdater, DraftOf;
    var r := InsertTask(Db(d), d.ids.task, DraftOf(input), d.now);
    SetsUsers(TaskIdDrawn(d), id);
    if r.Ok? {
      TaskAddedUsers(d, input);
      SetsUsers(TaskAdded(d, input, r.value), id);
    }
  }

  lemma CreateUsers(d: DataSide, id: nat, o: Outcome)
    ensures UsersSame(d, CreateStep(d, id, o))
  {
    hide FindTask, IsMember, AfterCreatorCheck, AfterCreateAssigneeCheck, AfterReload, InsertStep, SetCreator;
    SetsUsers(d, id);
    if id in d.creators {
      InsertUsers(d, id, d.creators[id].input, o);
    }
  }

  lemma TaskCommittedUsers(d: DataSide, pc: UpdaterPc)
    requires pc.Writing?
    ensures UsersSame(d, TaskCommitted(d, pc)) && UsersSame(d, Unlock(d, pc.current.id))
    ensures UsersSame(d, HistoryIdDrawn(d)) && UsersSame(d, Unlock(HistoryIdDrawn(d), pc.current.id))
  {
    hide StaleAfter, CommitUpdate;
    CommitLeavesMembers(Db(d), pc.pending, pc.rows);
  }

  lemma WriteUsers(d: DataSide, id: nat, changedBy: int, pc: UpdaterPc, o: Outcome)
    requires pc.Writing?
    ensures UsersSame(d, WriteStep(d, id, changedBy, pc, o))
  {
    TaskCommittedUsers(d, pc);
    hide Changes, NextHistoryRow, TaskCommitted, Unlock, HistoryIdDrawn, SetUpdater;
    SetsUsers(TaskCommitted(d, pc), id);
    SetsUsers(Unlock(d, pc.current.id), id);
    SetsUsers(HistoryIdDrawn(d), id);
    SetsUsers(Unlock(HistoryIdDrawn(d), pc.current.id), id);
  }

  lemma UpdateUsers(d: DataSide, id: nat, o: Outcome, appTime: int)
    ensures UsersSame(d, UpdateStep(d, id, o, appTime))
  {
    hide FindTask, IsMember, AfterFind, AfterRequesterCheck, AfterAssigneeCheck, TryExec, WriteStep, SetUpdater, Lock;
    SetsUsers(d, id);
    if id in d.updaters {
      var pc := d.updaters[id].pc;
      if pc.Writing? {
        WriteUsers(d, id, d.updaters[id].input.requestedBy, pc, o);
      } else if pc.Executing? {
        LockUsers(d, pc.current.id, id);
        SetsUsers(Lock(d, pc.current.id, id), id);
      }
    }
  }

  lemma LockUsers(d: DataSide, taskID: int, id: nat)
    ensures UsersSame(d, Lock(d, taskID, id))
  {
  }

  lemma StepUsers(d: DataSide, a: Action)
    requires UsersOk(d)
    ensures UsersOk(DataStep(d, a))
  {
    hide Register, CreateTeam, InviteStep, CreateStep, UpdateStep, KeyedBy, RequestOk, CreateInputOk;
    match a
    case ARegister(name, email) => RegisterUsers(d, name, email);
    case ACreateTeam(owner, name, o) => CreateTeamUsers(d, owner, name, o);
    case AInvite(id, o) => InviteUsers(d, id, o);
    case ACreate(id, o) => CreateUsers(d, id, o);
    case AUpdate(id, o, appTime) => UpdateUsers(d, id, o, appTime);
    case _ =>
  }

  lemma {:induction false} ReachedUsers(ttl: int, actions: seq<Action>)
    ensures UsersOk(Reached(ttl, actions).data)
    decreases |actions|
  {
    hide UsersOk, DataStep, CacheStep;
    if actions == [] {
      NoUsers(ttl);
    } else {
      ReachedUsers(ttl, actions[..|actions| - 1]);
      StepUsers(Reached(ttl, actions[..|actions| - 1]).data, actions[|actions| - 1]);
    }
  }

  lemma NoUsers(ttl: int)
    ensures UsersOk(Initial(ttl).data)
  {
  }

  lemma KeysLegal(st: Store, invites: map<(int, int), int>)
    requires MembersOk(st, invites) && TasksOk(st)
    ensures KeyedBy(TeamKey, st.teams) && KeyedBy(MemberKey, st.members) && KeyedBy(TaskKey, st.tasks)
  {
    hide RowOk, MembersLinked, OwnersPresent, RolesOk;
  }

  lemma RowLegal(st: Store, invites: map<(int, int), int>, row: Task)
    requires MembersOk(st, invites) && RowOk(st, row)
    ensures HasTeam(st, row.teamID) && HasUser(st, row.createdBy) && (row.assigneeID.Some? ==> HasUser(st, row.assigneeID.value))
  {
    hide MembersOk, StoredTitle, IsMember;
    MemberOfIsUser(st, invites, row.teamID, row.createdBy);
    if row.assigneeID.Some? {
      MemberOfIsUser(st, invites, row.teamID, row.assigneeID.value);
    }
  }

  /** History rows belong to a task, and their authors and the creators of teams are users. */
  lemma HistoryLegal(d: DataSide)
    requires DataOk(d)
    ensures forall h :: h in Db(d).history ==> HasUser(Db(d), h.changedBy) && exists row :: row in Db(d).tasks && row.id == h.taskID
    ensures forall t :: t in Db(d).teams ==> HasUser(Db(d), t.createdBy)
  {
    DataParts(d);
    hide DataOk, AuditOk, TasksOk, HasUser, IsMember, AuditLog.WellFormed, HistoryBefore;
    forall h | h in Db(d).history ensures HasUser(Db(d), h.changedBy) && exists row :: row in Db(d).tasks && row.id == h.taskID {
      assert AuthorOk(Db(d), h.taskID, h.changedBy);
      var row :| row in Db(d).tasks && row.id == h.taskID && IsMember(Db(d), row.teamID, h.changedBy);
      MemberOfIsUser(Db(d), d.invites, row.teamID, h.changedBy);
    }
    hide HistoryOk;
    forall t | t in Db(d).teams ensures HasUser(Db(d), t.createdBy) {
      assert MemberRow(t.id, t.createdBy, ROLE_OWNER) in Db(d).members;
    }
  }

  lemma RowsLegal(d: DataSide)
    requires DataOk(d)
    ensures KeyedBy(TeamKey, Db(d).teams) && KeyedBy(MemberKey, Db(d).members) && KeyedBy(TaskKey, Db(d).tasks)
    ensures forall m :: m in Db(d).members ==> HasTeam(Db(d), m.teamID) && HasUser(Db(d), m.userID)
    ensures forall row :: row in Db(d).tasks ==>
      HasTeam(Db(d), row.teamID) && HasUser(Db(d), row.createdBy) && (row.assigneeID.Some? ==> HasUser(Db(d), row.assigneeID.value))
  {
    DataParts(d);
    hide DataOk, AuditOk, HistoryOk, RowOk, KeyedBy, HasTeam, HasUser;
    KeysLegal(Db(d), d.invites);
    assert MembersLinked(Db(d));
    hide MembersOk;
    forall row | row in Db(d).tasks
      ensures HasTeam(Db(d), row.teamID) && HasUser(Db(d), row.createdBy)
        && (row.assigneeID.Some? ==> HasUser(Db(d), row.assigneeID.value)) {
      RowLegal(Db(d), d.invites, row);
    }
  }

  /** Every reachable state respects the primary keys, the unique e-mail addresses and the foreign keys of the schema. */
  lemma StoreIsLegal(ttl: int, actions: seq<Action>)
    ensures LegalStore(Db(Reached(ttl, actions).data))
    ensures KeyedBy(EmailKey, Db(Reached(ttl, actions).data).users)
  {
    var d := Reached(ttl, actions).data;
    ReachedParts(ttl, actions);
    ReachedUsers(ttl, actions);
    ReachedUnique(ttl, actions);
    hide Reached, DataOk, KeyedBy, HasTeam, HasUser, FreshRows, Below, NoneShared;
    RowsLegal(d);
    HistoryLegal(d);
  }

  /**
   * In every reachable state the history call gives every entry of the task, with its author, in the order
   * in which the entries were committed: the join drops none and the sort moves none.
   */
  lemma HistoryListsEverything(ttl: int, actions: seq<Action>, taskID: int)
    ensures
      var st := Db(Reached(ttl, actions).data);
      var entries := Map(ScanHistory, QueryHistory(st, taskID));
      && IsHistoryOf(st, taskID, entries)
      && (forall i :: 0 <= i < |entries| ==> exists u :: u in st.users && EntryOf(entries[i], HistoryOf(st, taskID)[i], u))
  {
    var d := Reached(ttl, actions).data;
    var st := Db(d);
    StoreIsLegal(ttl, actions);
    ReachedParts(ttl, actions);
    DataParts(d);
    HistoryOrdered(st, d.ids.history, d.now, taskID);
    hide Reached, DataOk, AuditOk, TasksOk, MembersOk, HistoryOk, HistoryOf, KeyedBy, HasUser, HasTeam;
    assert AuthorsKnown(st);
    SortOfOrdered(HistoryBefore, HistoryOf(st, taskID));
    hide LegalStore, AuthorsKnown, IsHistoryOf, QueryHistory, EntryOf, ScanHistory, Ordered;
    var entries := Map(ScanHistory, QueryHistory(st, taskID));
    ScannedHistory(st, taskID, entries);
    assert |entries| == |HistoryOf(st, taskID)| by { QueryLength(st, taskID); }
    forall i | 0 <= i < |entries| ensures exists u :: u in st.users && EntryOf(entries[i], HistoryOf(st, taskID)[i], u) {
      ScannedRow(st, taskID, i);
    }
  }

  /** In every reachable state the team statistics count members and finished tasks as if each were counted alone. */
  lemma StatisticsAreRight(ttl: int, actions: seq<Action>, since: int)
    ensures var st := Db(Reached(ttl, actions).data);
      && QueryStatistics(st, since) == Map(StatisticsOf(st, since), Sort(TeamBefore, st.teams))
      && StatisticsReport(st, since, QueryStatistics(st, since))
  {
    hide Reached, LegalStore, KeyedBy, StatisticsReport;
    StoreIsLegal(ttl, actions);
    StatisticsCount(Db(Reached(ttl, actions).data), since);
    StatisticsMeaning(Db(Reached(ttl, actions).data), since);
  }

  /** In every reachable state the creator report lists the first three of every team, in order. */
  lemma TopCreatorsAreRight(ttl: int, actions: seq<Action>, month: Month)
    ensures var st := Db(Reached(ttl, actions).data);
      && Ordered(LineBefore, QueryTopCreators(st, month))
      && (forall r :: r in QueryTopCreators(st, month) <==> PodiumLine(st, month, r))
      && TopThree(st, month, QueryTopCreators(st, month))
      && (forall t :: t in st.teams ==> Total(Ranking(st, t, month)) == |Filter(InTeam(t.id, month), st.tasks)|)
  {
    hide Reached, LegalStore, KeyedBy, PodiumLine, Ordered, Ranking, TopThree;
    StoreIsLegal(ttl, actions);
    var st := Db(Reached(ttl, actions).data);
    ReportIsTopThree(st, month);
    TopCreatorsMeaning(st, month);
    forall t | t in st.teams ensures Total(Ranking(st, t, month)) == |Filter(InTeam(t.id, month), st.tasks)| {
      CountsAddUp(st, t, month);
    }
  }

  /** In every reachable state, walking a list page by page shows every matching task once, in order. */
  lemma PagesAreComplete(ttl: int, actions: seq<Action>, f: TaskFilter, limit: nat)
    requires limit >= 1
    ensures
      var tasks := Db(Reached(ttl, actions).data).tasks;
      var walked := WalkPages(PageFetcher(tasks, f, limit), limit, 0, |AllMatching(tasks, f)|);
      && walked == AllMatching(tasks, f)
      && Distinct(walked) && Ordered(TaskBefore, walked)
      && (forall row :: row in walked <==> row in tasks && Matches(f, row))
  {
    var d := Reached(ttl, actions).data;
    ReachedParts(ttl, actions);
    DataParts(d);
    hide Reached, DataOk, AuditOk, HistoryOk, MembersOk, RowOk, WalkPages, AllMatching, PageFetcher;
    PaginationComplete(Db(d).tasks, f, limit);
    AllMatchingMeaning(Db(d).tasks, f);
  }
}
