/** The stored data is right in every reachable state, whatever calls interleave and whatever fails. */
module ServiceSafety {
  import opened Domain
  import opened TaskQueries
  import opened TaskUpdates
  import opened AuditLog
  import opened Store
  import opened StoreSafety
  import opened Service

  // ----- what each call in flight may rely on, because nothing takes it back

  /** A task that was read from the database some time ago. */
  ghost predicate Known(st: Store, t: Task) {
    RowOk(st, t) && HasTask(st, t.id, t.teamID)
  }

  ghost predicate PlanOk(st: Store, current: Task, wanted: Task, author: int) {
    && Known(st, current)
    && RowOk(st, wanted)
    && wanted.id == current.id && wanted.teamID == current.teamID
    && IsMember(st, current.teamID, author)
  }

  ghost predicate WriteOk(st: Store, nextID: int, now: int, author: int, pc: UpdaterPc)
    requires pc.Writing?
  {
    && PlanOk(st, pc.current, pc.wanted, author)
    && pc.before in st.tasks && pc.before.id == pc.current.id && pc.before.teamID == pc.current.teamID
    && MergedFrom(pc.pending, pc.before, pc.current, pc.wanted)
    && PendingRows(st, pc.current.id, author, Changes(pc.current, pc.wanted), pc.rows, nextID, now)
  }

  ghost predicate UpdaterOk(st: Store, nextID: int, now: int, u: Updater) {
    match u.pc
    case CheckingRequester(current) => Known(st, current)
    case CheckingNewAssignee(current) =>
      Known(st, current) && IsMember(st, current.teamID, u.input.requestedBy) && ValuesOk(u.input) && AsksForAssignee(u.input)
    case Executing(current, wanted) => PlanOk(st, current, wanted, u.input.requestedBy)
    case Writing(_, _, _, _, _) => WriteOk(st, nextID, now, u.input.requestedBy, u.pc)
    case _ => true
  }

  ghost predicate CreatorOk(st: Store, c: Creator) {
    match c.pc
    case CheckingCreator => CreateInputOk(c.input)
    case CheckingAssignee => CreateInputOk(c.input) && IsMember(st, c.input.teamID, c.input.createdBy)
    case Inserting =>
      && CreateInputOk(c.input)
      && IsMember(st, c.input.teamID, c.input.createdBy)
      && (c.input.assigneeID.Some? ==> IsMember(st, c.input.teamID, c.input.assigneeID.value))
    case _ => true
  }

  ghost predicate InviterOk(st: Store, v: Inviter) {
    v.pc.FindingInvitee? || v.pc.AddingMember? ==>
      exists t :: t in st.teams && t.id == v.input.teamID && t.createdBy == v.input.invitedBy
  }

  ghost predicate DataOk(s: DataSide) {
    && IdsOk(Db(s), s.ids.team, s.ids.task, s.stale)
    && MembersOk(Db(s), s.invites)
    && TasksOk(Db(s))
    && HistoryOk(Db(s), s.ids.history, s.now)
    && AuditOk(Db(s), s.created, s.stale)
  }

  ghost predicate HoldsLock(s: DataSide, id: nat, u: Updater) {
    u.pc.Writing? ==> u.pc.current.id in s.locks && s.locks[u.pc.current.id] == id
  }

  ghost predicate UpdatersOk(s: DataSide, except: int) {
    forall id :: id in s.updaters && id != except ==>
      UpdaterOk(Db(s), s.ids.history, s.now, s.updaters[id]) && HoldsLock(s, id, s.updaters[id])
  }

  ghost predicate CreatorsOk(s: DataSide) {
    forall id :: id in s.creators ==> CreatorOk(Db(s), s.creators[id])
  }

  ghost predicate InvitersOk(s: DataSide) {
    forall id :: id in s.inviters ==> InviterOk(Db(s), s.inviters[id])
  }

  ghost predicate StoreInv(s: DataSide) {
    DataOk(s) && CreatorsOk(s) && InvitersOk(s) && UpdatersOk(s, -1)
  }

  // ----- the facts survive every later database state

  lemma KnownExtends(st: Store, st': Store, touched: int, t: Task)
    requires Extends(st, st', touched) && Known(st, t)
    ensures Known(st', t)
  {
    RowOkGrows(st, st', t);
    var row :| row in st.tasks && row.id == t.id && row.teamID == t.teamID;
    assert HasTask(st', row.id, row.teamID);
  }

  lemma PlanExtends(st: Store, st': Store, touched: int, current: Task, wanted: Task, author: int)
    requires Extends(st, st', touched) && PlanOk(st, current, wanted, author)
    ensures PlanOk(st', current, wanted, author)
  {
    KnownExtends(st, st', touched, current);
    RowOkGrows(st, st', wanted);
    IsMemberGrows(st, st', current.teamID, author);
  }

  lemma WriteExtends(st: Store, st': Store, touched: int, nextID: int, nextID': int, now: int, now': int, author: int, pc: UpdaterPc)
    requires Extends(st, st', touched) && nextID <= nextID' && now <= now'
    requires pc.Writing? && WriteOk(st, nextID, now, author, pc) && pc.current.id != touched
    ensures WriteOk(st', nextID', now', author, pc)
  {
    PlanExtends(st, st', touched, pc.current, pc.wanted, author);
    hide PlanOk, MergedFrom, Changes, IsMember, HasTask;
  }

  lemma UpdaterExtends(st: Store, st': Store, touched: int, nextID: int, nextID': int, now: int, now': int, u: Updater)
    requires Extends(st, st', touched) && nextID <= nextID' && now <= now'
    requires UpdaterOk(st, nextID, now, u)
    requires u.pc.Writing? ==> u.pc.current.id != touched
    ensures UpdaterOk(st', nextID', now', u)
  {
    assert forall m :: m in st.members ==> m in st'.members;
    hide Extends, Known, PlanOk, WriteOk, IsMember;
    match u.pc
    case CheckingRequester(current) => KnownExtends(st, st', touched, current);
    case CheckingNewAssignee(current) =>
      KnownExtends(st, st', touched, current);
      IsMemberGrows(st, st', current.teamID, u.input.requestedBy);
    case Executing(current, wanted) => PlanExtends(st, st', touched, current, wanted, u.input.requestedBy);
    case Writing(_, _, _, _, _) =>
      WriteExtends(st, st', touched, nextID, nextID', now, now', u.input.requestedBy, u.pc);
    case _ =>
  }

  lemma CreatorExtends(st: Store, st': Store, touched: int, c: Creator)
    requires Extends(st, st', touched) && CreatorOk(st, c)
    ensures CreatorOk(st', c)
  {
    if c.pc.CheckingAssignee? || c.pc.Inserting? {
      IsMemberGrows(st, st', c.input.teamID, c.input.createdBy);
      if c.pc.Inserting? && c.input.assigneeID.Some? {
        IsMemberGrows(st, st', c.input.teamID, c.input.assigneeID.value);
      }
    }
  }

  lemma InviterExtends(st: Store, st': Store, touched: int, v: Inviter)
    requires Extends(st, st', touched) && InviterOk(st, v)
    ensures InviterOk(st', v)
  {
  }

  /** No transaction but the one that commits holds the lock of the task that the commit touches. */
  ghost predicate LockedBy(s: DataSide, touched: int, id: int) {
    forall other :: other in s.updaters && other != id && s.updaters[other].pc.Writing? ==>
      s.updaters[other].pc.current.id != touched
  }

  /** Moving to a later database state keeps what the calls rely on, apart from the call that moves it. */
  lemma CallsExtend(s: DataSide, s': DataSide, touched: int, mover: int)
    requires CreatorsOk(s) && InvitersOk(s) && UpdatersOk(s, mover)
    requires s'.creators == s.creators && s'.inviters == s.inviters && s'.updaters == s.updaters
    requires s.ids.history <= s'.ids.history && s.now <= s'.now
    requires Extends(Db(s), Db(s'), touched)
    requires LockedBy(s, touched, mover)
    requires forall id :: id in s.updaters && id != mover && HoldsLock(s, id, s.updaters[id]) ==> HoldsLock(s', id, s.updaters[id])
    ensures CreatorsOk(s') && InvitersOk(s') && UpdatersOk(s', mover)
  {
    forall id | id in s'.creators ensures CreatorOk(Db(s'), s'.creators[id]) {
      CreatorExtends(Db(s), Db(s'), touched, s.creators[id]);
    }
    forall id | id in s'.inviters ensures InviterOk(Db(s'), s'.inviters[id]) {
      InviterExtends(Db(s), Db(s'), touched, s.inviters[id]);
    }
    forall id | id in s'.updaters && id != mover
      ensures UpdaterOk(Db(s'), s'.ids.history, s'.now, s'.updaters[id]) && HoldsLock(s', id, s'.updaters[id])
    {
      UpdaterExtends(Db(s), Db(s'), touched, s.ids.history, s'.ids.history, s.now, s'.now, s.updaters[id]);
    }
  }

  lemma ExtendsItself(st: Store)
    ensures Extends(st, st, 0)
  {
  }

  lemma NoTaskZero(s: DataSide)
    requires StoreInv(s)
    ensures LockedBy(s, 0, -1)
  {
    forall id | id in s.updaters && s.updaters[id].pc.Writing? ensures s.updaters[id].pc.current.id != 0 {
      assert UpdaterOk(Db(s), s.ids.history, s.now, s.updaters[id]);
      assert s.updaters[id].pc.before in Db(s).tasks;
    }
  }

  lemma Parts(s: DataSide, except: int)
    requires StoreInv(s)
    ensures DataOk(s) && CreatorsOk(s) && InvitersOk(s) && UpdatersOk(s, except)
  {
    hide DataOk, CreatorsOk, InvitersOk, UpdaterOk, HoldsLock;
  }

  lemma UpdaterFacts(s: DataSide, id: nat)
    requires StoreInv(s) && id in s.updaters
    ensures UpdaterOk(Db(s), s.ids.history, s.now, s.updaters[id]) && HoldsLock(s, id, s.updaters[id])
  {
    hide DataOk, CreatorsOk, InvitersOk, UpdaterOk, HoldsLock;
  }

  // ----- a call moves on

  lemma InviterMoves(s: DataSide, id: nat, pc: InviterPc)
    requires StoreInv(s) && id in s.inviters
    requires InviterOk(Db(s), s.inviters[id].(pc := pc))
    ensures StoreInv(SetInviter(s, id, pc))
  {
    hide IdsOk, MembersOk, TasksOk, HistoryOk, AuditOk, CreatorOk, InviterOk, UpdaterOk;
  }

  lemma CreatorMoves(s: DataSide, id: nat, pc: CreatorPc)
    requires StoreInv(s) && id in s.creators
    requires CreatorOk(Db(s), s.creators[id].(pc := pc))
    ensures StoreInv(SetCreator(s, id, pc))
  {
    hide IdsOk, MembersOk, TasksOk, HistoryOk, AuditOk, CreatorOk, InviterOk, UpdaterOk;
  }

  lemma UpdaterMoves(s: DataSide, id: nat, pc: UpdaterPc)
    requires DataOk(s) && CreatorsOk(s) && InvitersOk(s) && UpdatersOk(s, id) && id in s.updaters
    requires UpdaterOk(Db(s), s.ids.history, s.now, s.updaters[id].(pc := pc))
    requires HoldsLock(s, id, s.updaters[id].(pc := pc))
    ensures StoreInv(SetUpdater(s, id, pc))
  {
    hide IdsOk, MembersOk, TasksOk, HistoryOk, AuditOk, CreatorOk, InviterOk, UpdaterOk;
  }

  /** A call that is not going to write moves to a program point whose facts hold. */
  lemma UpdaterStep(s: DataSide, id: nat, pc: UpdaterPc)
    requires StoreInv(s) && id in s.updaters && !pc.Writing?
    requires UpdaterOk(Db(s), s.ids.history, s.now, s.updaters[id].(pc := pc))
    ensures StoreInv(SetUpdater(s, id, pc))
  {
    Parts(s, id);
    hide StoreInv, DataOk, CreatorsOk, InvitersOk, UpdatersOk, UpdaterOk;
    UpdaterMoves(s, id, pc);
  }

  /** A transaction that has released its lock ends. */
  lemma UpdaterEnds(s: DataSide, id: nat, pc: UpdaterPc)
    requires DataOk(s) && CreatorsOk(s) && InvitersOk(s) && UpdatersOk(s, id) && id in s.updaters
    requires pc.UpdateFailed? || pc.AnnouncingUpdate? || pc.Updated?
    ensures StoreInv(SetUpdater(s, id, pc))
  {
    hide StoreInv, DataOk, CreatorsOk, InvitersOk, UpdatersOk;
    UpdaterMoves(s, id, pc);
  }

  // ----- one step of each kind

  lemma InitialOk(ttl: int)
    ensures StoreInv(Initial(ttl).data)
  {
  }

  /** Writes to the users, teams and members tables leave tasks and history as they were. */
  lemma UnchangedData(s: DataSide, s': DataSide)
    requires DataOk(s)
    requires Db(s').tasks == Db(s).tasks && Db(s').history == Db(s).history
    requires Extends(Db(s), Db(s'), 0)
    requires s'.created == s.created && s'.stale == s.stale
    requires s'.ids.task == s.ids.task && s.ids.history <= s'.ids.history && s.now <= s'.now
    ensures TasksOk(Db(s')) && HistoryOk(Db(s'), s'.ids.history, s'.now) && AuditOk(Db(s'), s'.created, s'.stale)
  {
    hide IdsOk, MembersOk, AuditOk;
    UnchangedAudit(Db(s), Db(s'), s.created, s.stale);
    hide RowAudited;
    forall row | row in Db(s').tasks ensures RowOk(Db(s'), row) {
      RowOkGrows(Db(s), Db(s'), row);
    }
    forall h | h in Db(s').history ensures AuthorOk(Db(s'), h.taskID, h.changedBy) {
      AuthorsCommitted(Db(s), Db(s'), h.taskID, h.changedBy, 0);
    }
  }

  lemma UnchangedAudit(st: Store, st': Store, created: map<int, Task>, stale: set<int>)
    requires AuditOk(st, created, stale) && st'.tasks == st.tasks && st'.history == st.history
    ensures AuditOk(st', created, stale)
  {
    forall row | row in st'.tasks ensures RowAudited(st', row, created, stale) {
      assert RowAudited(st, row, created, stale);
      assert HistoryOf(st', row.id) == HistoryOf(st, row.id);
    }
  }

  /** A commit to the users, teams or members tables. */
  lemma PeopleCommitted(s: DataSide, s': DataSide)
    requires StoreInv(s)
    requires Db(s').tasks == Db(s).tasks && Db(s').history == Db(s).history
    requires Extends(Db(s), Db(s'), 0)
    requires IdsOk(Db(s'), s'.ids.team, s'.ids.task, s'.stale) && MembersOk(Db(s'), s'.invites)
    requires s'.created == s.created && s'.stale == s.stale && s'.locks == s.locks
    requires s'.ids.task == s.ids.task && s'.ids.history == s.ids.history && s'.now == s.now
    requires s'.creators == s.creators && s'.updaters == s.updaters && s'.inviters == s.inviters
    ensures StoreInv(s')
  {
    NoTaskZero(s);
    Parts(s, -1);
    UnchangedData(s, s');
    hide StoreInv, IdsOk, MembersOk, TasksOk, HistoryOk, AuditOk, Extends, CreatorsOk, InvitersOk, UpdatersOk, LockedBy;
    CallsExtend(s, s', 0, -1);
    assert DataOk(s');
    Whole(s');
  }

  lemma Whole(s: DataSide)
    requires DataOk(s) && CreatorsOk(s) && InvitersOk(s) && UpdatersOk(s, -1)
    ensures StoreInv(s)
  {
    hide DataOk, CreatorsOk, InvitersOk, UpdatersOk;
  }

  lemma RegisterKeeps(s: DataSide, name: string, email: string)
    requires StoreInv(s)
    ensures StoreInv(Register(s, name, email))
  {
    hide StoreInv, MembersOk, FindByEmail, Extends;
    TeamFacts(s);
    var s' := Register(s, name, email);
    if InsertUser(Db(s), s.ids.user, name, email).Ok? {
      UserInserted(Db(s), s.invites, s.ids.user, name, email);
      PeopleCommitted(s, s');
    } else {
      IdDrawn(s, s'.ids);
    }
  }

  lemma IdDrawn(s: DataSide, ids: Counters)
    requires StoreInv(s)
    requires ids.team >= s.ids.team && ids.task >= s.ids.task && ids.history == s.ids.history
    ensures StoreInv(s.(ids := ids))
  {
    hide MembersOk, TasksOk, HistoryOk, AuditOk, CreatorOk, InviterOk, UpdaterOk;
  }

  lemma TeamFacts(s: DataSide)
    requires StoreInv(s)
    ensures IdsOk(Db(s), s.ids.team, s.ids.task, s.stale) && MembersOk(Db(s), s.invites)
  {
    hide IdsOk, MembersOk, TasksOk, HistoryOk, AuditOk, CreatorsOk, InvitersOk, UpdatersOk;
  }

  lemma CreateTeamKeeps(s: DataSide, owner: int, name: string, o: Outcome)
    requires StoreInv(s)
    ensures StoreInv(CreateTeam(s, owner, name, o))
  {
    hide StoreInv, MembersOk, HasUser, TrimSpace, Extends, ValidTitle;
    TeamFacts(s);
    var s' := CreateTeam(s, owner, name, o);
    if owner > 0 && ValidTitle(TrimSpace(name)) {
      if !o.FailsBefore? && InsertTeamWithOwner(Db(s), s.ids.team, TrimSpace(name), owner).Ok? {
        TeamInserted(Db(s), s.invites, s.ids.team, TrimSpace(name), owner);
        PeopleCommitted(s, s');
      } else {
        IdDrawn(s, s'.ids);
      }
    }
  }

  // ----- invitations

  lemma OwnerChecked(s: DataSide, input: InviteInput)
    requires StoreInv(s)
    requires FindTeamRole(Db(s), input.teamID, input.invitedBy).Some?
    requires FindTeamRole(Db(s), input.teamID, input.invitedBy).value in {ROLE_OWNER, ROLE_ADMIN}
    ensures InviterOk(Db(s), Inviter(input, FindingInvitee))
  {
    hide TasksOk, HistoryOk, AuditOk, IdsOk, UpdatersOk, CreatorsOk, InvitersOk;
    InviterIsOwner(Db(s), s.invites, MemberRow(input.teamID, input.invitedBy, FindTeamRole(Db(s), input.teamID, input.invitedBy).value));
    var t :| t in Db(s).teams && t.id == input.teamID;
    assert t.createdBy == input.invitedBy;
  }

  lemma RoleCheckKeeps(s: DataSide, id: nat, o: Outcome)
    requires StoreInv(s) && id in s.inviters && s.inviters[id].pc.CheckingInviter?
    ensures StoreInv(InviteStep(s, id, o))
  {
    hide StoreInv, FindTeamRole;
    var input := s.inviters[id].input;
    var role := FindTeamRole(Db(s), input.teamID, input.invitedBy);
    if o.Succeeds? && role.Some? && role.value in {ROLE_OWNER, ROLE_ADMIN} {
      OwnerChecked(s, input);
    }
    InviterMoves(s, id, AfterRoleCheck(role, o));
  }

  lemma InviterFacts(s: DataSide, id: nat)
    requires StoreInv(s) && id in s.inviters
    ensures InviterOk(Db(s), s.inviters[id])
  {
    hide DataOk, CreatorsOk, InviterOk, UpdatersOk;
  }

  lemma FindInviteeKeeps(s: DataSide, id: nat, o: Outcome)
    requires StoreInv(s) && id in s.inviters && s.inviters[id].pc.FindingInvitee?
    ensures StoreInv(InviteStep(s, id, o))
  {
    hide StoreInv;
    InviterFacts(s, id);
    InviterMoves(s, id, InviteStep(s, id, o).inviters[id].pc);
  }

  lemma MemberAddedKeeps(s: DataSide, id: nat, userID: int, store: Store)
    requires StoreInv(s) && id in s.inviters && s.inviters[id].pc == AddingMember(userID)
    requires InsertMember(Db(s), s.inviters[id].input.teamID, userID) == Ok(store)
    ensures StoreInv(MemberAdded(s, s.inviters[id].input, userID, store))
  {
    hide TasksOk, HistoryOk, AuditOk, CreatorsOk, InvitersOk, UpdatersOk, HasUser, HasTeam, FindMember, Extends, MemberRowOk;
    var v := s.inviters[id].input;
    InviterFacts(s, id);
    var t :| t in Db(s).teams && t.id == v.teamID && t.createdBy == v.invitedBy;
    forall t' | t' in Db(s).teams && t'.id == v.teamID ensures t'.createdBy == v.invitedBy {
      var i :| 0 <= i < |Db(s).teams| && Db(s).teams[i] == t;
      var j :| 0 <= j < |Db(s).teams| && Db(s).teams[j] == t';
    }
    hide MembersOk;
    MemberInserted(Db(s), s.invites, v.teamID, userID, v.invitedBy);
    PeopleCommitted(s, MemberAdded(s, v, userID, store));
  }

  lemma AddMemberKeeps(s: DataSide, id: nat, o: Outcome)
    requires StoreInv(s) && id in s.inviters && s.inviters[id].pc.AddingMember?
    ensures StoreInv(InviteStep(s, id, o))
  {
    hide StoreInv, InsertMember, MemberAdded;
    var v := s.inviters[id];
    var r := InsertMember(Db(s), v.input.teamID, v.pc.userID);
    if !o.FailsBefore? && r.Ok? {
      MemberAddedKeeps(s, id, v.pc.userID, r.value);
      MemberAddedInviters(s, v.input, v.pc.userID, r.value);
      InviterMoves(MemberAdded(s, v.input, v.pc.userID, r.value), id,
        if o.FailsAfter? then InviteFailed(Infrastructure) else Invited(v.pc.userID));
    } else {
      InviterMoves(s, id, InviteFailed(if o.FailsBefore? then Infrastructure else r.error));
    }
  }

  lemma MemberAddedInviters(s: DataSide, input: InviteInput, userID: int, store: Store)
    ensures MemberAdded(s, input, userID, store).inviters == s.inviters
  {
  }

  lemma InviteKeeps(s: DataSide, id: nat, o: Outcome)
    requires StoreInv(s)
    ensures StoreInv(InviteStep(s, id, o))
  {
    hide StoreInv, InsertMember, FindTeamRole, FindByEmail, MemberAdded;
    if id in s.inviters {
      match s.inviters[id].pc
      case CheckingInviter => RoleCheckKeeps(s, id, o);
      case FindingInvitee => FindInviteeKeeps(s, id, o);
      case AddingMember(_) => AddMemberKeeps(s, id, o);
      case Invited(_) =>
      case InviteFailed(_) =>
    }
  }

  // ----- creations

  lemma CreatorFacts(s: DataSide, id: nat)
    requires StoreInv(s) && id in s.creators
    ensures CreatorOk(Db(s), s.creators[id])
  {
    hide DataOk, CreatorOk, InvitersOk, UpdatersOk;
  }

  lemma CreateChecksKeep(s: DataSide, id: nat, o: Outcome)
    requires StoreInv(s) && id in s.creators
    requires s.creators[id].pc.CheckingCreator? || s.creators[id].pc.CheckingAssignee? || s.creators[id].pc.Reloading?
    ensures StoreInv(CreateStep(s, id, o))
  {
    hide StoreInv, CreateInputOk, IsMember, FindTask, SetCreator;
    CreatorFacts(s, id);
    var c := s.creators[id];
    match c.pc
    case CheckingCreator =>
      CreatorMoves(s, id, AfterCreatorCheck(IsMember(Db(s), c.input.teamID, c.input.createdBy), c.input, o));
    case CheckingAssignee =>
      var isMember := c.input.assigneeID.Some? && IsMember(Db(s), c.input.teamID, c.input.assigneeID.value);
      CreatorMoves(s, id, AfterCreateAssigneeCheck(isMember, o));
    case Reloading(taskID, commit) => CreatorMoves(s, id, AfterReload(FindTask(Db(s), taskID), commit, o));
  }

  /** The insert of a task whose creator and assignee have been checked keeps every invariant of the data. */
  lemma InsertedData(st: Store, input: CreateInput, ids: Counters, now: int, created: map<int, Task>, stale: set<int>, invites: map<(int, int), int>)
    requires IdsOk(st, ids.team, ids.task, stale) && MembersOk(st, invites) && TasksOk(st)
    requires HistoryOk(st, ids.history, now) && AuditOk(st, created, stale)
    requires CreateInputOk(input) && IsMember(st, input.teamID, input.createdBy)
    requires input.assigneeID.Some? ==> IsMember(st, input.teamID, input.assigneeID.value)
    requires InsertTask(st, ids.task, DraftOf(input), now).Ok?
    ensures
      var st' := InsertTask(st, ids.task, DraftOf(input), now).value;
      && IdsOk(st', ids.team, ids.task + 1, stale)
      && MembersOk(st', invites)
      && TasksOk(st')
      && HistoryOk(st', ids.history, now)
      && AuditOk(st', created[ids.task := NewRow(ids.task, DraftOf(input), now)], stale)
      && Extends(st, st', 0)
  {
    hide MembersOk, TasksOk, HistoryOk, AuditOk, IsMember, HasUser, HasTeam, Extends;
    TrimSpaceIdempotent(input.title);
    hide TrimSpace;
    TaskInserted(st, ids.task, DraftOf(input), now);
    TaskInsertedAudit(st, created, stale, ids.task, DraftOf(input), now, ids.history);
    TaskInsertedHistory(st, ids.task, DraftOf(input), now, ids.history);
    MembersUntouched(st, InsertTask(st, ids.task, DraftOf(input), now).value, invites);
  }

  lemma MembersUntouched(st: Store, st': Store, invites: map<(int, int), int>)
    requires MembersOk(st, invites)
    requires st'.users == st.users && st'.teams == st.teams && st'.members == st.members
    ensures MembersOk(st', invites)
  {
    forall m | m in st'.members ensures HasTeam(st', m.teamID) && HasUser(st', m.userID) {
      assert HasTeam(st, m.teamID) && HasUser(st, m.userID);
    }
  }

  lemma TaskAddedKeeps(s: DataSide, id: nat, store: Store)
    requires StoreInv(s) && id in s.creators && s.creators[id].pc.Inserting?
    requires InsertTask(Db(s), s.ids.task, DraftOf(s.creators[id].input), s.now) == Ok(store)
    ensures StoreInv(TaskAdded(s, s.creators[id].input, store))
  {
    var input := s.creators[id].input;
    NoTaskZero(s);
    Parts(s, -1);
    CreatorFacts(s, id);
    hide StoreInv, IdsOk, MembersOk, TasksOk, HistoryOk, AuditOk, CreatorsOk, InvitersOk, UpdatersOk, InsertTask,
      Extends, IsMember, CreateInputOk, LockedBy;
    InsertedData(Db(s), input, s.ids, s.now, s.created, s.stale, s.invites);
    CallsExtend(s, TaskAdded(s, input, store), 0, -1);
    Whole(TaskAdded(s, input, store));
  }

  lemma InsertKeeps(s: DataSide, id: nat, o: Outcome)
    requires StoreInv(s) && id in s.creators && s.creators[id].pc.Inserting?
    ensures StoreInv(InsertStep(s, id, s.creators[id].input, o))
  {
    hide StoreInv, InsertTask, TaskAdded, DraftOf;
    var input := s.creators[id].input;
    var r := InsertTask(Db(s), s.ids.task, DraftOf(input), s.now);
    if !o.FailsBefore? && r.Ok? {
      TaskAddedKeeps(s, id, r.value);
      TaskAddedCreators(s, input, r.value);
      CreatorMoves(TaskAdded(s, input, r.value), id,
        if o.FailsAfter? then CreateFailed(Infrastructure) else Reloading(s.ids.task, |s.log|));
    } else {
      IdDrawn(s, TaskIdDrawn(s).ids);
      CreatorMoves(TaskIdDrawn(s), id, CreateFailed(Infrastructure));
    }
  }

  lemma TaskAddedCreators(s: DataSide, input: CreateInput, store: Store)
    ensures TaskAdded(s, input, store).creators == s.creators
  {
  }

  lemma CreateKeeps(s: DataSide, id: nat, o: Outcome)
    requires StoreInv(s)
    ensures StoreInv(CreateStep(s, id, o))
  {
    hide StoreInv, InsertStep, IsMember, FindTask;
    if id in s.creators {
      var c := s.creators[id];
      match c.pc
      case CheckingCreator => CreateChecksKeep(s, id, o);
      case CheckingAssignee => CreateChecksKeep(s, id, o);
      case Inserting => InsertKeeps(s, id, o);
      case Reloading(_, _) => CreateChecksKeep(s, id, o);
      case AnnouncingCreate(task, _) => CreatorMoves(s, id, Created(task));
      case Created(_) =>
      case CreateFailed(_) =>
    }
  }

  // ----- updates

  lemma WantedRowOk(st: Store, current: Task, input: UpdateInput, appTime: int)
    requires RowOk(st, current) && ValuesOk(input)
    requires AsksForAssignee(input) ==> IsMember(st, current.teamID, input.assigneeID.value)
    ensures RowOk(st, Wanted(current, input, appTime))
  {
    hide IsMember;
    if input.title.Some? { TrimSpaceIdempotent(input.title.value); }
    hide TrimSpace;
  }

  lemma WantedIdentity(current: Task, input: UpdateInput, appTime: int)
    ensures Wanted(current, input, appTime).id == current.id
    ensures Wanted(current, input, appTime).teamID == current.teamID
  {
    hide TrimSpace;
  }

  lemma KnownRow(st: Store, t: Task)
    requires Known(st, t)
    ensures RowOk(st, t)
  {
  }

  lemma PlanMade(st: Store, nextID: int, now: int, current: Task, input: UpdateInput, appTime: int)
    requires Known(st, current) && IsMember(st, current.teamID, input.requestedBy) && ValuesOk(input)
    requires AsksForAssignee(input) ==> IsMember(st, current.teamID, input.assigneeID.value)
    ensures UpdaterOk(st, nextID, now, Updater(input, AfterChecks(current, input, appTime)))
  {
    KnownRow(st, current);
    hide Known, IsMember, ValuesOk, RowOk, Wanted, Changes, AsksForAssignee;
    WantedRowOk(st, current, input, appTime);
    WantedIdentity(current, input, appTime);
  }

  lemma AfterChecksKeeps(s: DataSide, id: nat, current: Task, appTime: int)
    requires StoreInv(s) && id in s.updaters
    requires Known(Db(s), current) && IsMember(Db(s), current.teamID, s.updaters[id].input.requestedBy)
    requires ValuesOk(s.updaters[id].input)
    requires AsksForAssignee(s.updaters[id].input) ==>
      IsMember(Db(s), current.teamID, s.updaters[id].input.assigneeID.value)
    ensures StoreInv(SetUpdater(s, id, AfterChecks(current, s.updaters[id].input, appTime)))
  {
    hide StoreInv, Known, IsMember, ValuesOk, UpdaterOk, Wanted, Changes, AsksForAssignee, SetUpdater;
    PlanMade(Db(s), s.ids.history, s.now, current, s.updaters[id].input, appTime);
    UpdaterStep(s, id, AfterChecks(current, s.updaters[id].input, appTime));
  }

  lemma FoundKnown(s: DataSide, taskID: int)
    requires StoreInv(s)
    ensures var found := FindTask(Db(s), taskID); found.Some? ==> Known(Db(s), found.value)
  {
    hide IdsOk, MembersOk, HistoryOk, AuditOk, UpdatersOk, CreatorsOk, InvitersOk, IsMember;
    var found := FindTask(Db(s), taskID);
    if found.Some? {
      assert HasTask(Db(s), found.value.id, found.value.teamID);
    }
  }

  lemma FindKeeps(s: DataSide, id: nat, o: Outcome, appTime: int)
    requires StoreInv(s) && id in s.updaters && s.updaters[id].pc.Finding?
    ensures StoreInv(UpdateStep(s, id, o, appTime))
  {
    hide StoreInv, Known, FindTask;
    FoundKnown(s, s.updaters[id].input.taskID);
    UpdaterStep(s, id, AfterFind(FindTask(Db(s), s.updaters[id].input.taskID), o));
  }

  lemma RequesterKeeps(s: DataSide, id: nat, o: Outcome, appTime: int)
    requires StoreInv(s) && id in s.updaters && s.updaters[id].pc.CheckingRequester?
    ensures StoreInv(UpdateStep(s, id, o, appTime))
  {
    hide StoreInv, Known, AfterChecks, IsMember, ValuesOk;
    UpdaterFacts(s, id);
    var u := s.updaters[id];
    var current := u.pc.current;
    var isMember := IsMember(Db(s), current.teamID, u.input.requestedBy);
    if o.Succeeds? && isMember && ValuesOk(u.input) && !AsksForAssignee(u.input) {
      AfterChecksKeeps(s, id, current, appTime);
    } else {
      UpdaterStep(s, id, AfterRequesterCheck(isMember, u.input, current, o, appTime));
    }
  }

  lemma NewAssigneeKeeps(s: DataSide, id: nat, o: Outcome, appTime: int)
    requires StoreInv(s) && id in s.updaters && s.updaters[id].pc.CheckingNewAssignee?
    ensures StoreInv(UpdateStep(s, id, o, appTime))
  {
    hide StoreInv, Known, AfterChecks, IsMember, ValuesOk;
    UpdaterFacts(s, id);
    var u := s.updaters[id];
    var current := u.pc.current;
    var isMember := u.input.assigneeID.Some? && IsMember(Db(s), current.teamID, u.input.assigneeID.value);
    if o.Succeeds? && isMember {
      AfterChecksKeeps(s, id, current, appTime);
    } else {
      UpdaterStep(s, id, AfterAssigneeCheck(isMember, u.input, current, o, appTime));
    }
  }

  lemma SameTeam(st: Store, row: Task, current: Task)
    requires UniqueIDs(st.tasks) && row in st.tasks && row.id == current.id && HasTask(st, current.id, current.teamID)
    ensures row.teamID == current.teamID
  {
    var other :| other in st.tasks && other.id == current.id && other.teamID == current.teamID;
    var i :| 0 <= i < |st.tasks| && st.tasks[i] == row;
    var j :| 0 <= j < |st.tasks| && st.tasks[j] == other;
  }

  lemma TryExecMeaning(st: Store, current: Task, wanted: Task, now: int)
    requires ValidStatus(wanted.status) && TryExec(st, current, wanted, now).Ok?
    ensures var (before, pending) := TryExec(st, current, wanted, now).value;
      && before in st.tasks && before.id == current.id
      && MergedFrom(pending, before, current, wanted)
  {
    var found := FindTask(st, current.id);
    if found.Some? {
      SetListMeaning(found.value, current, wanted);
    }
    hide Changes, CompileChanges, ApplySet, HasUser, Merge;
  }

  /** The row the UPDATE leaves in the transaction is the merge of the plan into the committed row. */
  lemma ExecutedOk(st: Store, current: Task, wanted: Task, author: int, nextID: int, now: int)
    requires UniqueIDs(st.tasks) && PlanOk(st, current, wanted, author)
    requires TryExec(st, current, wanted, now).Ok?
    ensures
      var (before, pending) := TryExec(st, current, wanted, now).value;
      WriteOk(st, nextID, now, author, Writing(current, wanted, before, pending, []))
  {
    hide TryExec, UniqueIDs, MergedFrom, Changes, IsMember, HasTask;
    TryExecMeaning(st, current, wanted, now);
    var (before, pending) := TryExec(st, current, wanted, now).value;
    SameTeam(st, before, current);
  }

  lemma LockTaken(s: DataSide, id: nat, taskID: int)
    requires StoreInv(s) && taskID !in s.locks
    ensures var s1 := Lock(s, taskID, id);
      DataOk(s1) && CreatorsOk(s1) && InvitersOk(s1) && UpdatersOk(s1, id)
  {
    hide IdsOk, MembersOk, TasksOk, HistoryOk, AuditOk, UpdaterOk, CreatorOk, InviterOk;
    var s1 := Lock(s, taskID, id);
    forall other | other in s1.updaters && other != id ensures HoldsLock(s1, other, s1.updaters[other]) {
      assert HoldsLock(s, other, s.updaters[other]);
    }
  }

  lemma UniqueRows(s: DataSide)
    requires StoreInv(s)
    ensures UniqueIDs(Db(s).tasks)
  {
    hide IdsOk, MembersOk, HistoryOk, AuditOk, UpdatersOk, CreatorsOk, InvitersOk, RowOk;
  }

  lemma ExecKeeps(s: DataSide, id: nat, current: Task, wanted: Task, o: Outcome)
    requires StoreInv(s) && id in s.updaters && s.updaters[id].pc == Executing(current, wanted)
    ensures StoreInv(ExecStep(s, id, current, wanted, o))
  {
    hide StoreInv, TryExec, PlanOk, WriteOk, UniqueIDs, DataOk, CreatorsOk, InvitersOk, UpdatersOk;
    UpdaterFacts(s, id);
    UniqueRows(s);
    var r := TryExec(Db(s), current, wanted, s.now);
    if o.Succeeds? && r.Ok? && current.id !in s.locks {
      ExecutedOk(Db(s), current, wanted, s.updaters[id].input.requestedBy, s.ids.history, s.now);
      LockTaken(s, id, current.id);
      UpdaterMoves(Lock(s, current.id, id), id, Writing(current, wanted, r.value.0, r.value.1, []));
    } else if !o.Succeeds? || r.Err? {
      UpdaterStep(s, id, UpdateFailed(if o.Succeeds? && r.Err? then r.error else Infrastructure));
    }
  }

  /** Releasing the lock of one transaction leaves the locks of the others. */
  lemma UnlockKeeps(s: DataSide, id: nat)
    requires StoreInv(s) && id in s.updaters && s.updaters[id].pc.Writing?
    ensures var s1 := Unlock(s, s.updaters[id].pc.current.id);
      DataOk(s1) && CreatorsOk(s1) && InvitersOk(s1) && UpdatersOk(s1, id)
    ensures LockedBy(s, s.updaters[id].pc.current.id, id)
  {
    hide IdsOk, MembersOk, TasksOk, HistoryOk, AuditOk, CreatorOk, InviterOk, UpdaterOk;
    var taskID := s.updaters[id].pc.current.id;
    assert HoldsLock(s, id, s.updaters[id]);
    forall other | other in s.updaters && other != id && s.updaters[other].pc.Writing?
      ensures s.updaters[other].pc.current.id != taskID
    {
      assert HoldsLock(s, other, s.updaters[other]);
    }
  }

  lemma HistoryIdDrawnKeeps(s: DataSide)
    requires StoreInv(s)
    ensures StoreInv(HistoryIdDrawn(s))
  {
    var s1 := HistoryIdDrawn(s);
    ExtendsItself(Db(s));
    NoTaskZero(s);
    Parts(s, -1);
    HistoryLater(Db(s), s.ids.history, s.ids.history + 1, s.now, s.now);
    hide StoreInv, IdsOk, MembersOk, TasksOk, HistoryOk, AuditOk, CreatorsOk, InvitersOk, UpdatersOk, Extends, LockedBy;
    CallsExtend(s, s1, 0, -1);
    Whole(s1);
  }

  lemma HistoryLater(st: Store, nextID: int, nextID': int, now: int, now': int)
    requires HistoryOk(st, nextID, now) && nextID <= nextID' && now <= now'
    ensures HistoryOk(st, nextID', now')
  {
    hide AuthorOk, WellFormed;
  }

  lemma HistoryFacts(s: DataSide)
    requires StoreInv(s)
    ensures HistoryOk(Db(s), s.ids.history, s.now)
  {
    hide IdsOk, MembersOk, TasksOk, HistoryOk, AuditOk, CreatorsOk, InvitersOk, UpdatersOk;
  }

  lemma HistoryInsertKeeps(s: DataSide, id: nat, o: Outcome)
    requires StoreInv(s) && id in s.updaters && s.updaters[id].pc.Writing?
    requires var pc := s.updaters[id].pc; |pc.rows| < |Changes(pc.current, pc.wanted)|
    ensures StoreInv(WriteStep(s, id, s.updaters[id].input.requestedBy, s.updaters[id].pc, o))
  {
    hide StoreInv, Changes, DataOk, CreatorsOk, InvitersOk, UpdatersOk, HistoryOk, PlanOk, PendingRows, MergedFrom;
    var pc, author := s.updaters[id].pc, s.updaters[id].input.requestedBy;
    HistoryIdDrawnKeeps(s);
    HistoryFacts(s);
    UpdaterFacts(s, id);
    var s1 := HistoryIdDrawn(s);
    if o.Succeeds? {
      PendingRowsSnoc(Db(s), pc.current.id, author, Changes(pc.current, pc.wanted), pc.rows, s.ids.history, s.now);
      Parts(s1, id);
      var pc' := pc.(rows := pc.rows + [NextHistoryRow(s, author, pc)]);
      assert UpdaterOk(Db(s1), s1.ids.history, s1.now, s1.updaters[id].(pc := pc'));
      hide WriteOk;
      UpdaterMoves(s1, id, pc');
    } else {
      UnlockKeeps(s1, id);
      UpdaterEnds(Unlock(s1, pc.current.id), id, UpdateFailed(Infrastructure));
    }
  }

  ghost predicate WholeDataOk(st: Store, ids: Counters, now: int, created: map<int, Task>, stale: set<int>, invites: map<(int, int), int>) {
    && IdsOk(st, ids.team, ids.task, stale)
    && MembersOk(st, invites)
    && TasksOk(st)
    && HistoryOk(st, ids.history, now)
    && AuditOk(st, created, stale)
  }

  lemma IdsCommitted(st: Store, row: Task, before: Task, rows: seq<HistoryRow>, ids: Counters, stale: set<int>, stale': set<int>)
    requires IdsOk(st, ids.team, ids.task, stale) && UniqueIDs(st.tasks)
    requires before in st.tasks && row.id == before.id && stale' <= stale + {row.id}
    ensures IdsOk(CommitUpdate(st, row, rows), ids.team, ids.task, stale')
  {
    CommittedRows(st, row, before, rows);
    hide UniqueIDs;
  }

  /** The commit of an update keeps every invariant of the data. */
  lemma CommittedData(st: Store, ids: Counters, now: int, created: map<int, Task>, stale: set<int>, invites: map<(int, int), int>,
                      pc: UpdaterPc, author: int)
    requires WholeDataOk(st, ids, now, created, stale, invites)
    requires pc.Writing? && WriteOk(st, ids.history, now, author, pc)
    requires |pc.rows| >= |Changes(pc.current, pc.wanted)|
    ensures WholeDataOk(CommitUpdate(st, pc.pending, pc.rows), ids, now, created, StaleAfter(stale, pc), invites)
    ensures Extends(st, CommitUpdate(st, pc.pending, pc.rows), pc.current.id)
  {
    var st' := CommitUpdate(st, pc.pending, pc.rows);
    var changes := Changes(pc.current, pc.wanted);
    assert RowOk(st, pc.before);
    assert UniqueIDs(st.tasks);
    assert forall h :: h in pc.rows ==> h.taskID == pc.current.id;
    hide IdsOk, MembersOk, TasksOk, HistoryOk, AuditOk, PendingRows, Changes, MergedFrom, IsMember, HasTask, FreshOn, Extends,
      CommitUpdate, UniqueIDs;
    MergedRowOk(st, pc.pending, pc.before, pc.current, pc.wanted);
    hide RowOk;
    UpdateCommitted(st, pc.pending, pc.before, pc.rows);
    ChangesWellFormed(pc.current, pc.wanted);
    hide WellFormed;
    HistoryCommitted(st, pc.pending, pc.before, pc.rows, author, changes, ids.history, now);
    assert |pc.rows| == |changes| by { PendingLength(st, pc.current.id, author, changes, pc.rows, ids.history, now); }
    AuditCommitted(st, created, stale, pc.pending, pc.before, pc.current, pc.wanted, pc.rows, author, ids.history, now);
    IdsCommitted(st, pc.pending, pc.before, pc.rows, ids, stale, StaleAfter(stale, pc));
    CommitLeavesMembers(st, pc.pending, pc.rows);
    MembersUntouched(st, st', invites);
  }

  lemma CommitLeavesMembers(st: Store, row: Task, rows: seq<HistoryRow>)
    ensures var st' := CommitUpdate(st, row, rows);
      st'.users == st.users && st'.teams == st.teams && st'.members == st.members
  {
  }

  lemma PendingLength(st: Store, taskID: int, author: int, changes: seq<TaskChange>, rows: seq<HistoryRow>, nextID: int, now: int)
    requires PendingRows(st, taskID, author, changes, rows, nextID, now)
    ensures |rows| <= |changes|
  {
  }

  /** What the commit of an update leaves in each part of the state. */
  lemma TaskCommittedParts(s: DataSide, pc: UpdaterPc)
    requires pc.Writing?
    ensures var s1 := TaskCommitted(s, pc);
      && Db(s1) == CommitUpdate(Db(s), pc.pending, pc.rows) && s1.stale == StaleAfter(s.stale, pc)
      && s1.now == s.now && s1.ids == s.ids && s1.created == s.created && s1.invites == s.invites
      && s1.locks == s.locks - {pc.current.id}
      && s1.creators == s.creators && s1.updaters == s.updaters && s1.inviters == s.inviters
    ensures Db(Unlock(s, pc.current.id)) == Db(s)
  {
    hide CommitUpdate, StaleAfter;
  }

  lemma TaskCommittedKeeps(s: DataSide, id: nat)
    requires StoreInv(s) && id in s.updaters && s.updaters[id].pc.Writing?
    requires var pc := s.updaters[id].pc; |pc.rows| >= |Changes(pc.current, pc.wanted)|
    ensures var s1 := TaskCommitted(s, s.updaters[id].pc);
      DataOk(s1) && CreatorsOk(s1) && InvitersOk(s1) && UpdatersOk(s1, id)
  {
    var pc := s.updaters[id].pc;
    Parts(s, -1);
    UpdaterFacts(s, id);
    UnlockKeeps(s, id);
    TaskCommittedParts(s, pc);
    hide StoreInv, IdsOk, MembersOk, TasksOk, HistoryOk, AuditOk, CreatorsOk, InvitersOk, UpdatersOk, WriteOk, CommitUpdate,
      StaleAfter, Changes, LockedBy, Extends, TaskCommitted;
    CommittedData(Db(s), s.ids, s.now, s.created, s.stale, s.invites, pc, s.updaters[id].input.requestedBy);
    LockedByUnlock(s, pc.current.id, id);
    CallsExtend(Unlock(s, pc.current.id), TaskCommitted(s, pc), pc.current.id, id);
  }

  lemma LockedByUnlock(s: DataSide, taskID: int, id: int)
    requires LockedBy(s, taskID, id)
    ensures LockedBy(Unlock(s, taskID), taskID, id)
  {
  }

  lemma CommitKeeps(s: DataSide, id: nat, o: Outcome)
    requires StoreInv(s) && id in s.updaters && s.updaters[id].pc.Writing?
    requires var pc := s.updaters[id].pc; |pc.rows| >= |Changes(pc.current, pc.wanted)|
    ensures StoreInv(WriteStep(s, id, s.updaters[id].input.requestedBy, s.updaters[id].pc, o))
  {
    hide StoreInv, DataOk, CreatorsOk, InvitersOk, UpdatersOk, Changes, TaskCommitted;
    var pc := s.updaters[id].pc;
    if o.FailsBefore? {
      UnlockKeeps(s, id);
      UpdaterEnds(Unlock(s, pc.current.id), id, UpdateFailed(Infrastructure));
    } else {
      TaskCommittedKeeps(s, id);
      TaskCommittedUpdaters(s, pc);
      UpdaterEnds(TaskCommitted(s, pc), id,
        if o.FailsAfter? then UpdateFailed(Infrastructure) else AnnouncingUpdate(pc.pending, |s.log|));
    }
  }

  lemma TaskCommittedUpdaters(s: DataSide, pc: UpdaterPc)
    requires pc.Writing?
    ensures TaskCommitted(s, pc).updaters == s.updaters
  {
  }

  lemma UpdateKeeps(s: DataSide, id: nat, o: Outcome, appTime: int)
    requires StoreInv(s)
    ensures StoreInv(UpdateStep(s, id, o, appTime))
  {
    hide StoreInv, ExecStep, WriteStep, AfterChecks, Changes, FindTask, IsMember, ValuesOk, AsksForAssignee;
    if id in s.updaters {
      var u := s.updaters[id];
      match u.pc
      case Finding => FindKeeps(s, id, o, appTime);
      case CheckingRequester(_) => RequesterKeeps(s, id, o, appTime);
      case CheckingNewAssignee(_) => NewAssigneeKeeps(s, id, o, appTime);
      case Executing(current, wanted) => ExecKeeps(s, id, current, wanted, o);
      case Writing(_, _, _, _, _) =>
        if |u.pc.rows| < |Changes(u.pc.current, u.pc.wanted)| {
          HistoryInsertKeeps(s, id, o);
        } else {
          CommitKeeps(s, id, o);
        }
      case AnnouncingUpdate(task, _) => UpdaterStep(s, id, Updated(task));
      case Updated(_) =>
      case UpdateFailed(_) =>
    }
  }

  // ----- everything else

  lemma TickKeeps(s: DataSide, d: nat)
    requires StoreInv(s)
    ensures StoreInv(s.(now := s.now + d))
  {
    var s1 := s.(now := s.now + d);
    ExtendsItself(Db(s));
    NoTaskZero(s);
    Parts(s, -1);
    HistoryLater(Db(s), s.ids.history, s.ids.history, s.now, s1.now);
    hide StoreInv, IdsOk, MembersOk, TasksOk, HistoryOk, AuditOk, CreatorsOk, InvitersOk, UpdatersOk, Extends, LockedBy;
    CallsExtend(s, s1, 0, -1);
    Whole(s1);
  }

  lemma BeginInviteKeeps(s: DataSide, id: nat, input: InviteInput)
    requires StoreInv(s)
    ensures StoreInv(BeginInvite(s, id, input))
  {
    hide UpdaterOk, CreatorOk, IdsOk, MembersOk, TasksOk, HistoryOk, AuditOk;
  }

  lemma BeginCreateKeeps(s: DataSide, id: nat, input: CreateInput)
    requires StoreInv(s)
    ensures StoreInv(BeginCreate(s, id, input))
  {
    hide UpdaterOk, InviterOk, CreateInputOk, IdsOk, MembersOk, TasksOk, HistoryOk, AuditOk;
  }

  lemma BeginUpdateKeeps(s: DataSide, id: nat, input: UpdateInput)
    requires StoreInv(s)
    ensures StoreInv(BeginUpdate(s, id, input))
  {
    hide CreatorOk, InviterOk, WriteOk, PlanOk, Known, IsMember, ValuesOk, RequestOk, IdsOk, MembersOk, TasksOk, HistoryOk, AuditOk;
  }

  lemma StepKeeps(s: DataSide, a: Action)
    requires StoreInv(s)
    ensures StoreInv(DataStep(s, a))
  {
    hide StoreInv, Register, CreateTeam, BeginInvite, InviteStep, BeginCreate, CreateStep, BeginUpdate, UpdateStep;
    match a
    case Tick(d) => TickKeeps(s, d);
    case ARegister(name, email) => RegisterKeeps(s, name, email);
    case ACreateTeam(owner, name, o) => CreateTeamKeeps(s, owner, name, o);
    case ABeginInvite(id, input) => BeginInviteKeeps(s, id, input);
    case AInvite(id, o) => InviteKeeps(s, id, o);
    case ABeginCreate(id, input) => BeginCreateKeeps(s, id, input);
    case ACreate(id, o) => CreateKeeps(s, id, o);
    case ABeginUpdate(id, input) => BeginUpdateKeeps(s, id, input);
    case AUpdate(id, o, appTime) => UpdateKeeps(s, id, o, appTime);
    case _ =>
  }

  /** Every reachable state satisfies every invariant of the stored data. */
  lemma {:induction false} ReachedOk(ttl: int, actions: seq<Action>)
    ensures StoreInv(Reached(ttl, actions).data)
    decreases |actions|
  {
    hide StoreInv, DataStep, CacheStep;
    if actions == [] {
      InitialOk(ttl);
    } else {
      ReachedOk(ttl, actions[..|actions| - 1]);
      StepKeeps(Reached(ttl, actions[..|actions| - 1]).data, actions[|actions| - 1]);
    }
  }
}
