/**
 * The service as a state machine. Any number of list, create, update and invite calls are in flight at
 * once, each at a program point of its use case; one action is one statement, transaction step or Redis
 * command of one of them, and every such step may fail.
 */
module Service {
  import opened Domain
  import opened CacheKeys
  import opened TaskQueries
  import opened TaskUpdates
  import opened AuditLog
  import opened Store
  import opened RedisStore

  /** How an external call ends: with its effect, without it, or with its effect and an error all the same. */
  datatype Outcome = Succeeds | FailsBefore | FailsAfter

  /** A committed database state, when it was committed, and the team whose tasks the commit wrote. */
  datatype Commit = Commit(store: Store, at: int, team: Option<int>)

  type Log = l: seq<Commit> | l != [] witness [Commit(EMPTY, 0, None)]

  // ----- the calls in flight

  datatype ListInput = ListInput(
    teamID: int, requestedBy: int, status: string, assigneeID: Option<int>, limit: int, offset: int)

  datatype Source = FromDatabase | FromCache(at: int)

  datatype ReaderPc =
    | CheckingReader
    | ReadingVersion(filter: TaskFilter)
    | ReadingEntry(filter: TaskFilter, version: int)
    | Querying(filter: TaskFilter, cacheVersion: Option<int>)
    | Storing(filter: TaskFilter, version: int, rows: seq<Task>, snap: nat, readAt: int)
    | Listed(filter: TaskFilter, rows: seq<Task>, snap: nat, source: Source)
    | ListFailed(error: Error)

  /** `due` is the last commit that the answer must not miss: the floor of the team's version when the call began. */
  datatype Reader = Reader(input: ListInput, due: nat, pc: ReaderPc)

  datatype CreateInput = CreateInput(
    teamID: int, createdBy: int, title: string, description: string, assigneeID: Option<int>)

  datatype CreatorPc =
    | CheckingCreator
    | CheckingAssignee
    | Inserting
    | Reloading(taskID: int, commit: nat)
    | AnnouncingCreate(task: Task, commit: nat)
    | Created(task: Task)
    | CreateFailed(error: Error)

  datatype Creator = Creator(input: CreateInput, pc: CreatorPc)

  datatype UpdaterPc =
    | Finding
    | CheckingRequester(current: Task)
    | CheckingNewAssignee(current: Task)
    | Executing(current: Task, wanted: Task)
    | Writing(current: Task, wanted: Task, before: Task, pending: Task, rows: seq<HistoryRow>)
    | AnnouncingUpdate(task: Task, commit: nat)
    | Updated(task: Task)
    | UpdateFailed(error: Error)

  datatype Updater = Updater(input: UpdateInput, pc: UpdaterPc)

  datatype InviteInput = InviteInput(teamID: int, invitedBy: int, email: string)

  datatype InviterPc =
    | CheckingInviter
    | FindingInvitee
    | AddingMember(userID: int)
    | Invited(userID: int)
    | InviteFailed(error: Error)

  datatype Inviter = Inviter(input: InviteInput, pc: InviterPc)

  // ----- the state

  /** Where a cached list came from; kept for the proofs only, no call reads it to decide anything. */
  datatype Origin = Origin(filter: TaskFilter, version: int, snap: nat, readAt: int, storedAt: int)

  /** The AUTO_INCREMENT counters, which a rollback does not give back. */
  datatype Counters = Counters(user: int, team: int, task: int, history: int)

  /**
   * MySQL and the calls that write to it. `created`, `stale` and `invites` are history variables: they record
   * what happened and influence nothing.
   */
  datatype DataSide = DataSide(
    now: int,
    log: Log,
    ids: Counters,
    locks: map<int, nat>,
    creators: map<nat, Creator>,
    updaters: map<nat, Updater>,
    inviters: map<nat, Inviter>,
    created: map<int, Task>,
    stale: set<int>,
    invites: map<(int, int), int>)

  /**
   * Redis and the calls that list. `origin`, `floors`, `announced` and `maxDelay` are history variables; only
   * the `snap` recorded with a cache hit is taken from them.
   */
  datatype CacheSide = CacheSide(
    redis: Redis,
    readers: map<nat, Reader>,
    origin: map<string, Origin>,
    floors: map<int, seq<nat>>,
    announced: set<(int, nat)>,
    maxDelay: int)

  datatype System = System(ttl: int, data: DataSide, cache: CacheSide)

  function Initial(ttl: int): System {
    System(ttl,
           DataSide(0, [Commit(EMPTY, 0, None)], Counters(1, 1, 1, 1), map[], map[], map[], map[], map[], {}, map[]),
           CacheSide(map[], map[], map[], map[], {}, 0))
  }

  function Db(s: DataSide): Store {
    s.log[|s.log| - 1].store
  }

  function CommitStore(s: DataSide, store: Store, team: Option<int>): DataSide {
    s.(log := s.log + [Commit(store, s.now, team)])
  }

  /** The floor of each version of a team: the latest commit there was when the version began. */
  function FloorsOf(c: CacheSide, teamID: int): seq<nat> {
    if teamID in c.floors then c.floors[teamID] else [0]
  }

  function Max(a: int, b: int): int {
    if a >= b then a else b
  }

  function LastFloor(floors: seq<nat>): nat {
    if floors == [] then 0 else floors[|floors| - 1]
  }

  // ----- Tasks.List

  predicate ListNumbersOk(input: ListInput) {
    input.teamID > 0 && input.requestedBy > 0 && 0 < input.limit <= 100 && input.offset >= 0
  }

  /** The rest of the validation, which the use case does after the membership check. */
  function ParseFilter(input: ListInput): (r: Result<TaskFilter>)
    ensures r.Ok? && ListNumbersOk(input) ==> ValidFilter(r.value) && r.value.teamID == input.teamID
  {
    var status := TrimSpace(input.status);
    if status != "" && !ValidStatus(status) then Err(InvalidInput)
    else if input.assigneeID.Some? && input.assigneeID.value <= 0 then Err(InvalidInput)
    else Ok(TaskFilter(input.teamID, if status == "" then None else Some(status), input.assigneeID,
                       input.limit, input.offset))
  }

  function SetReader(c: CacheSide, id: nat, pc: ReaderPc): CacheSide {
    if id in c.readers then c.(readers := c.readers[id := c.readers[id].(pc := pc)]) else c
  }

  function BeginList(c: CacheSide, id: nat, input: ListInput): CacheSide {
    if id in c.readers then c
    else
      var pc := if ListNumbersOk(input) then CheckingReader else ListFailed(InvalidInput);
      c.(readers := c.readers[id := Reader(input, LastFloor(FloorsOf(c, input.teamID)), pc)])
  }

  function StoreEntry(c: CacheSide, pc: ReaderPc, now: int, ttl: int): CacheSide
    requires pc.Storing?
  {
    var key := TaskListKey(pc.filter, pc.version);
    c.(redis := RedisStore.SetList(c.redis, pc.filter, pc.version, pc.rows, now, ttl),
       origin := c.origin[key := Origin(pc.filter, pc.version, pc.snap, pc.readAt, now)],
       maxDelay := Max(c.maxDelay, now - pc.readAt))
  }

  function AfterReaderCheck(isMember: bool, input: ListInput, o: Outcome): ReaderPc {
    var f := ParseFilter(input);
    if !o.Succeeds? then ListFailed(Infrastructure)
    else if !isMember then ListFailed(Forbidden)
    else if f.Err? then ListFailed(f.error)
    else ReadingVersion(f.value)
  }

  function AfterVersionRead(version: Result<int>, f: TaskFilter, o: Outcome): ReaderPc {
    if !o.Succeeds? || version.Err? then Querying(f, None) else ReadingEntry(f, version.value)
  }

  function AfterEntryRead(c: CacheSide, f: TaskFilter, v: int, now: int, o: Outcome): ReaderPc {
    var found := GetList(c.redis, f, v, now);
    var key := TaskListKey(f, v);
    if !o.Succeeds? || found.Err? then Querying(f, None)
    else if found.value.None? then Querying(f, Some(v))
    else Listed(f, found.value.value, if key in c.origin then c.origin[key].snap else 0, FromCache(now))
  }

  function AfterQuery(s: DataSide, f: TaskFilter, v: Option<int>, o: Outcome): ReaderPc {
    if !o.Succeeds? || f.limit < 0 || f.offset < 0 then ListFailed(Infrastructure)
    else
      var rows := ListTasks(Db(s).tasks, f);
      var snap := |s.log| - 1;
      if v.None? then Listed(f, rows, snap, FromDatabase) else Storing(f, v.value, rows, snap, s.now)
  }

  function ListStep(c: CacheSide, s: DataSide, ttl: int, id: nat, o: Outcome): CacheSide {
    if id !in c.readers then c
    else
      var r := c.readers[id];
      match r.pc
      case CheckingReader =>
        SetReader(c, id, AfterReaderCheck(IsMember(Db(s), r.input.teamID, r.input.requestedBy), r.input, o))
      case ReadingVersion(f) => SetReader(c, id, AfterVersionRead(CurrentVersion(c.redis, f.teamID), f, o))
      case ReadingEntry(f, v) => SetReader(c, id, AfterEntryRead(c, f, v, s.now, o))
      case Querying(f, v) => SetReader(c, id, AfterQuery(s, f, v, o))
      case Storing(f, v, rows, snap, _) =>
        SetReader(if o.FailsBefore? then c else StoreEntry(c, r.pc, s.now, ttl), id, Listed(f, rows, snap, FromDatabase))
      case Listed(_, _, _, _) => c
      case ListFailed(_) => c
  }

  // ----- announcing a write: InvalidateTeam

  /** The last commit so far. */
  function Latest(s: DataSide): nat {
    |s.log| - 1
  }

  /** INCR of the version, with or without a reply: whoever reads the new version reads the database later than now. */
  function BumpVersion(c: CacheSide, teamID: int, latest: nat): CacheSide {
    var r := Incr(c.redis, teamID);
    if r.Err? then c
    else c.(redis := r.value, floors := c.floors[teamID := FloorsOf(c, teamID) + [latest]])
  }

  function Announce(c: CacheSide, teamID: int, commit: nat, latest: nat): CacheSide {
    var r := Incr(c.redis, teamID);
    if r.Err? then c
    else BumpVersion(c, teamID, latest).(announced := c.announced + {(teamID, commit)})
  }

  function TryAnnounce(c: CacheSide, teamID: int, commit: nat, latest: nat, o: Outcome): CacheSide {
    match o
    case Succeeds => Announce(c, teamID, commit, latest)
    case FailsBefore => c
    case FailsAfter => BumpVersion(c, teamID, latest)
  }

  // ----- Tasks.Create

  predicate CreateInputOk(input: CreateInput) {
    input.teamID > 0 && input.createdBy > 0 && ValidTitle(TrimSpace(input.title))
  }

  function DraftOf(input: CreateInput): Draft {
    Draft(input.teamID, TrimSpace(input.title), input.description, STATUS_TODO, input.assigneeID, input.createdBy)
  }

  function SetCreator(s: DataSide, id: nat, pc: CreatorPc): DataSide {
    if id in s.creators then s.(creators := s.creators[id := s.creators[id].(pc := pc)]) else s
  }

  function BeginCreate(s: DataSide, id: nat, input: CreateInput): DataSide {
    if id in s.creators then s
    else
      var pc := if CreateInputOk(input) then CheckingCreator else CreateFailed(InvalidInput);
      s.(creators := s.creators[id := Creator(input, pc)])
  }

  function TaskIdDrawn(s: DataSide): DataSide {
    s.(ids := s.ids.(task := s.ids.task + 1))
  }

  function TaskAdded(s: DataSide, input: CreateInput, store: Store): DataSide {
    var row := NewRow(s.ids.task, DraftOf(input), s.now);
    CommitStore(TaskIdDrawn(s).(created := s.created[s.ids.task := row]), store, Some(input.teamID))
  }

  /** The insert is one autocommitted statement; an id is used up whether or not it succeeds. */
  function InsertStep(s: DataSide, id: nat, input: CreateInput, o: Outcome): DataSide {
    var r := InsertTask(Db(s), s.ids.task, DraftOf(input), s.now);
    if o.FailsBefore? || r.Err? then SetCreator(TaskIdDrawn(s), id, CreateFailed(Infrastructure))
    else
      SetCreator(TaskAdded(s, input, r.value), id,
                 if o.FailsAfter? then CreateFailed(Infrastructure) else Reloading(s.ids.task, |s.log|))
  }

  function AfterCreatorCheck(isMember: bool, input: CreateInput, o: Outcome): CreatorPc {
    if !o.Succeeds? then CreateFailed(Infrastructure)
    else if !isMember then CreateFailed(Forbidden)
    else if input.assigneeID.None? then Inserting
    else if input.assigneeID.value <= 0 then CreateFailed(InvalidInput)
    else CheckingAssignee
  }

  function AfterCreateAssigneeCheck(isMember: bool, o: Outcome): CreatorPc {
    if !o.Succeeds? then CreateFailed(Infrastructure)
    else if !isMember then CreateFailed(AssigneeNotTeamMember)
    else Inserting
  }

  /** The insert has committed; a reload that fails ends the call without an announcement. */
  function AfterReload(found: Option<Task>, commit: nat, o: Outcome): CreatorPc {
    if !o.Succeeds? then CreateFailed(Infrastructure)
    else if found.None? then CreateFailed(TaskNotFound)
    else AnnouncingCreate(found.value, commit)
  }

  function CreateStep(s: DataSide, id: nat, o: Outcome): DataSide {
    if id !in s.creators then s
    else
      var c := s.creators[id];
      match c.pc
      case CheckingCreator =>
        SetCreator(s, id, AfterCreatorCheck(IsMember(Db(s), c.input.teamID, c.input.createdBy), c.input, o))
      case CheckingAssignee =>
        var isMember := c.input.assigneeID.Some? && IsMember(Db(s), c.input.teamID, c.input.assigneeID.value);
        SetCreator(s, id, AfterCreateAssigneeCheck(isMember, o))
      case Inserting => InsertStep(s, id, c.input, o)
      case Reloading(taskID, commit) => SetCreator(s, id, AfterReload(FindTask(Db(s), taskID), commit, o))
      case AnnouncingCreate(task, _) => SetCreator(s, id, Created(task))
      case Created(_) => s
      case CreateFailed(_) => s
  }

  /** The Redis command of the step, if it has one; the call succeeds whatever becomes of it. */
  function CreateAnnounces(c: CacheSide, s: DataSide, id: nat, o: Outcome): CacheSide {
    if id in s.creators && s.creators[id].pc.AnnouncingCreate?
    then TryAnnounce(c, s.creators[id].input.teamID, s.creators[id].pc.commit, Latest(s), o)
    else c
  }

  // ----- Tasks.Update

  function SetUpdater(s: DataSide, id: nat, pc: UpdaterPc): DataSide {
    if id in s.updaters then s.(updaters := s.updaters[id := s.updaters[id].(pc := pc)]) else s
  }

  function BeginUpdate(s: DataSide, id: nat, input: UpdateInput): DataSide {
    if id in s.updaters then s
    else
      var pc := if RequestOk(input) then Finding else UpdateFailed(InvalidInput);
      s.(updaters := s.updaters[id := Updater(input, pc)])
  }

  /** Where the call goes once the new values are known to be allowed. */
  function AfterChecks(current: Task, input: UpdateInput, appTime: int): UpdaterPc {
    var wanted := Wanted(current, input, appTime);
    if Changes(current, wanted) == [] then Updated(current) else Executing(current, wanted)
  }

  function Unlock(s: DataSide, taskID: int): DataSide {
    s.(locks := s.locks - {taskID})
  }

  /** What the UPDATE finds: the committed row and the row it would leave, or an error. */
  function TryExec(st: Store, current: Task, wanted: Task, now: int): Result<(Task, Task)> {
    var list := CompileChanges(wanted, Changes(current, wanted));
    if list.Err? then Err(list.error)
    else
      var r := ExecUpdate(st, list.value, current.id, now);
      var found := FindTask(st, current.id);
      if r.Err? then Err(r.error) else if found.None? then Err(TaskNotFound) else Ok((found.value, r.value))
  }

  function Lock(s: DataSide, taskID: int, id: nat): DataSide {
    s.(locks := s.locks[taskID := id])
  }

  /** The UPDATE takes the row lock; while another transaction holds it the call waits, or times out. */
  function ExecStep(s: DataSide, id: nat, current: Task, wanted: Task, o: Outcome): DataSide {
    var r := TryExec(Db(s), current, wanted, s.now);
    if !o.Succeeds? then SetUpdater(s, id, UpdateFailed(Infrastructure))
    else if r.Err? && r.error == UnsupportedField then SetUpdater(s, id, UpdateFailed(r.error))
    else if current.id in s.locks then s
    else if r.Err? then SetUpdater(s, id, UpdateFailed(r.error))
    else SetUpdater(Lock(s, current.id, id), id, Writing(current, wanted, r.value.0, r.value.1, []))
  }

  function HistoryIdDrawn(s: DataSide): DataSide {
    s.(ids := s.ids.(history := s.ids.history + 1))
  }

  function StaleAfter(stale: set<int>, pc: UpdaterPc): set<int>
    requires pc.Writing?
  {
    if FreshOn(pc.before, pc.current, pc.wanted) then stale else stale + {pc.current.id}
  }

  /** The commit: lock released, row and history visible. */
  function TaskCommitted(s: DataSide, pc: UpdaterPc): DataSide
    requires pc.Writing?
  {
    CommitStore(Unlock(s, pc.current.id), CommitUpdate(Db(s), pc.pending, pc.rows), Some(pc.pending.teamID))
      .(stale := StaleAfter(s.stale, pc))
  }

  function NextHistoryRow(s: DataSide, changedBy: int, pc: UpdaterPc): HistoryRow
    requires pc.Writing? && |pc.rows| < |Changes(pc.current, pc.wanted)|
  {
    HistoryRow(s.ids.history, pc.current.id, changedBy, Changes(pc.current, pc.wanted)[|pc.rows|], s.now)
  }

  /** One history insert, or, when all are written, the reload and the commit. */
  function WriteStep(s: DataSide, id: nat, changedBy: int, pc: UpdaterPc, o: Outcome): DataSide
    requires pc.Writing?
  {
    if |pc.rows| < |Changes(pc.current, pc.wanted)| then
      if !o.Succeeds? then SetUpdater(Unlock(HistoryIdDrawn(s), pc.current.id), id, UpdateFailed(Infrastructure))
      else SetUpdater(HistoryIdDrawn(s), id, pc.(rows := pc.rows + [NextHistoryRow(s, changedBy, pc)]))
    else if o.FailsBefore? then SetUpdater(Unlock(s, pc.current.id), id, UpdateFailed(Infrastructure))
    else
      SetUpdater(TaskCommitted(s, pc), id,
                 if o.FailsAfter? then UpdateFailed(Infrastructure) else AnnouncingUpdate(pc.pending, |s.log|))
  }

  function AfterFind(found: Option<Task>, o: Outcome): UpdaterPc {
    if !o.Succeeds? then UpdateFailed(Infrastructure)
    else if found.None? then UpdateFailed(TaskNotFound)
    else CheckingRequester(found.value)
  }

  function AfterRequesterCheck(isMember: bool, input: UpdateInput, current: Task, o: Outcome, appTime: int): UpdaterPc {
    if !o.Succeeds? then UpdateFailed(Infrastructure)
    else if !isMember then UpdateFailed(Forbidden)
    else if !ValuesOk(input) then UpdateFailed(InvalidInput)
    else if !AsksForAssignee(input) then AfterChecks(current, input, appTime)
    else if input.assigneeID.value <= 0 then UpdateFailed(InvalidInput)
    else CheckingNewAssignee(current)
  }

  function AfterAssigneeCheck(isMember: bool, input: UpdateInput, current: Task, o: Outcome, appTime: int): UpdaterPc {
    if !o.Succeeds? then UpdateFailed(Infrastructure)
    else if !isMember then UpdateFailed(AssigneeNotTeamMember)
    else AfterChecks(current, input, appTime)
  }

  function UpdateStep(s: DataSide, id: nat, o: Outcome, appTime: int): DataSide {
    if id !in s.updaters then s
    else
      var u := s.updaters[id];
      match u.pc
      case Finding => SetUpdater(s, id, AfterFind(FindTask(Db(s), u.input.taskID), o))
      case CheckingRequester(current) =>
        var isMember := IsMember(Db(s), current.teamID, u.input.requestedBy);
        SetUpdater(s, id, AfterRequesterCheck(isMember, u.input, current, o, appTime))
      case CheckingNewAssignee(current) =>
        var isMember := u.input.assigneeID.Some? && IsMember(Db(s), current.teamID, u.input.assigneeID.value);
        SetUpdater(s, id, AfterAssigneeCheck(isMember, u.input, current, o, appTime))
      case Executing(current, wanted) => ExecStep(s, id, current, wanted, o)
      case Writing(_, _, _, _, _) => WriteStep(s, id, u.input.requestedBy, u.pc, o)
      case AnnouncingUpdate(task, _) => SetUpdater(s, id, Updated(task))
      case Updated(_) => s
      case UpdateFailed(_) => s
  }

  function UpdateAnnounces(c: CacheSide, s: DataSide, id: nat, o: Outcome): CacheSide {
    if id in s.updaters && s.updaters[id].pc.AnnouncingUpdate?
    then TryAnnounce(c, s.updaters[id].pc.task.teamID, s.updaters[id].pc.commit, Latest(s), o)
    else c
  }

  // ----- Teams.Create and Teams.Invite

  function CreateTeam(s: DataSide, owner: int, name: string, o: Outcome): DataSide {
    var title := TrimSpace(name);
    if owner <= 0 || !ValidTitle(title) then s
    else
      var teamID := s.ids.team;
      var s1 := s.(ids := s.ids.(team := teamID + 1));
      var r := InsertTeamWithOwner(Db(s), teamID, title, owner);
      if o.FailsBefore? || r.Err? then s1 else CommitStore(s1, r.value, None)
  }

  function SetInviter(s: DataSide, id: nat, pc: InviterPc): DataSide {
    if id in s.inviters then s.(inviters := s.inviters[id := s.inviters[id].(pc := pc)]) else s
  }

  function BeginInvite(s: DataSide, id: nat, input: InviteInput): DataSide {
    if id in s.inviters then s
    else
      var ok := input.teamID > 0 && input.invitedBy > 0 && input.email != "";
      s.(inviters := s.inviters[id := Inviter(input, if ok then CheckingInviter else InviteFailed(InvalidInput))])
  }

  /** The role check: an owner or an admin may invite. */
  function AfterRoleCheck(role: Option<string>, o: Outcome): InviterPc {
    if !o.Succeeds? then InviteFailed(Infrastructure)
    else if role.None? || (role.value != ROLE_OWNER && role.value != ROLE_ADMIN) then InviteFailed(Forbidden)
    else FindingInvitee
  }

  function MemberAdded(s: DataSide, input: InviteInput, userID: int, store: Store): DataSide {
    CommitStore(s.(invites := s.invites[(input.teamID, userID) := input.invitedBy]), store, None)
  }

  function InviteStep(s: DataSide, id: nat, o: Outcome): DataSide {
    if id !in s.inviters then s
    else
      var v := s.inviters[id];
      match v.pc
      case CheckingInviter =>
        SetInviter(s, id, AfterRoleCheck(FindTeamRole(Db(s), v.input.teamID, v.input.invitedBy), o))
      case FindingInvitee =>
        var u := FindByEmail(Db(s).users, v.input.email);
        SetInviter(s, id,
          if !o.Succeeds? then InviteFailed(Infrastructure)
          else if u.None? then InviteFailed(UserNotFound)
          else AddingMember(u.value.id))
      case AddingMember(userID) =>
        var r := InsertMember(Db(s), v.input.teamID, userID);
        if o.FailsBefore? then SetInviter(s, id, InviteFailed(Infrastructure))
        else if r.Err? then SetInviter(s, id, InviteFailed(r.error))
        else
          SetInviter(MemberAdded(s, v.input, userID, r.value), id,
                     if o.FailsAfter? then InviteFailed(Infrastructure) else Invited(userID))
      case Invited(_) => s
      case InviteFailed(_) => s
  }

  // ----- everything else that moves

  function Register(s: DataSide, name: string, email: string): DataSide {
    var userID := s.ids.user;
    var s1 := s.(ids := s.ids.(user := userID + 1));
    var r := InsertUser(Db(s), userID, name, email);
    if r.Err? then s1 else CommitStore(s1, r.value, None)
  }

  /** Redis may drop a cached list at any time; the version counters are assumed to stay. */
  function Evict(c: CacheSide, key: string): CacheSide {
    if key in c.redis && c.redis[key].TaskList? then c.(redis := c.redis - {key}) else c
  }

  datatype Action =
    | Tick(elapsed: nat)
    | ARegister(name: string, email: string)
    | ACreateTeam(owner: int, name: string, o: Outcome)
    | ABeginInvite(id: nat, invite: InviteInput)
    | AInvite(id: nat, o: Outcome)
    | ABeginCreate(id: nat, create: CreateInput)
    | ACreate(id: nat, o: Outcome)
    | ABeginUpdate(id: nat, update: UpdateInput)
    | AUpdate(id: nat, o: Outcome, appTime: int)
    | ABeginList(id: nat, list: ListInput)
    | AList(id: nat, o: Outcome)
    | ABump(teamID: int)
    | AEvict(key: string)

  function DataStep(s: DataSide, a: Action): DataSide {
    match a
    case Tick(d) => s.(now := s.now + d)
    case ARegister(name, email) => Register(s, name, email)
    case ACreateTeam(owner, name, o) => CreateTeam(s, owner, name, o)
    case ABeginInvite(id, input) => BeginInvite(s, id, input)
    case AInvite(id, o) => InviteStep(s, id, o)
    case ABeginCreate(id, input) => BeginCreate(s, id, input)
    case ACreate(id, o) => CreateStep(s, id, o)
    case ABeginUpdate(id, input) => BeginUpdate(s, id, input)
    case AUpdate(id, o, appTime) => UpdateStep(s, id, o, appTime)
    case _ => s
  }

  function CacheStep(c: CacheSide, s: DataSide, ttl: int, a: Action): CacheSide {
    match a
    case ACreate(id, o) => CreateAnnounces(c, s, id, o)
    case AUpdate(id, o, _) => UpdateAnnounces(c, s, id, o)
    case ABeginList(id, input) => BeginList(c, id, input)
    case AList(id, o) => ListStep(c, s, ttl, id, o)
    case ABump(teamID) => BumpVersion(c, teamID, Latest(s))
    case AEvict(key) => Evict(c, key)
    case _ => c
  }

  function Step(s: System, a: Action): System {
    System(s.ttl, DataStep(s.data, a), CacheStep(s.cache, s.data, s.ttl, a))
  }

  /** A run: any actions in any order, from the empty service. An action that cannot happen changes nothing. */
  function Run(s: System, actions: seq<Action>): System
    decreases |actions|
  {
    if actions == [] then s else Step(Run(s, actions[..|actions| - 1]), actions[|actions| - 1])
  }

  function Reached(ttl: int, actions: seq<Action>): System {
    Run(Initial(ttl), actions)
  }
}
