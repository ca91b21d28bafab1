/**
 * The versioned task-list cache over every run of the service: lists are fresh with respect to announced
 * writes, a quiet cache agrees with the database, and without any announcement staleness is bounded.
 */
module CacheSafety {
  import opened Domain
  import opened CacheKeys
  import opened TaskQueries
  import opened TaskUpdates
  import opened Store
  import opened RedisStore
  import opened StoreSafety
  import opened Service
  import opened ServiceSafety

  // ----- the invariant

  predicate Monotone(floors: seq<nat>) {
    forall i, j :: 0 <= i <= j < |floors| ==> floors[i] <= floors[j]
  }

  predicate LogOk(d: DataSide) {
    && (forall i :: 0 <= i < |d.log| ==> d.log[i].at <= d.now)
    && (forall i, j :: 0 <= i <= j < |d.log| ==> d.log[i].at <= d.log[j].at)
  }

  ghost predicate TasksStay(st: Store, commit: Commit) {
    forall row :: row in st.tasks ==>
      HasTask(commit.store, row.id, row.teamID) && (commit.team != Some(row.teamID) ==> row in commit.store.tasks)
  }

  /** A commit removes no member and no task, and leaves the tasks and lists of teams other than the one it is recorded with. */
  ghost predicate CommitFrame(st: Store, commit: Commit) {
    && (forall m :: m in st.members ==> m in commit.store.members)
    && TasksStay(st, commit)
    && forall f: TaskFilter :: f.limit >= 0 && f.offset >= 0 && commit.team != Some(f.teamID) ==>
      ListTasks(commit.store.tasks, f) == ListTasks(st.tasks, f)
  }

  ghost predicate FramesOk(d: DataSide) {
    forall i :: 1 <= i < |d.log| ==> CommitFrame(d.log[i - 1].store, d.log[i])
  }

  /** The version of a team is the number of its floors after the first, and floors bound what was announced. */
  ghost predicate TeamOk(commits: nat, c: CacheSide, teamID: int) {
    var floors := FloorsOf(c, teamID);
    && floors != []
    && CurrentVersion(c.redis, teamID) == Ok(|floors| - 1)
    && Monotone(floors)
    && LastFloor(floors) < commits
    && (forall n :: (teamID, n) in c.announced ==> n <= LastFloor(floors))
  }

  ghost predicate TeamsOk(s: System) {
    forall t: int :: TeamOk(|s.data.log|, s.cache, t)
  }

  /** No commit after the snapshot happened before the time it was read. */
  predicate SnapAt(log: Log, snap: nat, t: int) {
    forall n :: snap < n < |log| ==> log[n].at >= t
  }

  /** The rows are the list of a committed database state no older than the floor of the version. */
  predicate ListOk(d: DataSide, floors: seq<nat>, f: TaskFilter, version: int, rows: seq<Task>, snap: nat, readAt: int) {
    && ValidFilter(f)
    && 0 <= version < |floors|
    && snap < |d.log|
    && floors[version] <= snap
    && rows == ListTasks(d.log[snap].store.tasks, f)
    && readAt <= d.now
    && SnapAt(d.log, snap, readAt)
  }

  predicate EntryOk(s: System, key: string, entry: RedisValue, o: Origin)
    requires entry.TaskList?
  {
    && key == TaskListKey(o.filter, o.version)
    && ListOk(s.data, FloorsOf(s.cache, o.filter.teamID), o.filter, o.version, entry.tasks, o.snap, o.readAt)
    && o.storedAt - o.readAt <= s.cache.maxDelay
    && entry.expiresAt == (if s.ttl > 0 then Some(o.storedAt + s.ttl) else None)
  }

  ghost predicate KeyOk(s: System, key: string) {
    key in s.cache.redis ==>
      if s.cache.redis[key].TaskList? then
        key in s.cache.origin && EntryOk(s, key, s.cache.redis[key], s.cache.origin[key])
      else exists t :: key == TaskVersionKey(t)
  }

  ghost predicate KeysOk(s: System) {
    forall key: string :: KeyOk(s, key)
  }

  /** With a time to live, a hit misses only commits of the last ttl + delay. */
  predicate HitOk(s: System, snap: nat, source: Source) {
    source.FromCache? && s.ttl > 0 ==>
      forall n :: snap < n < |s.data.log| ==> s.data.log[n].at > source.at - s.ttl - s.cache.maxDelay
  }

  predicate FilterOf(r: Reader, f: TaskFilter) {
    ParseFilter(r.input) == Ok(f) && ValidFilter(f) && f.teamID == r.input.teamID
  }

  predicate ListedOk(s: System, f: TaskFilter, rows: seq<Task>, snap: nat, source: Source)
    requires f.limit >= 0 && f.offset >= 0
  {
    && snap < |s.data.log|
    && rows == ListTasks(s.data.log[snap].store.tasks, f)
    && HitOk(s, snap, source)
    && (source.FromCache? ==> source.at <= s.data.now)
  }

  predicate ReaderOk(s: System, r: Reader) {
    var floors := FloorsOf(s.cache, r.input.teamID);
    && r.due <= LastFloor(floors)
    && (r.pc.CheckingReader? || r.pc.ListFailed? || IsMember(Db(s.data), r.input.teamID, r.input.requestedBy))
    && match r.pc
       case CheckingReader => ListNumbersOk(r.input)
       case ReadingVersion(f) => FilterOf(r, f)
       case ReadingEntry(f, v) => FilterOf(r, f) && 0 <= v < |floors| && r.due <= floors[v]
       case Querying(f, v) => FilterOf(r, f) && (v.Some? ==> 0 <= v.value < |floors|)
       case Storing(f, v, rows, snap, readAt) =>
         FilterOf(r, f) && r.due <= snap && ListOk(s.data, floors, f, v, rows, snap, readAt)
       case Listed(f, rows, snap, source) =>
         FilterOf(r, f) && r.due <= snap && ListedOk(s, f, rows, snap, source)
       case ListFailed(_) => true
  }

  ghost predicate ReadersOk(s: System) {
    forall id :: id in s.cache.readers ==> ReaderOk(s, s.cache.readers[id])
  }

  predicate CommitOf(d: DataSide, commit: int, teamID: int) {
    0 <= commit < |d.log| && d.log[commit].team == Some(teamID)
  }

  /** The commit of a created task is the one in which the task first appears to the call. */
  predicate CreatorCommit(d: DataSide, w: Creator) {
    && (w.pc.Reloading? ==>
          CommitOf(d, w.pc.commit, w.input.teamID)
          && HasTask(d.log[w.pc.commit].store, w.pc.taskID, w.input.teamID))
    && (w.pc.AnnouncingCreate? ==>
          CommitOf(d, w.pc.commit, w.input.teamID)
          && HasTask(d.log[w.pc.commit].store, w.pc.task.id, w.input.teamID))
  }

  /** The commit of an update holds the very row that the call returns. */
  predicate UpdaterCommit(d: DataSide, w: Updater) {
    w.pc.AnnouncingUpdate? ==>
      CommitOf(d, w.pc.commit, w.pc.task.teamID) && w.pc.task in d.log[w.pc.commit].store.tasks
  }

  ghost predicate WritersOk(d: DataSide) {
    && (forall id :: id in d.creators ==> CreatorCommit(d, d.creators[id]))
    && (forall id :: id in d.updaters ==> UpdaterCommit(d, d.updaters[id]))
  }

  ghost predicate LogInv(d: DataSide) {
    LogOk(d) && FramesOk(d) && WritersOk(d)
  }

  ghost predicate CacheInv(s: System) {
    LogInv(s.data) && TeamsOk(s) && KeysOk(s) && ReadersOk(s) && s.cache.maxDelay >= 0
  }

  // ----- what stays true as the service moves on

  predicate LogGrows(d: DataSide, d': DataSide) {
    && d.now <= d'.now
    && |d.log| <= |d'.log|
    && (forall i :: 0 <= i < |d.log| ==> d'.log[i] == d.log[i])
    && (forall i :: |d.log| <= i < |d'.log| ==> d'.log[i].at >= d.now)
    && (forall m :: m in Db(d).members ==> m in Db(d').members)
  }

  predicate FloorsGrow(a: seq<nat>, b: seq<nat>) {
    |a| <= |b| && a == b[..|a|] && LastFloor(a) <= LastFloor(b)
  }

  ghost predicate Later(s: System, s': System) {
    && s'.ttl == s.ttl
    && LogGrows(s.data, s'.data)
    && 0 <= s.cache.maxDelay <= s'.cache.maxDelay
    && (forall t: int :: FloorsGrow(FloorsOf(s.cache, t), FloorsOf(s'.cache, t)))
  }

  lemma ListLater(d: DataSide, d': DataSide, floors: seq<nat>, floors': seq<nat>, f: TaskFilter, version: int, rows: seq<Task>,
                  snap: nat, readAt: int)
    requires LogGrows(d, d') && FloorsGrow(floors, floors')
    requires ListOk(d, floors, f, version, rows, snap, readAt)
    ensures ListOk(d', floors', f, version, rows, snap, readAt)
  {
    hide ListTasks, ValidFilter;
    assert floors[version] == floors'[version];
  }

  lemma EntryLater(s: System, s': System, key: string, entry: RedisValue, o: Origin)
    requires Later(s, s') && entry.TaskList? && EntryOk(s, key, entry, o)
    ensures EntryOk(s', key, entry, o)
  {
    hide ListOk, TaskListKey, FloorsOf, LogGrows;
    ListLater(s.data, s'.data, FloorsOf(s.cache, o.filter.teamID), FloorsOf(s'.cache, o.filter.teamID),
              o.filter, o.version, entry.tasks, o.snap, o.readAt);
  }

  lemma ListedLater(s: System, s': System, f: TaskFilter, rows: seq<Task>, snap: nat, source: Source)
    requires Later(s, s') && f.limit >= 0 && f.offset >= 0 && ListedOk(s, f, rows, snap, source)
    ensures ListedOk(s', f, rows, snap, source)
  {
    hide ListTasks, FloorsOf, FloorsGrow;
  }

  lemma ReaderLater(s: System, s': System, r: Reader)
    requires Later(s, s') && ReaderOk(s, r)
    ensures ReaderOk(s', r)
  {
    var floors, floors' := FloorsOf(s.cache, r.input.teamID), FloorsOf(s'.cache, r.input.teamID);
    assert FloorsGrow(floors, floors') && LogGrows(s.data, s'.data);
    hide LogGrows, ListOk, ListedOk, Later, FloorsOf, LastFloor, ParseFilter, ListNumbersOk;
    match r.pc
    case Storing(f, v, rows, snap, readAt) => ListLater(s.data, s'.data, floors, floors', f, v, rows, snap, readAt);
    case Listed(f, rows, snap, source) => ListedLater(s, s', f, rows, snap, source);
    case _ =>
  }

  lemma ReadersLater(s: System, s': System)
    requires Later(s, s') && ReadersOk(s) && s'.cache.readers == s.cache.readers
    ensures ReadersOk(s')
  {
    hide Later, ReaderOk;
    forall id | id in s'.cache.readers ensures ReaderOk(s', s'.cache.readers[id]) {
      ReaderLater(s, s', s.cache.readers[id]);
    }
  }

  /** Entries that are kept, with their origin, stay right. */
  lemma KeyLater(s: System, s': System, key: string)
    requires Later(s, s') && KeyOk(s, key)
    requires key in s'.cache.redis ==> key in s.cache.redis && s'.cache.redis[key] == s.cache.redis[key]
    requires key in s.cache.origin ==> key in s'.cache.origin && s'.cache.origin[key] == s.cache.origin[key]
    ensures KeyOk(s', key)
  {
    hide Later, EntryOk;
    if key in s'.cache.redis && s'.cache.redis[key].TaskList? {
      EntryLater(s, s', key, s.cache.redis[key], s.cache.origin[key]);
    }
  }

  lemma KeysLater(s: System, s': System)
    requires Later(s, s') && KeysOk(s)
    requires s'.cache.redis == s.cache.redis && s'.cache.origin == s.cache.origin
    ensures KeysOk(s')
  {
    hide Later, KeyOk;
    forall key: string ensures KeyOk(s', key) {
      assert KeyOk(s, key);
      KeyLater(s, s', key);
    }
  }

  lemma SameFloorsLater(s: System, s': System)
    requires s'.ttl == s.ttl && LogGrows(s.data, s'.data) && 0 <= s.cache.maxDelay <= s'.cache.maxDelay
    requires s'.cache.floors == s.cache.floors
    ensures Later(s, s')
  {
    hide LogGrows;
  }

  // ----- the writing side moves

  /** How a step of the writing side may change the log: not at all, or by one commit that keeps to its team. */
  ghost predicate LogStep(d: DataSide, d': DataSide) {
    && d.now <= d'.now
    && (d'.log == d.log ||
        (d'.log == d.log + [d'.log[|d'.log| - 1]] && d'.now == d.now
         && d'.log[|d'.log| - 1].at == d.now && CommitFrame(Db(d), d'.log[|d'.log| - 1])))
  }

  lemma FrameKeepsMembers(st: Store, commit: Commit)
    requires CommitFrame(st, commit)
    ensures forall m :: m in st.members ==> m in commit.store.members
  {
    hide ListTasks, TasksStay;
  }

  lemma LogStepGrows(d: DataSide, d': DataSide)
    requires LogStep(d, d') && LogOk(d)
    ensures LogGrows(d, d') && LogOk(d')
  {
    if d'.log != d.log {
      FrameKeepsMembers(Db(d), d'.log[|d'.log| - 1]);
    }
    hide CommitFrame;
  }

  lemma LogStepFrames(d: DataSide, d': DataSide)
    requires LogStep(d, d') && FramesOk(d)
    ensures FramesOk(d')
  {
    hide CommitFrame;
  }

  lemma PeopleFrame(st: Store, commit: Commit)
    requires commit.store.tasks == st.tasks && forall m :: m in st.members ==> m in commit.store.members
    ensures CommitFrame(st, commit)
  {
    hide ListTasks;
  }

  /** Rows other than those of one task stay, and that task is there. */
  lemma RowsStay(st: Store, commit: Commit, taskID: int, teamID: int)
    requires forall row :: row in st.tasks && row.id != taskID ==> row in commit.store.tasks
    requires forall row :: row in st.tasks && row.id == taskID ==>
      row in commit.store.tasks || (row.teamID == teamID && HasTask(commit.store, taskID, teamID))
    requires commit.team == Some(teamID)
    ensures TasksStay(st, commit)
  {
  }

  lemma InsertFrame(st: Store, row: Task, commit: Commit)
    requires commit.store == st.(tasks := st.tasks + [row]) && commit.team == Some(row.teamID)
    ensures CommitFrame(st, commit)
  {
    RowsStay(st, commit, row.id, row.teamID);
    hide HasTask, TasksStay;
    forall f: TaskFilter | f.limit >= 0 && f.offset >= 0 && commit.team != Some(f.teamID)
      ensures ListTasks(commit.store.tasks, f) == ListTasks(st.tasks, f)
    {
      ListTasksFrameAppend(st.tasks, row, f);
    }
  }

  lemma UpdateFrame(st: Store, row: Task, rows: seq<HistoryRow>, before: Task, commit: Commit)
    requires UniqueIDs(st.tasks) && before in st.tasks && before.id == row.id && before.teamID == row.teamID
    requires commit.store == CommitUpdate(st, row, rows) && commit.team == Some(row.teamID)
    ensures CommitFrame(st, commit)
  {
    CommittedRows(st, row, before, rows);
    var i := TaskIndex(st.tasks, row.id);
    assert st.tasks[i] == before;
    assert HasTask(commit.store, row.id, row.teamID);
    RowsStay(st, commit, row.id, row.teamID);
    hide HasTask, TasksStay, UniqueIDs;
    forall f: TaskFilter | f.limit >= 0 && f.offset >= 0 && commit.team != Some(f.teamID)
      ensures ListTasks(commit.store.tasks, f) == ListTasks(st.tasks, f)
    {
      ListTasksFrameUpdate(st.tasks, i, row, f);
    }
  }

  /** What the commit of an update knows: the row it replaces is of the same task and team. */
  lemma PendingFacts(d: DataSide, id: nat)
    requires StoreInv(d) && id in d.updaters && d.updaters[id].pc.Writing?
    ensures var pc := d.updaters[id].pc;
      pc.before in Db(d).tasks && pc.before.id == pc.pending.id && pc.before.teamID == pc.pending.teamID
  {
    UpdaterFacts(d, id);
    var pc := d.updaters[id].pc;
    hide StoreInv, IsMember, RowOk, PendingRows, Changes, HoldsLock, Known;
    assert MergedFrom(pc.pending, pc.before, pc.current, pc.wanted);
  }

  lemma TaskCommittedStep(d: DataSide, id: nat)
    requires StoreInv(d) && id in d.updaters && d.updaters[id].pc.Writing?
    ensures d.updaters[id].pc.pending in CommitUpdate(Db(d), d.updaters[id].pc.pending, d.updaters[id].pc.rows).tasks
    ensures CommitFrame(Db(d), Commit(CommitUpdate(Db(d), d.updaters[id].pc.pending, d.updaters[id].pc.rows), d.now,
                                      Some(d.updaters[id].pc.pending.teamID)))
  {
    hide StoreInv, UniqueIDs, CommitUpdate, CommitFrame;
    var pc := d.updaters[id].pc;
    PendingFacts(d, id);
    UniqueRows(d);
    CommittedRows(Db(d), pc.pending, pc.before, pc.rows);
    UpdateFrame(Db(d), pc.pending, pc.rows, pc.before,
                Commit(CommitUpdate(Db(d), pc.pending, pc.rows), d.now, Some(pc.pending.teamID)));
  }

  /** The commit of an update extends the log by one entry, of the task's team. */
  lemma TaskCommittedLog(d: DataSide, pc: UpdaterPc)
    requires pc.Writing?
    requires CommitFrame(Db(d), Commit(CommitUpdate(Db(d), pc.pending, pc.rows), d.now, Some(pc.pending.teamID)))
    ensures var d1 := TaskCommitted(d, pc);
      && LogStep(d, d1) && d1.creators == d.creators && d1.updaters == d.updaters
      && CommitOf(d1, |d.log|, pc.pending.teamID) && d1.log[|d.log|].store == CommitUpdate(Db(d), pc.pending, pc.rows)
  {
    hide CommitUpdate, CommitFrame, StaleAfter;
  }

  /** A call that moves on keeps what is known of commits, if it knows its own commit. */
  lemma UpdaterLog(d: DataSide, d1: DataSide, id: nat, pc: UpdaterPc)
    requires WritersOk(d) && LogStep(d, d1) && id in d.updaters
    requires d1.creators == d.creators && d1.updaters == d.updaters
    requires UpdaterCommit(d1, d.updaters[id].(pc := pc))
    ensures LogStep(d, SetUpdater(d1, id, pc)) && WritersOk(SetUpdater(d1, id, pc))
  {
    hide CommitFrame, HasTask;
  }

  lemma CreatorLog(d: DataSide, d1: DataSide, id: nat, pc: CreatorPc)
    requires WritersOk(d) && LogStep(d, d1) && id in d.creators
    requires d1.creators == d.creators && d1.updaters == d.updaters
    requires CreatorCommit(d1, d.creators[id].(pc := pc))
    ensures LogStep(d, SetCreator(d1, id, pc)) && WritersOk(SetCreator(d1, id, pc))
  {
    hide CommitFrame, HasTask;
  }

  /** Everything else leaves the commits of writers as they are. */
  lemma OtherLog(d: DataSide, d1: DataSide)
    requires WritersOk(d) && LogStep(d, d1)
    requires d1.creators == d.creators && d1.updaters == d.updaters
    ensures WritersOk(d1)
  {
    hide CommitFrame, HasTask;
  }

  /** One history insert, or a rollback, leaves the log alone. */
  lemma StaysLog(d: DataSide, d1: DataSide, id: nat, pc: UpdaterPc)
    requires WritersOk(d) && id in d.updaters && !pc.AnnouncingUpdate?
    requires d1.log == d.log && d1.now == d.now && d1.creators == d.creators && d1.updaters == d.updaters
    ensures LogStep(d, SetUpdater(d1, id, pc)) && WritersOk(SetUpdater(d1, id, pc))
  {
    hide CommitFrame, WritersOk, SetUpdater;
    UpdaterLog(d, d1, id, pc);
  }

  lemma CommitLog(d: DataSide, id: nat, o: Outcome)
    requires StoreInv(d) && id in d.updaters && d.updaters[id].pc.Writing? && WritersOk(d)
    ensures var pc := d.updaters[id].pc;
      var d' := SetUpdater(TaskCommitted(d, pc), id,
                           if o.FailsAfter? then UpdateFailed(Infrastructure) else AnnouncingUpdate(pc.pending, |d.log|));
      LogStep(d, d') && WritersOk(d')
  {
    var pc := d.updaters[id].pc;
    hide StoreInv, CommitUpdate, CommitFrame, WritersOk, TaskCommitted, SetUpdater, LogStep;
    TaskCommittedStep(d, id);
    TaskCommittedLog(d, pc);
    UpdaterLog(d, TaskCommitted(d, pc), id,
      if o.FailsAfter? then UpdateFailed(Infrastructure) else AnnouncingUpdate(pc.pending, |d.log|));
  }

  lemma WriteLog(d: DataSide, id: nat, o: Outcome)
    requires StoreInv(d) && id in d.updaters && d.updaters[id].pc.Writing? && WritersOk(d)
    ensures var d' := WriteStep(d, id, d.updaters[id].input.requestedBy, d.updaters[id].pc, o);
      LogStep(d, d') && WritersOk(d')
  {
    var pc := d.updaters[id].pc;
    hide StoreInv, Changes, WritersOk, NextHistoryRow, TaskCommitted, SetUpdater, LogStep;
    if |pc.rows| < |Changes(pc.current, pc.wanted)| {
      var d1 := if o.Succeeds? then HistoryIdDrawn(d) else Unlock(HistoryIdDrawn(d), pc.current.id);
      StaysLog(d, d1, id,
        if o.Succeeds? then pc.(rows := pc.rows + [NextHistoryRow(d, d.updaters[id].input.requestedBy, pc)])
        else UpdateFailed(Infrastructure));
    } else if o.FailsBefore? {
      StaysLog(d, Unlock(d, pc.current.id), id, UpdateFailed(Infrastructure));
    } else {
      CommitLog(d, id, o);
    }
  }

  lemma ExecLog(d: DataSide, id: nat, current: Task, wanted: Task, o: Outcome)
    requires id in d.updaters && WritersOk(d)
    ensures var d' := ExecStep(d, id, current, wanted, o); LogStep(d, d') && WritersOk(d')
  {
    hide CommitFrame, WritersOk, TryExec, SetUpdater;
    var r := TryExec(Db(d), current, wanted, d.now);
    if o.Succeeds? && r.Ok? && current.id !in d.locks {
      UpdaterLog(d, Lock(d, current.id, id), id, Writing(current, wanted, r.value.0, r.value.1, []));
    } else if !o.Succeeds? || r.Err? {
      UpdaterLog(d, d, id, UpdateFailed(if o.Succeeds? && r.Err? then r.error else Infrastructure));
    }
  }

  lemma UpdateLog(d: DataSide, id: nat, o: Outcome, appTime: int)
    requires StoreInv(d) && WritersOk(d)
    ensures var d' := UpdateStep(d, id, o, appTime); LogStep(d, d') && WritersOk(d')
  {
    hide StoreInv, CommitFrame, WritersOk, SetUpdater, ExecStep, WriteStep, FindTask, IsMember, ValuesOk, AsksForAssignee, Wanted,
      Changes;
    if id in d.updaters {
      var u := d.updaters[id];
      match u.pc
      case Finding => UpdaterLog(d, d, id, AfterFind(FindTask(Db(d), u.input.taskID), o));
      case CheckingRequester(current) =>
        var isMember := IsMember(Db(d), current.teamID, u.input.requestedBy);
        UpdaterLog(d, d, id, AfterRequesterCheck(isMember, u.input, current, o, appTime));
      case CheckingNewAssignee(current) =>
        var isMember := u.input.assigneeID.Some? && IsMember(Db(d), current.teamID, u.input.assigneeID.value);
        UpdaterLog(d, d, id, AfterAssigneeCheck(isMember, u.input, current, o, appTime));
      case Executing(current, wanted) => ExecLog(d, id, current, wanted, o);
      case Writing(_, _, _, _, _) => WriteLog(d, id, o);
      case AnnouncingUpdate(task, _) => UpdaterLog(d, d, id, Updated(task));
      case Updated(_) =>
      case UpdateFailed(_) =>
    }
  }

  lemma TaskAddedLog(d: DataSide, input: CreateInput, store: Store)
    requires InsertTask(Db(d), d.ids.task, DraftOf(input), d.now) == Ok(store)
    ensures var d1 := TaskAdded(d, input, store);
      && LogStep(d, d1) && d1.creators == d.creators && d1.updaters == d.updaters
      && CommitOf(d1, |d.log|, input.teamID)
      && HasTask(d1.log[|d.log|].store, d.ids.task, input.teamID)
  {
    hide CommitFrame, HasUser, HasTeam, TrimSpace;
    var row := NewRow(d.ids.task, DraftOf(input), d.now);
    assert HasTask(store, d.ids.task, input.teamID) by {
      assert row in store.tasks && row.id == d.ids.task && row.teamID == input.teamID;
    }
    hide HasTask;
    InsertFrame(Db(d), NewRow(d.ids.task, DraftOf(input), d.now), Commit(store, d.now, Some(input.teamID)));
  }

  lemma CreateLog(d: DataSide, id: nat, o: Outcome)
    requires WritersOk(d)
    ensures var d' := CreateStep(d, id, o); LogStep(d, d') && WritersOk(d')
  {
    hide CommitFrame, WritersOk, SetCreator, FindTask, IsMember, InsertTask, TaskAdded, DraftOf, HasTask;
    if id in d.creators {
      var c := d.creators[id];
      match c.pc
      case CheckingCreator =>
        CreatorLog(d, d, id, AfterCreatorCheck(IsMember(Db(d), c.input.teamID, c.input.createdBy), c.input, o));
      case CheckingAssignee =>
        var isMember := c.input.assigneeID.Some? && IsMember(Db(d), c.input.teamID, c.input.assigneeID.value);
        CreatorLog(d, d, id, AfterCreateAssigneeCheck(isMember, o));
      case Inserting =>
        var r := InsertTask(Db(d), d.ids.task, DraftOf(c.input), d.now);
        if o.FailsBefore? || r.Err? {
          CreatorLog(d, TaskIdDrawn(d), id, CreateFailed(Infrastructure));
        } else {
          TaskAddedLog(d, c.input, r.value);
          CreatorLog(d, TaskAdded(d, c.input, r.value), id,
            if o.FailsAfter? then CreateFailed(Infrastructure) else Reloading(d.ids.task, |d.log|));
        }
      case Reloading(taskID, commit) =>
        assert CreatorCommit(d, c) by { CreatorKnows(d, id); }
        CreatorLog(d, d, id, AfterReload(FindTask(Db(d), taskID), commit, o));
      case AnnouncingCreate(task, _) => CreatorLog(d, d, id, Created(task));
      case Created(_) =>
      case CreateFailed(_) =>
    }
  }

  lemma CreatorKnows(d: DataSide, id: nat)
    requires WritersOk(d) && id in d.creators
    ensures CreatorCommit(d, d.creators[id])
  {
    hide CreatorCommit, UpdaterCommit;
  }

  lemma PeopleLog(d: DataSide, d1: DataSide, store: Store)
    requires WritersOk(d) && store.tasks == Db(d).tasks && forall m :: m in Db(d).members ==> m in store.members
    requires d1.log == d.log + [Commit(store, d.now, None)] && d1.now == d.now
    requires d1.creators == d.creators && d1.updaters == d.updaters
    ensures LogStep(d, d1) && WritersOk(d1)
  {
    hide CommitFrame, WritersOk;
    PeopleFrame(Db(d), Commit(store, d.now, None));
    OtherLog(d, d1);
  }

  lemma InviteLog(d: DataSide, id: nat, o: Outcome)
    requires WritersOk(d)
    ensures var d' := InviteStep(d, id, o); LogStep(d, d') && WritersOk(d')
  {
    hide CommitFrame, WritersOk, FindTeamRole, FindByEmail, InsertMember, LogStep, SetInviter, MemberAdded;
    if id in d.inviters {
      var v := d.inviters[id];
      match v.pc
      case CheckingInviter =>
        InviterLog(d, d, id, AfterRoleCheck(FindTeamRole(Db(d), v.input.teamID, v.input.invitedBy), o));
      case FindingInvitee =>
        var u := FindByEmail(Db(d).users, v.input.email);
        InviterLog(d, d, id,
          if !o.Succeeds? then InviteFailed(Infrastructure)
          else if u.None? then InviteFailed(UserNotFound)
          else AddingMember(u.value.id));
      case AddingMember(userID) =>
        var r := InsertMember(Db(d), v.input.teamID, userID);
        if o.FailsBefore? || r.Err? {
          InviterLog(d, d, id, InviteFailed(if o.FailsBefore? then Infrastructure else r.error));
        } else {
          MemberAddedLog(d, v.input, userID, r.value);
          InviterLog(d, MemberAdded(d, v.input, userID, r.value), id,
            if o.FailsAfter? then InviteFailed(Infrastructure) else Invited(userID));
        }
      case Invited(_) => SameLog(d);
      case InviteFailed(_) => SameLog(d);
    } else {
      SameLog(d);
    }
  }

  lemma SameLog(d: DataSide)
    ensures LogStep(d, d)
  {
    hide CommitFrame;
  }

  lemma InviterLog(d: DataSide, d1: DataSide, id: nat, pc: InviterPc)
    requires WritersOk(d) && (d1 == d || (LogStep(d, d1) && WritersOk(d1)))
    ensures LogStep(d, SetInviter(d1, id, pc)) && WritersOk(SetInviter(d1, id, pc))
  {
    hide CommitFrame, UpdaterCommit, CreatorCommit;
    var d' := SetInviter(d1, id, pc);
    assert d'.log == d1.log && d'.creators == d1.creators && d'.updaters == d1.updaters && d'.now == d1.now;
    SameLog(d1);
    assert LogStep(d1, d');
    OtherLog(d1, d');
  }

  lemma MemberAddedLog(d: DataSide, input: InviteInput, userID: int, store: Store)
    requires WritersOk(d) && InsertMember(Db(d), input.teamID, userID) == Ok(store)
    ensures LogStep(d, MemberAdded(d, input, userID, store)) && WritersOk(MemberAdded(d, input, userID, store))
  {
    hide CommitFrame, WritersOk, FindMember, HasTeam, HasUser;
    PeopleLog(d, MemberAdded(d, input, userID, store), store);
  }

  lemma BeginLog(d: DataSide, a: Action)
    requires WritersOk(d) && (a.ABeginCreate? || a.ABeginUpdate? || a.ABeginInvite?)
    ensures var d' := DataStep(d, a); LogStep(d, d') && WritersOk(d')
  {
    hide CommitFrame, RequestOk, CreateInputOk, HasTask;
  }

  lemma RegisterLog(d: DataSide, name: string, email: string)
    requires WritersOk(d)
    ensures var d' := Register(d, name, email); LogStep(d, d') && WritersOk(d')
  {
    hide CommitFrame, WritersOk, FindByEmail;
    var d' := Register(d, name, email);
    if d'.log == d.log {
      OtherLog(d, d');
    } else {
      PeopleLog(d, d', Db(d'));
    }
  }

  lemma CreateTeamLog(d: DataSide, owner: int, name: string, o: Outcome)
    requires WritersOk(d)
    ensures var d' := CreateTeam(d, owner, name, o); LogStep(d, d') && WritersOk(d')
  {
    hide CommitFrame, WritersOk, HasUser, TrimSpace;
    var d' := CreateTeam(d, owner, name, o);
    if d'.log == d.log {
      OtherLog(d, d');
    } else {
      PeopleLog(d, d', Db(d'));
    }
  }

  /** Every step of the writing side leaves the log or extends it by one commit that keeps to its team. */
  lemma DataLog(d: DataSide, a: Action)
    requires StoreInv(d) && WritersOk(d)
    ensures LogStep(d, DataStep(d, a)) && WritersOk(DataStep(d, a))
  {
    hide StoreInv, WritersOk, Register, CreateTeam, BeginInvite, InviteStep, BeginCreate, CreateStep, BeginUpdate, UpdateStep;
    match a
    case Tick(_) => OtherLog(d, DataStep(d, a));
    case ARegister(name, email) => RegisterLog(d, name, email);
    case ACreateTeam(owner, name, o) => CreateTeamLog(d, owner, name, o);
    case ABeginInvite(_, _) => BeginLog(d, a);
    case AInvite(id, o) => InviteLog(d, id, o);
    case ABeginCreate(_, _) => BeginLog(d, a);
    case ACreate(id, o) => CreateLog(d, id, o);
    case ABeginUpdate(_, _) => BeginLog(d, a);
    case AUpdate(id, o, appTime) => UpdateLog(d, id, o, appTime);
    case _ =>
  }

  /** Seen from the cache, a step of the writing side only makes the log longer and time later. */
  lemma DataKeeps(s: System, d': DataSide)
    requires CacheInv(s) && LogStep(s.data, d') && WritersOk(d')
    ensures CacheInv(s.(data := d'))
  {
    var s' := s.(data := d');
    LogStepGrows(s.data, d');
    LogStepFrames(s.data, d');
    hide LogOk, FramesOk, WritersOk, LogStep, KeysOk, ReadersOk;
    SameFloorsLater(s, s');
    KeysLater(s, s');
    ReadersLater(s, s');
    TeamsLater(s, s');
  }

  lemma TeamsLater(s: System, s': System)
    requires TeamsOk(s) && s'.cache == s.cache && |s.data.log| <= |s'.data.log|
    ensures TeamsOk(s')
  {
    hide CurrentVersion, FloorsOf, Monotone;
    forall t: int ensures TeamOk(|s'.data.log|, s'.cache, t) {
      assert TeamOk(|s.data.log|, s.cache, t);
    }
  }
}
