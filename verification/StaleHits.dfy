/** How stale a cached list can be, for one call and from one call to the next: the runs that go as far as the bounds allow. */
module StaleHits {
  import opened Domain
  import opened CacheKeys
  import opened TaskQueries
  import opened Store
  import opened RedisStore
  import opened Service
  import opened CacheTheorems
  import opened Runs
  import opened SoloRuns
  import opened Beginnings
  import opened UnannouncedTasks

  /** The hit is the list of a state that includes every commit made up to some time before. */
  predicate Recent(d: DataSide, pc: ReaderPc, bound: int)
    requires pc.Listed? && pc.source.FromCache?
  {
    forall n :: 0 <= n < |d.log| && d.log[n].at <= pc.source.at - bound ==> n <= pc.snap
  }

  /** If the call has hit the cache, and no list was stored later than the delay after its query, the hit is recent. */
  ghost predicate HitsWithin(s: System, id: nat, delay: int, bound: int) {
    s.cache.maxDelay <= delay && id in s.cache.readers && s.cache.readers[id].pc.Listed? && s.cache.readers[id].pc.source.FromCache? ==>
      Recent(s.data, s.cache.readers[id].pc, bound)
  }

  ghost predicate StalenessBounded(ttl: int, delay: int, bound: int) {
    forall actions, id: nat :: HitsWithin(Reached(ttl, actions), id, delay, bound)
  }

  // ----- the steps of the runs

  const LIST := ListInput(1, 1, "", None, 10, 0)
  const ALL_TASKS := TaskFilter(1, None, None, 10, 0)

  lemma ListFilter()
    ensures ListNumbersOk(LIST) && ParseFilter(LIST) == Ok(ALL_TASKS) && ValidFilter(ALL_TASKS)
  {
    hide TrimSpace;
    TrimSpaceFixed("");
  }

  lemma ReaderPasses(redis: Redis)
    requires RedisStore.CurrentVersion(redis, 1) == Ok(0)
    ensures AfterReaderCheck(true, LIST, Succeeds) == ReadingVersion(ALL_TASKS)
    ensures AfterVersionRead(RedisStore.CurrentVersion(redis, ALL_TASKS.teamID), ALL_TASKS, Succeeds) == ReadingEntry(ALL_TASKS, 0)
  {
    ListFilter();
    hide ParseFilter, RedisStore.CurrentVersion;
  }

  /** Both readers pass the membership check and read the same version. */
  lemma ReachesEntry(s: System, id: nat) returns (s': System, due: nat)
    requires id !in s.cache.readers && IsMember(Db(s.data), 1, 1) && RedisStore.CurrentVersion(s.cache.redis, 1) == Ok(0)
    ensures Continues(s, s') && s' == s.(cache := ReaderAt(s.cache, id, LIST, due, ReadingEntry(ALL_TASKS, 0)))
  {
    due := LastFloor(FloorsOf(s.cache, 1));
    var a, c := AList(id, Succeeds), s.cache;
    ReaderPasses(c.redis);
    ListFilter();
    BeginListAt(s, id, LIST);
    hide Step, ListNumbersOk, IsMember, ParseFilter, AfterReaderCheck, AfterVersionRead, RedisStore.CurrentVersion, Leads, Continues,
      LastFloor, FloorsOf, Db;
    var s1 := s.(cache := ReaderAt(c, id, LIST, due, CheckingReader));
    var s2 := s.(cache := ReaderAt(c, id, LIST, due, ReadingVersion(ALL_TASKS)));
    ReaderStep(s1, c, id, LIST, due, CheckingReader);
    s' := s.(cache := ReaderAt(c, id, LIST, due, ReadingEntry(ALL_TASKS, 0)));
    ReaderStep(s2, c, id, LIST, due, ReadingVersion(ALL_TASKS));
    ContinuesHere(s');
    LeadsContinues(s2, a, s', s');
    LeadsContinues(s1, a, s2, s');
    StepContinues(s, ABeginList(id, LIST), s1, s');
  }

  /** What a query that has just been made is going to store. */
  function QueryOf(d: DataSide): ReaderPc {
    Storing(ALL_TASKS, 0, ListTasks(Db(d).tasks, ALL_TASKS), Latest(d), d.now)
  }

  /** The reader finds the cache empty and queries the database, and has still to store what it got. */
  lemma Queries(s: System, id: nat) returns (s': System, due: nat)
    requires id !in s.cache.readers && IsMember(Db(s.data), 1, 1) && s.cache.redis == map[]
    ensures Continues(s, s') && s' == s.(cache := ReaderAt(s.cache, id, LIST, due, QueryOf(s.data)))
  {
    hide TaskVersionKey, TaskListKey, ListTasks, IsMember, Continues;
    var s1;
    s1, due := ReachesEntry(s, id);
    var a, c := AList(id, Succeeds), s.cache;
    assert AfterEntryRead(s1.cache, ALL_TASKS, 0, s.data.now, Succeeds) == Querying(ALL_TASKS, Some(0));
    assert AfterQuery(s.data, ALL_TASKS, Some(0), Succeeds) == QueryOf(s.data);
    hide AfterEntryRead, AfterQuery, Leads, QueryOf;
    var s2 := s.(cache := ReaderAt(c, id, LIST, due, Querying(ALL_TASKS, Some(0))));
    ReaderStep(s1, c, id, LIST, due, ReadingEntry(ALL_TASKS, 0));
    s' := s.(cache := ReaderAt(c, id, LIST, due, QueryOf(s.data)));
    ReaderStep(s2, c, id, LIST, due, Querying(ALL_TASKS, Some(0)));
    ContinuesHere(s');
    LeadsContinues(s2, a, s', s');
    LeadsContinues(s1, a, s2, s');
    ContinuesTransitive(s, s1, s');
  }

  /** The cache after a list has been stored by its reader. */
  function StoredAt(c: CacheSide, id: nat, due: nat, pc: ReaderPc, now: int, ttl: int): CacheSide
    requires pc.Storing?
  {
    ReaderAt(StoreEntry(c, pc, now, ttl), id, LIST, due, Listed(pc.filter, pc.rows, pc.snap, FromDatabase))
  }

  lemma Stores(s: System, id: nat, due: nat, pc: ReaderPc) returns (s': System)
    requires pc.Storing? && id in s.cache.readers && s.cache.readers[id] == Reader(LIST, due, pc)
    ensures Continues(s, s') && s' == s.(cache := StoredAt(s.cache, id, due, pc, s.data.now, s.ttl))
  {
    assert s.cache.readers[id := Reader(LIST, due, pc)] == s.cache.readers;
    hide Continues, StoreEntry, Leads;
    s' := s.(cache := StoredAt(s.cache, id, due, pc, s.data.now, s.ttl));
    StoreStep(s, s.cache, id, LIST, due, pc);
    ContinuesHere(s');
    LeadsContinues(s, AList(id, Succeeds), s', s');
  }

  function Expiry(now: int, ttl: int): Option<int> {
    if ttl > 0 then Some(now + ttl) else None
  }

  /** The one list there is. */
  predicate Holds(c: CacheSide, f: TaskFilter, rows: seq<Task>, expiresAt: Option<int>, snap: nat) {
    var key := TaskListKey(f, 0);
    c.redis == map[key := TaskList(rows, expiresAt)] && key in c.origin && c.origin[key].snap == snap
  }

  lemma StoredFacts(c: CacheSide, id: nat, due: nat, pc: ReaderPc, now: int, ttl: int)
    requires pc.Storing? && pc.version == 0 && forall key :: key in c.redis ==> key == TaskListKey(pc.filter, 0)
    ensures var c' := StoredAt(c, id, due, pc, now, ttl);
      && Holds(c', pc.filter, pc.rows, Expiry(now, ttl), pc.snap)
      && c'.maxDelay == Max(c.maxDelay, now - pc.readAt)
      && c'.readers == c.readers[id := Reader(LIST, due, Listed(pc.filter, pc.rows, pc.snap, FromDatabase))]
  {
    hide TaskListKey;
  }

  /** The list is stored, and is the only one there is. */
  lemma StoresOnly(s: System, id: nat, due: nat, pc: ReaderPc) returns (s': System)
    requires pc.Storing? && pc.version == 0 && id in s.cache.readers && s.cache.readers[id] == Reader(LIST, due, pc)
    requires forall key :: key in s.cache.redis ==> key == TaskListKey(pc.filter, 0)
    ensures Continues(s, s') && s'.data == s.data && s'.ttl == s.ttl
    ensures Holds(s'.cache, pc.filter, pc.rows, Expiry(s.data.now, s.ttl), pc.snap)
    ensures s'.cache.maxDelay == Max(s.cache.maxDelay, s.data.now - pc.readAt)
    ensures s'.cache.readers == s.cache.readers[id := Reader(LIST, due, Listed(pc.filter, pc.rows, pc.snap, FromDatabase))]
  {
    hide Continues, Holds, StoredAt, TaskListKey;
    s' := Stores(s, id, due, pc);
    StoredFacts(s.cache, id, due, pc, s.data.now, s.ttl);
  }

  lemma QueryFacts(d: DataSide)
    ensures var pc := QueryOf(d); pc.Storing? && pc.filter == ALL_TASKS && pc.version == 0 && pc.snap == Latest(d) && pc.readAt == d.now
    ensures Db(d).tasks == [] ==> QueryOf(d).rows == []
    ensures (exists row: Task :: row.teamID == 1 && Db(d).tasks == [row]) ==> QueryOf(d).rows != []
  {
    forall row: Task | row.teamID == 1 ensures ListTasks([row], ALL_TASKS) == [row] && ListTasks([], ALL_TASKS) == [] {
      OneRow(row);
    }
    hide ListTasks;
  }

  lemma Inserts(s: System)
    requires 0 !in s.data.creators && Db(s.data) == FOUNDED && s.data.ids.task == 1
    ensures Creatable(s.data, 0, FIRST_TASK) && WithTask(s.data, FIRST_TASK).members == FOUNDED.members
    ensures WithTask(s.data, FIRST_TASK).tasks == [NewRow(1, DraftOf(FIRST_TASK), s.data.now)]
  {
    FirstTaskOk();
    FoundedPeople();
    hide TrimSpace, IsMember, HasTeam, HasUser, DraftOf, CreateInputOk;
    assert [] + [NewRow(1, DraftOf(FIRST_TASK), s.data.now)] == [NewRow(1, DraftOf(FIRST_TASK), s.data.now)];
  }

  lemma FirstTaskOk()
    ensures CreateInputOk(FIRST_TASK)
  {
    assert TrimSpace(TITLE) == TITLE by { hide TrimSpace; TrimSpaceFixed(TITLE); }
    hide TrimSpace;
  }

  /** While it lives, the list that has been stored is found. */
  lemma EntryFound(c: CacheSide, f: TaskFilter, rows: seq<Task>, expiresAt: Option<int>, snap: nat, now: int)
    requires f.status.None? && Holds(c, f, rows, expiresAt, snap) && (expiresAt.Some? ==> now < expiresAt.value)
    ensures RedisStore.CurrentVersion(c.redis, f.teamID) == Ok(0)
    ensures AfterEntryRead(c, f, 0, now, Succeeds) == Listed(f, rows, snap, FromCache(now))
  {
    hide TaskVersionKey, TaskListKey;
    KeyspacesDisjoint(f, 0, f.teamID, 0);
  }

  lemma SameEntries(c: CacheSide, id: nat, due: nat, pc: ReaderPc, f: TaskFilter, v: int, now: int)
    ensures AfterEntryRead(ReaderAt(c, id, LIST, due, pc), f, v, now, Succeeds) == AfterEntryRead(c, f, v, now, Succeeds)
  {
    hide GetList, TaskListKey;
  }

  /** A reader hits the list that has been stored. */
  lemma Hits(s: System, id: nat, rows: seq<Task>, expiresAt: Option<int>, snap: nat) returns (s': System, due: nat)
    requires id !in s.cache.readers && IsMember(Db(s.data), 1, 1)
    requires Holds(s.cache, ALL_TASKS, rows, expiresAt, snap) && (expiresAt.Some? ==> s.data.now < expiresAt.value)
    ensures Continues(s, s')
    ensures s' == s.(cache := ReaderAt(s.cache, id, LIST, due, Listed(ALL_TASKS, rows, snap, FromCache(s.data.now))))
  {
    hide Holds, TaskVersionKey, TaskListKey, IsMember, Continues, RedisStore.CurrentVersion, AfterEntryRead, Leads, ReaderAt, Db;
    EntryFound(s.cache, ALL_TASKS, rows, expiresAt, snap, s.data.now);
    var s1;
    s1, due := ReachesEntry(s, id);
    SameEntries(s.cache, id, due, ReadingEntry(ALL_TASKS, 0), ALL_TASKS, 0, s.data.now);
    var pc := AfterEntryRead(s.cache, ALL_TASKS, 0, s.data.now, Succeeds);
    s' := s.(cache := ReaderAt(s.cache, id, LIST, due, pc));
    ReaderStep(s1, s.cache, id, LIST, due, ReadingEntry(ALL_TASKS, 0));
    ContinuesHere(s');
    LeadsContinues(s1, AList(id, Succeeds), s', s');
    ContinuesTransitive(s, s1, s');
  }

  /** Time passes and nothing else happens. */
  lemma TimePasses(s: System, elapsed: nat) returns (s': System)
    ensures Continues(s, s') && s' == s.(data := s.data.(now := s.data.now + elapsed))
  {
    hide Continues;
    s' := Step(s, Tick(elapsed));
    assert s' == s.(data := s.data.(now := s.data.now + elapsed));
    hide Step;
    ContinuesHere(s');
    StepContinues(s, Tick(elapsed), s', s');
  }

  /** The service has a user and a team, and nothing has been listed or created. */
  predicate Fresh(s: System) {
    && s.cache == Initial(0).cache && 0 !in s.data.creators && Db(s.data) == FOUNDED && s.data.ids.task == 1
    && Latest(s.data) == 2
  }

  /** The cache is this one, and a task has been inserted and not been announced. */
  predicate Waiting(s0: System, s: System, c: CacheSide, input: CreateInput) {
    && s.cache == c && s.ttl == s0.ttl && s.data.now == s0.data.now && Db(s.data) == WithTask(s0.data, input)
    && |s.data.log| == |s0.data.log| + 1
    && s.data.log[|s0.data.log|].at == s0.data.now && s.data.log[|s0.data.log|].team == Some(input.teamID)
  }

  /** The writer is about to load the row that it has inserted; or this has failed. */
  lemma InsertedOrFailed(s: System, input: CreateInput, fails: bool) returns (s': System)
    requires Creatable(s.data, 0, input)
    ensures Continues(s, s') && Waiting(s, s', s.cache, input)
  {
    hide Continues, Creatable, InsertedAt, WithTask;
    if fails {
      InsertedFacts(s, 0, input, CreateFailed(Infrastructure));
      s' := UnannouncedTask(s, 0, input);
    } else {
      InsertedFacts(s, 0, input, Reloading(s.data.ids.task, |s.data.log|));
      s' := TaskInserted(s, 0, input);
    }
  }

  /** A list of the empty team is queried and not yet stored when the task is inserted. */
  lemma Overtaken(s0: System, fails: bool) returns (s: System, due: nat)
    requires Fresh(s0)
    ensures Continues(s0, s) && Waiting(s0, s, ReaderAt(s0.cache, 0, LIST, due, QueryOf(s0.data)), FIRST_TASK)
  {
    FoundedMember(FOUNDED);
    hide IsMember, Continues, Creatable, QueryOf, ReaderAt;
    var s1;
    s1, due := Queries(s0, 0);
    Inserts(s1);
    hide Fresh;
    s := InsertedOrFailed(s1, FIRST_TASK, fails);
    hide WithTask;
    ContinuesTransitive(s0, s1, s);
  }

  // ----- the oldest hit

  /** The list is stored after a delay, and the insert is never announced. */
  lemma LateStore(s0: System, delay: nat) returns (s: System, rows: seq<Task>)
    requires Fresh(s0)
    ensures Continues(s0, s) && s.ttl == s0.ttl && s.data.now == s0.data.now + delay
    ensures |s.data.log| == 4 && s.data.log[3].at == s0.data.now && Db(s.data).members == FOUNDED.members
    ensures Holds(s.cache, ALL_TASKS, rows, Expiry(s.data.now, s0.ttl), 2)
    ensures s.cache.maxDelay == delay && 1 !in s.cache.readers
  {
    QueryFacts(s0.data);
    hide Continues, Holds, QueryOf;
    var s1, due := Overtaken(s0, true);
    var s2 := TimePasses(s1, delay);
    s := StoresOnly(s2, 0, due, QueryOf(s0.data));
    rows := QueryOf(s0.data).rows;
    ContinuesTransitive(s1, s2, s);
    ContinuesTransitive(s0, s1, s);
  }

  /** And it is hit later, while it lives. */
  lemma OldHit(s0: System, delay: nat, elapsed: nat) returns (s: System)
    requires Fresh(s0) && (s0.ttl > 0 ==> elapsed < s0.ttl)
    ensures Continues(s0, s) && s.cache.maxDelay == delay
    ensures 1 in s.cache.readers && s.cache.readers[1].pc.Listed? && s.cache.readers[1].pc.source.FromCache?
    ensures s.cache.readers[1].pc.snap < 3 < |s.data.log|
    ensures s.data.log[3].at + delay + elapsed == s.cache.readers[1].pc.source.at
  {
    hide IsMember, Continues, Holds, Fresh;
    var s1, rows := LateStore(s0, delay);
    var s2 := TimePasses(s1, elapsed);
    FoundedMember(Db(s2.data));
    var due;
    s, due := Hits(s2, 1, rows, Expiry(s0.data.now + delay, s0.ttl), 2);
    ContinuesTransitive(s1, s2, s);
    ContinuesTransitive(s0, s1, s);
  }

  /** For every bound below the time to live plus the delay there is a run with a hit that misses an older commit. */
  lemma SomeHitIsOlder(ttl: int, delay: nat, bound: int)
    requires ttl <= 0 || bound < ttl + delay
    ensures exists actions, id: nat :: !HitsWithin(Reached(ttl, actions), id, delay, bound)
  {
    var s0 := Reached(ttl, FOUNDING);
    Founded(ttl);
    hide Reached, Continues;
    var s := OldHit(s0, delay, if ttl > 0 then ttl - 1 else if bound > 0 then bound else 0);
    ContinuesIsReached(ttl, FOUNDING, s);
    var more :| Reached(ttl, FOUNDING + more) == s;
    assert !HitsWithin(Reached(ttl, FOUNDING + more), 1, delay, bound);
  }

  /**
   * Over all runs in which lists are stored within some delay, and whatever invalidations are lost, the age of
   * cached lists is bounded exactly when the time to live is positive, and by no less than that time and the delay.
   */
  lemma StalenessBoundedExactly(ttl: int, delay: nat, bound: int)
    ensures StalenessBounded(ttl, delay, bound) <==> ttl > 0 && bound >= ttl + delay
  {
    if ttl > 0 && bound >= ttl + delay {
      BoundedByTtl(ttl, delay, bound);
    } else {
      SomeHitIsOlder(ttl, delay, bound);
    }
  }

  lemma BoundedByTtl(ttl: int, delay: int, bound: int)
    requires ttl > 0 && bound >= ttl + delay
    ensures StalenessBounded(ttl, delay, bound)
  {
    hide Reached;
    forall actions, id: nat ensures HitsWithin(Reached(ttl, actions), id, delay, bound) {
      HitWithinBound(ttl, actions, id, delay, bound);
    }
  }

  lemma HitWithinBound(ttl: int, actions: seq<Action>, id: nat, delay: int, bound: int)
    requires ttl > 0 && bound >= ttl + delay
    ensures HitsWithin(Reached(ttl, actions), id, delay, bound)
  {
    var s := Reached(ttl, actions);
    hide Reached, ListedFrom;
    if s.cache.maxDelay <= delay && id in s.cache.readers && s.cache.readers[id].pc.Listed? && s.cache.readers[id].pc.source.FromCache? {
      HitsAreRecent(ttl, actions, id, delay);
    }
  }

  // ----- a list that goes back

  /** The same list again, and what the first showed is gone. */
  predicate GoesBack(d: DataSide, first: Reader, second: Reader) {
    && second.input == first.input && first.pc.Listed? && second.pc.Listed?
    && second.pc.snap < first.pc.snap < |d.log| && d.log[first.pc.snap].team == Some(first.input.teamID)
    && first.pc.rows != [] && second.pc.rows == []
  }

  lemma OneRow(row: Task)
    requires row.teamID == 1
    ensures ListTasks([row], ALL_TASKS) == [row] && ListTasks([], ALL_TASKS) == []
  {
  }

  /** A second reader lists the task; then the list that was queried before is stored. */
  lemma OvertakenStore(s0: System) returns (s1: System, s2: System)
    requires Fresh(s0)
    ensures Continues(s0, s1) && Continues(s1, s2) && s2.ttl == s0.ttl && s2.data == s1.data && s1.data.now == s0.data.now
    ensures |s1.data.log| == 4 && s1.data.log[3].team == Some(1) && Db(s1.data).members == FOUNDED.members
    ensures 1 in s1.cache.readers && 2 !in s1.cache.readers && 2 !in s2.cache.readers
    ensures var r := s1.cache.readers[1]; r.input == LIST && r.pc.Listed? && r.pc.snap == 3 && r.pc.rows != []
    ensures Holds(s2.cache, ALL_TASKS, [], Expiry(s0.data.now, s0.ttl), 2)
  {
    QueryFacts(s0.data);
    hide Continues, Holds, QueryOf;
    var due;
    s1, due := SecondReader(s0);
    s2 := StoresOnly(s1, 0, due, QueryOf(s0.data));
  }

  lemma SecondReader(s0: System) returns (s: System, due: nat)
    requires Fresh(s0)
    ensures Continues(s0, s) && s.ttl == s0.ttl && s.data.now == s0.data.now
    ensures |s.data.log| == 4 && s.data.log[3].team == Some(1) && Db(s.data).members == FOUNDED.members
    ensures s.cache.readers.Keys == {0, 1} && s.cache.readers[0] == Reader(LIST, due, QueryOf(s0.data))
    ensures var r := s.cache.readers[1]; r.input == LIST && r.pc.Listed? && r.pc.snap == 3 && r.pc.rows != []
    ensures forall key :: key in s.cache.redis ==> key == TaskListKey(ALL_TASKS, 0)
  {
    hide Continues, Holds, IsMember, QueryOf, Fresh;
    var s1, due1, s2;
    s1, due := Overtaken(s0, false);
    FirstTaskListed(s0, s1, due);
    s2, due1 := Queries(s1, 1);
    s := StoresOnly(s2, 1, due1, QueryOf(s1.data));
    OneList(s.cache, ALL_TASKS, QueryOf(s1.data).rows, Expiry(s2.data.now, s2.ttl), 3);
    ContinuesTransitive(s1, s2, s);
    ContinuesTransitive(s0, s1, s);
  }

  lemma FirstTaskListed(s0: System, s: System, due: nat)
    requires Fresh(s0) && Waiting(s0, s, ReaderAt(s0.cache, 0, LIST, due, QueryOf(s0.data)), FIRST_TASK)
    ensures IsMember(Db(s.data), 1, 1) && Db(s.data).members == FOUNDED.members && s.cache.redis == map[]
    ensures s.cache.readers == map[0 := Reader(LIST, due, QueryOf(s0.data))]
    ensures |s.data.log| == 4 && s.data.log[3].team == Some(1) && s.data.now == s0.data.now && s.ttl == s0.ttl
    ensures var pc := QueryOf(s.data); pc.Storing? && pc.rows != [] && pc.filter == ALL_TASKS && pc.version == 0 && pc.snap == 3
  {
    Inserts(s0);
    FoundedMember(Db(s.data));
    QueryFacts(s.data);
    hide IsMember, DraftOf, QueryOf, Creatable;
  }

  lemma OneList(c: CacheSide, f: TaskFilter, rows: seq<Task>, expiresAt: Option<int>, snap: nat)
    requires Holds(c, f, rows, expiresAt, snap)
    ensures forall key :: key in c.redis ==> key == TaskListKey(f, 0)
  {
    hide TaskListKey;
  }

  lemma SecondList(s0: System) returns (s1: System, s: System)
    requires Fresh(s0)
    ensures Continues(s0, s1) && Continues(s1, s)
    ensures 1 in s1.cache.readers && 2 !in s1.cache.readers && 2 in s.cache.readers
    ensures GoesBack(s.data, s1.cache.readers[1], s.cache.readers[2])
  {
    hide IsMember, Continues, Holds, Fresh;
    var s2;
    s1, s2 := OvertakenStore(s0);
    FoundedMember(Db(s2.data));
    var due;
    s, due := Hits(s2, 2, [], Expiry(s0.data.now, s0.ttl), 2);
    ContinuesTransitive(s1, s2, s);
  }

  /**
   * While a write is committed and not yet announced, lists can go back in time: in some run a call has returned
   * a list with a task, and a call that begins later, for the same member and filter, returns one without it.
   */
  lemma ListsCanGoBack(ttl: int)
    ensures exists actions, more ::
      var s1, s2 := Reached(ttl, actions), Reached(ttl, actions + more);
      && 1 in s1.cache.readers && 2 !in s1.cache.readers && 2 in s2.cache.readers
      && GoesBack(s2.data, s1.cache.readers[1], s2.cache.readers[2])
  {
    var s0 := Reached(ttl, FOUNDING);
    Founded(ttl);
    hide Reached, Continues, GoesBack;
    var s1, s2 := SecondList(s0);
    ContinuesIsReached(ttl, FOUNDING, s1);
    var some :| Reached(ttl, FOUNDING + some) == s1;
    ContinuesIsReached(ttl, FOUNDING + some, s2);
  }
}
