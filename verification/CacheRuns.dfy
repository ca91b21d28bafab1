/** Every step of the cache protocol keeps its invariant, and what that means for lists, quiet caches and staleness. */
module CacheRuns {
  import opened Domain
  import opened CacheKeys
  import opened TaskQueries
  import opened Store
  import opened RedisStore
  import opened Service
  import opened ServiceSafety
  import opened CacheSafety

  // ----- the version of a team moves on

  function Bumped(c: CacheSide, teamID: int, floor: nat, announced: set<(int, nat)>): CacheSide
    requires Incr(c.redis, teamID).Ok?
  {
    c.(redis := Incr(c.redis, teamID).value,
       floors := c.floors[teamID := FloorsOf(c, teamID) + [floor]],
       announced := announced)
  }

  predicate AnnouncedBelow(announced: set<(int, nat)>, announced': set<(int, nat)>, teamID: int, floor: nat) {
    forall p :: p in announced' ==> p in announced || (p.0 == teamID && p.1 <= floor)
  }

  /** The version key of another team is another key. */
  lemma OtherVersion(redis: Redis, teamID: int, other: int)
    requires Incr(redis, teamID).Ok? && other != teamID
    ensures CurrentVersion(Incr(redis, teamID).value, other) == CurrentVersion(redis, other)
  {
    if TaskVersionKey(teamID) == TaskVersionKey(other) {
      TaskVersionKeyInjective(teamID, other);
    }
    hide TaskVersionKey;
  }

  lemma BumpedTeams(commits: nat, c: CacheSide, teamID: int, floor: nat, announced: set<(int, nat)>, other: int)
    requires TeamOk(commits, c, teamID) && TeamOk(commits, c, other)
    requires LastFloor(FloorsOf(c, teamID)) <= floor < commits
    requires AnnouncedBelow(c.announced, announced, teamID, floor)
    ensures Incr(c.redis, teamID).Ok?
    ensures TeamOk(commits, Bumped(c, teamID, floor, announced), other)
  {
    if other != teamID {
      OtherVersion(c.redis, teamID, other);
      hide Incr;
    }
    hide TaskVersionKey;
  }

  lemma BumpedLater(s: System, teamID: int, floor: nat, announced: set<(int, nat)>)
    requires CacheInv(s) && Incr(s.cache.redis, teamID).Ok?
    requires LastFloor(FloorsOf(s.cache, teamID)) <= floor
    ensures Later(s, s.(cache := Bumped(s.cache, teamID, floor, announced)))
  {
    hide LogInv, TeamsOk, KeysOk, ReadersOk, Incr;
  }

  lemma BumpedKeys(s: System, teamID: int, floor: nat, announced: set<(int, nat)>)
    requires KeysOk(s) && Incr(s.cache.redis, teamID).Ok?
    requires Later(s, s.(cache := Bumped(s.cache, teamID, floor, announced)))
    ensures KeysOk(s.(cache := Bumped(s.cache, teamID, floor, announced)))
  {
    var s' := s.(cache := Bumped(s.cache, teamID, floor, announced));
    hide Later, EntryOk, TaskVersionKey;
    forall key: string ensures KeyOk(s', key) {
      assert KeyOk(s, key);
      if key != TaskVersionKey(teamID) {
        KeyLater(s, s', key);
      }
    }
  }

  lemma BumpedKeeps(s: System, teamID: int, floor: nat, announced: set<(int, nat)>)
    requires CacheInv(s)
    requires LastFloor(FloorsOf(s.cache, teamID)) <= floor < |s.data.log|
    requires AnnouncedBelow(s.cache.announced, announced, teamID, floor)
    ensures Incr(s.cache.redis, teamID).Ok?
    ensures CacheInv(s.(cache := Bumped(s.cache, teamID, floor, announced)))
  {
    assert TeamOk(|s.data.log|, s.cache, teamID);
    BumpedTeams(|s.data.log|, s.cache, teamID, floor, announced, teamID);
    var s' := s.(cache := Bumped(s.cache, teamID, floor, announced));
    BumpedLater(s, teamID, floor, announced);
    forall other: int ensures TeamOk(|s'.data.log|, s'.cache, other) {
      assert TeamOk(|s.data.log|, s.cache, other);
      BumpedTeams(|s.data.log|, s.cache, teamID, floor, announced, other);
    }
    hide TeamOk, KeyOk, ReaderOk, LogInv, Incr, Later, AnnouncedBelow, FloorsOf, LastFloor;
    BumpedKeys(s, teamID, floor, announced);
    ReadersLater(s, s');
  }

  lemma TeamFloor(s: System, teamID: int)
    requires CacheInv(s)
    ensures TeamOk(|s.data.log|, s.cache, teamID)
  {
    hide LogInv, KeysOk, ReadersOk, TeamOk;
  }

  lemma BumpKeeps(s: System, teamID: int)
    requires CacheInv(s)
    ensures CacheInv(s.(cache := BumpVersion(s.cache, teamID, Latest(s.data))))
  {
    TeamFloor(s, teamID);
    hide CacheInv, Incr, CurrentVersion, FloorsOf, LastFloor;
    BumpedKeeps(s, teamID, Latest(s.data), s.cache.announced);
  }

  lemma AnnounceKeeps(s: System, teamID: int, commit: nat)
    requires CacheInv(s) && commit < |s.data.log|
    ensures CacheInv(s.(cache := Announce(s.cache, teamID, commit, Latest(s.data))))
  {
    TeamFloor(s, teamID);
    hide CacheInv, Incr, CurrentVersion, FloorsOf, LastFloor;
    BumpedKeeps(s, teamID, Latest(s.data), s.cache.announced + {(teamID, commit)});
  }

  lemma TryAnnounceKeeps(s: System, teamID: int, commit: nat, o: Outcome)
    requires CacheInv(s) && commit < |s.data.log|
    ensures CacheInv(s.(cache := TryAnnounce(s.cache, teamID, commit, Latest(s.data), o)))
  {
    hide CacheInv, Announce, BumpVersion;
    match o
    case Succeeds => AnnounceKeeps(s, teamID, commit);
    case FailsBefore =>
    case FailsAfter => BumpKeeps(s, teamID);
  }

  lemma CommitsKnown(d: DataSide)
    requires LogInv(d)
    ensures forall id :: id in d.creators && d.creators[id].pc.AnnouncingCreate? ==> d.creators[id].pc.commit < |d.log|
    ensures forall id :: id in d.updaters && d.updaters[id].pc.AnnouncingUpdate? ==> d.updaters[id].pc.commit < |d.log|
  {
    hide LogOk, FramesOk;
  }

  lemma CreateAnnounceKeeps(s: System, id: nat, o: Outcome)
    requires CacheInv(s)
    ensures CacheInv(s.(cache := CreateAnnounces(s.cache, s.data, id, o)))
  {
    assert LogInv(s.data);
    hide CacheInv, LogInv, TryAnnounce;
    CommitsKnown(s.data);
    if id in s.data.creators && s.data.creators[id].pc.AnnouncingCreate? {
      TryAnnounceKeeps(s, s.data.creators[id].input.teamID, s.data.creators[id].pc.commit, o);
    }
  }

  lemma UpdateAnnounceKeeps(s: System, id: nat, o: Outcome)
    requires CacheInv(s)
    ensures CacheInv(s.(cache := UpdateAnnounces(s.cache, s.data, id, o)))
  {
    assert LogInv(s.data);
    hide CacheInv, LogInv, TryAnnounce;
    CommitsKnown(s.data);
    if id in s.data.updaters && s.data.updaters[id].pc.AnnouncingUpdate? {
      TryAnnounceKeeps(s, s.data.updaters[id].pc.task.teamID, s.data.updaters[id].pc.commit, o);
    }
  }

  // ----- entries come and go

  lemma EvictTeam(commits: nat, c: CacheSide, key: string, teamID: int)
    requires TeamOk(commits, c, teamID)
    ensures TeamOk(commits, Evict(c, key), teamID)
  {
    hide TaskVersionKey;
  }

  lemma EvictKeeps(s: System, key: string)
    requires CacheInv(s)
    ensures CacheInv(s.(cache := Evict(s.cache, key)))
  {
    var s' := s.(cache := Evict(s.cache, key));
    hide TeamOk, KeyOk, ReaderOk, LogInv, FloorsOf, LastFloor;
    SameFloorsLater(s, s');
    forall teamID: int ensures TeamOk(|s'.data.log|, s'.cache, teamID) {
      EvictTeam(|s.data.log|, s.cache, key, teamID);
    }
    forall k: string ensures KeyOk(s', k) {
      KeyLater(s, s', k);
    }
    ReadersLater(s, s');
  }

  lemma StoreTeam(commits: nat, c: CacheSide, pc: ReaderPc, now: int, ttl: int, teamID: int)
    requires TeamOk(commits, c, teamID) && pc.Storing? && ValidFilter(pc.filter)
    ensures TeamOk(commits, StoreEntry(c, pc, now, ttl), teamID)
  {
    KeyspacesDisjoint(pc.filter, pc.version, teamID, 0);
    hide TaskVersionKey, TaskListKey, Monotone, ValidFilter;
  }

  /** The new entry is what the invariant asks of an entry: its list was read under the version it is stored under. */
  lemma StoreNewKey(s: System, pc: ReaderPc)
    requires pc.Storing? && s.cache.maxDelay >= 0
    requires ListOk(s.data, FloorsOf(s.cache, pc.filter.teamID), pc.filter, pc.version, pc.rows, pc.snap, pc.readAt)
    ensures KeyOk(s.(cache := StoreEntry(s.cache, pc, s.data.now, s.ttl)), TaskListKey(pc.filter, pc.version))
  {
    hide TaskListKey, ListOk, FloorsOf;
    assert FloorsOf(s.cache, pc.filter.teamID) == FloorsOf(StoreEntry(s.cache, pc, s.data.now, s.ttl), pc.filter.teamID) by {
      SameFloors(s.cache, StoreEntry(s.cache, pc, s.data.now, s.ttl), pc.filter.teamID);
    }
  }

  lemma SameFloors(c: CacheSide, c': CacheSide, teamID: int)
    requires c.floors == c'.floors
    ensures FloorsOf(c, teamID) == FloorsOf(c', teamID)
  {
  }

  lemma StoreKeeps(s: System, pc: ReaderPc)
    requires CacheInv(s) && pc.Storing?
    requires ListOk(s.data, FloorsOf(s.cache, pc.filter.teamID), pc.filter, pc.version, pc.rows, pc.snap, pc.readAt)
    ensures CacheInv(s.(cache := StoreEntry(s.cache, pc, s.data.now, s.ttl)))
  {
    var s' := s.(cache := StoreEntry(s.cache, pc, s.data.now, s.ttl));
    assert ValidFilter(pc.filter);
    StoreNewKey(s, pc);
    hide TeamOk, KeyOk, ReaderOk, LogInv, FloorsOf, ListOk, ValidFilter, TaskListKey;
    SameFloorsLater(s, s');
    forall teamID: int ensures TeamOk(|s'.data.log|, s'.cache, teamID) {
      StoreTeam(|s.data.log|, s.cache, pc, s.data.now, s.ttl, teamID);
    }
    forall k: string ensures KeyOk(s', k) {
      if k != TaskListKey(pc.filter, pc.version) {
        KeyLater(s, s', k);
      }
    }
    ReadersLater(s, s');
  }

  // ----- a list call moves on

  lemma ReaderMoves(s: System, id: nat, pc: ReaderPc)
    requires CacheInv(s) && id in s.cache.readers
    requires ReaderOk(s, s.cache.readers[id].(pc := pc))
    ensures CacheInv(s.(cache := SetReader(s.cache, id, pc)))
  {
    var s' := s.(cache := SetReader(s.cache, id, pc));
    ReaderSet(s, s', s.cache.readers[id].(pc := pc), id);
  }

  /** One more or one changed reader. */
  lemma ReaderSet(s: System, s': System, r: Reader, id: nat)
    requires CacheInv(s) && ReaderOk(s, r)
    requires s' == s.(cache := s.cache.(readers := s.cache.readers[id := r]))
    ensures CacheInv(s')
  {
    hide TeamOk, KeyOk, ReaderOk, LogInv, FloorsOf;
    SameFloorsLater(s, s');
    TeamsSame(s, s');
    KeysLater(s, s');
    ReaderLater(s, s', r);
    forall other | other in s'.cache.readers && other != id ensures ReaderOk(s', s'.cache.readers[other]) {
      ReaderLater(s, s', s.cache.readers[other]);
    }
  }

  lemma TeamsSame(s: System, s': System)
    requires TeamsOk(s) && s'.data == s.data
    requires s'.cache.redis == s.cache.redis && s'.cache.floors == s.cache.floors && s'.cache.announced == s.cache.announced
    ensures TeamsOk(s')
  {
    hide CurrentVersion, Monotone;
    forall t: int ensures TeamOk(|s'.data.log|, s'.cache, t) {
      assert TeamOk(|s.data.log|, s.cache, t);
    }
  }

  lemma ReaderFacts(s: System, id: nat)
    requires CacheInv(s) && id in s.cache.readers
    ensures ReaderOk(s, s.cache.readers[id])
    ensures TeamOk(|s.data.log|, s.cache, s.cache.readers[id].input.teamID)
  {
    hide TeamOk, KeysOk, ReaderOk, LogInv;
  }

  lemma KeyFacts(s: System, key: string)
    requires CacheInv(s)
    ensures KeyOk(s, key)
  {
    hide TeamsOk, KeyOk, ReadersOk, LogInv;
  }

  lemma BeginListKeeps(s: System, id: nat, input: ListInput)
    requires CacheInv(s)
    ensures CacheInv(s.(cache := BeginList(s.cache, id, input)))
  {
    if id !in s.cache.readers {
      TeamFloor(s, input.teamID);
      var r := BeginList(s.cache, id, input).readers[id];
      hide CacheInv, CurrentVersion, ListNumbersOk, FloorsOf, LastFloor;
      ReaderSet(s, s.(cache := BeginList(s.cache, id, input)), r, id);
    }
  }

  lemma ReaderCheckKeeps(s: System, id: nat, o: Outcome)
    requires CacheInv(s) && id in s.cache.readers && s.cache.readers[id].pc.CheckingReader?
    ensures CacheInv(s.(cache := ListStep(s.cache, s.data, s.ttl, id, o)))
  {
    ReaderFacts(s, id);
    hide CacheInv, IsMember, TeamOk, TrimSpace, FloorsOf, LastFloor;
    var r := s.cache.readers[id];
    ReaderMoves(s, id, AfterReaderCheck(IsMember(Db(s.data), r.input.teamID, r.input.requestedBy), r.input, o));
  }

  lemma VersionReadKeeps(s: System, id: nat, o: Outcome)
    requires CacheInv(s) && id in s.cache.readers && s.cache.readers[id].pc.ReadingVersion?
    ensures CacheInv(s.(cache := ListStep(s.cache, s.data, s.ttl, id, o)))
  {
    ReaderFacts(s, id);
    hide CacheInv, ParseFilter, CurrentVersion, ValidFilter, FloorsOf;
    var r := s.cache.readers[id];
    ReaderMoves(s, id, AfterVersionRead(CurrentVersion(s.cache.redis, r.pc.filter.teamID), r.pc.filter, o));
  }

  /** A hit under a version returns the list of a database state no older than the floor of that version. */
  lemma HitMeaning(s: System, f: TaskFilter, version: int, rows: seq<Task>)
    requires CacheInv(s) && ValidFilter(f)
    requires GetList(s.cache.redis, f, version, s.data.now) == Ok(Some(rows))
    ensures var key := TaskListKey(f, version);
      && key in s.cache.origin
      && ListOk(s.data, FloorsOf(s.cache, f.teamID), f, version, rows, s.cache.origin[key].snap, s.cache.origin[key].readAt)
      && HitOk(s, s.cache.origin[key].snap, FromCache(s.data.now))
  {
    var key := TaskListKey(f, version);
    KeyFacts(s, key);
    var o := s.cache.origin[key];
    assert EntryOk(s, key, s.cache.redis[key], o);
    hide CacheInv, TaskVersionKey, FloorsOf, LastFloor, ListTasks, TaskListKey;
    TaskListKeyInjective(f, version, o.filter, o.version);
    assert o.filter == f && o.version == version;
  }

  /** A hit is right for its reader: what the call has to show is below the floor of the version, hence below the snapshot. */
  lemma HitListed(s: System, f: TaskFilter, version: int, rows: seq<Task>, due: nat)
    requires CacheInv(s) && ValidFilter(f)
    requires GetList(s.cache.redis, f, version, s.data.now) == Ok(Some(rows))
    requires version >= 0 && version < |FloorsOf(s.cache, f.teamID)| && due <= FloorsOf(s.cache, f.teamID)[version]
    ensures var key := TaskListKey(f, version);
      && key in s.cache.origin
      && due <= s.cache.origin[key].snap
      && ListedOk(s, f, rows, s.cache.origin[key].snap, FromCache(s.data.now))
  {
    HitMeaning(s, f, version, rows);
    hide CacheInv, GetList, HitOk, ListTasks, FloorsOf, TaskListKey, SnapAt;
  }

  lemma ListedReader(s: System, r: Reader, rows: seq<Task>, snap: nat, source: Source)
    requires ReaderOk(s, r) && r.pc.ReadingEntry?
    requires r.due <= snap && ListedOk(s, r.pc.filter, rows, snap, source)
    ensures ReaderOk(s, r.(pc := Listed(r.pc.filter, rows, snap, source)))
  {
    hide ParseFilter, ListedOk, ListOk, FloorsOf, LastFloor, ListNumbersOk;
  }

  lemma QueryingReader(s: System, r: Reader, version: Option<int>)
    requires ReaderOk(s, r) && r.pc.ReadingEntry? && (version.Some? ==> version.value == r.pc.version)
    ensures ReaderOk(s, r.(pc := Querying(r.pc.filter, version)))
  {
    hide ParseFilter, ListedOk, ListOk, FloorsOf, LastFloor, ListNumbersOk;
  }

  lemma EntryReader(s: System, r: Reader, o: Outcome)
    requires CacheInv(s) && r.pc.ReadingEntry? && ReaderOk(s, r)
    ensures ReaderOk(s, r.(pc := AfterEntryRead(s.cache, r.pc.filter, r.pc.version, s.data.now, o)))
  {
    assert FilterOf(r, r.pc.filter);
    hide CacheInv, ReaderOk, ParseFilter, GetList, ListedOk, FloorsOf, TaskListKey, ListNumbersOk, ValidFilter;
    var found := GetList(s.cache.redis, r.pc.filter, r.pc.version, s.data.now);
    if !o.Succeeds? || found.Err? {
      QueryingReader(s, r, None);
    } else if found.value.None? {
      QueryingReader(s, r, Some(r.pc.version));
    } else {
      ReadingFacts(s, r);
      HitListed(s, r.pc.filter, r.pc.version, found.value.value, r.due);
      var key := TaskListKey(r.pc.filter, r.pc.version);
      ListedReader(s, r, found.value.value, s.cache.origin[key].snap, FromCache(s.data.now));
    }
  }

  lemma ReadingFacts(s: System, r: Reader)
    requires r.pc.ReadingEntry? && ReaderOk(s, r)
    ensures var floors := FloorsOf(s.cache, r.pc.filter.teamID);
      0 <= r.pc.version < |floors| && r.due <= floors[r.pc.version]
  {
    hide ParseFilter, FloorsOf, ListOk, ListedOk;
  }

  lemma EntryReadKeeps(s: System, id: nat, o: Outcome)
    requires CacheInv(s) && id in s.cache.readers && s.cache.readers[id].pc.ReadingEntry?
    ensures CacheInv(s.(cache := ListStep(s.cache, s.data, s.ttl, id, o)))
  {
    ReaderFacts(s, id);
    hide CacheInv, ReaderOk, TeamOk, AfterEntryRead, SetReader;
    var r := s.cache.readers[id];
    EntryReader(s, r, o);
    ReaderMoves(s, id, AfterEntryRead(s.cache, r.pc.filter, r.pc.version, s.data.now, o));
  }

  /** The reader of a database answer: the present state is later than everything announced. */
  lemma QueryReader(s: System, r: Reader, o: Outcome)
    requires CacheInv(s) && r.pc.Querying? && ReaderOk(s, r)
    requires TeamOk(|s.data.log|, s.cache, r.input.teamID)
    ensures ReaderOk(s, r.(pc := AfterQuery(s.data, r.pc.filter, r.pc.cacheVersion, o)))
  {
    hide CacheInv, ParseFilter, CurrentVersion, ListTasks, FloorsOf;
  }

  lemma QueryKeeps(s: System, id: nat, o: Outcome)
    requires CacheInv(s) && id in s.cache.readers && s.cache.readers[id].pc.Querying?
    ensures CacheInv(s.(cache := ListStep(s.cache, s.data, s.ttl, id, o)))
  {
    ReaderFacts(s, id);
    hide CacheInv, ReaderOk, TeamOk, AfterQuery, SetReader;
    var r := s.cache.readers[id];
    QueryReader(s, r, o);
    ReaderMoves(s, id, AfterQuery(s.data, r.pc.filter, r.pc.cacheVersion, o));
  }

  lemma StoringKeeps(s: System, id: nat, o: Outcome)
    requires CacheInv(s) && id in s.cache.readers && s.cache.readers[id].pc.Storing?
    ensures CacheInv(s.(cache := ListStep(s.cache, s.data, s.ttl, id, o)))
  {
    ReaderFacts(s, id);
    hide CacheInv, ParseFilter, TeamOk, FloorsOf, LastFloor, ListTasks, ValidFilter, SnapAt, TaskListKey, RedisStore.SetList;
    var r := s.cache.readers[id];
    var pc' := Listed(r.pc.filter, r.pc.rows, r.pc.snap, FromDatabase);
    if o.FailsBefore? {
      ReaderMoves(s, id, pc');
    } else {
      StoreKeeps(s, r.pc);
      var s1 := s.(cache := StoreEntry(s.cache, r.pc, s.data.now, s.ttl));
      SameFloors(s.cache, s1.cache, r.input.teamID);
      ReaderMoves(s1, id, pc');
    }
  }

  lemma ListKeeps(s: System, id: nat, o: Outcome)
    requires CacheInv(s)
    ensures CacheInv(s.(cache := ListStep(s.cache, s.data, s.ttl, id, o)))
  {
    hide CacheInv, AfterReaderCheck, AfterVersionRead, AfterEntryRead, AfterQuery, StoreEntry, SetReader, IsMember, CurrentVersion;
    if id in s.cache.readers {
      match s.cache.readers[id].pc
      case CheckingReader => ReaderCheckKeeps(s, id, o);
      case ReadingVersion(_) => VersionReadKeeps(s, id, o);
      case ReadingEntry(_, _) => EntryReadKeeps(s, id, o);
      case Querying(_, _) => QueryKeeps(s, id, o);
      case Storing(_, _, _, _, _) => StoringKeeps(s, id, o);
      case Listed(_, _, _, _) =>
      case ListFailed(_) =>
    }
  }

  lemma CacheStepKeeps(s: System, a: Action)
    requires CacheInv(s)
    ensures CacheInv(s.(cache := CacheStep(s.cache, s.data, s.ttl, a)))
  {
    hide CacheInv, CreateAnnounces, UpdateAnnounces, BeginList, ListStep, BumpVersion, Evict;
    match a
    case ACreate(id, o) => CreateAnnounceKeeps(s, id, o);
    case AUpdate(id, o, _) => UpdateAnnounceKeeps(s, id, o);
    case ABeginList(id, input) => BeginListKeeps(s, id, input);
    case AList(id, o) => ListKeeps(s, id, o);
    case ABump(teamID) => BumpKeeps(s, teamID);
    case AEvict(key) => EvictKeeps(s, key);
    case _ =>
  }

  lemma WritersFacts(s: System)
    requires CacheInv(s)
    ensures WritersOk(s.data)
  {
    hide LogOk, FramesOk, TeamsOk, KeysOk, ReadersOk, WritersOk;
  }

  lemma CacheStays(s: System, a: Action)
    requires StoreInv(s.data) && CacheInv(s)
    ensures CacheInv(Step(s, a))
  {
    hide StoreInv, CacheInv, WritersOk, LogStep, DataStep, CacheStep;
    WritersFacts(s);
    DataLog(s.data, a);
    CacheStepKeeps(s, a);
    DataKeeps(s.(cache := CacheStep(s.cache, s.data, s.ttl, a)), DataStep(s.data, a));
  }

  lemma CacheInitial(ttl: int)
    ensures CacheInv(Initial(ttl))
  {
    hide TaskVersionKey, TaskListKey;
  }

  /** Every reachable state satisfies the invariant of the cache protocol. */
  lemma {:induction false} CacheReachedOk(ttl: int, actions: seq<Action>)
    ensures CacheInv(Reached(ttl, actions))
    decreases |actions|
  {
    hide StoreInv, CacheInv, DataStep, CacheStep;
    if actions == [] {
      CacheInitial(ttl);
    } else {
      CacheReachedOk(ttl, actions[..|actions| - 1]);
      ReachedOk(ttl, actions[..|actions| - 1]);
      CacheStays(Reached(ttl, actions[..|actions| - 1]), actions[|actions| - 1]);
    }
  }
}
