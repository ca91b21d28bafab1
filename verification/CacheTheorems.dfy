/** What clients of the task list can rely on, over every run: freshness, coherence when quiet, bounded staleness. */
module CacheTheorems {
  import opened Domain
  import opened CacheKeys
  import opened Sorting
  import opened TaskQueries
  import opened Store
  import opened StoreSafety
  import opened RedisStore
  import opened Service
  import opened ServiceSafety
  import opened CacheSafety
  import opened CacheRuns
  import opened Runs
  import opened ListMeaning

  // ----- runs

  /** What the cache side never takes back: announcements, and what a list call was asked and has to show. */
  ghost predicate Remembers(c: CacheSide, c': CacheSide) {
    && c.announced <= c'.announced
    && (forall id :: id in c.readers ==>
          id in c'.readers && c'.readers[id].input == c.readers[id].input && c'.readers[id].due == c.readers[id].due)
  }

  lemma SetReaderRemembers(c: CacheSide, c1: CacheSide, id: nat, pc: ReaderPc)
    requires c1.announced == c.announced && c1.readers == c.readers
    ensures Remembers(c, SetReader(c1, id, pc))
  {
  }

  lemma ListStepRemembers(c: CacheSide, d: DataSide, ttl: int, id: nat, o: Outcome)
    ensures Remembers(c, ListStep(c, d, ttl, id, o))
  {
    hide Remembers, AfterReaderCheck, AfterVersionRead, AfterEntryRead, AfterQuery, SetReader, IsMember, CurrentVersion,
      RedisStore.SetList;
    if id in c.readers {
      var r := c.readers[id];
      match r.pc
      case CheckingReader =>
        SetReaderRemembers(c, c, id, AfterReaderCheck(IsMember(Db(d), r.input.teamID, r.input.requestedBy), r.input, o));
      case ReadingVersion(f) => SetReaderRemembers(c, c, id, AfterVersionRead(CurrentVersion(c.redis, f.teamID), f, o));
      case ReadingEntry(f, v) => SetReaderRemembers(c, c, id, AfterEntryRead(c, f, v, d.now, o));
      case Querying(f, v) => SetReaderRemembers(c, c, id, AfterQuery(d, f, v, o));
      case Storing(f, v, rows, snap, _) =>
        SetReaderRemembers(c, if o.FailsBefore? then c else StoreEntry(c, r.pc, d.now, ttl), id,
                           Listed(f, rows, snap, FromDatabase));
      case Listed(_, _, _, _) => RemembersItself(c);
      case ListFailed(_) => RemembersItself(c);
    } else {
      RemembersItself(c);
    }
  }

  lemma RemembersItself(c: CacheSide)
    ensures Remembers(c, c)
  {
  }

  lemma AnnounceRemembers(c: CacheSide, teamID: int, commit: nat, latest: nat, o: Outcome)
    ensures Remembers(c, TryAnnounce(c, teamID, commit, latest, o))
  {
    hide Incr;
  }

  lemma OtherRemembers(c: CacheSide, id: nat, input: ListInput, teamID: int, latest: nat, key: string)
    ensures Remembers(c, BeginList(c, id, input))
    ensures Remembers(c, BumpVersion(c, teamID, latest))
    ensures Remembers(c, Evict(c, key))
  {
    hide Incr, ListNumbersOk;
  }

  lemma StepRemembers(s: System, a: Action)
    ensures Remembers(s.cache, Step(s, a).cache)
  {
    hide Remembers, DataStep, ListStep, TryAnnounce, BeginList, BumpVersion, Evict;
    var (c, d) := (s.cache, s.data);
    RemembersItself(c);
    match a
    case ACreate(id, o) =>
      if id in d.creators && d.creators[id].pc.AnnouncingCreate? {
        AnnounceRemembers(c, d.creators[id].input.teamID, d.creators[id].pc.commit, Latest(d), o);
      }
    case AUpdate(id, o, _) =>
      if id in d.updaters && d.updaters[id].pc.AnnouncingUpdate? {
        AnnounceRemembers(c, d.updaters[id].pc.task.teamID, d.updaters[id].pc.commit, Latest(d), o);
      }
    case AList(id, o) => ListStepRemembers(c, d, s.ttl, id, o);
    case ABeginList(id, input) => OtherRemembers(c, id, input, 0, 0, "");
    case ABump(teamID) => OtherRemembers(c, 0, ListInput(0, 0, "", None, 0, 0), teamID, Latest(d), "");
    case AEvict(key) => OtherRemembers(c, 0, ListInput(0, 0, "", None, 0, 0), 0, 0, key);
    case _ =>
  }

  lemma {:induction false} RunRemembers(s: System, actions: seq<Action>)
    ensures Remembers(s.cache, Run(s, actions).cache)
    decreases |actions|
  {
    hide Step;
    if actions != [] {
      RunRemembers(s, actions[..|actions| - 1]);
      StepRemembers(Run(s, actions[..|actions| - 1]), actions[|actions| - 1]);
    }
  }

  /** The log is only ever extended. */
  lemma {:induction false} RunKeepsLog(ttl: int, before: seq<Action>, after: seq<Action>)
    ensures var d, d' := Reached(ttl, before).data, Reached(ttl, before + after).data;
      |d.log| <= |d'.log| && forall i :: 0 <= i < |d.log| ==> d'.log[i] == d.log[i]
    decreases |after|
  {
    hide DataStep, CacheStep, StoreInv, CacheInv;
    if after == [] {
      assert before + after == before;
    } else {
      var n := |after| - 1;
      assert (before + after)[..|before + after| - 1] == before + after[..n] && (before + after)[|before + after| - 1] == after[n];
      RunKeepsLog(ttl, before, after[..n]);
      var s := Reached(ttl, before + after[..n]);
      ReachedOk(ttl, before + after[..n]);
      CacheReachedOk(ttl, before + after[..n]);
      WritersFacts(s);
      hide WritersOk, CommitFrame;
      DataLog(s.data, after[n]);
    }
  }

  // ----- freshness

  /** What a list call has returned: the list its filter asks for, in a committed database state. */
  ghost predicate ListedFrom(d: DataSide, r: Reader, snap: nat) {
    && r.pc.Listed?
    && snap < |d.log|
    && ParseFilter(r.input) == Ok(r.pc.filter) && ValidFilter(r.pc.filter)
    && r.pc.rows == ListTasks(d.log[snap].store.tasks, r.pc.filter)
  }

  lemma ListedFacts(s: System, id: nat)
    requires CacheInv(s) && id in s.cache.readers && s.cache.readers[id].pc.Listed?
    ensures ListedFrom(s.data, s.cache.readers[id], s.cache.readers[id].pc.snap)
    ensures s.cache.readers[id].due <= s.cache.readers[id].pc.snap
    ensures HitOk(s, s.cache.readers[id].pc.snap, s.cache.readers[id].pc.source)
    ensures IsMember(Db(s.data), s.cache.readers[id].input.teamID, s.cache.readers[id].input.requestedBy)
  {
    ReaderFacts(s, id);
    hide CacheInv, IsMember, TeamOk, HitOk, ParseFilter, ListTasks, FloorsOf, LastFloor, ListOk;
  }

  /** The run in which a list call begins after some actions and goes on, between others, for the rest of the run. */
  function ListRun(ttl: int, before: seq<Action>, id: nat, input: ListInput, after: seq<Action>): System {
    Reached(ttl, before + [ABeginList(id, input)] + after)
  }

  lemma BeginRecords(s: System, id: nat, input: ListInput)
    requires id !in s.cache.readers
    ensures var c := Step(s, ABeginList(id, input)).cache;
      id in c.readers && c.readers[id].input == input && c.readers[id].due == LastFloor(FloorsOf(s.cache, input.teamID))
  {
    hide DataStep, ListNumbersOk, FloorsOf, LastFloor;
  }

  /**
   * Freshness. Whatever else runs, and whatever fails, a list that is returned, from the cache or from the
   * database, is the filtered list of one committed state of the database. That state includes every commit
   * there was when the team's version was last increased before the call began, and so every commit of the
   * team whose invalidation had succeeded by then.
   */
  lemma ListsAreFresh(ttl: int, before: seq<Action>, id: nat, input: ListInput, after: seq<Action>)
    requires id !in Reached(ttl, before).cache.readers
    requires var readers := ListRun(ttl, before, id, input, after).cache.readers;
      id in readers && readers[id].pc.Listed?
    ensures
      var s0, s := Reached(ttl, before), ListRun(ttl, before, id, input, after);
      var r := s.cache.readers[id];
      && r.input == input
      && exists snap: nat :: ListedFrom(s.data, r, snap)
           && LastFloor(FloorsOf(s0.cache, input.teamID)) <= snap
           && forall n :: (input.teamID, n) in s0.cache.announced ==> n <= snap
  {
    var s0, s := Reached(ttl, before), ListRun(ttl, before, id, input, after);
    var s1 := Step(s0, ABeginList(id, input));
    hide CacheInv, Step, ListedFrom, Initial, Run;
    ReachedAppend(ttl, before + [ABeginList(id, input)], after);
    ReachedStep(ttl, before, ABeginList(id, input));
    CacheReachedOk(ttl, before);
    CacheReachedOk(ttl, before + [ABeginList(id, input)] + after);
    hide Reached, FloorsOf, LastFloor;
    TeamFloor(s0, input.teamID);
    BeginRecords(s0, id, input);
    RunRemembers(s1, after);
    ListedFacts(s, id);
  }

  /** Every state of the log was the state of the database at some point of the run. */
  lemma {:induction false} LogPrefix(ttl: int, actions: seq<Action>, n: nat) returns (k: nat)
    requires n < |Reached(ttl, actions).data.log|
    ensures k <= |actions| && Reached(ttl, actions[..k]).data.log == Reached(ttl, actions).data.log[..n + 1]
    decreases |actions|
  {
    hide DataStep, CacheStep, StoreInv, CacheInv;
    k := |actions|;
    assert actions[..k] == actions;
    if n + 1 < |Reached(ttl, actions).data.log| {
      var before := actions[..|actions| - 1];
      var s := Reached(ttl, before);
      ReachedOk(ttl, before);
      CacheReachedOk(ttl, before);
      WritersFacts(s);
      hide WritersOk, CommitFrame;
      DataLog(s.data, actions[|actions| - 1]);
      k := LogPrefix(ttl, before, n);
      assert before[..k] == actions[..k];
    }
  }

  /** In every state of the log, task ids are unique. */
  lemma LoggedRowsUnique(ttl: int, actions: seq<Action>, n: nat)
    requires n < |Reached(ttl, actions).data.log|
    ensures UniqueIDs(Reached(ttl, actions).data.log[n].store.tasks)
  {
    var k := LogPrefix(ttl, actions, n);
    ReachedOk(ttl, actions[..k]);
    hide Reached, StoreInv, UniqueIDs;
    UniqueRows(Reached(ttl, actions[..k]).data);
  }

  /**
   * Whatever committed state a returned list is the list of, it is what the call's input asks for: the rows of
   * that state with the team, the status and the assignee of the input, newest first, from the offset up to the limit.
   */
  lemma ListsAnswerTheirInput(ttl: int, actions: seq<Action>, id: nat, snap: nat)
    requires var s := Reached(ttl, actions); id in s.cache.readers && ListedFrom(s.data, s.cache.readers[id], snap)
    ensures
      var s := Reached(ttl, actions);
      Answers(s.data.log[snap].store.tasks, s.cache.readers[id].input, s.cache.readers[id].pc.rows)
  {
    var s := Reached(ttl, actions);
    var r := s.cache.readers[id];
    LoggedRowsUnique(ttl, actions, snap);
    ParsedFilter(r.input);
    hide Reached, UniqueIDs, ListTasks, ParseFilter, BadFilter, Answers, TrimSpace;
    assert CachedFilter(r.input) == r.pc.filter;
    ListAnswersInput(s.data.log[snap].store.tasks, r.input);
  }

  /** So every list that a call of a run has returned is what its input asks for, in a state of the log. */
  lemma EveryListAnswers(ttl: int, actions: seq<Action>, id: nat)
    requires var readers := Reached(ttl, actions).cache.readers; id in readers && readers[id].pc.Listed?
    ensures
      var s := Reached(ttl, actions);
      var r := s.cache.readers[id];
      && r.pc.snap < |s.data.log|
      && Answers(s.data.log[r.pc.snap].store.tasks, r.input, r.pc.rows)
      && forall row :: row in r.pc.rows ==> row in s.data.log[r.pc.snap].store.tasks && AskedFor(r.input, row)
  {
    var s := Reached(ttl, actions);
    var r := s.cache.readers[id];
    CacheReachedOk(ttl, actions);
    hide Reached, CacheInv, Answers, AskedFor, IsMember, HitOk, ListTasks;
    ListedFacts(s, id);
    ListsAnswerTheirInput(ttl, actions, id, r.pc.snap);
    ParsedFilter(r.input);
    AnswersAreAskedFor(s.data.log[r.pc.snap].store.tasks, r.input, r.pc.rows);
  }

  /** What an error of a step means: the database failed, or the caller is no member, or the input is bad. */
  predicate FailsAt(d: DataSide, r: Reader, o: Outcome, e: Error) {
    var member := IsMember(Db(d), r.input.teamID, r.input.requestedBy);
    match r.pc
    case CheckingReader =>
      || (!o.Succeeds? && e == Infrastructure)
      || (o.Succeeds? && !member && e == Forbidden)
      || (o.Succeeds? && member && BadFilter(r.input) && e == InvalidInput)
    case Querying(_, _) => !o.Succeeds? && e == Infrastructure
    case _ => false
  }

  /**
   * In every run, a list call fails exactly where the membership check or the query fails, or the check refuses
   * the caller or the filter. No failure of the cache, to read the version or the list or to store it, is an error.
   */
  lemma ListsFailExactly(ttl: int, actions: seq<Action>, id: nat, o: Outcome, e: Error)
    requires var readers := Reached(ttl, actions).cache.readers; id in readers && !readers[id].pc.ListFailed?
    ensures
      var s := Reached(ttl, actions);
      var readers := Reached(ttl, actions + [AList(id, o)]).cache.readers;
      id in readers && (readers[id].pc == ListFailed(e) <==> FailsAt(s.data, s.cache.readers[id], o, e))
  {
    var s := Reached(ttl, actions);
    CacheReachedOk(ttl, actions);
    ReachedStep(ttl, actions, AList(id, o));
    hide Reached, CacheInv, ListStep, FailsAt;
    if s.cache.readers[id].pc.Querying? {
      CountsOk(s, id);
    }
    ListStepFails(s.cache, s.data, s.ttl, id, o, e);
  }

  lemma CountsOk(s: System, id: nat)
    requires CacheInv(s) && id in s.cache.readers && s.cache.readers[id].pc.Querying?
    ensures s.cache.readers[id].pc.filter.limit >= 0 && s.cache.readers[id].pc.filter.offset >= 0
  {
    ReaderFacts(s, id);
    hide CacheInv, FloorsOf, LastFloor, IsMember;
  }

  lemma SetReaderPc(c: CacheSide, id: nat, pc: ReaderPc)
    requires id in c.readers
    ensures id in SetReader(c, id, pc).readers && SetReader(c, id, pc).readers[id].pc == pc
  {
  }

  /** Where a step of a list call leads. */
  function NextPc(c: CacheSide, d: DataSide, r: Reader, o: Outcome): ReaderPc {
    match r.pc
    case CheckingReader => AfterReaderCheck(IsMember(Db(d), r.input.teamID, r.input.requestedBy), r.input, o)
    case ReadingVersion(f) => AfterVersionRead(CurrentVersion(c.redis, f.teamID), f, o)
    case ReadingEntry(f, v) => AfterEntryRead(c, f, v, d.now, o)
    case Querying(f, v) => AfterQuery(d, f, v, o)
    case Storing(f, v, rows, snap, _) => Listed(f, rows, snap, FromDatabase)
    case _ => r.pc
  }

  lemma ListStepLeads(c: CacheSide, d: DataSide, ttl: int, id: nat, o: Outcome)
    requires id in c.readers
    ensures var readers := ListStep(c, d, ttl, id, o).readers; id in readers && readers[id].pc == NextPc(c, d, c.readers[id], o)
  {
    hide SetReader, IsMember, AfterReaderCheck, AfterVersionRead, AfterEntryRead, AfterQuery, StoreEntry, CurrentVersion, Db;
    var r := c.readers[id];
    SetReaderPc(c, id, NextPc(c, d, r, o));
    if r.pc.Storing? {
      StoreKeepsReaders(c, r.pc, d.now, ttl);
      SetReaderPc(StoreEntry(c, r.pc, d.now, ttl), id, NextPc(c, d, r, o));
    }
  }

  lemma ListStepFails(c: CacheSide, d: DataSide, ttl: int, id: nat, o: Outcome, e: Error)
    requires id in c.readers && !c.readers[id].pc.ListFailed?
    requires c.readers[id].pc.Querying? ==> c.readers[id].pc.filter.limit >= 0 && c.readers[id].pc.filter.offset >= 0
    ensures var readers := ListStep(c, d, ttl, id, o).readers;
      id in readers && (readers[id].pc == ListFailed(e) <==> FailsAt(d, c.readers[id], o, e))
  {
    hide ListStep, IsMember, BadFilter, AfterReaderCheck, AfterEntryRead, AfterQuery, CurrentVersion, Db;
    var r := c.readers[id];
    ListStepLeads(c, d, ttl, id, o);
    CheckFails(IsMember(Db(d), r.input.teamID, r.input.requestedBy), r.input, o, e);
    if r.pc.ReadingEntry? {
      EntryReadNeverFails(c, r.pc.filter, r.pc.version, d.now, o);
    } else if r.pc.Querying? {
      QueryFails(d, r.pc.filter, r.pc.cacheVersion, o, e);
    }
  }

  lemma StoreKeepsReaders(c: CacheSide, pc: ReaderPc, now: int, ttl: int)
    requires pc.Storing?
    ensures StoreEntry(c, pc, now, ttl).readers == c.readers
  {
    hide TaskListKey;
  }

  lemma CheckFails(isMember: bool, input: ListInput, o: Outcome, e: Error)
    ensures AfterReaderCheck(isMember, input, o) == ListFailed(e) <==>
      || (!o.Succeeds? && e == Infrastructure)
      || (o.Succeeds? && !isMember && e == Forbidden)
      || (o.Succeeds? && isMember && BadFilter(input) && e == InvalidInput)
  {
    ParsedFilter(input);
    hide ParseFilter, BadFilter, CachedFilter;
  }

  lemma QueryFails(d: DataSide, f: TaskFilter, v: Option<int>, o: Outcome, e: Error)
    requires f.limit >= 0 && f.offset >= 0
    ensures AfterQuery(d, f, v, o) == ListFailed(e) <==> !o.Succeeds? && e == Infrastructure
  {
    hide ListTasks, Db;
  }

  lemma EntryReadNeverFails(c: CacheSide, f: TaskFilter, v: int, now: int, o: Outcome)
    ensures !AfterEntryRead(c, f, v, now, o).ListFailed?
  {
    hide GetList, TaskListKey;
  }

  lemma ListsBeginExactly(ttl: int, actions: seq<Action>, id: nat, input: ListInput)
    requires id !in Reached(ttl, actions).cache.readers
    ensures
      var readers := Reached(ttl, actions + [ABeginList(id, input)]).cache.readers;
      id in readers && readers[id].input == input
      && readers[id].pc == if BadNumbers(input) then ListFailed(InvalidInput) else CheckingReader
  {
    ReachedStep(ttl, actions, ABeginList(id, input));
    hide Reached, DataStep, FloorsOf, LastFloor;
  }

  /** An invalidation that succeeds puts the commit of its call among the announced ones. */
  lemma AnnouncementCounts(s: System, a: Action)
    requires CacheInv(s)
    ensures a.ACreate? && a.o.Succeeds? && a.id in s.data.creators && s.data.creators[a.id].pc.AnnouncingCreate? ==>
      (s.data.creators[a.id].input.teamID, s.data.creators[a.id].pc.commit) in Step(s, a).cache.announced
    ensures a.AUpdate? && a.o.Succeeds? && a.id in s.data.updaters && s.data.updaters[a.id].pc.AnnouncingUpdate? ==>
      (s.data.updaters[a.id].pc.task.teamID, s.data.updaters[a.id].pc.commit) in Step(s, a).cache.announced
  {
    hide DataStep, FloorsOf, LastFloor, CurrentVersion;
    if a.ACreate? && a.id in s.data.creators {
      TeamVersion(s, s.data.creators[a.id].input.teamID);
    } else if a.AUpdate? && a.id in s.data.updaters && s.data.updaters[a.id].pc.AnnouncingUpdate? {
      TeamVersion(s, s.data.updaters[a.id].pc.task.teamID);
    }
    hide CacheInv;
  }

  lemma TeamVersion(s: System, teamID: int)
    requires CacheInv(s)
    ensures CurrentVersion(s.cache.redis, teamID).Ok?
  {
    TeamFloor(s, teamID);
    hide CacheInv, FloorsOf, CurrentVersion;
  }

  /** A list, cached or not, is only ever returned to a member of its team. */
  lemma ListsGoToMembers(ttl: int, actions: seq<Action>, id: nat)
    requires var readers := Reached(ttl, actions).cache.readers; id in readers && readers[id].pc.Listed?
    ensures
      var s := Reached(ttl, actions);
      var r := s.cache.readers[id];
      IsMember(Db(s.data), r.input.teamID, r.input.requestedBy) && r.pc.filter.teamID == r.input.teamID
      && forall row :: row in r.pc.rows ==> row.teamID == r.input.teamID
  {
    var s := Reached(ttl, actions);
    CacheReachedOk(ttl, actions);
    hide Reached, CacheInv, IsMember;
    ListedFacts(s, id);
    var r := s.cache.readers[id];
    assert r.pc.filter.teamID == r.input.teamID by { FilterTeam(r); }
    RowsMatch(s.data.log[r.pc.snap].store.tasks, r.pc.filter);
  }

  lemma FilterTeam(r: Reader)
    requires r.pc.Listed? && ParseFilter(r.input) == Ok(r.pc.filter)
    ensures r.pc.filter.teamID == r.input.teamID
  {
    hide TrimSpace;
  }

  lemma RowsMatch(tasks: seq<Task>, f: TaskFilter)
    requires f.limit >= 0 && f.offset >= 0
    ensures forall row :: row in ListTasks(tasks, f) ==> Matches(f, row)
  {
    SortElements(TaskBefore, Filter(FilterSelector(f), tasks));
    assert forall row :: row in ListTasks(tasks, f) ==> row in AllMatching(tasks, f);
  }

  /** The action is the invalidation of a create or update call, for the commit of the task that the call returns. */
  predicate Announces(d: DataSide, a: Action, teamID: int, commit: nat, task: Task) {
    || (a.ACreate? && a.o.Succeeds? && a.id in d.creators
        && d.creators[a.id].pc == AnnouncingCreate(task, commit) && d.creators[a.id].input.teamID == teamID)
    || (a.AUpdate? && a.o.Succeeds? && a.id in d.updaters
        && d.updaters[a.id].pc == AnnouncingUpdate(task, commit) && task.teamID == teamID)
  }

  lemma AnnouncedCommit(s: System, a: Action, teamID: int, commit: nat, task: Task)
    requires CacheInv(s) && Announces(s.data, a, teamID, commit, task)
    ensures (teamID, commit) in Step(s, a).cache.announced
    ensures CommitOf(s.data, commit, teamID)
    ensures HasTask(s.data.log[commit].store, task.id, teamID)
    ensures a.AUpdate? ==> task in s.data.log[commit].store.tasks
  {
    AnnouncementCounts(s, a);
    WritersFacts(s);
    hide CacheInv, Step, CommitOf;
    if a.ACreate? {
      assert CreatorCommit(s.data, s.data.creators[a.id]);
    } else {
      assert UpdaterCommit(s.data, s.data.updaters[a.id]);
    }
  }

  /** A task of the log stays in it. */
  lemma {:induction false} TaskStays(d: DataSide, i: nat, j: nat, taskID: int, teamID: int)
    requires FramesOk(d) && i <= j < |d.log| && HasTask(d.log[i].store, taskID, teamID)
    ensures HasTask(d.log[j].store, taskID, teamID)
  {
    if i < j {
      hide HasTask;
      TaskStays(d, i, j - 1, taskID, teamID);
      assert CommitFrame(d.log[j - 1].store, d.log[j]);
      hide FramesOk;
      CommitKeepsTask(d.log[j - 1].store, d.log[j], taskID, teamID);
    }
  }

  lemma CommitKeepsTask(st: Store, commit: Commit, taskID: int, teamID: int)
    requires CommitFrame(st, commit) && HasTask(st, taskID, teamID)
    ensures HasTask(commit.store, taskID, teamID)
  {
    hide ListTasks;
    var row :| row in st.tasks && row.id == taskID && row.teamID == teamID;
    assert HasTask(commit.store, row.id, row.teamID);
  }

  /** No commit after one, up to another, writes the tasks of the team. */
  predicate Untouched(log: Log, teamID: int, i: nat, j: nat)
    requires j < |log|
  {
    forall n :: i < n <= j ==> log[n].team != Some(teamID)
  }

  /** As long as its team is not written, a row stays as it is. */
  lemma {:induction false} RowStays(d: DataSide, i: nat, j: nat, row: Task)
    requires FramesOk(d) && i <= j < |d.log| && row in d.log[i].store.tasks && Untouched(d.log, row.teamID, i, j)
    ensures row in d.log[j].store.tasks
  {
    if i < j {
      RowStays(d, i, j - 1, row);
      assert CommitFrame(d.log[j - 1].store, d.log[j]);
      hide ListTasks, HasTask, FramesOk;
    }
  }

  /** The task is in the state that is listed; if it matches it is in the list that is paged, and so in a list of one page. */
  ghost predicate Shows(st: Store, f: TaskFilter, taskID: int, rows: seq<Task>) {
    exists row :: row in st.tasks && row.id == taskID && row.teamID == f.teamID
      && (Matches(f, row) ==>
            && row in AllMatching(st.tasks, f)
            && (f.offset == 0 && |AllMatching(st.tasks, f)| <= f.limit ==> row in rows))
  }

  lemma ListedShows(st: Store, f: TaskFilter, taskID: int)
    requires ValidFilter(f) && HasTask(st, taskID, f.teamID)
    ensures Shows(st, f, taskID, ListTasks(st.tasks, f))
  {
    var row :| row in st.tasks && row.id == taskID && row.teamID == f.teamID;
    SortElements(TaskBefore, Filter(FilterSelector(f), st.tasks));
    hide Sort, Filter, ValidStatus;
  }

  /**
   * Freshness in terms of calls. Once a create or update call has invalidated the cache, every list call of
   * the team that begins later answers from a state in which the task of that call is, and lists it if it
   * matches; the row is the very one that an update returned, unless the team has been written since.
   */
  lemma InvalidatedWritesAreVisible(ttl: int, start: seq<Action>, write: Action, commit: nat, task: Task, between: seq<Action>,
                                    id: nat, input: ListInput, after: seq<Action>)
    requires Announces(Reached(ttl, start).data, write, input.teamID, commit, task)
    requires id !in Reached(ttl, start + [write] + between).cache.readers
    requires var readers := ListRun(ttl, start + [write] + between, id, input, after).cache.readers;
      id in readers && readers[id].pc.Listed?
    ensures
      var s := ListRun(ttl, start + [write] + between, id, input, after);
      var pc := s.cache.readers[id].pc;
      exists snap: nat :: ListedFrom(s.data, s.cache.readers[id], snap)
        && commit <= snap
        && Shows(s.data.log[snap].store, pc.filter, task.id, pc.rows)
        && (write.AUpdate? && Untouched(s.data.log, task.teamID, commit, snap) ==> task in s.data.log[snap].store.tasks)
  {
    var whole := start + [write] + between + [ABeginList(id, input)] + after;
    hide CacheInv, Step, Initial, Announces, HasTask, Run, Shows;
    var s := Reached(ttl, whole);
    AnnouncedInRun(ttl, start, write, input.teamID, commit, task, between + [ABeginList(id, input)] + after);
    assert start + [write] + (between + [ABeginList(id, input)] + after) == whole;
    AnnouncedLater(ttl, start, write, input.teamID, commit, task, between);
    ListsAreFresh(ttl, start + [write] + between, id, input, after);
    CacheReachedOk(ttl, whole);
    FramesFacts(s);
    hide Reached, FramesOk, ListTasks, ValidFilter, AllMatching, Untouched, ParseFilter;
    var r := s.cache.readers[id];
    var snap: nat :| ListedFrom(s.data, r, snap)
      && forall n :: (input.teamID, n) in Reached(ttl, start + [write] + between).cache.announced ==> n <= snap;
    assert r.pc.filter.teamID == input.teamID by { FilterTeam(r); }
    TaskStays(s.data, commit, snap, task.id, input.teamID);
    ListedShows(s.data.log[snap].store, r.pc.filter, task.id);
    if write.AUpdate? && Untouched(s.data.log, task.teamID, commit, snap) {
      RowStays(s.data, commit, snap, task);
    }
  }

  /** The announced commit is in the log of every later state. */
  lemma AnnouncedInRun(ttl: int, start: seq<Action>, write: Action, teamID: int, commit: nat, task: Task, after: seq<Action>)
    requires Announces(Reached(ttl, start).data, write, teamID, commit, task)
    ensures var log := Reached(ttl, start + [write] + after).data.log;
      && commit < |log|
      && HasTask(log[commit].store, task.id, teamID)
      && (write.AUpdate? ==> task in log[commit].store.tasks)
  {
    hide CacheInv, Step, Announces, HasTask, Run;
    CacheReachedOk(ttl, start);
    AnnouncedCommit(Reached(ttl, start), write, teamID, commit, task);
    hide Reached;
    RunKeepsLog(ttl, start, [write] + after);
    assert start + ([write] + after) == start + [write] + after;
  }

  lemma AnnouncedLater(ttl: int, start: seq<Action>, write: Action, teamID: int, commit: nat, task: Task, between: seq<Action>)
    requires Announces(Reached(ttl, start).data, write, teamID, commit, task)
    ensures (teamID, commit) in Reached(ttl, start + [write] + between).cache.announced
  {
    hide CacheInv, Step, Announces, HasTask, Run;
    CacheReachedOk(ttl, start);
    AnnouncedCommit(Reached(ttl, start), write, teamID, commit, task);
    ReachedStep(ttl, start, write);
    hide Reached;
    ReachedAppend(ttl, start + [write], between);
    RunRemembers(Reached(ttl, start + [write]), between);
  }

  // ----- coherence when quiet

  /** Every committed write to the tasks of the team has also invalidated the team. */
  predicate Quiet(s: System, teamID: int) {
    forall n :: 0 <= n < |s.data.log| && s.data.log[n].team == Some(teamID) ==> (teamID, n) in s.cache.announced
  }

  /** The team's version has been increased since the last commit of the team that there is in a state of the log. */
  predicate TakenIn(s: System, teamID: int, snap: nat) {
    forall n: nat :: n <= snap && n < |s.data.log| && s.data.log[n].team == Some(teamID) ==> n <= LastFloor(FloorsOf(s.cache, teamID))
  }

  /**
   * The team's version has been increased since its last commit, by anyone and with or without a reply:
   * whatever invalidations were lost before, this one has made up for them.
   */
  predicate Healed(s: System, teamID: int) {
    TakenIn(s, teamID, Latest(s.data))
  }

  lemma QuietIsHealed(s: System, teamID: int)
    requires CacheInv(s) && Quiet(s, teamID)
    ensures Healed(s, teamID)
  {
    TeamFloor(s, teamID);
    hide CacheInv, CurrentVersion, FloorsOf, LastFloor;
  }

  /** Commits of other teams do not show in the list. */
  lemma {:induction false} ListUnchanged(d: DataSide, f: TaskFilter, i: nat, j: nat)
    requires FramesOk(d) && f.limit >= 0 && f.offset >= 0
    requires i <= j < |d.log|
    requires forall n :: i < n <= j ==> d.log[n].team != Some(f.teamID)
    ensures ListTasks(d.log[i].store.tasks, f) == ListTasks(d.log[j].store.tasks, f)
  {
    hide ListTasks;
    if i < j {
      ListUnchanged(d, f, i, j - 1);
      assert CommitFrame(d.log[j - 1].store, d.log[j]);
    }
  }

  lemma FramesFacts(s: System)
    requires CacheInv(s)
    ensures FramesOk(s.data)
  {
    hide LogOk, FramesOk, WritersOk, TeamsOk, KeysOk, ReadersOk;
  }

  lemma HealedSince(s: System, teamID: int, snap: nat)
    requires CacheInv(s) && Healed(s, teamID) && snap >= LastFloor(FloorsOf(s.cache, teamID))
    ensures forall n :: snap < n < |s.data.log| ==> s.data.log[n].team != Some(teamID)
  {
    TeamFloor(s, teamID);
    hide CacheInv, CurrentVersion, FloorsOf, LastFloor;
  }

  /** In a healed state, whatever is listed at or after the floor of the current version is what is listed now. */
  lemma HealedList(s: System, f: TaskFilter, rows: seq<Task>, snap: nat, readAt: int)
    requires CacheInv(s) && Healed(s, f.teamID)
    requires ListOk(s.data, FloorsOf(s.cache, f.teamID), f, |FloorsOf(s.cache, f.teamID)| - 1, rows, snap, readAt)
    ensures rows == ListTasks(Db(s.data).tasks, f)
  {
    hide CacheInv, ListTasks, CurrentVersion, FloorsOf, SnapAt, Healed;
    HealedSince(s, f.teamID, snap);
    FramesFacts(s);
    hide FramesOk;
    var last: nat := |s.data.log| - 1;
    ListUnchanged(s.data, f, snap, last);
  }

  lemma VersionIsLast(s: System, teamID: int)
    requires CacheInv(s)
    ensures CurrentVersion(s.cache.redis, teamID) == Ok(|FloorsOf(s.cache, teamID)| - 1)
  {
    TeamFloor(s, teamID);
    hide CacheInv, CurrentVersion, FloorsOf;
  }

  /**
   * Coherence. In every reachable state in which a team's version has been increased since the team's last
   * commit, whatever list is found under the current version is the list the database would give now. Lost
   * invalidations and failed reloads do no lasting harm: the next increase of the version heals them.
   */
  lemma HealedCacheIsCoherent(ttl: int, actions: seq<Action>, f: TaskFilter, rows: seq<Task>)
    requires ValidFilter(f)
    requires var s := Reached(ttl, actions);
      && Healed(s, f.teamID)
      && CurrentVersion(s.cache.redis, f.teamID).Ok?
      && GetList(s.cache.redis, f, CurrentVersion(s.cache.redis, f.teamID).value, s.data.now) == Ok(Some(rows))
    ensures rows == ListTasks(Db(Reached(ttl, actions).data).tasks, f)
  {
    var s := Reached(ttl, actions);
    CacheReachedOk(ttl, actions);
    hide Reached, CacheInv, GetList, HitOk, ListOk, ListTasks, CurrentVersion, FloorsOf, TaskListKey, Healed;
    VersionIsLast(s, f.teamID);
    HitMeaning(s, f, |FloorsOf(s.cache, f.teamID)| - 1, rows);
    var o := s.cache.origin[TaskListKey(f, |FloorsOf(s.cache, f.teamID)| - 1)];
    HealedList(s, f, rows, o.snap, o.readAt);
  }

  /** In particular a cache is coherent when every write to the team has invalidated it. */
  lemma QuietCacheIsCoherent(ttl: int, actions: seq<Action>, f: TaskFilter, rows: seq<Task>)
    requires ValidFilter(f)
    requires var s := Reached(ttl, actions);
      && Quiet(s, f.teamID)
      && CurrentVersion(s.cache.redis, f.teamID).Ok?
      && GetList(s.cache.redis, f, CurrentVersion(s.cache.redis, f.teamID).value, s.data.now) == Ok(Some(rows))
    ensures rows == ListTasks(Db(Reached(ttl, actions).data).tasks, f)
  {
    CacheReachedOk(ttl, actions);
    hide Reached, GetList, CurrentVersion, ListTasks, CacheInv, Quiet, Healed;
    QuietIsHealed(Reached(ttl, actions), f.teamID);
    HealedCacheIsCoherent(ttl, actions, f, rows);
  }

  // ----- one list after the other

  /** What was listed in a state that a later state differs from in commits of other teams only was listed in that one too. */
  lemma ListedLater(d: DataSide, r: Reader, snap: nat, later: nat)
    requires FramesOk(d) && ListedFrom(d, r, snap) && snap <= later < |d.log|
    requires forall n :: snap < n <= later ==> d.log[n].team != Some(r.input.teamID)
    ensures ListedFrom(d, r, later)
  {
    FilterTeam(r);
    hide ListTasks, FramesOk, ParseFilter;
    ListUnchanged(d, r.pc.filter, snap, later);
  }

  /**
   * Lists go forward. When the version has been increased since the last commit of the team that a returned list
   * shows, every list call of the team that begins later, by any member and with any filter, returns the list of the
   * same state or a later one.
   */
  lemma ListsGoForward(ttl: int, before: seq<Action>, first: nat, id: nat, input: ListInput, after: seq<Action>)
    requires
      var s0 := Reached(ttl, before);
      && first in s0.cache.readers && s0.cache.readers[first].pc.Listed?
      && TakenIn(s0, input.teamID, s0.cache.readers[first].pc.snap)
      && id !in s0.cache.readers
    requires var readers := ListRun(ttl, before, id, input, after).cache.readers;
      id in readers && readers[id].pc.Listed?
    ensures
      var s0, s := Reached(ttl, before), ListRun(ttl, before, id, input, after);
      var r := s0.cache.readers[first];
      && ListedFrom(s0.data, r, r.pc.snap)
      && exists snap: nat :: r.pc.snap <= snap && ListedFrom(s.data, s.cache.readers[id], snap)
  {
    var run := before + [ABeginList(id, input)] + after;
    var s0, s := Reached(ttl, before), Reached(ttl, run);
    hide CacheInv, Reached, ListedFrom, FloorsOf, LastFloor, TakenIn, HitOk, IsMember;
    CacheReachedOk(ttl, before);
    ListedFacts(s0, first);
    ListsAreFresh(ttl, before, id, input, after);
    var snap: nat :| ListedFrom(s.data, s.cache.readers[id], snap) && LastFloor(FloorsOf(s0.cache, input.teamID)) <= snap;
    var seen := s0.cache.readers[first].pc.snap;
    assert seen < |s0.data.log| by { SnapInLog(s0.data, s0.cache.readers[first]); }
    if snap < seen {
      CacheReachedOk(ttl, run);
      FramesFacts(s);
      LogGoesOn(ttl, before, ABeginList(id, input), after);
      OnlyOthers(s0, s, input.teamID, snap, seen);
      ListedLater(s.data, s.cache.readers[id], snap, seen);
    }
  }

  lemma SnapInLog(d: DataSide, r: Reader)
    requires r.pc.Listed? && ListedFrom(d, r, r.pc.snap)
    ensures r.pc.snap < |d.log|
  {
    hide ListTasks, ParseFilter;
  }

  predicate Extended(d: DataSide, d': DataSide) {
    |d.log| <= |d'.log| && forall n :: 0 <= n < |d.log| ==> d'.log[n] == d.log[n]
  }

  lemma LogGoesOn(ttl: int, before: seq<Action>, a: Action, after: seq<Action>)
    ensures Extended(Reached(ttl, before).data, Reached(ttl, before + [a] + after).data)
  {
    hide Reached;
    RunKeepsLog(ttl, before, [a] + after);
    assert before + ([a] + after) == before + [a] + after;
  }

  lemma OnlyOthers(s0: System, s: System, teamID: int, snap: nat, seen: nat)
    requires Extended(s0.data, s.data) && TakenIn(s0, teamID, seen) && seen < |s0.data.log|
    requires LastFloor(FloorsOf(s0.cache, teamID)) <= snap
    ensures forall n :: snap < n <= seen ==> s.data.log[n].team != Some(teamID)
  {
    hide FloorsOf, LastFloor;
  }

  // ----- bounded staleness

  /**
   * Bounded staleness. With a positive time to live, and even when invalidations fail, a list returned from
   * the cache at some time is the list of a state that includes every commit made up to a time to live and
   * a storing delay before. The storing delay is the longest time between a query and the storing of its list.
   */
  lemma HitsAreRecent(ttl: int, actions: seq<Action>, id: nat, delay: int)
    requires ttl > 0 && Reached(ttl, actions).cache.maxDelay <= delay
    requires var readers := Reached(ttl, actions).cache.readers;
      id in readers && readers[id].pc.Listed? && readers[id].pc.source.FromCache?
    ensures
      var s := Reached(ttl, actions);
      var r := s.cache.readers[id];
      && ListedFrom(s.data, r, r.pc.snap)
      && forall n :: 0 <= n < |s.data.log| && s.data.log[n].at <= r.pc.source.at - ttl - delay ==> n <= r.pc.snap
  {
    CacheReachedOk(ttl, actions);
    ReachedTtl(ttl, actions);
    hide Reached, CacheInv, ListedFrom;
    ListedFacts(Reached(ttl, actions), id);
  }

  lemma {:induction false} ReachedTtl(ttl: int, actions: seq<Action>)
    ensures Reached(ttl, actions).ttl == ttl
    decreases |actions|
  {
    hide DataStep, CacheStep;
    if actions != [] {
      ReachedTtl(ttl, actions[..|actions| - 1]);
    }
  }

  /** A list call that reads the cache leaves the cache as it is: a hit extends no life. */
  lemma ReadingLeavesRedis(s: System, id: nat, o: Outcome)
    requires id in s.cache.readers && !s.cache.readers[id].pc.Storing?
    ensures Step(s, AList(id, o)).cache.redis == s.cache.redis
    ensures Step(s, AList(id, o)).data == s.data
  {
    hide IsMember, AfterReaderCheck, AfterVersionRead, AfterEntryRead, AfterQuery, StoreEntry, CurrentVersion, RedisStore.SetList;
    assert DataStep(s.data, AList(id, o)) == s.data;
    hide DataStep;
  }

  /** A call that could not read the cache, or has ended, stores nothing any more. */
  predicate WillNotStore(pc: ReaderPc) {
    (pc.Querying? && pc.cacheVersion.None?) || pc.Listed? || pc.ListFailed?
  }

  lemma StepWillNotStore(s: System, a: Action, id: nat)
    requires id in s.cache.readers && WillNotStore(s.cache.readers[id].pc)
    ensures id in Step(s, a).cache.readers && WillNotStore(Step(s, a).cache.readers[id].pc)
  {
    StepRemembers(s, a);
    hide DataStep, Remembers;
    if a.AList? && a.id != id {
      OtherReaders(s.cache, s.data, s.ttl, a.id, a.o, id);
    } else {
      hide AfterReaderCheck, AfterVersionRead, AfterEntryRead, StoreEntry, Incr, ListNumbersOk;
    }
  }

  lemma SetReaderOthers(c: CacheSide, c1: CacheSide, id: nat, pc: ReaderPc, other: nat)
    requires id != other && other in c.readers && c1.readers == c.readers
    ensures other in SetReader(c1, id, pc).readers && SetReader(c1, id, pc).readers[other] == c.readers[other]
  {
  }

  lemma OtherReaders(c: CacheSide, d: DataSide, ttl: int, id: nat, o: Outcome, other: nat)
    requires id != other && other in c.readers
    ensures var c' := ListStep(c, d, ttl, id, o); other in c'.readers && c'.readers[other] == c.readers[other]
  {
    hide AfterReaderCheck, AfterVersionRead, AfterEntryRead, AfterQuery, SetReader, IsMember, CurrentVersion, RedisStore.SetList;
    if id in c.readers {
      var r := c.readers[id];
      match r.pc
      case CheckingReader =>
        SetReaderOthers(c, c, id, AfterReaderCheck(IsMember(Db(d), r.input.teamID, r.input.requestedBy), r.input, o), other);
      case ReadingVersion(f) => SetReaderOthers(c, c, id, AfterVersionRead(CurrentVersion(c.redis, f.teamID), f, o), other);
      case ReadingEntry(f, v) => SetReaderOthers(c, c, id, AfterEntryRead(c, f, v, d.now, o), other);
      case Querying(f, v) => SetReaderOthers(c, c, id, AfterQuery(d, f, v, o), other);
      case Storing(f, v, rows, snap, _) =>
        SetReaderOthers(c, if o.FailsBefore? then c else StoreEntry(c, r.pc, d.now, ttl), id,
                        Listed(f, rows, snap, FromDatabase), other);
      case _ =>
    }
  }

  /** After a failed read of the cache, no later step of the call writes to it. */
  lemma {:induction false} FailedGetNeverStores(s: System, actions: seq<Action>, id: nat, o: Outcome)
    requires id in s.cache.readers && s.cache.readers[id].pc.Querying? && s.cache.readers[id].pc.cacheVersion.None?
    ensures id in Run(s, actions).cache.readers && WillNotStore(Run(s, actions).cache.readers[id].pc)
    ensures Step(Run(s, actions), AList(id, o)).cache.redis == Run(s, actions).cache.redis
    decreases |actions|
  {
    hide Step;
    if actions != [] {
      FailedGetNeverStores(s, actions[..|actions| - 1], id, o);
      StepWillNotStore(Run(s, actions[..|actions| - 1]), actions[|actions| - 1], id);
    }
    ReadingLeavesRedis(Run(s, actions), id, o);
  }
}
