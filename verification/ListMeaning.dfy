/** What a list call answers, in terms of its input, the tables and the cache: which rows, in which order, which of them, or which error. */
module ListMeaning {
  import opened Domain
  import opened Sorting
  import opened CacheKeys
  import opened TaskQueries
  import opened Store
  import opened RedisStore
  import opened Service
  import opened Transactions
  import opened Calls

  // ----- the rows

  /** The rows that the input asks for. */
  predicate AskedFor(input: ListInput, row: Task) {
    && row.teamID == input.teamID
    && (TrimSpace(input.status) != "" ==> row.status == TrimSpace(input.status))
    && (input.assigneeID.Some? ==> row.assigneeID == input.assigneeID)
  }

  predicate NewestFirst(rows: seq<Task>) {
    forall i, j :: 0 <= i < j < |rows| ==>
      rows[i].createdAt > rows[j].createdAt || (rows[i].createdAt == rows[j].createdAt && rows[i].id > rows[j].id)
  }

  /** The part of a list from the offset on, of at most as many rows as the limit says. */
  predicate PartOf(all: seq<Task>, offset: int, limit: int, rows: seq<Task>) {
    && |rows| == (if offset >= |all| then 0 else if |all| - offset <= limit then |all| - offset else limit)
    && forall k :: 0 <= k < |rows| && 0 <= offset + k < |all| ==> rows[k] == all[offset + k]
  }

  /** The rows are positions offset to offset + limit of all that the input asks for, newest first. */
  ghost predicate Answers(tasks: seq<Task>, input: ListInput, rows: seq<Task>) {
    exists all ::
      && (forall row :: row in all <==> row in tasks && AskedFor(input, row))
      && NewestFirst(all)
      && PartOf(all, input.offset, input.limit, rows)
  }

  /** In particular each row of an answer is one that was asked for. */
  lemma AnswersAreAskedFor(tasks: seq<Task>, input: ListInput, rows: seq<Task>)
    requires Answers(tasks, input, rows) && input.offset >= 0
    ensures forall row :: row in rows ==> row in tasks && AskedFor(input, row)
    ensures NewestFirst(rows) && (input.limit >= 0 ==> |rows| <= input.limit)
  {
    var all :| (forall row :: row in all <==> row in tasks && AskedFor(input, row)) && NewestFirst(all)
      && PartOf(all, input.offset, input.limit, rows);
    hide AskedFor;
    forall row | row in rows ensures row in all {
      var k :| 0 <= k < |rows| && rows[k] == row;
      assert all[input.offset + k] == row;
    }
  }

  // ----- the filter that is made of an input

  predicate BadNumbers(input: ListInput) {
    input.teamID <= 0 || input.requestedBy <= 0 || input.limit <= 0 || input.limit > 100 || input.offset < 0
  }

  predicate BadFilter(input: ListInput) {
    var status := TrimSpace(input.status);
    || (status != "" && status != "todo" && status != "in_progress" && status != "done")
    || (input.assigneeID.Some? && input.assigneeID.value <= 0)
  }

  /** The filter under which the list is cached. */
  function CachedFilter(input: ListInput): TaskFilter {
    TaskFilter(input.teamID, if TrimSpace(input.status) == "" then None else Some(TrimSpace(input.status)),
               input.assigneeID, input.limit, input.offset)
  }

  lemma ParsedFilter(input: ListInput)
    ensures ParseFilter(input) == if BadFilter(input) then Err(InvalidInput) else Ok(CachedFilter(input))
    ensures ListNumbersOk(input) <==> !BadNumbers(input)
  {
    hide TrimSpace;
  }

  lemma MatchesAskedFor(input: ListInput, row: Task)
    ensures Matches(CachedFilter(input), row) <==> AskedFor(input, row)
  {
    hide TrimSpace;
  }

  lemma OrderedIsNewestFirst(rows: seq<Task>)
    ensures Ordered(TaskBefore, rows) <==> NewestFirst(rows)
  {
    if Ordered(TaskBefore, rows) {
      forall i, j | 0 <= i < j < |rows|
        ensures rows[i].createdAt > rows[j].createdAt || (rows[i].createdAt == rows[j].createdAt && rows[i].id > rows[j].id) {
        assert TaskBefore(rows[i], rows[j]);
      }
    }
  }

  lemma PageIsPart(all: seq<Task>, limit: nat, offset: nat)
    ensures PartOf(all, offset, limit, Page(all, limit, offset))
  {
  }

  /** What the query of the input's filter lists is what the input asks for. */
  lemma ListAnswersInput(tasks: seq<Task>, input: ListInput)
    requires UniqueIDs(tasks) && input.limit >= 0 && input.offset >= 0
    ensures Answers(tasks, input, ListTasks(tasks, CachedFilter(input)))
  {
    var all := AllMatching(tasks, CachedFilter(input));
    AllMatchingMeaning(tasks, CachedFilter(input));
    OrderedIsNewestFirst(all);
    PageIsPart(all, input.limit, input.offset);
    forall row ensures row in all <==> row in tasks && AskedFor(input, row) {
      MatchesAskedFor(input, row);
    }
    hide AllMatching, AskedFor, Matches, Page, Ordered, NewestFirst, PartOf, Distinct, TrimSpace, UniqueIDs;
    assert ListTasks(tasks, CachedFilter(input)) == Page(all, input.limit, input.offset);
  }

  // ----- the whole call

  /** What the cache holds for the input under the current version of its team. */
  function Cached(redis: Redis, now: int, input: ListInput): Option<seq<Task>> {
    var version := RedisStore.CurrentVersion(redis, input.teamID);
    if version.Err? then None
    else
      var found := GetList(redis, CachedFilter(input), version.value, now);
      if found.Err? then None else found.value
  }

  /** The cache has answered, with a list or with none. */
  predicate CacheRead(redis: Redis, now: int, input: ListInput, f: ListFaults) {
    var version := RedisStore.CurrentVersion(redis, input.teamID);
    && f.version.Succeeds? && f.entry.Succeeds?
    && version.Ok? && GetList(redis, CachedFilter(input), version.value, now).Ok?
  }

  /**
   * How a list call ends. Only bad input, a caller who is no member, and failures of the database are errors: a cache
   * that fails is a cache that has nothing. Only after a miss is the answer stored, under the version that was read.
   */
  ghost predicate ListEndsWell(db: Tables, redis: Redis, now: int, ttl: int, input: ListInput, f: ListFaults, end: ListEnd) {
    var member := IsMember(db.store, input.teamID, input.requestedBy);
    var read := CacheRead(redis, now, input, f);
    var hit := read && Cached(redis, now, input).Some?;
    && (end.result == Err(InvalidInput) <==> BadNumbers(input) || (f.member.Succeeds? && member && BadFilter(input)))
    && (end.result == Err(Forbidden) <==> !BadNumbers(input) && f.member.Succeeds? && !member)
    && (end.result == Err(Infrastructure) <==>
          !BadNumbers(input) && (!f.member.Succeeds? || (member && !BadFilter(input) && !hit && !f.query.Succeeds?)))
    && (end.result.Err? ==> end.result.error in {InvalidInput, Forbidden, Infrastructure} && end.redis == redis)
    && (end.result.Ok? && hit ==> end.result.value == Cached(redis, now, input).value && end.redis == redis)
    && (end.result.Ok? && !hit ==>
          && Answers(db.store.tasks, input, end.result.value)
          && end.redis == if !read || f.store.FailsBefore? then redis
                          else redis[TaskListKey(CachedFilter(input), RedisStore.CurrentVersion(redis, input.teamID).value)
                                     := TaskList(end.result.value, if ttl > 0 then Some(now + ttl) else None)])
  }

  lemma CacheGetMeans(redis: Redis, now: int, input: ListInput, f: ListFaults)
    ensures var cached := CacheGet(redis, now, CachedFilter(input), f.version, f.entry);
      && (cached.Ok? <==> CacheRead(redis, now, input, f))
      && (cached.Ok? ==>
            cached == Ok(CacheAnswer(RedisStore.CurrentVersion(redis, input.teamID).value, Cached(redis, now, input))))
  {
    hide GetList, RedisStore.CurrentVersion, TrimSpace;
  }

  /** What the call does once the input and the caller have been checked. */
  lemma CheckedCall(db: Tables, redis: Redis, now: int, ttl: int, input: ListInput, f: ListFaults)
    requires !BadNumbers(input) && !BadFilter(input) && f.member.Succeeds? && IsMember(db.store, input.teamID, input.requestedBy)
    ensures
      var end := ListCall(db, redis, now, ttl, input, f);
      var read := CacheRead(redis, now, input, f);
      var rows := ListTasks(db.store.tasks, CachedFilter(input));
      end == if read && Cached(redis, now, input).Some? then ListEnd(redis, Ok(Cached(redis, now, input).value))
             else if !f.query.Succeeds? then ListEnd(redis, Err(Infrastructure))
             else ListEnd(if !read || f.store.FailsBefore? then redis
                          else redis[TaskListKey(CachedFilter(input), RedisStore.CurrentVersion(redis, input.teamID).value)
                                     := TaskList(rows, if ttl > 0 then Some(now + ttl) else None)], Ok(rows))
  {
    ParsedFilter(input);
    CacheGetMeans(redis, now, input, f);
    hide BadFilter, BadNumbers, ListTasks, ParseFilter, CacheGet, Cached, CacheRead, CachedFilter, RedisStore.CurrentVersion, TaskListKey,
      ListNumbersOk, IsMember;
  }

  lemma RefusedCall(db: Tables, redis: Redis, now: int, ttl: int, input: ListInput, f: ListFaults)
    requires BadNumbers(input) || BadFilter(input) || !f.member.Succeeds? || !IsMember(db.store, input.teamID, input.requestedBy)
    ensures ListCall(db, redis, now, ttl, input, f)
         == ListEnd(redis, Err(if BadNumbers(input) then InvalidInput
                               else if !f.member.Succeeds? then Infrastructure
                               else if !IsMember(db.store, input.teamID, input.requestedBy) then Forbidden
                               else InvalidInput))
  {
    ParsedFilter(input);
    hide BadFilter, BadNumbers, ListTasks, ParseFilter, CacheGet, CachedFilter, ListNumbersOk, IsMember;
  }

  lemma ListCallEnds(db: Tables, redis: Redis, now: int, ttl: int, input: ListInput, f: ListFaults)
    requires UniqueIDs(db.store.tasks)
    ensures ListEndsWell(db, redis, now, ttl, input, f, ListCall(db, redis, now, ttl, input, f))
  {
    hide Answers, BadFilter, ListTasks, UniqueIDs, CachedFilter, CacheRead, Cached, ListCall, IsMember, RedisStore.CurrentVersion, TaskListKey;
    if BadNumbers(input) || BadFilter(input) || !f.member.Succeeds? || !IsMember(db.store, input.teamID, input.requestedBy) {
      RefusedCall(db, redis, now, ttl, input, f);
    } else {
      ListAnswersInput(db.store.tasks, input);
      CheckedCall(db, redis, now, ttl, input, f);
    }
  }
}
