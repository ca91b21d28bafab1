/** The Redis keyspace of the task cache: version counters and expiring task lists. */
module RedisStore {
  import opened Domain
  import opened CacheKeys

  datatype RedisValue =
    | Version(n: int)
    | TaskList(tasks: seq<Task>, expiresAt: Option<int>)

  type Redis = map<string, RedisValue>

  predicate Live(v: RedisValue, now: int) {
    v.TaskList? && v.expiresAt.Some? ==> now < v.expiresAt.value
  }

  function Lookup(redis: Redis, key: string, now: int): Option<RedisValue> {
    if key in redis && Live(redis[key], now) then Some(redis[key]) else None
  }

  /** `currentVersion`: a missing key is version 0, a value that is no integer is an error. */
  function CurrentVersion(redis: Redis, teamID: int): Result<int> {
    var key := TaskVersionKey(teamID);
    if key !in redis then Ok(0)
    else if redis[key].Version? then Ok(redis[key].n)
    else Err(Infrastructure)
  }

  /** GET of a list key: a miss, a list, or a value that does not decode. */
  function GetList(redis: Redis, f: TaskFilter, version: int, now: int): Result<Option<seq<Task>>> {
    var found := Lookup(redis, TaskListKey(f, version), now);
    if found.None? then Ok(None)
    else if found.value.TaskList? then Ok(Some(found.value.tasks))
    else Err(Infrastructure)
  }

  /** SET with a time to live; the client sends none when it is not positive. */
  function SetList(redis: Redis, f: TaskFilter, version: int, tasks: seq<Task>, now: int, ttl: int): Redis {
    redis[TaskListKey(f, version) := TaskList(tasks, if ttl > 0 then Some(now + ttl) else None)]
  }

  /** INCR of a team's version. */
  function Incr(redis: Redis, teamID: int): Result<Redis> {
    var v := CurrentVersion(redis, teamID);
    if v.Err? then Err(v.error) else Ok(redis[TaskVersionKey(teamID) := Version(v.value + 1)])
  }
}
