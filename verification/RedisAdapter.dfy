/** The task-list cache: a version counter per team and lists stored under the version they were read with. */
module RedisAdapter {
  import opened Domain
  import opened CacheKeys
  import opened RedisStore
  import opened Service
  import opened Calls

  class RedisServer {
    var entries: Redis
    var now: int

    constructor (now: int)
      ensures entries == map[] && this.now == now
    {
      entries := map[];
      this.now := now;
    }
  }

  class TaskCache {
    const client: RedisServer
    const ttl: int

    constructor (client: RedisServer, ttl: int)
      ensures this.client == client && this.ttl == ttl
    {
      this.client := client;
      this.ttl := ttl;
    }

    /** The version, and the list under it if there is one; an answer with an error is no miss. */
    method Get(filter: TaskFilter, version: Outcome, entry: Outcome) returns (r: Result<CacheAnswer>)
      ensures r == CacheGet(client.entries, client.now, filter, version, entry)
    {
      var current := RedisStore.CurrentVersion(client.entries, filter.teamID);
      if !version.Succeeds? {
        return Err(Infrastructure);
      }
      if current.Err? {
        return Err(current.error);
      }
      var value := Lookup(client.entries, TaskListKey(filter, current.value), client.now);
      if !entry.Succeeds? {
        return Err(Infrastructure);
      }
      if value.None? {
        return Ok(CacheAnswer(current.value, None));
      }
      if !value.value.TaskList? {
        return Err(Infrastructure);
      }
      return Ok(CacheAnswer(current.value, Some(value.value.tasks)));
    }

    /** Stores under the version that was read, which need not be the current one any more. */
    method Set(filter: TaskFilter, version: int, tasks: seq<Task>, o: Outcome) returns (r: Result<()>)
      modifies client
      ensures client.entries == CacheSet(old(client.entries), client.now, ttl, filter, version, tasks, o)
      ensures client.now == old(client.now)
      ensures r == if o.Succeeds? then Ok(()) else Err(Infrastructure)
    {
      if o.FailsBefore? {
        return Err(Infrastructure);
      }
      var key := TaskListKey(filter, version);
      var expiresAt := if ttl > 0 then Some(client.now + ttl) else None;
      client.entries := client.entries[key := TaskList(tasks, expiresAt)];
      return if o.FailsAfter? then Err(Infrastructure) else Ok(());
    }

    /** INCR of the version: every list stored so far is left behind. */
    method InvalidateTeam(teamID: int, o: Outcome) returns (r: Result<()>)
      modifies client
      ensures client.entries == Invalidate(old(client.entries), teamID, o)
      ensures client.now == old(client.now)
      ensures r.Ok? <==> o.Succeeds? && RedisStore.CurrentVersion(old(client.entries), teamID).Ok?
    {
      if o.FailsBefore? {
        return Err(Infrastructure);
      }
      var key := TaskVersionKey(teamID);
      if key !in client.entries {
        client.entries := client.entries[key := Version(1)];
      } else if client.entries[key].Version? {
        client.entries := client.entries[key := Version(client.entries[key].n + 1)];
      } else {
        return Err(Infrastructure);
      }
      return if o.FailsAfter? then Err(Infrastructure) else Ok(());
    }
  }
}
