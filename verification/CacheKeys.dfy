/** The Redis keys of the task-list cache and of the rate limiter, and why they never collide. */
module CacheKeys {
  import opened Domain
  import opened Decimal

  const ALL := "all"

  /** The key formats are parts separated by colons. */
  function Join(parts: seq<string>): string
    requires parts != []
  {
    if |parts| == 1 then parts[0] else parts[0] + [':'] + Join(parts[1..])
  }

  function StatusPart(status: Option<string>): string {
    if status.None? then ALL else status.value
  }

  function AssigneePart(assigneeID: Option<int>): string {
    if assigneeID.None? then ALL else FormatInt(assigneeID.value)
  }

  function TaskVersionKey(teamID: int): string {
    Join(["tasks", "team", FormatInt(teamID), "version"])
  }

  function TaskListKeyParts(f: TaskFilter, version: int): seq<string> {
    ["tasks", "team", FormatInt(f.teamID), "v", FormatInt(version), "status", StatusPart(f.status),
     "assignee", AssigneePart(f.assigneeID), "limit", FormatInt(f.limit), "offset", FormatInt(f.offset)]
  }

  function TaskListKey(f: TaskFilter, version: int): string {
    Join(TaskListKeyParts(f, version))
  }

  function RateLimitKey(userID: int): string {
    Join(["rate_limit", "user", FormatInt(userID)])
  }

  predicate NoColon(s: string) {
    forall i :: 0 <= i < |s| ==> s[i] != ':'
  }

  /** The length of the part before the first colon. */
  function FirstColon(s: string): (n: nat)
    ensures n <= |s| && NoColon(s[..n])
    ensures n < |s| ==> s[n] == ':'
  {
    if s == [] || s[0] == ':' then 0 else 1 + FirstColon(s[1..])
  }

  function Split(s: string): (parts: seq<string>)
    ensures parts != []
    decreases |s|
  {
    var n := FirstColon(s);
    if n == |s| then [s] else [s[..n]] + Split(s[n + 1..])
  }

  lemma FirstColonOf(a: string, x: string)
    requires NoColon(a)
    ensures FirstColon(a) == |a|
    ensures FirstColon(a + [':'] + x) == |a|
  {
    var s := a + [':'] + x;
    var n := FirstColon(s);
    assert s[|a|] == ':';
    assert forall i :: 0 <= i < |a| ==> s[i] == a[i];
    assert n > |a| ==> s[..n][|a|] == ':';
  }

  /** Splitting undoes joining, for parts that hold no colon of their own. */
  lemma {:induction false} SplitJoin(parts: seq<string>)
    requires parts != [] && forall i :: 0 <= i < |parts| ==> NoColon(parts[i])
    ensures Split(Join(parts)) == parts
  {
    if |parts| == 1 {
      FirstColonOf(parts[0], "");
    } else {
      var rest := Join(parts[1..]);
      FirstColonOf(parts[0], rest);
      SplitJoin(parts[1..]);
      var s := parts[0] + [':'] + rest;
      assert s[..|parts[0]|] == parts[0] && s[|parts[0]| + 1..] == rest;
    }
  }

  lemma AssigneePartInjective(a: Option<int>, b: Option<int>)
    requires AssigneePart(a) == AssigneePart(b)
    ensures a == b
  {
    assert ALL[0] == 'a';
    if a.Some? && b.Some? {
      FormatIntInjective(a.value, b.value);
    }
  }

  lemma PartsHaveNoColon(f: TaskFilter, v: int)
    requires f.status.Some? ==> ValidStatus(f.status.value)
    ensures forall i :: 0 <= i < |TaskListKeyParts(f, v)| ==> NoColon(TaskListKeyParts(f, v)[i])
  {
    var parts := TaskListKeyParts(f, v);
    assert NoColon(StatusPart(f.status));
    assert NoColon(AssigneePart(f.assigneeID));
    hide StatusPart, AssigneePart, FormatInt, ValidStatus;
    assert NoColon(parts[0]) && NoColon(parts[1]) && NoColon(parts[3]) && NoColon(parts[5]);
    assert NoColon(parts[7]) && NoColon(parts[9]) && NoColon(parts[11]);
    hide NoColon;
  }

  lemma SplitListKey(f: TaskFilter, v: int)
    requires f.status.Some? ==> ValidStatus(f.status.value)
    ensures Split(TaskListKey(f, v)) == TaskListKeyParts(f, v)
  {
    PartsHaveNoColon(f, v);
    assert TaskListKeyParts(f, v) != [];
    hide NoColon, TaskListKeyParts, Join, Split;
    SplitJoin(TaskListKeyParts(f, v));
  }

  lemma SplitVersionKey(t: int)
    ensures Split(TaskVersionKey(t)) == ["tasks", "team", FormatInt(t), "version"]
  {
    SplitJoin(["tasks", "team", FormatInt(t), "version"]);
  }

  /**
   * Two list keys are equal only for the same filter and the same version. All that is asked of the
   * filters is what `Tasks.List` has checked: a given status is one of the three.
   */
  lemma TaskListKeyInjective(f: TaskFilter, v: int, g: TaskFilter, w: int)
    requires f.status.Some? ==> ValidStatus(f.status.value)
    requires g.status.Some? ==> ValidStatus(g.status.value)
    requires TaskListKey(f, v) == TaskListKey(g, w)
    ensures f == g && v == w
  {
    SplitListKey(f, v);
    SplitListKey(g, w);
    var p, q := TaskListKeyParts(f, v), TaskListKeyParts(g, w);
    assert p[2] == q[2] && p[4] == q[4] && p[6] == q[6] && p[8] == q[8] && p[10] == q[10] && p[12] == q[12];
    FormatIntInjective(f.teamID, g.teamID);
    FormatIntInjective(v, w);
    AssigneePartInjective(f.assigneeID, g.assigneeID);
    FormatIntInjective(f.limit, g.limit);
    FormatIntInjective(f.offset, g.offset);
  }

  lemma TaskVersionKeyInjective(t: int, u: int)
    requires TaskVersionKey(t) == TaskVersionKey(u)
    ensures t == u
  {
    SplitVersionKey(t);
    SplitVersionKey(u);
    FormatIntInjective(t, u);
  }

  /** No list key is a version key, and neither is a rate-limit key: the keyspaces are disjoint. */
  lemma KeyspacesDisjoint(f: TaskFilter, v: int, t: int, user: int)
    requires f.status.Some? ==> ValidStatus(f.status.value)
    ensures TaskListKey(f, v) != TaskVersionKey(t)
    ensures RateLimitKey(user) != TaskListKey(f, v)
    ensures RateLimitKey(user) != TaskVersionKey(t)
  {
    SplitListKey(f, v);
    SplitVersionKey(t);
    SplitJoin(["rate_limit", "user", FormatInt(user)]);
    assert |Split(RateLimitKey(user))| == 3;
  }
}
