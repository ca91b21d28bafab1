/** The values that the use cases, the MySQL adapters and the Redis adapters exchange. */
module Domain {

  datatype Option<+T> = None | Some(value: T)

  /** The sentinel errors of the domain, and every wrapped infrastructure error as one value. */
  datatype Error =
    | InvalidInput
    | Forbidden
    | AssigneeNotTeamMember
    | TaskNotFound
    | TeamMemberAlreadyExists
    | UserNotFound
    | UnsupportedField
    | Infrastructure

  datatype Result<+T> = Ok(value: T) | Err(error: Error)

  const STATUS_TODO := "todo"
  const STATUS_IN_PROGRESS := "in_progress"
  const STATUS_DONE := "done"

  predicate ValidStatus(status: string) {
    status == STATUS_TODO || status == STATUS_IN_PROGRESS || status == STATUS_DONE
  }

  const FIELD_TITLE := "title"
  const FIELD_DESCRIPTION := "description"
  const FIELD_STATUS := "status"
  const FIELD_ASSIGNEE := "assignee_id"

  const ROLE_OWNER := "owner"
  const ROLE_ADMIN := "admin"
  const ROLE_MEMBER := "member"

  const MAX_TITLE := 255

  /** A task; the same record is one row of the `tasks` table. */
  datatype Task = Task(
    id: int,
    teamID: int,
    title: string,
    description: string,
    status: string,
    assigneeID: Option<int>,
    createdBy: int,
    completedAt: Option<int>,
    createdAt: int,
    updatedAt: int)

  datatype TaskFilter = TaskFilter(
    teamID: int,
    status: Option<string>,
    assigneeID: Option<int>,
    limit: int,
    offset: int)

  datatype TaskChange = TaskChange(fieldName: string, oldValue: Option<string>, newValue: Option<string>)

  /** What `Tasks.List` accepts as a filter: the bounds it checks before it touches the cache. */
  predicate ValidFilter(f: TaskFilter) {
    && f.teamID > 0
    && (f.status.Some? ==> ValidStatus(f.status.value))
    && (f.assigneeID.Some? ==> f.assigneeID.value > 0)
    && 0 < f.limit <= 100
    && 0 <= f.offset
  }

  /** Unicode white space, as the trimming of the input strings defines it. */
  predicate IsSpace(c: char) {
    || c == ' '
    || '\t' <= c <= '\r'
    || c == '\U{0085}' || c == '\U{00A0}' || c == '\U{1680}'
    || '\U{2000}' <= c <= '\U{200A}'
    || c == '\U{2028}' || c == '\U{2029}' || c == '\U{202F}' || c == '\U{205F}' || c == '\U{3000}'
  }

  function TrimLeft(s: string): (r: string)
    ensures |r| <= |s| && s[|s| - |r|..] == r
    ensures r != [] ==> !IsSpace(r[0])
    ensures forall i :: 0 <= i < |s| - |r| ==> IsSpace(s[i])
  {
    if s == [] || !IsSpace(s[0]) then s else TrimLeft(s[1..])
  }

  function TrimRight(s: string): (r: string)
    ensures |r| <= |s| && s[..|r|] == r
    ensures r != [] ==> !IsSpace(r[|r| - 1])
    ensures forall i :: |r| <= i < |s| ==> IsSpace(s[i])
  {
    if s == [] || !IsSpace(s[|s| - 1]) then s else TrimRight(s[..|s| - 1])
  }

  function TrimSpace(s: string): (r: string)
    ensures r != [] ==> !IsSpace(r[0]) && !IsSpace(r[|r| - 1])
  {
    var left := TrimLeft(s);
    var r := TrimRight(left);
    assert r != [] ==> r[0] == left[0];
    r
  }

  /** The part of a string between two positions, which white space alone surrounds. */
  predicate InnerPart(s: string, r: string, i: nat, j: nat) {
    && i <= j <= |s| && r == s[i..j]
    && (forall k :: 0 <= k < i ==> IsSpace(s[k]))
    && (forall k :: j <= k < |s| ==> IsSpace(s[k]))
  }

  /** Trimming takes away the outer white space and nothing else. */
  lemma TrimSpaceMeaning(s: string) returns (i: nat, j: nat)
    ensures InnerPart(s, TrimSpace(s), i, j)
    ensures TrimSpace(s) != "" ==> !IsSpace(TrimSpace(s)[0]) && !IsSpace(TrimSpace(s)[|TrimSpace(s)| - 1])
  {
    hide IsSpace, TrimLeft, TrimRight;
    var left := TrimLeft(s);
    i, j := |s| - |left|, |s| - |left| + |TrimRight(left)|;
    BothTrims(s, left, TrimRight(left));
  }

  lemma BothTrims(s: string, left: string, r: string)
    requires |left| <= |s| && s[|s| - |left|..] == left && |r| <= |left| && left[..|r|] == r
    requires forall k :: |r| <= k < |left| ==> IsSpace(left[k])
    ensures r == s[|s| - |left|..|s| - |left| + |r|]
    ensures forall k :: |s| - |left| + |r| <= k < |s| ==> IsSpace(s[k])
  {
    hide IsSpace;
    var i := |s| - |left|;
    forall k | i + |r| <= k < |s| ensures IsSpace(s[k]) {
      assert s[k] == left[k - i];
    }
  }

  /** A string without outer white space is its own trimmed form. */
  lemma TrimSpaceFixed(s: string)
    requires s != "" ==> !IsSpace(s[0]) && !IsSpace(s[|s| - 1])
    ensures TrimSpace(s) == s
  {
    if s != [] {
      assert TrimLeft(s) == s;
      assert TrimRight(s) == s;
    }
  }

  /** Trimming a trimmed string changes nothing, which is what makes a repeated update a no-op. */
  lemma TrimSpaceIdempotent(s: string)
    ensures TrimSpace(TrimSpace(s)) == TrimSpace(s)
  {
    TrimSpaceFixed(TrimSpace(s));
  }

  /** The title rule of `Tasks.Create` and `Tasks.Update`, for a title that is already trimmed. */
  predicate ValidTitle(title: string) {
    title != "" && |title| <= MAX_TITLE
  }

  /** What every stored title satisfies. */
  predicate StoredTitle(title: string) {
    ValidTitle(title) && TrimSpace(title) == title
  }
}
