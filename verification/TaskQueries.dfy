/** The task list query: its text and arguments, what MySQL makes of them, and what they mean. */
module TaskQueries {
  import opened Domain
  import opened Sorting

  datatype SqlValue = IntValue(n: int) | TextValue(text: string) | TimeValue(time: int) | NullValue

  /**
   * SELECT ... FROM tasks AS t WHERE <conditions> ORDER BY t.created_at DESC, t.id DESC LIMIT ? OFFSET ?.
   * Each condition is a column compared with one placeholder.
   */
  datatype SelectTasks = SelectTasks(conditions: seq<string>)

  function ColumnOf(row: Task, column: string): Option<SqlValue> {
    if column == "team_id" then Some(IntValue(row.teamID))
    else if column == "status" then Some(TextValue(row.status))
    else if column == "assignee_id" then
      Some(if row.assigneeID.None? then NullValue else IntValue(row.assigneeID.value))
    else None
  }

  /** SQL equality: NULL equals nothing, itself included. */
  predicate SqlEqual(a: SqlValue, b: SqlValue) {
    a == b && a != NullValue
  }

  /** Condition i takes argument i. */
  predicate Satisfies(row: Task, conditions: seq<string>, arguments: seq<SqlValue>)
    requires |conditions| <= |arguments|
  {
    forall i :: 0 <= i < |conditions| ==>
      ColumnOf(row, conditions[i]).Some? && SqlEqual(ColumnOf(row, conditions[i]).value, arguments[i])
  }

  /** ORDER BY created_at DESC, id DESC. */
  predicate TaskBefore(a: Task, b: Task) {
    a.createdAt > b.createdAt || (a.createdAt == b.createdAt && a.id > b.id)
  }

  function Page<T>(xs: seq<T>, limit: nat, offset: nat): (page: seq<T>)
    ensures |page| <= limit
  {
    if offset >= |xs| then []
    else if offset + limit >= |xs| then xs[offset..]
    else xs[offset..offset + limit]
  }

  function RowSelector(conditions: seq<string>, arguments: seq<SqlValue>): Task -> bool
    requires |conditions| <= |arguments|
  {
    (row: Task) => Satisfies(row, conditions, arguments)
  }

  /** What MySQL answers; None is an error: wrong argument count, or a LIMIT that is no count. */
  function ExecuteSelect(query: SelectTasks, arguments: seq<SqlValue>, tasks: seq<Task>): Option<seq<Task>> {
    var n := |query.conditions|;
    if |arguments| != n + 2 || !arguments[n].IntValue? || !arguments[n + 1].IntValue? then None
    else if arguments[n].n < 0 || arguments[n + 1].n < 0 then None
    else
      var rows := Filter(RowSelector(query.conditions, arguments), tasks);
      Some(Page(Sort(TaskBefore, rows), arguments[n].n, arguments[n + 1].n))
  }

  // ----- what a list means

  predicate Matches(f: TaskFilter, row: Task) {
    && row.teamID == f.teamID
    && (f.status.Some? ==> row.status == f.status.value)
    && (f.assigneeID.Some? ==> row.assigneeID == f.assigneeID)
  }

  function FilterSelector(f: TaskFilter): Task -> bool {
    (row: Task) => Matches(f, row)
  }

  /** Every matching task, newest first. */
  function AllMatching(tasks: seq<Task>, f: TaskFilter): seq<Task> {
    Sort(TaskBefore, Filter(FilterSelector(f), tasks))
  }

  function ListTasks(tasks: seq<Task>, f: TaskFilter): seq<Task>
    requires f.limit >= 0 && f.offset >= 0
  {
    Page(AllMatching(tasks, f), f.limit, f.offset)
  }

  predicate UniqueIDs(tasks: seq<Task>) {
    forall i, j :: 0 <= i < j < |tasks| ==> tasks[i].id != tasks[j].id
  }

  lemma UniqueIDsSeparate(tasks: seq<Task>)
    requires UniqueIDs(tasks)
    ensures Transitive(TaskBefore) && Asymmetric(TaskBefore)
    ensures Separates(TaskBefore, tasks) && Distinct(tasks)
  {
  }

  /** The unpaged list holds exactly the matching rows, each once, in the one possible order. */
  lemma AllMatchingMeaning(tasks: seq<Task>, f: TaskFilter)
    requires UniqueIDs(tasks)
    ensures var all := AllMatching(tasks, f);
      && (forall row :: row in all <==> row in tasks && Matches(f, row))
      && Distinct(all)
      && Ordered(TaskBefore, all)
      && (forall other :: Ordered(TaskBefore, other) && multiset(other) == multiset(all) ==> other == all)
  {
    UniqueIDsSeparate(tasks);
    var rows := Filter(FilterSelector(f), tasks);
    FilterDistinct(FilterSelector(f), tasks);
    SortOrdered(TaskBefore, rows);
    SortElements(TaskBefore, rows);
    var all := AllMatching(tasks, f);
    forall other | Ordered(TaskBefore, other) && multiset(other) == multiset(all) ensures other == all {
      OrderedUnique(TaskBefore, other, all);
    }
  }

  /** A commit that appends a row of another team does not change a team's list. */
  lemma ListTasksFrameAppend(tasks: seq<Task>, row: Task, f: TaskFilter)
    requires f.limit >= 0 && f.offset >= 0
    requires row.teamID != f.teamID
    ensures ListTasks(tasks + [row], f) == ListTasks(tasks, f)
  {
    FilterAppend(FilterSelector(f), tasks, [row]);
    assert [row][1..] == [];
    assert Filter(FilterSelector(f), [row]) == [];
    assert Filter(FilterSelector(f), tasks) + [] == Filter(FilterSelector(f), tasks);
  }

  /** A commit that rewrites a row of another team does not change a team's list. */
  lemma ListTasksFrameUpdate(tasks: seq<Task>, i: nat, row: Task, f: TaskFilter)
    requires f.limit >= 0 && f.offset >= 0
    requires i < |tasks| && tasks[i].teamID != f.teamID && row.teamID != f.teamID
    ensures ListTasks(tasks[i := row], f) == ListTasks(tasks, f)
  {
    FilterUpdate(FilterSelector(f), tasks, i, row);
  }

  // ----- pagination

  /** A client that asks for the pages at offset, offset + limit, ... as long as rows are left. */
  function WalkPages<T>(fetch: nat -> seq<T>, limit: nat, offset: nat, total: nat): seq<T>
    requires limit >= 1
    decreases total - offset
  {
    if offset >= total then [] else fetch(offset) + WalkPages(fetch, limit, offset + limit, total)
  }

  lemma {:induction false} WalkPagesIsSuffix<T>(xs: seq<T>, fetch: nat -> seq<T>, limit: nat, offset: nat)
    requires limit >= 1 && offset <= |xs|
    requires forall o: nat :: fetch(o) == Page(xs, limit, o)
    ensures WalkPages(fetch, limit, offset, |xs|) == xs[offset..]
    decreases |xs| - offset
  {
    if offset < |xs| {
      if offset + limit < |xs| {
        WalkPagesIsSuffix(xs, fetch, limit, offset + limit);
        assert xs[offset..] == xs[offset..offset + limit] + xs[offset + limit..];
      } else {
        assert WalkPages(fetch, limit, offset + limit, |xs|) == [];
      }
    }
  }

  /** The list call of one page. */
  function PageFetcher(tasks: seq<Task>, f: TaskFilter, limit: nat): nat -> seq<Task> {
    (offset: nat) => ListTasks(tasks, f.(limit := limit, offset := offset))
  }

  lemma PageFetcherIsPage(tasks: seq<Task>, f: TaskFilter, limit: nat, offset: nat)
    ensures PageFetcher(tasks, f, limit)(offset) == Page(AllMatching(tasks, f), limit, offset)
  {
    var g := f.(limit := limit, offset := offset);
    FilterCongruence(FilterSelector(f), FilterSelector(g), tasks);
    assert AllMatching(tasks, g) == AllMatching(tasks, f);
  }

  /**
   * A client that walks the list page by page, with any page size, sees every matching task exactly
   * once and in order: no gap, no duplicate.
   */
  lemma PaginationComplete(tasks: seq<Task>, f: TaskFilter, limit: nat)
    requires UniqueIDs(tasks) && limit >= 1
    ensures var walked := WalkPages(PageFetcher(tasks, f, limit), limit, 0, |AllMatching(tasks, f)|);
      && walked == AllMatching(tasks, f)
      && Distinct(walked)
      && (forall row :: row in walked <==> row in tasks && Matches(f, row))
  {
    forall o: nat ensures PageFetcher(tasks, f, limit)(o) == Page(AllMatching(tasks, f), limit, o) {
      PageFetcherIsPage(tasks, f, limit, o);
    }
    WalkPagesIsSuffix(AllMatching(tasks, f), PageFetcher(tasks, f, limit), limit, 0);
    AllMatchingMeaning(tasks, f);
  }
}
