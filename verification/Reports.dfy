/** The three report queries, as MySQL executes them, and what they mean. */
module Reports {
  import opened Domain
  import opened Sorting
  import opened TaskQueries
  import opened TaskUpdates
  import opened Store
  import opened Relations

  // ----- what the schema promises a report

  function TeamKey(t: TeamRow): int { t.id }
  function UserKey(u: UserRow): int { u.id }
  function MemberKey(m: MemberRow): (int, int) { (m.teamID, m.userID) }
  function TaskKey(t: Task): int { t.id }

  function HistoryKey(h: HistoryRow): int { h.id }

  /** The primary keys and the foreign keys of the schema. */
  ghost predicate LegalStore(st: Store) {
    && KeyedBy(HistoryKey, st.history)
    && (forall h :: h in st.history ==> HasUser(st, h.changedBy) && exists row :: row in st.tasks && row.id == h.taskID)
    && (forall t :: t in st.teams ==> HasUser(st, t.createdBy))
    && KeyedBy(TeamKey, st.teams)
    && KeyedBy(UserKey, st.users)
    && KeyedBy(MemberKey, st.members)
    && KeyedBy(TaskKey, st.tasks)
    && (forall m :: m in st.members ==> HasTeam(st, m.teamID) && HasUser(st, m.userID))
    && (forall row :: row in st.tasks ==>
          HasTeam(st, row.teamID) && HasUser(st, row.createdBy)
          && (row.assigneeID.Some? ==> HasUser(st, row.assigneeID.value)))
  }

  /** The user row with an id; every reference of a legal store finds one. */
  function UserRowOf(users: seq<UserRow>, id: int): UserRow {
    if users == [] then UserRow(0, "", "") else if users[0].id == id then users[0] else UserRowOf(users[1..], id)
  }

  lemma {:induction false} UserRowFound(users: seq<UserRow>, id: int)
    requires exists u :: u in users && u.id == id
    ensures UserRowOf(users, id) in users && UserRowOf(users, id).id == id
  {
    if users[0].id != id {
      UserRowFound(users[1..], id);
    }
  }

  // ----- team statistics

  datatype TeamStatistics = TeamStatistics(teamID: int, teamName: string, memberCount: nat, doneLastSevenDays: nat)

  predicate MemberOn(t: TeamRow, m: MemberRow) {
    m.teamID == t.id
  }

  predicate TaskOn(left: (TeamRow, Option<MemberRow>), task: Task) {
    task.teamID == left.0.id
  }

  type StatisticsRow = ((TeamRow, Option<MemberRow>), Option<Task>)

  /** FROM teams LEFT JOIN team_members LEFT JOIN tasks: every member of a team beside every task of the team. */
  function StatisticsRows(st: Store): seq<StatisticsRow> {
    LeftJoin(TaskOn, LeftJoin(MemberOn, st.teams, st.members), st.tasks)
  }

  function GroupKey(row: StatisticsRow): (int, string) {
    (row.0.0.id, row.0.0.name)
  }

  function InGroup(key: (int, string)): StatisticsRow -> bool {
    (row: StatisticsRow) => GroupKey(row) == key
  }

  /** COUNT(DISTINCT tm.user_id). */
  function MemberColumn(row: StatisticsRow): Option<int> {
    if row.0.1.None? then None else Some(row.0.1.value.userID)
  }

  predicate DoneSince(task: Task, since: int) {
    task.status == STATUS_DONE && task.completedAt.Some? && task.completedAt.value >= since
  }

  /** COUNT(DISTINCT CASE WHEN ... THEN task.id END). */
  function DoneColumn(since: int): StatisticsRow -> Option<int> {
    (row: StatisticsRow) => if row.1.Some? && DoneSince(row.1.value, since) then Some(row.1.value.id) else None
  }

  function Aggregate(rows: seq<StatisticsRow>, since: int): ((int, string)) -> TeamStatistics {
    (key: (int, string)) =>
      var group := Filter(InGroup(key), rows);
      TeamStatistics(key.0, key.1, CountDistinct(Map(MemberColumn, group)), CountDistinct(Map(DoneColumn(since), group)))
  }

  predicate KeyBefore(a: (int, string), b: (int, string)) {
    a.0 < b.0
  }

  /** The whole query; `since` is seven days before now. */
  function QueryStatistics(st: Store, since: int): seq<TeamStatistics> {
    var rows := StatisticsRows(st);
    Map(Aggregate(rows, since), Sort(KeyBefore, Groups(Map(GroupKey, rows))))
  }

  predicate TeamBefore(a: TeamRow, b: TeamRow) {
    a.id < b.id
  }

  function OfTeam(teamID: int): MemberRow -> bool {
    (m: MemberRow) => m.teamID == teamID
  }

  function RecentlyDone(teamID: int, since: int): Task -> bool {
    (task: Task) => task.teamID == teamID && DoneSince(task, since)
  }

  /** What a team's line should say, with the members and the tasks counted on their own. */
  function StatisticsOf(st: Store, since: int): TeamRow -> TeamStatistics {
    (t: TeamRow) =>
      TeamStatistics(t.id, t.name, |Filter(OfTeam(t.id), st.members)|, |Filter(RecentlyDone(t.id, since), st.tasks)|)
  }

  predicate MemberSide(st: Store, t: TeamRow, side: Option<MemberRow>) {
    match side
    case None => forall m | m in st.members :: m.teamID != t.id
    case Some(m) => m in st.members && m.teamID == t.id
  }

  predicate TaskSide(st: Store, t: TeamRow, side: Option<Task>) {
    match side
    case None => forall task | task in st.tasks :: task.teamID != t.id
    case Some(task) => task in st.tasks && task.teamID == t.id
  }

  lemma StatisticsRowsElements(st: Store, row: StatisticsRow)
    ensures row in StatisticsRows(st) <==>
      row.0.0 in st.teams && MemberSide(st, row.0.0, row.0.1) && TaskSide(st, row.0.0, row.1)
  {
    LeftJoinElements(TaskOn, LeftJoin(MemberOn, st.teams, st.members), st.tasks, row);
    LeftJoinElements(MemberOn, st.teams, st.members, row.0);
  }

  lemma SomeMemberSide(st: Store, t: TeamRow) returns (side: Option<MemberRow>)
    ensures MemberSide(st, t, side)
  {
    if m :| m in st.members && m.teamID == t.id {
      side := Some(m);
    } else {
      side := None;
    }
  }

  lemma SomeTaskSide(st: Store, t: TeamRow) returns (side: Option<Task>)
    ensures TaskSide(st, t, side)
  {
    if task :| task in st.tasks && task.teamID == t.id {
      side := Some(task);
    } else {
      side := None;
    }
  }

  lemma SameTeamRow(st: Store, t: TeamRow, u: TeamRow)
    requires KeyedBy(TeamKey, st.teams) && t in st.teams && u in st.teams && t.id == u.id
    ensures t == u
  {
    var i :| 0 <= i < |st.teams| && st.teams[i] == t;
    var j :| 0 <= j < |st.teams| && st.teams[j] == u;
    assert i < j ==> TeamKey(st.teams[i]) != TeamKey(st.teams[j]);
    assert j < i ==> TeamKey(st.teams[j]) != TeamKey(st.teams[i]);
  }

  /** The rows of a group pair the members of its team with the tasks of its team, in every combination. */
  lemma GroupElements(st: Store, t: TeamRow, row: StatisticsRow)
    requires KeyedBy(TeamKey, st.teams) && t in st.teams
    ensures row in Filter(InGroup((t.id, t.name)), StatisticsRows(st)) <==>
      row.0.0 == t && MemberSide(st, t, row.0.1) && TaskSide(st, t, row.1)
  {
    StatisticsRowsElements(st, row);
    if row.0.0 in st.teams && row.0.0.id == t.id {
      SameTeamRow(st, t, row.0.0);
    }
    hide StatisticsRows, MemberSide, TaskSide;
  }

  function UserOf(m: MemberRow): int { m.userID }

  lemma ValuesOf<A(!new), K(!new)>(column: A -> Option<K>, xs: seq<A>, v: K)
    ensures v in (set o | o in Map(column, xs) && o.Some? :: o.value) <==> exists x :: x in xs && column(x) == Some(v)
  {
    if v in (set o | o in Map(column, xs) && o.Some? :: o.value) {
      var i :| 0 <= i < |xs| && Map(column, xs)[i] == Some(v);
      assert xs[i] in xs;
    }
    if exists x :: x in xs && column(x) == Some(v) {
      var x :| x in xs && column(x) == Some(v);
      var i :| 0 <= i < |xs| && xs[i] == x;
      assert Map(column, xs)[i] == Some(v);
    }
  }

  /** A column that takes exactly the keys of some rows has as many distinct values as there are rows. */
  lemma DistinctValues<A(!new), B(!new), K(!new)>(column: A -> Option<K>, group: seq<A>, key: B -> K, items: seq<B>)
    requires KeyedBy(key, items)
    requires forall row :: row in group && column(row).Some? ==> exists b :: b in items && key(b) == column(row).value
    requires forall b :: b in items ==> exists row :: row in group && column(row) == Some(key(b))
    ensures CountDistinct(Map(column, group)) == |items|
  {
    KeysCount(key, items);
    var values := set o | o in Map(column, group) && o.Some? :: o.value;
    var keys := set b | b in items :: key(b);
    forall v ensures v in values <==> v in keys {
      ValuesOf(column, group, v);
      if v in values {
        var row :| row in group && column(row) == Some(v);
        var b :| b in items && key(b) == v;
      }
      if v in keys {
        var b :| b in items && key(b) == v;
        var row :| row in group && column(row) == Some(key(b));
      }
    }
    assert values == keys;
  }

  lemma MembersKeyed(st: Store, t: TeamRow)
    requires KeyedBy(MemberKey, st.members)
    ensures KeyedBy(UserOf, Filter(OfTeam(t.id), st.members))
  {
    var members := Filter(OfTeam(t.id), st.members);
    FilterKeyed(OfTeam(t.id), MemberKey, st.members);
    hide Filter;
    assert forall i :: 0 <= i < |members| ==> members[i] in members;
    assert forall i, j :: 0 <= i < j < |members| ==> MemberKey(members[i]) != MemberKey(members[j]);
  }

  /** Fan-out over the tasks does not change the number of distinct members. */
  lemma MemberCountIsRight(st: Store, t: TeamRow)
    requires KeyedBy(TeamKey, st.teams) && KeyedBy(MemberKey, st.members) && t in st.teams
    ensures CountDistinct(Map(MemberColumn, Filter(InGroup((t.id, t.name)), StatisticsRows(st)))) == |Filter(OfTeam(t.id), st.members)|
  {
    var group := Filter(InGroup((t.id, t.name)), StatisticsRows(st));
    var members := Filter(OfTeam(t.id), st.members);
    assert forall m :: m in members <==> m in st.members && m.teamID == t.id;
    MembersKeyed(st, t);
    var side := SomeTaskSide(st, t);
    hide KeyedBy, StatisticsRows, Filter, OfTeam, InGroup, CountDistinct, TaskSide;
    forall row | row in group && MemberColumn(row).Some? ensures exists m :: m in members && UserOf(m) == MemberColumn(row).value {
      GroupElements(st, t, row);
      assert row.0.1.value in members;
    }
    forall m | m in members ensures exists row :: row in group && MemberColumn(row) == Some(UserOf(m)) {
      GroupElements(st, t, ((t, Some(m)), side));
      assert MemberColumn(((t, Some(m)), side)) == Some(UserOf(m));
    }
    DistinctValues(MemberColumn, group, UserOf, members);
  }

  lemma TeamsKeyed(st: Store)
    requires LegalStore(st)
    ensures KeyedBy(TeamKey, st.teams) && KeyedBy(TaskKey, st.tasks)
    ensures KeyedBy(UserKey, st.users) && KeyedBy(MemberKey, st.members)
  {
  }

  /** Fan-out over the members does not change the number of distinct finished tasks. */
  lemma DoneCountIsRight(st: Store, t: TeamRow, since: int)
    requires KeyedBy(TeamKey, st.teams) && KeyedBy(TaskKey, st.tasks) && t in st.teams
    ensures CountDistinct(Map(DoneColumn(since), Filter(InGroup((t.id, t.name)), StatisticsRows(st))))
         == |Filter(RecentlyDone(t.id, since), st.tasks)|
  {
    var group := Filter(InGroup((t.id, t.name)), StatisticsRows(st));
    var done := Filter(RecentlyDone(t.id, since), st.tasks);
    var column := DoneColumn(since);
    assert forall task :: task in done <==> task in st.tasks && task.teamID == t.id && DoneSince(task, since);
    FilterKeyed(RecentlyDone(t.id, since), TaskKey, st.tasks);
    var side := SomeMemberSide(st, t);
    hide KeyedBy, StatisticsRows, Filter, RecentlyDone, InGroup, CountDistinct, MemberSide, DoneSince;
    forall row | row in group && column(row).Some? ensures exists task :: task in done && TaskKey(task) == column(row).value {
      GroupElements(st, t, row);
      assert row.1.value in done;
    }
    forall task | task in done ensures exists row :: row in group && column(row) == Some(TaskKey(task)) {
      GroupElements(st, t, ((t, side), Some(task)));
      assert column(((t, side), Some(task))) == Some(TaskKey(task));
    }
    DistinctValues(column, group, TaskKey, done);
  }

  function KeyOf(t: TeamRow): (int, string) {
    (t.id, t.name)
  }

  lemma TeamsOrdered(st: Store)
    requires KeyedBy(TeamKey, st.teams)
    ensures Ordered(TeamBefore, Sort(TeamBefore, st.teams))
    ensures forall t :: t in Sort(TeamBefore, st.teams) <==> t in st.teams
  {
    assert Distinct(st.teams) by {
      assert forall i, j :: 0 <= i < j < |st.teams| ==> TeamKey(st.teams[i]) != TeamKey(st.teams[j]);
    }
    forall t, u | t in st.teams && u in st.teams && t != u ensures TeamBefore(t, u) || TeamBefore(u, t) {
      if t.id == u.id { SameTeamRow(st, t, u); }
    }
    SortOrdered(TeamBefore, st.teams);
    SortElements(TeamBefore, st.teams);
  }

  /** Every team is a group, with or without members and tasks. */
  lemma GroupsAreTeams(st: Store, key: (int, string))
    ensures key in Map(GroupKey, StatisticsRows(st)) <==> exists t :: t in st.teams && KeyOf(t) == key
  {
    var rows := StatisticsRows(st);
    if key in Map(GroupKey, rows) {
      var i :| 0 <= i < |rows| && Map(GroupKey, rows)[i] == key;
      StatisticsRowsElements(st, rows[i]);
    }
    if t :| t in st.teams && KeyOf(t) == key {
      var member := SomeMemberSide(st, t);
      var task := SomeTaskSide(st, t);
      StatisticsRowsElements(st, ((t, member), task));
      var i :| 0 <= i < |rows| && rows[i] == ((t, member), task);
      assert Map(GroupKey, rows)[i] == key;
    }
  }

  lemma GroupsSeparate(st: Store, groups: seq<(int, string)>)
    requires KeyedBy(TeamKey, st.teams)
    requires forall key :: key in groups ==> exists t :: t in st.teams && KeyOf(t) == key
    ensures Separates(KeyBefore, groups)
  {
    forall a, b | a in groups && b in groups && a != b ensures KeyBefore(a, b) || KeyBefore(b, a) {
      var t :| t in st.teams && KeyOf(t) == a;
      var u :| u in st.teams && KeyOf(u) == b;
      if t.id == u.id { SameTeamRow(st, t, u); }
    }
  }

  lemma KeysOrdered(teams: seq<TeamRow>)
    requires Ordered(TeamBefore, teams)
    ensures Ordered(KeyBefore, Map(KeyOf, teams))
  {
  }

  /** The groups, ordered, with the teams they stand for. */
  lemma GroupsOrdered(st: Store, groups: seq<(int, string)>)
    requires KeyedBy(TeamKey, st.teams) && groups == Groups(Map(GroupKey, StatisticsRows(st)))
    ensures Ordered(KeyBefore, Sort(KeyBefore, groups))
    ensures forall key :: key in Sort(KeyBefore, groups) <==> exists t :: t in st.teams && KeyOf(t) == key
  {
    forall key ensures key in groups <==> exists t :: t in st.teams && KeyOf(t) == key {
      GroupsAreTeams(st, key);
    }
    hide StatisticsRows, Sort, KeyedBy, Groups, Ordered, Map;
    GroupsSeparate(st, groups);
    SortOrdered(KeyBefore, groups);
    SortElements(KeyBefore, groups);
  }

  /** The ordered groups are the teams in id order. */
  lemma GroupsInOrder(st: Store)
    requires KeyedBy(TeamKey, st.teams)
    ensures Sort(KeyBefore, Groups(Map(GroupKey, StatisticsRows(st)))) == Map(KeyOf, Sort(TeamBefore, st.teams))
  {
    var groups := Groups(Map(GroupKey, StatisticsRows(st)));
    var teams := Sort(TeamBefore, st.teams);
    TeamsOrdered(st);
    hide StatisticsRows, Sort, KeyedBy, Groups, Ordered, Map;
    GroupsOrdered(st, groups);
    KeysOrdered(teams);
    forall key ensures key in Map(KeyOf, teams) <==> key in Sort(KeyBefore, groups) {
      MapElements(KeyOf, teams, key);
    }
    OrderedSame(KeyBefore, Sort(KeyBefore, groups), Map(KeyOf, teams));
  }

  lemma LineIsRight(st: Store, t: TeamRow, since: int)
    requires LegalStore(st) && t in st.teams
    ensures Aggregate(StatisticsRows(st), since)(KeyOf(t)) == StatisticsOf(st, since)(t)
  {
    TeamsKeyed(st);
    hide LegalStore, KeyedBy, StatisticsRows, Filter, CountDistinct;
    MemberCountIsRight(st, t);
    DoneCountIsRight(st, t, since);
  }

  /**
   * The joined and grouped query says of every team, in id order, what counting its members and its recently
   * finished tasks separately says; a team with neither is listed with zeros.
   */
  lemma StatisticsMeaning(st: Store, since: int)
    requires LegalStore(st)
    ensures QueryStatistics(st, since) == Map(StatisticsOf(st, since), Sort(TeamBefore, st.teams))
    ensures Ordered(TeamBefore, Sort(TeamBefore, st.teams))
    ensures multiset(Sort(TeamBefore, st.teams)) == multiset(st.teams)
  {
    TeamsKeyed(st);
    GroupsInOrder(st);
    TeamsOrdered(st);
    var teams := Sort(TeamBefore, st.teams);
    hide StatisticsRows, Sort, LegalStore, Groups, KeyedBy, Ordered, Aggregate, StatisticsOf, Map;
    forall t | t in teams ensures Aggregate(StatisticsRows(st), since)(KeyOf(t)) == StatisticsOf(st, since)(t) {
      LineIsRight(st, t, since);
    }
    MapMap(Aggregate(StatisticsRows(st), since), KeyOf, StatisticsOf(st, since), teams);
  }

  /** The members of a team. */
  function MembersOf(st: Store, teamID: int): set<int> {
    set m | m in st.members && m.teamID == teamID :: m.userID
  }

  /** The tasks of a team that were done at some time or later. */
  function DoneTasks(st: Store, teamID: int, since: int): set<int> {
    set task | task in st.tasks && task.teamID == teamID && task.status == "done"
                 && task.completedAt.Some? && task.completedAt.value >= since :: task.id
  }

  predicate StatisticsLine(st: Store, since: int, t: TeamRow, line: TeamStatistics) {
    line == TeamStatistics(t.id, t.name, |MembersOf(st, t.id)|, |DoneTasks(st, t.id, since)|)
  }

  /** One line for every team and no other, in the order of their ids, with its members and its finished tasks counted. */
  ghost predicate StatisticsReport(st: Store, since: int, report: seq<TeamStatistics>) {
    && (forall line :: line in report ==> exists t :: t in st.teams && StatisticsLine(st, since, t, line))
    && (forall t :: t in st.teams ==> exists line :: line in report && StatisticsLine(st, since, t, line))
    && (forall i, j :: 0 <= i < j < |report| ==> report[i].teamID < report[j].teamID)
  }

  lemma CountsAreSizes(st: Store, since: int, t: TeamRow)
    requires LegalStore(st)
    ensures StatisticsLine(st, since, t, StatisticsOf(st, since)(t))
  {
    TeamsKeyed(st);
    hide LegalStore;
    MembersCounted(st, t);
    DoneCounted(st, t, since);
    hide Filter, KeyedBy, MembersOf, DoneTasks;
  }

  lemma MembersCounted(st: Store, t: TeamRow)
    requires KeyedBy(MemberKey, st.members)
    ensures |Filter(OfTeam(t.id), st.members)| == |MembersOf(st, t.id)|
  {
    var members := Filter(OfTeam(t.id), st.members);
    MembersKeyed(st, t);
    assert forall m :: m in members <==> m in st.members && m.teamID == t.id;
    hide Filter, KeyedBy, OfTeam;
    forall id | id in MembersOf(st, t.id) ensures exists m :: m in members && UserOf(m) == id {
      var m :| m in st.members && m.teamID == t.id && m.userID == id;
      assert m in members && UserOf(m) == id;
    }
    KeysAre(UserOf, members, MembersOf(st, t.id));
  }

  lemma DoneCounted(st: Store, t: TeamRow, since: int)
    requires KeyedBy(TaskKey, st.tasks)
    ensures |Filter(RecentlyDone(t.id, since), st.tasks)| == |DoneTasks(st, t.id, since)|
  {
    var done := Filter(RecentlyDone(t.id, since), st.tasks);
    FilterKeyed(RecentlyDone(t.id, since), TaskKey, st.tasks);
    assert forall task :: task in done <==>
      task in st.tasks && task.teamID == t.id && task.status == "done" && task.completedAt.Some? && task.completedAt.value >= since;
    hide Filter, KeyedBy, RecentlyDone;
    forall id | id in DoneTasks(st, t.id, since) ensures exists task :: task in done && TaskKey(task) == id {
      var task :| task in st.tasks && task.teamID == t.id && task.status == "done"
        && task.completedAt.Some? && task.completedAt.value >= since && task.id == id;
      assert task in done && TaskKey(task) == id;
    }
    KeysAre(TaskKey, done, DoneTasks(st, t.id, since));
  }

  /** The query reports of every team how many members and how many recently finished tasks it has. */
  lemma StatisticsCount(st: Store, since: int)
    requires LegalStore(st)
    ensures StatisticsReport(st, since, QueryStatistics(st, since))
  {
    var teams := Sort(TeamBefore, st.teams);
    StatisticsMeaning(st, since);
    SortElements(TeamBefore, st.teams);
    hide LegalStore, QueryStatistics, Sort, StatisticsOf, StatisticsLine, Map;
    forall t | t in teams ensures StatisticsLine(st, since, t, StatisticsOf(st, since)(t)) {
      CountsAreSizes(st, since, t);
    }
    LinesReport(st, since, teams);
  }

  lemma LinesReport(st: Store, since: int, teams: seq<TeamRow>)
    requires Ordered(TeamBefore, teams) && forall t :: t in teams <==> t in st.teams
    requires forall t :: t in teams ==> StatisticsLine(st, since, t, StatisticsOf(st, since)(t))
    ensures StatisticsReport(st, since, Map(StatisticsOf(st, since), teams))
  {
    var report := Map(StatisticsOf(st, since), teams);
    hide StatisticsOf, MembersOf, DoneTasks;
    forall t | t in st.teams ensures exists line :: line in report && StatisticsLine(st, since, t, line) {
      var i :| 0 <= i < |teams| && teams[i] == t;
      assert report[i] in report;
    }
    forall i, j | 0 <= i < j < |report| ensures report[i].teamID < report[j].teamID {
      assert TeamBefore(teams[i], teams[j]) && teams[i] in teams && teams[j] in teams;
    }
    forall line | line in report ensures exists t :: t in st.teams && StatisticsLine(st, since, t, line) {
      var i :| 0 <= i < |report| && report[i] == line;
      assert teams[i] in teams;
    }
  }

  // ----- tasks with invalid assignees

  datatype InvalidTaskAssignee = InvalidTaskAssignee(taskID: int, teamID: int, title: string, assigneeID: int)

  /** A row as the driver delivers it: the assignee column is nullable. */
  datatype InvalidRecord = InvalidRecord(taskID: int, teamID: int, title: string, assigneeID: SqlValue)

  /** WHERE assignee_id IS NOT NULL AND NOT EXISTS (a member row of the team for the assignee). */
  predicate InvalidAssignee(st: Store, row: Task) {
    row.assigneeID.Some? && forall m | m in st.members :: !(m.teamID == row.teamID && m.userID == row.assigneeID.value)
  }

  function HasInvalidAssignee(st: Store): Task -> bool {
    (row: Task) => InvalidAssignee(st, row)
  }

  predicate TaskIdBefore(a: Task, b: Task) {
    a.id < b.id
  }

  function InvalidRecordOf(row: Task): InvalidRecord {
    InvalidRecord(row.id, row.teamID, row.title, NullableInt64(row.assigneeID))
  }

  function QueryInvalidAssignees(st: Store): seq<InvalidRecord> {
    Map(InvalidRecordOf, Sort(TaskIdBefore, Filter(HasInvalidAssignee(st), st.tasks)))
  }

  /** Scanning into an integer; a null fails before it comes to this. */
  function ScanInvalid(r: InvalidRecord): InvalidTaskAssignee {
    InvalidTaskAssignee(r.taskID, r.teamID, r.title, if r.assigneeID.IntValue? then r.assigneeID.n else 0)
  }

  predicate InvalidLineOf(line: InvalidTaskAssignee, row: Task) {
    row.assigneeID.Some? && line == InvalidTaskAssignee(row.id, row.teamID, row.title, row.assigneeID.value)
  }

  /** The report names, in id order, exactly the tasks whose assignee is no member; it is empty exactly when there are none. */
  ghost predicate InvalidReport(st: Store, report: seq<InvalidTaskAssignee>) {
    && (forall line :: line in report <==>
          (exists row :: row in st.tasks && row.assigneeID.Some? && InvalidLineOf(line, row)
             && !IsMember(st, row.teamID, row.assigneeID.value)))
    && (forall i, j :: 0 <= i < j < |report| ==> report[i].taskID < report[j].taskID)
    && (report == [] <==>
          (forall row :: row in st.tasks && row.assigneeID.Some? ==> IsMember(st, row.teamID, row.assigneeID.value)))
  }

  lemma InvalidRows(st: Store)
    requires KeyedBy(TaskKey, st.tasks)
    ensures var rows := Sort(TaskIdBefore, Filter(HasInvalidAssignee(st), st.tasks));
      && Ordered(TaskIdBefore, rows)
      && (forall row :: row in rows <==> row in st.tasks && row.assigneeID.Some? && !IsMember(st, row.teamID, row.assigneeID.value))
  {
    var invalid := Filter(HasInvalidAssignee(st), st.tasks);
    FilterKeyed(HasInvalidAssignee(st), TaskKey, st.tasks);
    TaskIdsOrdered(invalid);
    hide Sort, KeyedBy, Ordered;
    forall row ensures row in invalid <==> row in st.tasks && row.assigneeID.Some? && !IsMember(st, row.teamID, row.assigneeID.value) {
      assert row in invalid <==> row in st.tasks && InvalidAssignee(st, row);
    }
  }

  lemma ReportOfRows(st: Store, rows: seq<Task>, report: seq<InvalidTaskAssignee>)
    requires forall row :: row in rows <==> row in st.tasks && row.assigneeID.Some? && !IsMember(st, row.teamID, row.assigneeID.value)
    requires |report| == |rows|
    requires forall line :: line in report <==> exists row :: row in rows && InvalidLineOf(line, row)
    requires forall i, j :: 0 <= i < j < |report| ==> report[i].taskID < report[j].taskID
    ensures InvalidReport(st, report)
  {
    hide IsMember;
    if rows != [] {
      assert rows[0] in rows;
    }
  }

  /** No null reaches the scan, and the scanned records are the report. */
  lemma InvalidAssigneesMeaning(st: Store)
    requires KeyedBy(TaskKey, st.tasks)
    ensures forall i :: 0 <= i < |QueryInvalidAssignees(st)| ==> QueryInvalidAssignees(st)[i].assigneeID.IntValue?
    ensures InvalidReport(st, Map(ScanInvalid, QueryInvalidAssignees(st)))
  {
    var rows := Sort(TaskIdBefore, Filter(HasInvalidAssignee(st), st.tasks));
    InvalidRows(st);
    hide Filter, Sort, KeyedBy, IsMember, HasInvalidAssignee, InvalidLineOf, ScanInvalid, InvalidRecordOf, InvalidReport, Ordered, Map;
    ScannedInvalid(rows);
    ReportOfRows(st, rows, Map(ScanInvalid, QueryInvalidAssignees(st)));
  }

  lemma ScannedInvalid(rows: seq<Task>)
    requires forall row :: row in rows ==> row.assigneeID.Some?
    requires Ordered(TaskIdBefore, rows)
    ensures var report := Map(ScanInvalid, Map(InvalidRecordOf, rows));
      && |report| == |rows|
      && (forall i :: 0 <= i < |rows| ==> Map(InvalidRecordOf, rows)[i].assigneeID.IntValue?)
      && (forall line :: line in report <==> exists row :: row in rows && InvalidLineOf(line, row))
      && (forall i, j :: 0 <= i < j < |report| ==> report[i].taskID < report[j].taskID)
  {
    var report := Map(ScanInvalid, Map(InvalidRecordOf, rows));
    assert forall i :: 0 <= i < |rows| ==> rows[i] in rows && InvalidLineOf(report[i], rows[i]);
    forall line ensures line in report <==> exists row :: row in rows && InvalidLineOf(line, row) {
      if row :| row in rows && InvalidLineOf(line, row) {
        var i :| 0 <= i < |rows| && rows[i] == row;
        assert report[i] == line;
      }
    }
    forall i, j | 0 <= i < j < |report| ensures report[i].taskID < report[j].taskID {
      assert TaskIdBefore(rows[i], rows[j]);
    }
  }

  lemma TaskIdsOrdered(rows: seq<Task>)
    requires KeyedBy(TaskKey, rows)
    ensures Ordered(TaskIdBefore, Sort(TaskIdBefore, rows))
    ensures forall row :: row in Sort(TaskIdBefore, rows) <==> row in rows
  {
    assert forall i, j :: 0 <= i < j < |rows| ==> TaskKey(rows[i]) != TaskKey(rows[j]);
    SortOrdered(TaskIdBefore, rows);
    SortElements(TaskIdBefore, rows);
  }
}
