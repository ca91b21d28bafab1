/** The report of the top three task creators of each team: the query with its joins, groups and row numbers, and its meaning. */
module CreatorRanking {
  import opened Domain
  import opened Sorting
  import opened Store
  import opened Relations
  import opened Reports

  /** The month: created_at >= first and created_at < next. */
  datatype Month = Month(first: int, next: int)

  datatype CreatorKey = CreatorKey(teamID: int, teamName: string, userID: int, userName: string)
  datatype CreatorCount = CreatorCount(key: CreatorKey, count: nat)
  datatype TopTaskCreator = TopTaskCreator(creator: CreatorCount, position: nat)

  const PODIUM := 3

  // ----- the query

  type CreatorRow = ((Task, TeamRow), UserRow)

  predicate TeamOn(task: Task, team: TeamRow) {
    team.id == task.teamID
  }

  predicate UserOn(left: (Task, TeamRow), user: UserRow) {
    user.id == left.0.createdBy
  }

  predicate InMonth(task: Task, month: Month) {
    month.first <= task.createdAt < month.next
  }

  function RowInMonth(month: Month): CreatorRow -> bool {
    (row: CreatorRow) => InMonth(row.0.0, month)
  }

  function CreatorRows(st: Store, month: Month): seq<CreatorRow> {
    Filter(RowInMonth(month), InnerJoin(UserOn, InnerJoin(TeamOn, st.tasks, st.teams), st.users))
  }

  function RowKey(row: CreatorRow): CreatorKey {
    CreatorKey(row.0.0.teamID, row.0.1.name, row.0.0.createdBy, row.1.name)
  }

  function HasKey(key: CreatorKey): CreatorRow -> bool {
    (row: CreatorRow) => RowKey(row) == key
  }

  function CountGroup(rows: seq<CreatorRow>): CreatorKey -> CreatorCount {
    (key: CreatorKey) => CreatorCount(key, |Filter(HasKey(key), rows)|)
  }

  /** The common table expression creator_counts. */
  function CreatorCounts(st: Store, month: Month): seq<CreatorCount> {
    var rows := CreatorRows(st, month);
    Map(CountGroup(rows), Groups(Map(RowKey, rows)))
  }

  predicate RankBefore(a: CreatorCount, b: CreatorCount) {
    a.count > b.count || (a.count == b.count && a.key.userID < b.key.userID)
  }

  function AheadOf(c: CreatorCount): CreatorCount -> bool {
    (other: CreatorCount) => other.key.teamID == c.key.teamID && RankBefore(other, c)
  }

  /** ROW_NUMBER() OVER (PARTITION BY team_id ORDER BY created_task_count DESC, user_id ASC). */
  function Number(counts: seq<CreatorCount>): CreatorCount -> TopTaskCreator {
    (c: CreatorCount) => TopTaskCreator(c, 1 + |Filter(AheadOf(c), counts)|)
  }

  predicate OnPodium(r: TopTaskCreator) {
    r.position <= PODIUM
  }

  predicate LineBefore(a: TopTaskCreator, b: TopTaskCreator) {
    a.creator.key.teamID < b.creator.key.teamID
    || (a.creator.key.teamID == b.creator.key.teamID && a.position < b.position)
  }

  function QueryTopCreators(st: Store, month: Month): seq<TopTaskCreator> {
    var counts := CreatorCounts(st, month);
    Sort(LineBefore, Filter(OnPodium, Map(Number(counts), counts)))
  }

  // ----- what it means

  function CreatedIn(teamID: int, userID: int, month: Month): Task -> bool {
    (task: Task) => task.teamID == teamID && task.createdBy == userID && InMonth(task, month)
  }

  /** A user's line in a team, with the tasks counted directly. */
  function Line(st: Store, t: TeamRow, month: Month): UserRow -> CreatorCount {
    (u: UserRow) =>
      CreatorCount(CreatorKey(t.id, t.name, u.id, u.name), |Filter(CreatedIn(t.id, u.id, month), st.tasks)|)
  }

  predicate Active(c: CreatorCount) {
    c.count > 0
  }

  /** The creators of a team, best first. */
  function Ranking(st: Store, t: TeamRow, month: Month): seq<CreatorCount> {
    Sort(RankBefore, Filter(Active, Map(Line(st, t, month), st.users)))
  }

  // ----- the joins follow the foreign keys

  function TeamRowOf(teams: seq<TeamRow>, id: int): TeamRow {
    if teams == [] then TeamRow(0, "", 0) else if teams[0].id == id then teams[0] else TeamRowOf(teams[1..], id)
  }

  lemma {:induction false} TeamRowFound(teams: seq<TeamRow>, id: int)
    requires exists t :: t in teams && t.id == id
    ensures TeamRowOf(teams, id) in teams && TeamRowOf(teams, id).id == id
  {
    if teams[0].id != id {
      TeamRowFound(teams[1..], id);
    }
  }

  function WithTeam(st: Store): Task -> (Task, TeamRow) {
    (task: Task) => (task, TeamRowOf(st.teams, task.teamID))
  }

  function WithUser(st: Store): ((Task, TeamRow)) -> CreatorRow {
    (left: (Task, TeamRow)) => (left, UserRowOf(st.users, left.0.createdBy))
  }

  function WithBoth(st: Store): Task -> CreatorRow {
    (task: Task) => ((task, TeamRowOf(st.teams, task.teamID)), UserRowOf(st.users, task.createdBy))
  }

  function TeamRefOf(st: Store): Task -> TeamRow {
    (task: Task) => TeamRowOf(st.teams, task.teamID)
  }

  function UserRefOf(st: Store): ((Task, TeamRow)) -> UserRow {
    (left: (Task, TeamRow)) => UserRowOf(st.users, left.0.createdBy)
  }

  lemma TeamReference(st: Store, task: Task)
    requires LegalStore(st) && task in st.tasks
    ensures TeamRowOf(st.teams, task.teamID) in st.teams && TeamRowOf(st.teams, task.teamID).id == task.teamID
    ensures Filter(Matching(TeamOn, task), st.teams) == [TeamRowOf(st.teams, task.teamID)]
  {
    assert HasTeam(st, task.teamID);
    TeamRowFound(st.teams, task.teamID);
    FilterByKey(TeamKey, st.teams, Matching(TeamOn, task), TeamRowOf(st.teams, task.teamID));
  }

  lemma UserReference(st: Store, task: Task)
    requires LegalStore(st) && task in st.tasks
    ensures UserRowOf(st.users, task.createdBy) in st.users && UserRowOf(st.users, task.createdBy).id == task.createdBy
    ensures Filter(Matching(UserOn, (task, TeamRowOf(st.teams, task.teamID))), st.users) == [UserRowOf(st.users, task.createdBy)]
  {
    assert HasUser(st, task.createdBy);
    UserRowFound(st.users, task.createdBy);
    FilterByKey(UserKey, st.users, Matching(UserOn, (task, TeamRowOf(st.teams, task.teamID))), UserRowOf(st.users, task.createdBy));
  }

  /** The joins neither lose nor repeat a task. */
  lemma CreatorRowsAreTasks(st: Store, month: Month)
    requires LegalStore(st)
    ensures CreatorRows(st, month) == Filter(RowInMonth(month), Map(WithBoth(st), st.tasks))
  {
    hide LegalStore, TeamRowOf, UserRowOf, Filter, RowInMonth;
    forall task | task in st.tasks ensures Filter(Matching(TeamOn, task), st.teams) == [TeamRefOf(st)(task)] {
      TeamReference(st, task);
    }
    InnerJoinOfReferences(TeamOn, st.tasks, st.teams, TeamRefOf(st));
    var left := Map(WithTeam(st), st.tasks);
    assert InnerJoin(TeamOn, st.tasks, st.teams) == left by {
      MapSame(Beside(TeamRefOf(st)), WithTeam(st), st.tasks);
    }
    forall l | l in left ensures Filter(Matching(UserOn, l), st.users) == [UserRefOf(st)(l)] {
      MapElements(WithTeam(st), st.tasks, l);
      var task :| task in st.tasks && WithTeam(st)(task) == l;
      UserReference(st, task);
    }
    InnerJoinOfReferences(UserOn, left, st.users, UserRefOf(st));
    MapSame(Beside(UserRefOf(st)), WithUser(st), left);
    MapMap(WithUser(st), WithTeam(st), WithBoth(st), st.tasks);
  }

  // ----- the groups are the lines of the active creators

  lemma RowCount(st: Store, t: TeamRow, u: UserRow, month: Month)
    requires LegalStore(st) && t in st.teams && u in st.users
    ensures |Filter(HasKey(Line(st, t, month)(u).key), CreatorRows(st, month))| == Line(st, t, month)(u).count
  {
    var key := Line(st, t, month)(u).key;
    CreatorRowsAreTasks(st, month);
    TeamsKeyed(st);
    FilterFilter(HasKey(key), RowInMonth(month), Map(WithBoth(st), st.tasks));
    hide LegalStore, CreatorRows, Filter, TeamRowOf, UserRowOf, InMonth;
    var keep, keep' := Both(RowInMonth(month), HasKey(key)), CreatedIn(t.id, u.id, month);
    hide KeyedBy;
    forall task | task in st.tasks ensures keep'(task) == keep(WithBoth(st)(task)) {
      TeamReference(st, task);
      UserReference(st, task);
      if task.teamID == t.id && task.createdBy == u.id {
        SameTeamRow(st, t, TeamRowOf(st.teams, task.teamID));
        SameUserRow(st, u, UserRowOf(st.users, task.createdBy));
      }
    }
    FilterOfMap(WithBoth(st), keep, keep', st.tasks);
  }

  lemma SameUserRow(st: Store, u: UserRow, v: UserRow)
    requires KeyedBy(UserKey, st.users) && u in st.users && v in st.users && u.id == v.id
    ensures u == v
  {
    var i :| 0 <= i < |st.users| && st.users[i] == u;
    var j :| 0 <= j < |st.users| && st.users[j] == v;
    assert i < j ==> UserKey(st.users[i]) != UserKey(st.users[j]);
    assert j < i ==> UserKey(st.users[j]) != UserKey(st.users[i]);
  }

  /** The key of a row names a team and a user of the tables. */
  lemma RowKeyNames(st: Store, month: Month, row: CreatorRow) returns (t: TeamRow, u: UserRow)
    requires LegalStore(st) && row in CreatorRows(st, month)
    ensures t in st.teams && u in st.users && RowKey(row) == Line(st, t, month)(u).key
  {
    CreatorRowsAreTasks(st, month);
    MapElements(WithBoth(st), st.tasks, row);
    hide LegalStore, TeamRowOf, UserRowOf;
    var task :| task in st.tasks && WithBoth(st)(task) == row;
    TeamReference(st, task);
    UserReference(st, task);
    t, u := TeamRowOf(st.teams, task.teamID), UserRowOf(st.users, task.createdBy);
  }

  /** The counted groups are the lines of the users who created something, each once. */
  lemma CountsElements(st: Store, month: Month, c: CreatorCount)
    requires LegalStore(st)
    ensures c in CreatorCounts(st, month) <==>
      exists t, u :: t in st.teams && u in st.users && Line(st, t, month)(u) == c && Active(c)
  {
    var rows := CreatorRows(st, month);
    var keys := Groups(Map(RowKey, rows));
    hide CreatorRows, LegalStore, Groups, Line;
    MapElements(CountGroup(rows), keys, c);
    if c in CreatorCounts(st, month) {
      var key :| key in keys && CountGroup(rows)(key) == c;
      MapElements(RowKey, rows, key);
      var row :| row in rows && RowKey(row) == key;
      var t, u := RowKeyNames(st, month, row);
      RowCount(st, t, u, month);
      assert row in Filter(HasKey(key), rows);
      assert Line(st, t, month)(u) == c;
    }
    if t, u :| t in st.teams && u in st.users && Line(st, t, month)(u) == c && Active(c) {
      RowCount(st, t, u, month);
      var row := Filter(HasKey(c.key), rows)[0];
      assert row in Filter(HasKey(c.key), rows);
      MapElements(RowKey, rows, c.key);
      assert CountGroup(rows)(c.key) == c;
    }
  }

  lemma CountsDistinct(st: Store, month: Month)
    ensures Distinct(CreatorCounts(st, month))
  {
    var rows := CreatorRows(st, month);
    var keys := Groups(Map(RowKey, rows));
    hide CreatorRows, Groups, Filter;
    assert forall i :: 0 <= i < |keys| ==> CreatorCounts(st, month)[i].key == keys[i];
  }

  lemma LinesKeyed(st: Store, t: TeamRow, month: Month)
    requires KeyedBy(UserKey, st.users)
    ensures var lines := Map(Line(st, t, month), st.users);
      forall i, j :: 0 <= i < j < |lines| ==> lines[i].key.userID != lines[j].key.userID
  {
    hide Filter;
    assert forall i, j :: 0 <= i < j < |st.users| ==> UserKey(st.users[i]) != UserKey(st.users[j]);
  }

  lemma LinesDistinct(lines: seq<CreatorCount>)
    requires forall i, j :: 0 <= i < j < |lines| ==> lines[i].key.userID != lines[j].key.userID
    ensures Distinct(lines)
    ensures forall a, b :: a in lines && b in lines && a != b ==> RankBefore(a, b) || RankBefore(b, a)
  {
    forall a, b | a in lines && b in lines && a != b ensures RankBefore(a, b) || RankBefore(b, a) {
      var i :| 0 <= i < |lines| && lines[i] == a;
      var j :| 0 <= j < |lines| && lines[j] == b;
    }
  }

  /** The ranking of a team holds the lines of its active creators, best first, without ties. */
  lemma RankingMeaning(st: Store, t: TeamRow, month: Month)
    requires KeyedBy(UserKey, st.users)
    ensures var ranking := Ranking(st, t, month);
      && Ordered(RankBefore, ranking)
      && Distinct(ranking)
      && (forall c :: c in ranking <==> Active(c) && exists u :: u in st.users && Line(st, t, month)(u) == c)
  {
    var lines := Map(Line(st, t, month), st.users);
    var active := Filter(Active, lines);
    LinesKeyed(st, t, month);
    forall c ensures c in lines <==> exists u :: u in st.users && Line(st, t, month)(u) == c {
      MapElements(Line(st, t, month), st.users, c);
    }
    hide Line, KeyedBy, Map, Sort;
    LinesDistinct(lines);
    FilterDistinct(Active, lines);
    assert forall c :: c in active <==> c in lines && Active(c);
    hide Filter;
    SortOrdered(RankBefore, active);
    SortElements(RankBefore, active);
    hide Separates, Distinct, Ordered, RankBefore;
    OrderedDistinct(RankBefore, Ranking(st, t, month));
  }

  // ----- the row numbers are the ranks

  lemma PrefixElements(ranking: seq<CreatorCount>, k: nat)
    requires Ordered(RankBefore, ranking) && k < |ranking|
    ensures forall other :: other in ranking[..k] <==> other in ranking && RankBefore(other, ranking[k])
  {
    forall other ensures other in ranking[..k] <==> other in ranking && RankBefore(other, ranking[k]) {
      if other in ranking && RankBefore(other, ranking[k]) {
        var j :| 0 <= j < |ranking| && ranking[j] == other;
        assert j > k ==> RankBefore(ranking[k], ranking[j]);
        assert ranking[..k][j] == other;
      }
    }
  }

  lemma CountsOfTeam(st: Store, t: TeamRow, month: Month, c: CreatorCount)
    requires LegalStore(st) && t in st.teams
    ensures c in CreatorCounts(st, month) && c.key.teamID == t.id <==> c in Ranking(st, t, month)
  {
    TeamsKeyed(st);
    CountsElements(st, month, c);
    RankingMeaning(st, t, month);
    hide LegalStore, KeyedBy, CreatorCounts, Ranking, Filter, Ordered, Distinct;
    if c in CreatorCounts(st, month) && c.key.teamID == t.id {
      var t', u :| t' in st.teams && u in st.users && Line(st, t', month)(u) == c && Active(c);
      SameTeamRow(st, t, t');
    }
  }

  /** The row number of a creator is the place in the team's ranking. */
  lemma NumberIsRank(st: Store, t: TeamRow, month: Month, k: nat)
    requires LegalStore(st) && t in st.teams && k < |Ranking(st, t, month)|
    ensures Number(CreatorCounts(st, month))(Ranking(st, t, month)[k]).position == k + 1
  {
    var counts, ranking := CreatorCounts(st, month), Ranking(st, t, month);
    var c := ranking[k];
    TeamsKeyed(st);
    CountsDistinct(st, month);
    RankingMeaning(st, t, month);
    PrefixElements(ranking, k);
    CountsOfTeam(st, t, month, c);
    hide LegalStore, KeyedBy, CreatorCounts, Ranking, Ordered;
    var ahead := Filter(AheadOf(c), counts);
    forall other ensures other in ahead <==> other in ranking[..k] {
      CountsOfTeam(st, t, month, other);
    }
    FilterDistinct(AheadOf(c), counts);
    assert Distinct(ranking[..k]);
    SameNumber(ahead, ranking[..k]);
  }

  /** A line of the report: a creator among the first three of a team, with the place as position. */
  ghost predicate PodiumLine(st: Store, month: Month, r: TopTaskCreator) {
    exists t, k: nat :: t in st.teams && k < |Ranking(st, t, month)| && k < PODIUM
      && r == TopTaskCreator(Ranking(st, t, month)[k], k + 1)
  }

  lemma ListedOnPodium(st: Store, month: Month, r: TopTaskCreator)
    requires LegalStore(st)
    requires r in Filter(OnPodium, Map(Number(CreatorCounts(st, month)), CreatorCounts(st, month)))
    ensures PodiumLine(st, month, r)
  {
    var counts := CreatorCounts(st, month);
    MapElements(Number(counts), counts, r);
    hide LegalStore, CreatorCounts, Ranking, Line, Number;
    var c :| c in counts && Number(counts)(c) == r;
    CountsElements(st, month, c);
    var t, u :| t in st.teams && u in st.users && Line(st, t, month)(u) == c && Active(c);
    assert c.key.teamID == t.id by { LineTeam(st, t, month, u); }
    CountsOfTeam(st, t, month, c);
    var ranking := Ranking(st, t, month);
    var k: nat :| k < |ranking| && ranking[k] == c;
    NumberIsRank(st, t, month, k);
    assert r.creator == c by { NumberCreator(counts, c); }
  }

  lemma LineTeam(st: Store, t: TeamRow, month: Month, u: UserRow)
    ensures Line(st, t, month)(u).key.teamID == t.id
  {
  }

  lemma NumberCreator(counts: seq<CreatorCount>, c: CreatorCount)
    ensures Number(counts)(c).creator == c
  {
  }

  lemma PodiumListed(st: Store, month: Month, t: TeamRow, k: nat)
    requires LegalStore(st) && t in st.teams && k < |Ranking(st, t, month)| && k < PODIUM
    ensures TopTaskCreator(Ranking(st, t, month)[k], k + 1)
         in Filter(OnPodium, Map(Number(CreatorCounts(st, month)), CreatorCounts(st, month)))
  {
    var counts, c := CreatorCounts(st, month), Ranking(st, t, month)[k];
    CountsOfTeam(st, t, month, c);
    NumberIsRank(st, t, month, k);
    hide LegalStore, CreatorCounts, Ranking, Number;
    NumberCreator(counts, c);
    MapElements(Number(counts), counts, TopTaskCreator(c, k + 1));
  }

  lemma RankingTeam(st: Store, t: TeamRow, month: Month, c: CreatorCount)
    requires KeyedBy(UserKey, st.users) && c in Ranking(st, t, month)
    ensures c.key.teamID == t.id
  {
    RankingMeaning(st, t, month);
    hide Ranking, Filter, Ordered, Distinct;
  }

  /** Where a line of the report stands. */
  lemma PlaceOf(st: Store, month: Month, r: TopTaskCreator) returns (t: TeamRow, k: nat)
    requires LegalStore(st) && PodiumLine(st, month, r)
    ensures t in st.teams && k < |Ranking(st, t, month)| && k < PODIUM
    ensures r == TopTaskCreator(Ranking(st, t, month)[k], k + 1) && r.creator.key.teamID == t.id
  {
    TeamsKeyed(st);
    hide LegalStore, Ranking, KeyedBy;
    t, k :| t in st.teams && k < |Ranking(st, t, month)| && k < PODIUM && r == TopTaskCreator(Ranking(st, t, month)[k], k + 1);
    RankingTeam(st, t, month, r.creator);
  }

  lemma LinesSeparate(st: Store, month: Month, lines: seq<TopTaskCreator>)
    requires LegalStore(st)
    requires forall r :: r in lines ==> PodiumLine(st, month, r)
    ensures Separates(LineBefore, lines)
  {
    TeamsKeyed(st);
    hide LegalStore, Ranking, KeyedBy, PodiumLine;
    forall a, b | a in lines && b in lines && a != b ensures LineBefore(a, b) || LineBefore(b, a) {
      var t, k := PlaceOf(st, month, a);
      var t', k' := PlaceOf(st, month, b);
      if t.id == t'.id { SameTeamRow(st, t, t'); }
    }
  }

  lemma NumbersDistinct(counts: seq<CreatorCount>)
    requires Distinct(counts)
    ensures Distinct(Map(Number(counts), counts))
  {
    hide Filter;
    assert forall i :: 0 <= i < |counts| ==> Map(Number(counts), counts)[i].creator == counts[i];
  }

  /**
   * The report lists exactly the first three of every team's ranking, or as many as there are, with their
   * places as positions, team by team and place by place.
   */
  lemma TopCreatorsMeaning(st: Store, month: Month)
    requires LegalStore(st)
    ensures var report := QueryTopCreators(st, month);
      && Ordered(LineBefore, report)
      && (forall r :: r in report <==> PodiumLine(st, month, r))
  {
    var counts := CreatorCounts(st, month);
    var lines := Filter(OnPodium, Map(Number(counts), counts));
    CountsDistinct(st, month);
    hide CreatorCounts, LegalStore, Number;
    NumbersDistinct(counts);
    FilterDistinct(OnPodium, Map(Number(counts), counts));
    forall r ensures r in lines <==> PodiumLine(st, month, r) {
      if r in lines { ListedOnPodium(st, month, r); }
      if PodiumLine(st, month, r) {
        var t, k: nat :| t in st.teams && k < |Ranking(st, t, month)| && k < PODIUM
          && r == TopTaskCreator(Ranking(st, t, month)[k], k + 1);
        PodiumListed(st, month, t, k);
      }
    }
    hide Filter, PodiumLine;
    LinesSeparate(st, month, lines);
    SortOrdered(LineBefore, lines);
    SortElements(LineBefore, lines);
  }

  /** Every creator that the report leaves out ranks strictly after every creator of the team that it lists. */
  lemma OmittedRankLast(st: Store, t: TeamRow, month: Month, listed: TopTaskCreator, omitted: CreatorCount)
    requires LegalStore(st) && t in st.teams
    requires listed in QueryTopCreators(st, month) && listed.creator.key.teamID == t.id
    requires omitted in Ranking(st, t, month)
    requires forall r :: r in QueryTopCreators(st, month) ==> r.creator != omitted
    ensures RankBefore(listed.creator, omitted)
    ensures |Ranking(st, t, month)| > PODIUM
  {
    TeamsKeyed(st);
    TopCreatorsMeaning(st, month);
    RankingMeaning(st, t, month);
    var ranking := Ranking(st, t, month);
    hide QueryTopCreators, Ranking, LegalStore, KeyedBy, Line, PodiumLine, RankBefore;
    var t', k := PlaceOf(st, month, listed);
    SameTeamRow(st, t, t');
    var j: nat :| j < |ranking| && ranking[j] == omitted;
    if j < PODIUM {
      OnPodiumIsListed(st, month, t, j);
    }
  }

  lemma OnPodiumIsListed(st: Store, month: Month, t: TeamRow, k: nat)
    requires LegalStore(st) && t in st.teams && k < |Ranking(st, t, month)| && k < PODIUM
    ensures TopTaskCreator(Ranking(st, t, month)[k], k + 1) in QueryTopCreators(st, month)
  {
    TopCreatorsMeaning(st, month);
    hide QueryTopCreators, Ranking, LegalStore;
    assert PodiumLine(st, month, TopTaskCreator(Ranking(st, t, month)[k], k + 1));
  }

  // ----- nothing is lost by counting per creator

  function Total(counts: seq<CreatorCount>): nat {
    if counts == [] then 0 else counts[0].count + Total(counts[1..])
  }

  lemma {:induction false} TotalInsert(c: CreatorCount, counts: seq<CreatorCount>)
    ensures Total(Insert(RankBefore, c, counts)) == c.count + Total(counts)
  {
    if counts == [] || RankBefore(c, counts[0]) {
      assert ([c] + counts)[1..] == counts;
    } else {
      TotalInsert(c, counts[1..]);
      var rest := Insert(RankBefore, c, counts[1..]);
      assert ([counts[0]] + rest)[1..] == rest;
    }
  }

  lemma {:induction false} TotalSort(counts: seq<CreatorCount>)
    ensures Total(Sort(RankBefore, counts)) == Total(counts)
  {
    if counts != [] {
      TotalSort(counts[1..]);
      TotalInsert(counts[0], Sort(RankBefore, counts[1..]));
    }
  }

  lemma {:induction false} TotalActive(counts: seq<CreatorCount>)
    ensures Total(Filter(Active, counts)) == Total(counts)
  {
    if counts != [] {
      TotalActive(counts[1..]);
      var rest := Filter(Active, counts[1..]);
      assert ([counts[0]] + rest)[1..] == rest;
      assert !Active(counts[0]) ==> [] + rest == rest;
    }
  }

  function InTeam(teamID: int, month: Month): Task -> bool {
    (task: Task) => task.teamID == teamID && InMonth(task, month)
  }

  function InTeamBy(teamID: int, month: Month, users: seq<UserRow>): Task -> bool {
    (task: Task) => task.teamID == teamID && InMonth(task, month) && exists u | u in users :: u.id == task.createdBy
  }

  lemma {:induction false} TotalLines(st: Store, t: TeamRow, month: Month, users: seq<UserRow>)
    requires KeyedBy(UserKey, users)
    ensures Total(Map(Line(st, t, month), users)) == |Filter(InTeamBy(t.id, month, users), st.tasks)|
  {
    if users == [] {
      FilterNone(InTeamBy(t.id, month, users), st.tasks);
    } else {
      var rest := users[1..];
      TotalLines(st, t, month, rest);
      assert Map(Line(st, t, month), users)[1..] == Map(Line(st, t, month), rest);
      assert users == [users[0]] + rest;
      assert forall u :: u in rest ==> UserKey(u) != UserKey(users[0]);
      hide Filter;
      FilterSplit(InTeamBy(t.id, month, users), CreatedIn(t.id, users[0].id, month), InTeamBy(t.id, month, rest), st.tasks);
    }
  }

  /** The counts of all creators of a team, listed or not, add up to the tasks created in the team in the month. */
  lemma CountsAddUp(st: Store, t: TeamRow, month: Month)
    requires LegalStore(st)
    ensures Total(Ranking(st, t, month)) == |Filter(InTeam(t.id, month), st.tasks)|
  {
    var lines := Map(Line(st, t, month), st.users);
    TeamsKeyed(st);
    forall task | task in st.tasks ensures InTeamBy(t.id, month, st.users)(task) == InTeam(t.id, month)(task) {
      UserReference(st, task);
    }
    hide LegalStore, Filter, Sort, Line, InTeam, InTeamBy, Map, KeyedBy;
    TotalSort(Filter(Active, lines));
    TotalActive(lines);
    TotalLines(st, t, month, st.users);
    FilterCongruence(InTeamBy(t.id, month, st.users), InTeam(t.id, month), st.tasks);
  }
}
