/** The report of the top three task creators, told by counting tasks: who is listed, in which place, and who is left out. */
module TopCreators {
  import opened Sorting
  import opened Store
  import opened Relations
  import opened Reports
  import opened CreatorRanking

  // ----- what the report should say

  /** The tasks of a team that a user created in a month. */
  function TasksBy(st: Store, teamID: int, userID: int, month: Month): set<int> {
    set task | task in st.tasks && task.teamID == teamID && task.createdBy == userID
                 && month.first <= task.createdAt && task.createdAt < month.next :: task.id
  }

  /** The users who created a task of a team in a month. */
  function Creators(st: Store, teamID: int, month: Month): set<int> {
    set task | task in st.tasks && task.teamID == teamID
                 && month.first <= task.createdAt && task.createdAt < month.next :: task.createdBy
  }

  /** A user created more tasks than another, or as many and has the smaller id. */
  predicate Ahead(st: Store, teamID: int, month: Month, a: int, b: int) {
    var m, n := |TasksBy(st, teamID, a, month)|, |TasksBy(st, teamID, b, month)|;
    m > n || (m == n && a < b)
  }

  function TeamOf(r: TopTaskCreator): int { r.creator.key.teamID }
  function CreatorOf(r: TopTaskCreator): int { r.creator.key.userID }

  /** The line names a team and a user of the tables, and counts the tasks that the user created. */
  predicate LineIsRight(st: Store, month: Month, r: TopTaskCreator) {
    && (exists t :: t in st.teams && t.id == TeamOf(r) && t.name == r.creator.key.teamName)
    && (exists u :: u in st.users && u.id == CreatorOf(r) && u.name == r.creator.key.userName)
    && r.creator.count == |TasksBy(st, TeamOf(r), CreatorOf(r), month)| > 0
  }

  predicate Listed(report: seq<TopTaskCreator>, teamID: int, userID: int) {
    exists r :: r in report && TeamOf(r) == teamID && CreatorOf(r) == userID
  }

  predicate ListedAt(report: seq<TopTaskCreator>, teamID: int, position: int) {
    exists r :: r in report && TeamOf(r) == teamID && r.position == position
  }

  /** Who comes first created more; who is left out created no more than anyone listed. */
  ghost predicate Ranked(st: Store, month: Month, report: seq<TopTaskCreator>) {
    && (forall a, b :: a in report && b in report && TeamOf(a) == TeamOf(b) && a.position < b.position ==>
          Ahead(st, TeamOf(a), month, CreatorOf(a), CreatorOf(b)))
    && (forall r, userID :: r in report && userID in Creators(st, TeamOf(r), month) && !Listed(report, TeamOf(r), userID) ==>
          Ahead(st, TeamOf(r), month, CreatorOf(r), userID))
  }

  /** The places of a team are 1, 2 and 3, or as many of them as there are creators. */
  ghost predicate Places(st: Store, month: Month, report: seq<TopTaskCreator>) {
    forall t, position: int :: t in st.teams ==>
      (ListedAt(report, t.id, position) <==> 1 <= position <= 3 && position <= |Creators(st, t.id, month)|)
  }

  /** Team by team, and place by place, so that each place is taken once. */
  predicate InOrder(report: seq<TopTaskCreator>) {
    forall i, j :: 0 <= i < j < |report| ==>
      TeamOf(report[i]) < TeamOf(report[j]) || (TeamOf(report[i]) == TeamOf(report[j]) && report[i].position < report[j].position)
  }

  ghost predicate TopThree(st: Store, month: Month, report: seq<TopTaskCreator>) {
    && (forall r :: r in report ==> LineIsRight(st, month, r))
    && Ranked(st, month, report)
    && Places(st, month, report)
    && InOrder(report)
  }

  // ----- the ranking, by counting

  lemma CountIs(st: Store, t: TeamRow, u: UserRow, month: Month)
    requires LegalStore(st)
    ensures Line(st, t, month)(u).count == |TasksBy(st, t.id, u.id, month)|
  {
    var created := Filter(CreatedIn(t.id, u.id, month), st.tasks);
    TeamsKeyed(st);
    hide LegalStore, KeyedBy;
    FilterKeyed(CreatedIn(t.id, u.id, month), TaskKey, st.tasks);
    assert forall task :: task in created <==>
      task in st.tasks && task.teamID == t.id && task.createdBy == u.id && month.first <= task.createdAt && task.createdAt < month.next;
    hide Filter, CreatedIn;
    forall id | id in TasksBy(st, t.id, u.id, month) ensures exists task :: task in created && TaskKey(task) == id {
      var task :| task in st.tasks && task.teamID == t.id && task.createdBy == u.id
        && month.first <= task.createdAt && task.createdAt < month.next && task.id == id;
      assert task in created && TaskKey(task) == id;
    }
    KeysAre(TaskKey, created, TasksBy(st, t.id, u.id, month));
  }

  /** A ranked line is that of a creator. */
  lemma RankedLine(st: Store, t: TeamRow, month: Month, c: CreatorCount) returns (u: UserRow)
    requires LegalStore(st) && c in Ranking(st, t, month)
    ensures u in st.users && c == CreatorCount(CreatorKey(t.id, t.name, u.id, u.name), |TasksBy(st, t.id, u.id, month)|) && c.count > 0
  {
    TeamsKeyed(st);
    RankingMeaning(st, t, month);
    hide LegalStore, KeyedBy, Ranking, Filter, Ordered, Distinct;
    u :| u in st.users && Line(st, t, month)(u) == c;
    CountIs(st, t, u, month);
  }

  /** Every creator has a ranked line. */
  lemma CreatorRanked(st: Store, t: TeamRow, month: Month, userID: int) returns (k: nat)
    requires LegalStore(st) && userID in Creators(st, t.id, month)
    ensures k < |Ranking(st, t, month)| && Ranking(st, t, month)[k].key.userID == userID
  {
    var task :| task in st.tasks && task.teamID == t.id && month.first <= task.createdAt && task.createdAt < month.next
      && task.createdBy == userID;
    assert task.id in TasksBy(st, t.id, userID, month);
    assert HasUser(st, userID);
    TeamsKeyed(st);
    RankingMeaning(st, t, month);
    hide LegalStore, KeyedBy, Ranking, Filter, Ordered, Distinct, TasksBy, Creators;
    var u :| u in st.users && u.id == userID;
    CountIs(st, t, u, month);
    var c := Line(st, t, month)(u);
    assert c in Ranking(st, t, month);
    k :| k < |Ranking(st, t, month)| && Ranking(st, t, month)[k] == c;
  }

  lemma RankedIsCreator(st: Store, t: TeamRow, month: Month, c: CreatorCount)
    requires LegalStore(st) && c in Ranking(st, t, month)
    ensures c.key.userID in Creators(st, t.id, month)
  {
    var u := RankedLine(st, t, month, c);
    hide LegalStore, Ranking;
    var id :| id in TasksBy(st, t.id, u.id, month);
  }

  function UserOfLine(c: CreatorCount): int { c.key.userID }

  lemma RankingKeyed(st: Store, t: TeamRow, month: Month)
    requires LegalStore(st)
    ensures KeyedBy(UserOfLine, Ranking(st, t, month))
  {
    var ranking := Ranking(st, t, month);
    TeamsKeyed(st);
    RankingMeaning(st, t, month);
    hide LegalStore, Ranking, Filter, Ordered;
    forall i, j | 0 <= i < j < |ranking| ensures UserOfLine(ranking[i]) != UserOfLine(ranking[j]) {
      var u := RankedLine(st, t, month, ranking[i]);
      var v := RankedLine(st, t, month, ranking[j]);
      if u.id == v.id {
        SameUserRow(st, u, v);
      }
    }
  }

  /** The ranking is as long as there are creators. */
  lemma RankingLength(st: Store, t: TeamRow, month: Month)
    requires LegalStore(st)
    ensures |Ranking(st, t, month)| == |Creators(st, t.id, month)|
  {
    var ranking := Ranking(st, t, month);
    RankingKeyed(st, t, month);
    hide LegalStore, Ranking, KeyedBy, Creators;
    forall userID | userID in Creators(st, t.id, month) ensures exists c :: c in ranking && UserOfLine(c) == userID {
      var k := CreatorRanked(st, t, month, userID);
      assert ranking[k] in ranking;
    }
    forall c | c in ranking ensures UserOfLine(c) in Creators(st, t.id, month) {
      RankedIsCreator(st, t, month, c);
    }
    KeysAre(UserOfLine, ranking, Creators(st, t.id, month));
  }

  /** An earlier place in the ranking is one ahead. */
  lemma EarlierIsAhead(st: Store, t: TeamRow, month: Month, j: nat, k: nat)
    requires LegalStore(st) && j < k < |Ranking(st, t, month)|
    ensures Ahead(st, t.id, month, Ranking(st, t, month)[j].key.userID, Ranking(st, t, month)[k].key.userID)
  {
    var ranking := Ranking(st, t, month);
    TeamsKeyed(st);
    RankingMeaning(st, t, month);
    var u := RankedLine(st, t, month, ranking[j]);
    var v := RankedLine(st, t, month, ranking[k]);
    assert RankBefore(ranking[j], ranking[k]);
    hide LegalStore, Ranking, KeyedBy, Filter, Ordered, TasksBy;
  }

  // ----- the report

  lemma PlacedLine(st: Store, month: Month, report: seq<TopTaskCreator>, r: TopTaskCreator) returns (t: TeamRow, k: nat)
    requires LegalStore(st) && r in report && forall line :: line in report ==> PodiumLine(st, month, line)
    ensures t in st.teams && k < |Ranking(st, t, month)| && k < 3 && r == TopTaskCreator(Ranking(st, t, month)[k], k + 1) && TeamOf(r) == t.id
  {
    hide LegalStore, Ranking, PodiumLine;
    t, k := PlaceOf(st, month, r);
  }

  lemma SameTeamSameRanking(st: Store, t: TeamRow, t': TeamRow)
    requires LegalStore(st) && t in st.teams && t' in st.teams && t.id == t'.id
    ensures t == t'
  {
    TeamsKeyed(st);
    hide LegalStore, KeyedBy;
    SameTeamRow(st, t, t');
  }

  lemma LinesAreRight(st: Store, month: Month, report: seq<TopTaskCreator>, r: TopTaskCreator)
    requires LegalStore(st) && r in report && forall line :: line in report ==> PodiumLine(st, month, line)
    ensures LineIsRight(st, month, r)
  {
    hide LegalStore, Ranking, PodiumLine, TasksBy;
    var t, k := PlacedLine(st, month, report, r);
    var u := RankedLine(st, t, month, r.creator);
  }

  lemma ReportRanked(st: Store, month: Month, report: seq<TopTaskCreator>)
    requires LegalStore(st) && forall line :: line in report <==> PodiumLine(st, month, line)
    ensures Ranked(st, month, report)
  {
    hide LegalStore, Ranking, PodiumLine, Ahead, Creators, Listed;
    forall a, b | a in report && b in report && TeamOf(a) == TeamOf(b) && a.position < b.position
      ensures Ahead(st, TeamOf(a), month, CreatorOf(a), CreatorOf(b)) {
      var t, j := PlacedLine(st, month, report, a);
      var t', k := PlacedLine(st, month, report, b);
      SameTeamSameRanking(st, t, t');
      EarlierIsAhead(st, t, month, j, k);
    }
    forall r, userID | r in report && userID in Creators(st, TeamOf(r), month) && !Listed(report, TeamOf(r), userID)
      ensures Ahead(st, TeamOf(r), month, CreatorOf(r), userID) {
      OmittedBehind(st, month, report, r, userID);
    }
  }

  lemma OmittedBehind(st: Store, month: Month, report: seq<TopTaskCreator>, r: TopTaskCreator, userID: int)
    requires LegalStore(st) && forall line :: line in report <==> PodiumLine(st, month, line)
    requires r in report && userID in Creators(st, TeamOf(r), month) && !Listed(report, TeamOf(r), userID)
    ensures Ahead(st, TeamOf(r), month, CreatorOf(r), userID)
  {
    hide LegalStore, Ranking, Ahead, Creators;
    var t, j := PlacedLine(st, month, report, r);
    var k := CreatorRanked(st, t, month, userID);
    if k < 3 {
      var line := TopTaskCreator(Ranking(st, t, month)[k], k + 1);
      assert PodiumLine(st, month, line);
      RankedTeam(st, t, month, Ranking(st, t, month)[k]);
    } else {
      EarlierIsAhead(st, t, month, j, k);
    }
  }

  lemma RankedTeam(st: Store, t: TeamRow, month: Month, c: CreatorCount)
    requires LegalStore(st) && c in Ranking(st, t, month)
    ensures c.key.teamID == t.id
  {
    hide LegalStore, Ranking;
    var u := RankedLine(st, t, month, c);
  }

  lemma ReportPlaces(st: Store, month: Month, report: seq<TopTaskCreator>)
    requires LegalStore(st) && forall line :: line in report <==> PodiumLine(st, month, line)
    ensures Places(st, month, report)
  {
    hide LegalStore, Ranking, Creators;
    forall t, position: int | t in st.teams
      ensures ListedAt(report, t.id, position) <==> 1 <= position <= 3 && position <= |Creators(st, t.id, month)| {
      RankingLength(st, t, month);
      if r :| r in report && TeamOf(r) == t.id && r.position == position {
        var t', k := PlacedLine(st, month, report, r);
        SameTeamSameRanking(st, t, t');
      }
      if 1 <= position <= 3 && position <= |Creators(st, t.id, month)| {
        var line := TopTaskCreator(Ranking(st, t, month)[position - 1], position);
        assert PodiumLine(st, month, line);
        RankedTeam(st, t, month, Ranking(st, t, month)[position - 1]);
        assert line in report && TeamOf(line) == t.id;
      }
    }
  }

  lemma OrderedInOrder(report: seq<TopTaskCreator>)
    requires Ordered(LineBefore, report)
    ensures InOrder(report)
  {
    assert forall i, j :: 0 <= i < j < |report| ==> LineBefore(report[i], report[j]);
  }

  /** What the query reports is, of every team, its first three creators by the number of tasks they created. */
  lemma ReportIsTopThree(st: Store, month: Month)
    requires LegalStore(st)
    ensures TopThree(st, month, QueryTopCreators(st, month))
  {
    var report := QueryTopCreators(st, month);
    TopCreatorsMeaning(st, month);
    hide LegalStore, QueryTopCreators, PodiumLine, LineIsRight, Ranked, Places, InOrder, Ordered;
    OrderedInOrder(report);
    ReportRanked(st, month, report);
    ReportPlaces(st, month, report);
    forall r | r in report ensures LineIsRight(st, month, r) {
      LinesAreRight(st, month, report, r);
    }
  }
}
