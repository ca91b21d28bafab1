/** When the tasks of a run were created: at the time of the commit that added them, and listed in the order of those commits. */
module CreationOrder {
  import opened Domain
  import opened TaskQueries
  import opened TaskUpdates
  import opened Store
  import opened StoreSafety
  import opened Service
  import opened ServiceSafety
  import opened CacheSafety
  import opened CacheRuns
  import opened CacheTheorems
  import opened ListMeaning
  import opened Effects
  import opened Runs

  // ----- births

  /** The task is new in a commit, which is recorded with its team and at its creation time. */
  predicate BornIn(log: Log, row: Task, n: nat) {
    && 0 < n < |log|
    && (forall other :: other in log[n - 1].store.tasks ==> other.id != row.id)
    && (exists other :: other in log[n].store.tasks && other.id == row.id)
    && log[n].team == Some(row.teamID)
    && log[n].at == row.createdAt
  }

  /** Every task is born in a commit, and tasks with greater ids in later ones. */
  ghost predicate Births(d: DataSide, born: map<int, nat>) {
    && (forall row :: row in Db(d).tasks ==> row.id in born && BornIn(d.log, row, born[row.id]))
    && (forall a, b :: a in Db(d).tasks && b in Db(d).tasks && a.id < b.id ==> born[a.id] < born[b.id])
  }

  /** The rows are old ones, perhaps with other values. */
  predicate SameRows(d: DataSide, d': DataSide) {
    forall row' :: row' in Db(d').tasks ==>
      exists row :: row in Db(d).tasks && (row.id, row.teamID, row.createdAt) == (row'.id, row'.teamID, row'.createdAt)
  }

  predicate LogExtends(d: DataSide, d': DataSide) {
    |d.log| <= |d'.log| && forall i :: 0 <= i < |d.log| ==> d'.log[i] == d.log[i]
  }

  lemma BornStill(log: Log, log': Log, row: Task, row': Task, n: nat)
    requires BornIn(log, row, n) && |log| <= |log'| && forall i :: 0 <= i < |log| ==> log'[i] == log[i]
    requires (row.id, row.teamID, row.createdAt) == (row'.id, row'.teamID, row'.createdAt)
    ensures BornIn(log', row', n)
  {
  }

  lemma SameBirths(d: DataSide, d': DataSide, born: map<int, nat>)
    requires Births(d, born) && SameRows(d, d') && LogExtends(d, d')
    ensures Births(d', born)
  {
    hide Db, BornIn;
    forall row' | row' in Db(d').tasks ensures row'.id in born && BornIn(d'.log, row', born[row'.id]) {
      var row :| row in Db(d).tasks && (row.id, row.teamID, row.createdAt) == (row'.id, row'.teamID, row'.createdAt);
      BornStill(d.log, d'.log, row, row', born[row.id]);
    }
  }

  lemma OneMoreBirth(d: DataSide, d': DataSide, born: map<int, nat>, row: Task) returns (born': map<int, nat>)
    requires Births(d, born) && Added(d, d', row) && forall earlier :: earlier in Db(d).tasks ==> earlier.id < d.ids.task
    ensures Births(d', born')
  {
    var n: nat := |d.log|;
    born' := born[row.id := n];
    NewBorn(d, d', row);
    OldBorn(d, d', born, row);
    hide BornIn, Added, Births;
    assert forall other :: other in Db(d').tasks ==> other == row || other in Db(d).tasks by { AddedRows(d, d', row); }
    hide Db;
    OneMore(d, d', born, born', row);
  }

  lemma AddedRows(d: DataSide, d': DataSide, row: Task)
    requires Added(d, d', row)
    ensures forall other :: other in Db(d').tasks <==> other == row || other in Db(d).tasks
    ensures row.id == d.ids.task
  {
  }

  lemma NewBorn(d: DataSide, d': DataSide, row: Task)
    requires Added(d, d', row) && forall earlier :: earlier in Db(d).tasks ==> earlier.id < d.ids.task
    ensures BornIn(d'.log, row, |d.log|)
  {
    assert row in d'.log[|d.log|].store.tasks && d'.log[|d.log| - 1] == d.log[|d.log| - 1];
  }

  lemma OldBorn(d: DataSide, d': DataSide, born: map<int, nat>, row: Task)
    requires Births(d, born) && Added(d, d', row)
    ensures forall earlier :: earlier in Db(d).tasks ==>
      earlier.id in born && BornIn(d'.log, earlier, born[earlier.id]) && born[earlier.id] < |d.log|
  {
    forall earlier | earlier in Db(d).tasks
      ensures earlier.id in born && BornIn(d'.log, earlier, born[earlier.id]) && born[earlier.id] < |d.log| {
      assert BornIn(d.log, earlier, born[earlier.id]);
      assert forall i :: 0 <= i < |d.log| ==> d'.log[i] == d.log[i];
      hide Db, Births;
      BornStill(d.log, d'.log, earlier, earlier, born[earlier.id]);
    }
  }

  lemma OneMore(d: DataSide, d': DataSide, born: map<int, nat>, born': map<int, nat>, row: Task)
    requires Births(d, born) && born' == born[row.id := |d.log|] && BornIn(d'.log, row, |d.log|)
    requires forall other :: other in Db(d').tasks ==> other == row || other in Db(d).tasks
    requires forall earlier :: earlier in Db(d).tasks ==>
      earlier.id < row.id && earlier.id in born && BornIn(d'.log, earlier, born[earlier.id]) && born[earlier.id] < |d.log|
    ensures Births(d', born')
  {
    hide BornIn, Db;
  }

  // ----- an update keeps the rows

  lemma SameTableRows(d: DataSide, d': DataSide)
    requires Db(d').tasks == Db(d).tasks
    ensures SameRows(d, d')
  {
  }

  lemma CommitRows(d: DataSide, id: nat, pc': UpdaterPc)
    requires StoreInv(d) && id in d.updaters && d.updaters[id].pc.Writing?
    ensures SameRows(d, SetUpdater(TaskCommitted(d, d.updaters[id].pc), id, pc'))
  {
    var pc := d.updaters[id].pc;
    UpdaterFacts(d, id);
    UniqueRows(d);
    TaskCommittedParts(d, pc);
    assert pc.pending.id == pc.before.id && pc.pending.teamID == pc.before.teamID && pc.pending.createdAt == pc.before.createdAt by {
      MergedIdentity(pc.pending, pc.before, pc.current, pc.wanted);
    }
    CommittedRows(Db(d), pc.pending, pc.before, pc.rows);
    var d' := SetUpdater(TaskCommitted(d, pc), id, pc');
    assert Db(d') == CommitUpdate(Db(d), pc.pending, pc.rows);
    hide StoreInv, CommitUpdate, TaskCommitted, SetUpdater, Db, UniqueIDs, PlanOk, PendingRows, MergedFrom;
    OneRewritten(Db(d), Db(d'), pc.before, pc.pending);
    assert SameRows(d, d');
  }

  lemma MergedIdentity(pending: Task, before: Task, current: Task, wanted: Task)
    requires MergedFrom(pending, before, current, wanted)
    ensures pending.id == before.id && pending.teamID == before.teamID && pending.createdAt == before.createdAt
  {
    assert Merge(before, current, wanted).id == pending.id && Merge(before, current, wanted).teamID == pending.teamID
      && Merge(before, current, wanted).createdAt == pending.createdAt;
  }

  lemma OneRewritten(st: Store, st': Store, before: Task, pending: Task)
    requires before in st.tasks && (before.id, before.teamID, before.createdAt) == (pending.id, pending.teamID, pending.createdAt)
    requires forall r :: r in st'.tasks ==> r == pending || r in st.tasks
    ensures forall row' :: row' in st'.tasks ==>
      exists row :: row in st.tasks && (row.id, row.teamID, row.createdAt) == (row'.id, row'.teamID, row'.createdAt)
  {
  }

  lemma SameLogRows(d: DataSide, d': DataSide)
    requires d'.log == d.log
    ensures SameRows(d, d')
  {
    hide SameRows;
    SameTableRows(d, d');
  }

  lemma SetsLog(d: DataSide, id: nat)
    ensures forall pc: UpdaterPc :: SetUpdater(d, id, pc).log == d.log
  {
  }

  lemma WriteRows(d: DataSide, id: nat, o: Outcome)
    requires StoreInv(d) && id in d.updaters && d.updaters[id].pc.Writing?
    ensures SameRows(d, WriteStep(d, id, d.updaters[id].input.requestedBy, d.updaters[id].pc, o))
  {
    var pc := d.updaters[id].pc;
    var d' := WriteStep(d, id, d.updaters[id].input.requestedBy, pc, o);
    SetsLog(HistoryIdDrawn(d), id);
    SetsLog(Unlock(HistoryIdDrawn(d), pc.current.id), id);
    SetsLog(Unlock(d, pc.current.id), id);
    if |pc.rows| == |Changes(pc.current, pc.wanted)| && !o.FailsBefore? {
      CommitRows(d, id, if o.FailsAfter? then UpdateFailed(Infrastructure) else AnnouncingUpdate(pc.pending, |d.log|));
      hide StoreInv, Changes, NextHistoryRow, TaskCommitted, SameRows, SetUpdater;
    } else {
      UpdaterFacts(d, id);
      hide StoreInv, Changes, NextHistoryRow, TaskCommitted, SameRows, SetUpdater;
      assert d'.log == d.log;
      SameLogRows(d, d');
    }
  }

  lemma ExecRows(d: DataSide, id: nat, current: Task, wanted: Task, o: Outcome)
    ensures SameRows(d, ExecStep(d, id, current, wanted, o))
  {
    SetsLog(d, id);
    SetsLog(Lock(d, current.id, id), id);
    hide TryExec, SetUpdater, SameRows;
    SameLogRows(d, ExecStep(d, id, current, wanted, o));
  }

  lemma UpdateRows(d: DataSide, id: nat, o: Outcome, appTime: int)
    requires StoreInv(d)
    ensures SameRows(d, UpdateStep(d, id, o, appTime))
  {
    SetsLog(d, id);
    hide StoreInv, IsMember, AfterFind, AfterRequesterCheck, AfterAssigneeCheck, FindTask, ExecStep, WriteStep, SameRows, SetUpdater;
    if id in d.updaters && d.updaters[id].pc.Writing? {
      WriteRows(d, id, o);
    } else if id in d.updaters && d.updaters[id].pc.Executing? {
      ExecRows(d, id, d.updaters[id].pc.current, d.updaters[id].pc.wanted, o);
    } else {
      SameLogRows(d, UpdateStep(d, id, o, appTime));
    }
  }

  lemma StepBirths(d: DataSide, a: Action, born: map<int, nat>) returns (born': map<int, nat>)
    requires StoreInv(d) && Births(d, born) && LogExtends(d, DataStep(d, a))
    ensures Births(DataStep(d, a), born')
  {
    var d' := DataStep(d, a);
    born' := born;
    if OutsideUpdates(a) {
      StepEffect(d, a);
      TaskIdsKnown(d);
      hide DataStep, StoreInv, Births, SameRows, Added, LogExtends;
      if TasksUntouched(d, d') {
        SameTableRows(d, d');
        SameBirths(d, d', born);
      } else {
        var row :| Added(d, d', row);
        born' := OneMoreBirth(d, d', born, row);
      }
    } else {
      assert SameRows(d, d') by {
        hide StoreInv, Births, UpdateStep, SameRows, RequestOk, LogExtends;
        if a.AUpdate? {
          UpdateRows(d, a.id, a.o, a.appTime);
        } else {
          SameTableRows(d, d');
        }
      }
      hide DataStep, StoreInv, Births, SameRows, LogExtends;
      SameBirths(d, d', born);
    }
  }

  lemma TaskIdsKnown(d: DataSide)
    requires StoreInv(d)
    ensures forall row :: row in Db(d).tasks ==> row.id < d.ids.task
  {
    TeamFacts(d);
    hide StoreInv, MembersOk;
  }

  lemma StepExtends(ttl: int, actions: seq<Action>, a: Action)
    ensures LogExtends(Reached(ttl, actions).data, DataStep(Reached(ttl, actions).data, a))
    ensures Reached(ttl, actions + [a]).data == DataStep(Reached(ttl, actions).data, a)
  {
    ReachedStep(ttl, actions, a);
    hide Reached;
    RunKeepsLog(ttl, actions, [a]);
    hide DataStep, CacheStep;
  }

  lemma NothingBorn(ttl: int)
    ensures Births(Initial(ttl).data, map[])
  {
  }

  lemma {:induction false} ReachedBirths(ttl: int, actions: seq<Action>) returns (born: map<int, nat>)
    ensures Births(Reached(ttl, actions).data, born)
    decreases |actions|
  {
    if actions == [] {
      NothingBorn(ttl);
      born := map[];
    } else {
      var before, a := actions[..|actions| - 1], actions[|actions| - 1];
      assert before + [a] == actions;
      born := ReachedBirths(ttl, before);
      ReachedOk(ttl, before);
      StepExtends(ttl, before, a);
      hide Reached, StoreInv, Births, DataStep, LogExtends;
      born := StepBirths(Reached(ttl, before).data, a, born);
    }
  }

  /** In every run, a task was created at the time of the one commit that added it. */
  lemma CreatedAtItsCommit(ttl: int, actions: seq<Action>, row: Task)
    requires row in Db(Reached(ttl, actions).data).tasks
    ensures exists n :: BornIn(Reached(ttl, actions).data.log, row, n)
  {
    var born := ReachedBirths(ttl, actions);
    hide Reached, BornIn;
    assert BornIn(Reached(ttl, actions).data.log, row, born[row.id]);
  }

  lemma TimesInOrder(s: System, m: nat, n: nat)
    requires CacheInv(s) && m <= n < |s.data.log|
    ensures s.data.log[m].at <= s.data.log[n].at
  {
    hide FramesOk, WritersOk, TeamsOk, KeysOk, ReadersOk;
  }

  /** Of two tasks, the one that lists put first was added by the later commit. */
  lemma NewerIsLater(s: System, d0: DataSide, born: map<int, nat>, a: Task, b: Task)
    requires CacheInv(s) && Births(d0, born) && LogExtends(d0, s.data) && a in Db(d0).tasks && b in Db(d0).tasks
    requires a.createdAt > b.createdAt || (a.createdAt == b.createdAt && a.id > b.id)
    ensures BornIn(s.data.log, a, born[a.id]) && BornIn(s.data.log, b, born[b.id]) && born[a.id] > born[b.id]
  {
    BornStill(d0.log, s.data.log, a, a, born[a.id]);
    BornStill(d0.log, s.data.log, b, b, born[b.id]);
    BornAt(s.data.log, a, born[a.id]);
    BornAt(s.data.log, b, born[b.id]);
    hide CacheInv, BornIn, LogExtends;
    if born[a.id] <= born[b.id] {
      TimesInOrder(s, born[a.id], born[b.id]);
    }
  }

  lemma BornAt(log: Log, row: Task, n: nat)
    requires BornIn(log, row, n)
    ensures n < |log| && log[n].at == row.createdAt
  {
  }

  /** The first row is new in a later commit than the second. */
  ghost predicate Later(log: Log, a: Task, b: Task) {
    exists m: nat, n: nat :: m > n && BornIn(log, a, m) && BornIn(log, b, n)
  }

  /** In every run, a list that is returned has its tasks in the order of the commits that added them, newest first. */
  lemma ListedInCommitOrder(ttl: int, actions: seq<Action>, id: nat, snap: nat)
    requires var s := Reached(ttl, actions); id in s.cache.readers && ListedFrom(s.data, s.cache.readers[id], snap)
    ensures
      var s := Reached(ttl, actions);
      var rows := s.cache.readers[id].pc.rows;
      forall i, j :: 0 <= i < j < |rows| ==> Later(s.data.log, rows[i], rows[j])
  {
    var s := Reached(ttl, actions);
    var r := s.cache.readers[id];
    CacheReachedOk(ttl, actions);
    ListsAnswerTheirInput(ttl, actions, id, snap);
    assert r.input.offset >= 0 by { ParsedOffset(r); }
    AnswersAreAskedFor(s.data.log[snap].store.tasks, r.input, r.pc.rows);
    hide Reached, CacheInv, ListedFrom, Answers, AskedFor, Births, BornIn, Later, Db, LogExtends;
    var d0, born := BirthsAt(ttl, actions, snap);
    forall i, j | 0 <= i < j < |r.pc.rows| ensures Later(s.data.log, r.pc.rows[i], r.pc.rows[j]) {
      assert r.pc.rows[i] in r.pc.rows && r.pc.rows[j] in r.pc.rows;
      LaterRows(s, d0, born, r.pc.rows[i], r.pc.rows[j]);
    }
  }

  /** The births up to a state of the log. */
  lemma BirthsAt(ttl: int, actions: seq<Action>, snap: nat) returns (d0: DataSide, born: map<int, nat>)
    requires snap < |Reached(ttl, actions).data.log|
    ensures Births(d0, born) && LogExtends(d0, Reached(ttl, actions).data)
    ensures Db(d0) == Reached(ttl, actions).data.log[snap].store
  {
    var k := LogPrefix(ttl, actions, snap);
    d0 := Reached(ttl, actions[..k]).data;
    hide Births, Reached;
    born := ReachedBirths(ttl, actions[..k]);
  }

  lemma LaterRows(s: System, d0: DataSide, born: map<int, nat>, a: Task, b: Task)
    requires CacheInv(s) && Births(d0, born) && LogExtends(d0, s.data) && a in Db(d0).tasks && b in Db(d0).tasks
    requires a.createdAt > b.createdAt || (a.createdAt == b.createdAt && a.id > b.id)
    ensures Later(s.data.log, a, b)
  {
    NewerIsLater(s, d0, born, a, b);
    hide CacheInv, BornIn, LogExtends, Births, Db;
  }

  lemma ParsedOffset(r: Reader)
    requires r.pc.Listed? && ParseFilter(r.input) == Ok(r.pc.filter) && ValidFilter(r.pc.filter)
    ensures r.input.offset >= 0
  {
    ParsedFilter(r.input);
    hide ParseFilter, BadFilter, TrimSpace;
  }
}
