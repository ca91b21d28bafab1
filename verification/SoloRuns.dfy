/**
 * The steps of a call in the state machine, taken without failure and without anything in between, amount to
 * the call as the use case performs it.
 */
module SoloRuns {
  import opened Domain
  import opened TaskQueries
  import opened TaskUpdates
  import opened AuditLog
  import opened Store
  import opened StoreSafety
  import opened RedisStore
  import opened Service
  import opened ServiceSafety
  import opened Transactions
  import opened Calls
  import opened ListMeaning
  import opened UpdateMeaning
  import opened CreateMeaning
  import opened Runs

  /** What the statements of a call see of the state. */
  function TablesOf(d: DataSide): Tables {
    Tables(Db(d), d.ids, d.now)
  }

  // ----- Tasks.Update

  /** The state with one update call at a program point. */
  function At(d: DataSide, id: nat, input: UpdateInput, pc: UpdaterPc): DataSide {
    d.(updaters := d.updaters[id := Updater(input, pc)])
  }

  lemma SetAt(d: DataSide, id: nat, input: UpdateInput, pc: UpdaterPc, pc': UpdaterPc)
    ensures SetUpdater(At(d, id, input, pc), id, pc') == At(d, id, input, pc')
  {
    assert d.updaters[id := Updater(input, pc)][id := Updater(input, pc')] == d.updaters[id := Updater(input, pc')];
  }

  lemma BeginAt(d: DataSide, id: nat, input: UpdateInput)
    requires id !in d.updaters
    ensures BeginUpdate(d, id, input) == At(d, id, input, if RequestOk(input) then Finding else UpdateFailed(InvalidInput))
  {
    hide RequestOk;
  }

  /** A step that is not an announcement leaves the cache alone. */
  lemma QuietStep(s: System, id: nat, t: int, d: DataSide)
    requires id in s.data.updaters && !s.data.updaters[id].pc.AnnouncingUpdate?
    requires UpdateStep(s.data, id, Succeeds, t) == d
    ensures Step(s, AUpdate(id, Succeeds, t)) == s.(data := d)
  {
    hide UpdateStep;
  }

  lemma ChecksStep(s: System, d: DataSide, id: nat, input: UpdateInput, pc: UpdaterPc, t: int, next: UpdaterPc)
    requires s.data == At(d, id, input, pc)
    requires pc.Finding? || pc.CheckingRequester? || pc.CheckingNewAssignee?
    requires next == match pc
                     case Finding => AfterFind(FindTask(Db(d), input.taskID), Succeeds)
                     case CheckingRequester(current) =>
                       AfterRequesterCheck(IsMember(Db(d), current.teamID, input.requestedBy), input, current, Succeeds, t)
                     case CheckingNewAssignee(current) =>
                       var isMember := input.assigneeID.Some? && IsMember(Db(d), current.teamID, input.assigneeID.value);
                       AfterAssigneeCheck(isMember, input, current, Succeeds, t)
                     case _ => pc
    ensures Step(s, AUpdate(id, Succeeds, t)) == s.(data := At(d, id, input, next))
  {
    hide FindTask, IsMember, AfterFind, AfterRequesterCheck, AfterAssigneeCheck, SetUpdater;
    SetAt(d, id, input, pc, next);
    assert UpdateStep(s.data, id, Succeeds, t) == At(d, id, input, next);
    QuietStep(s, id, t, At(d, id, input, next));
  }

  /** The database after some history ids have been drawn and while the row is locked. */
  function InTransaction(d: DataSide, id: nat, taskID: int, drawn: nat): DataSide {
    Lock(d.(ids := d.ids.(history := d.ids.history + drawn)), taskID, id)
  }

  /** What an update transaction writes: the task read, the task wanted, the row met and the row left. */
  datatype Write = Write(current: Task, wanted: Task, before: Task, pending: Task)

  function ChangesIn(w: Write): seq<TaskChange> {
    Changes(w.current, w.wanted)
  }

  function RowsOf(d: DataSide, w: Write, author: int): (rows: seq<HistoryRow>)
    ensures |rows| == |ChangesIn(w)|
  {
    HistoryRows(d.ids.history, w.current.id, author, ChangesIn(w), d.now)
  }

  function WritingPc(d: DataSide, w: Write, author: int, n: nat): UpdaterPc
    requires n <= |ChangesIn(w)|
  {
    Writing(w.current, w.wanted, w.before, w.pending, RowsOf(d, w, author)[..n])
  }

  /** The transaction with n history rows written. */
  function WritingAt(d: DataSide, id: nat, input: UpdateInput, w: Write, n: nat): DataSide
    requires n <= |ChangesIn(w)|
  {
    At(InTransaction(d, id, w.current.id, n), id, input, WritingPc(d, w, input.requestedBy, n))
  }

  lemma ExecSolo(s: System, d: DataSide, id: nat, input: UpdateInput, w: Write, t: int)
    requires s.data == At(d, id, input, Executing(w.current, w.wanted)) && w.current.id !in d.locks
    requires TryExec(Db(d), w.current, w.wanted, d.now) == Ok((w.before, w.pending))
    ensures Step(s, AUpdate(id, Succeeds, t)) == s.(data := WritingAt(d, id, input, w, 0))
  {
    hide TryExec, SetUpdater, RowsOf;
    var pc' := Writing(w.current, w.wanted, w.before, w.pending, []);
    var d1 := InTransaction(d, id, w.current.id, 0);
    LockAt(d, id, input, Executing(w.current, w.wanted), w.current.id);
    SetAt(d1, id, input, Executing(w.current, w.wanted), pc');
    assert UpdateStep(s.data, id, Succeeds, t) == At(d1, id, input, pc');
    QuietStep(s, id, t, At(d1, id, input, pc'));
  }

  lemma LockAt(d: DataSide, id: nat, input: UpdateInput, pc: UpdaterPc, taskID: int)
    ensures Lock(At(d, id, input, pc), taskID, id) == At(InTransaction(d, id, taskID, 0), id, input, pc)
  {
  }

  lemma DrawAt(d: DataSide, id: nat, input: UpdateInput, pc: UpdaterPc, taskID: int, n: nat)
    ensures HistoryIdDrawn(At(InTransaction(d, id, taskID, n), id, input, pc)) == At(InTransaction(d, id, taskID, n + 1), id, input, pc)
  {
  }

  lemma HistorySolo(s: System, d: DataSide, id: nat, input: UpdateInput, w: Write, t: int, n: nat)
    requires n < |ChangesIn(w)| && s.data == WritingAt(d, id, input, w, n)
    ensures Step(s, AUpdate(id, Succeeds, t)) == s.(data := WritingAt(d, id, input, w, n + 1))
  {
    hide SetUpdater, Changes, HistoryIdDrawn;
    var pc, pc' := WritingPc(d, w, input.requestedBy, n), WritingPc(d, w, input.requestedBy, n + 1);
    var d2 := InTransaction(d, id, w.current.id, n + 1);
    NextRow(s, d, id, input, w, n);
    DrawAt(d, id, input, pc, w.current.id, n);
    SetAt(d2, id, input, pc, pc');
    hide InTransaction, NextHistoryRow, RowsOf, WritingPc;
    assert UpdateStep(s.data, id, Succeeds, t) == At(d2, id, input, pc');
    QuietStep(s, id, t, At(d2, id, input, pc'));
  }

  lemma NextRow(s: System, d: DataSide, id: nat, input: UpdateInput, w: Write, n: nat)
    requires n < |ChangesIn(w)| && s.data == WritingAt(d, id, input, w, n)
    ensures
      var pc, pc' := WritingPc(d, w, input.requestedBy, n), WritingPc(d, w, input.requestedBy, n + 1);
      && pc.Writing? && pc.current == w.current && pc.wanted == w.wanted && |pc.rows| == n
      && pc' == pc.(rows := pc.rows + [NextHistoryRow(s.data, input.requestedBy, pc)])
  {
    hide Changes;
    var all := RowsOf(d, w, input.requestedBy);
    assert all[..n + 1] == all[..n] + [all[n]];
  }

  /** The tables after the commit. */
  function TablesAfter(d: DataSide, w: Write, author: int): Tables {
    Tables(CommitUpdate(Db(d), w.pending, RowsOf(d, w, author)), d.ids.(history := d.ids.history + |ChangesIn(w)|), d.now)
  }

  /** What a committed update leaves, lock released. */
  function Committed(d: DataSide, end: Tables, teamID: int, stale: set<int>): DataSide {
    CommitStore(d.(ids := end.ids, stale := stale), end.store, Some(teamID))
  }

  /** The tasks with a stale update, after this one. */
  function StaleWith(d: DataSide, w: Write): set<int> {
    if FreshOn(w.before, w.current, w.wanted) then d.stale else d.stale + {w.current.id}
  }

  function AfterCommit(d: DataSide, w: Write, author: int): DataSide {
    Committed(d, TablesAfter(d, w, author), w.pending.teamID, StaleWith(d, w))
  }

  lemma LogAfterCommit(d: DataSide, w: Write, author: int)
    ensures |AfterCommit(d, w, author).log| == |d.log| + 1
  {
    hide TablesAfter, StaleWith;
  }

  lemma CommitSolo(s: System, d: DataSide, id: nat, input: UpdateInput, w: Write, t: int)
    requires s.data == WritingAt(d, id, input, w, |ChangesIn(w)|) && w.current.id !in d.locks
    ensures Step(s, AUpdate(id, Succeeds, t))
         == s.(data := At(AfterCommit(d, w, input.requestedBy), id, input, AnnouncingUpdate(w.pending, |d.log|)))
  {
    hide SetUpdater, Changes, TaskCommitted, AfterCommit;
    var pc, d' := WritingPc(d, w, input.requestedBy, |ChangesIn(w)|), AfterCommit(d, w, input.requestedBy);
    assert RowsOf(d, w, input.requestedBy)[..|ChangesIn(w)|] == RowsOf(d, w, input.requestedBy);
    CommitAt(d, id, input, w);
    SetAt(d', id, input, pc, AnnouncingUpdate(w.pending, |d.log|));
    hide RowsOf;
    assert UpdateStep(s.data, id, Succeeds, t) == At(d', id, input, AnnouncingUpdate(w.pending, |d.log|));
    QuietStep(s, id, t, At(d', id, input, AnnouncingUpdate(w.pending, |d.log|)));
  }

  lemma CommitAt(d: DataSide, id: nat, input: UpdateInput, w: Write)
    requires w.current.id !in d.locks
    ensures
      var pc := WritingPc(d, w, input.requestedBy, |ChangesIn(w)|);
      TaskCommitted(WritingAt(d, id, input, w, |ChangesIn(w)|), pc) == At(AfterCommit(d, w, input.requestedBy), id, input, pc)
  {
    hide Changes, CommitUpdate, HistoryRows, FreshOn;
    assert RowsOf(d, w, input.requestedBy)[..|ChangesIn(w)|] == RowsOf(d, w, input.requestedBy);
    assert d.locks[w.current.id := id] - {w.current.id} == d.locks;
  }

  lemma AnnounceSolo(s: System, d: DataSide, id: nat, input: UpdateInput, task: Task, commit: nat, t: int)
    requires s.data == At(d, id, input, AnnouncingUpdate(task, commit))
    ensures Step(s, AUpdate(id, Succeeds, t))
         == System(s.ttl, At(d, id, input, Updated(task)), TryAnnounce(s.cache, task.teamID, commit, Latest(d), Succeeds))
  {
    hide SetUpdater, TryAnnounce;
    SetAt(d, id, input, AnnouncingUpdate(task, commit), Updated(task));
  }

  // ----- the stages in a row

  lemma {:induction false} AllHistory(s: System, d: DataSide, id: nat, input: UpdateInput, w: Write, t: int, n: nat)
    requires n <= |ChangesIn(w)| && s.data == WritingAt(d, id, input, w, n)
    ensures Leads(s, AUpdate(id, Succeeds, t), s.(data := WritingAt(d, id, input, w, |ChangesIn(w)|)))
    decreases |ChangesIn(w)| - n
  {
    hide ChangesIn, WritingAt, Step, Leads;
    var a := AUpdate(id, Succeeds, t);
    if n == |ChangesIn(w)| {
      LeadsNowhere(s, a);
    } else {
      HistorySolo(s, d, id, input, w, t, n);
      var next := s.(data := WritingAt(d, id, input, w, n + 1));
      LeadsOnce(s, a, next);
      AllHistory(next, d, id, input, w, t, n + 1);
      LeadsTransitive(s, a, next, s.(data := WritingAt(d, id, input, w, |ChangesIn(w)|)));
    }
  }

  /** The state after a transaction that has been committed and announced. */
  function Written(s: System, d: DataSide, id: nat, input: UpdateInput, w: Write): System {
    System(s.ttl, At(AfterCommit(d, w, input.requestedBy), id, input, Updated(w.pending)),
           TryAnnounce(s.cache, w.pending.teamID, |d.log|, |d.log|, Succeeds))
  }

  /** From the UPDATE to the answer. */
  lemma WriteSolo(s: System, d: DataSide, id: nat, input: UpdateInput, w: Write, t: int)
    requires s.data == At(d, id, input, Executing(w.current, w.wanted)) && w.current.id !in d.locks
    requires TryExec(Db(d), w.current, w.wanted, d.now) == Ok((w.before, w.pending))
    ensures Leads(s, AUpdate(id, Succeeds, t), Written(s, d, id, input, w))
  {
    assert Latest(AfterCommit(d, w, input.requestedBy)) == |d.log| by { LogAfterCommit(d, w, input.requestedBy); }
    hide TryExec, ChangesIn, At, WritingAt, AfterCommit, TryAnnounce, Step, Leads;
    var a, n := AUpdate(id, Succeeds, t), |ChangesIn(w)|;
    ExecSolo(s, d, id, input, w, t);
    var s1, s2 := s.(data := WritingAt(d, id, input, w, 0)), s.(data := WritingAt(d, id, input, w, n));
    LeadsOnce(s, a, s1);
    AllHistory(s1, d, id, input, w, t, 0);
    LeadsTransitive(s, a, s1, s2);
    CommitSolo(s2, d, id, input, w, t);
    var d3 := AfterCommit(d, w, input.requestedBy);
    var s3 := s.(data := At(d3, id, input, AnnouncingUpdate(w.pending, |d.log|)));
    LeadsOnce(s2, a, s3);
    LeadsTransitive(s, a, s2, s3);
    AnnounceSolo(s3, d3, id, input, w.pending, |d.log|, t);
    LeadsOnce(s3, a, Written(s, d, id, input, w));
    LeadsTransitive(s, a, s3, Written(s, d, id, input, w));
  }

  /** The state in which the call has ended as the use case says. */
  function EndState(s: System, d: DataSide, id: nat, input: UpdateInput, end: UpdateEnd): System {
    var pc := if end.result.Ok? then Updated(end.result.value) else UpdateFailed(end.result.error);
    if end.wrote && end.result.Ok? then
      System(s.ttl, At(Committed(d, end.db, end.result.value.teamID, d.stale), id, input, pc),
             TryAnnounce(s.cache, end.result.value.teamID, |d.log|, |d.log|, Succeeds))
    else s.(data := At(d, id, input, pc))
  }

  lemma FreshTryExec(d: DataSide, current: Task, input: UpdateInput, t: int)
    requires FindTask(Db(d), current.id) == Some(current) && RowHolds(Db(d), current) && ValuesOk(input)
    requires HasUser(Db(d), input.requestedBy) && (AsksForAssignee(input) ==> HasUser(Db(d), input.assigneeID.value))
    requires Changes(current, Wanted(current, input, t)) != []
    ensures TryExec(Db(d), current, Wanted(current, input, t), d.now) == Ok((current, Wanted(current, input, t).(updatedAt := d.now)))
    ensures
      var wanted := Wanted(current, input, t);
      var changes := Changes(current, wanted);
      var rows := HistoryRows(d.ids.history, current.id, input.requestedBy, changes, d.now);
      ApplyUpdate(TablesOf(d), current, input, t, NO_FAULTS)
        == UpdateEnd(Tables(CommitUpdate(Db(d), wanted.(updatedAt := d.now), rows), d.ids.(history := d.ids.history + |changes|), d.now),
                     Ok(wanted.(updatedAt := d.now)), true)
  {
    FreshExec(Db(d), current, input, t, d.now);
    WantedAsAsked(current, input, t, d.now);
    hide Wanted, Changes, CompileChanges, ExecUpdate, CommitUpdate, HasUser, ValuesOk, RowHolds, HistoryRows, FindTask, AsAsked,
      RepositoryUpdate;
    var wanted := Wanted(current, input, t);
    var changes := Changes(current, wanted);
    hide ApplyUpdate;
    assert TryExec(Db(d), current, wanted, d.now) == Ok((current, wanted.(updatedAt := d.now)));
    hide TryExec;
    UnhinderedUpdate(TablesOf(d), wanted, input.requestedBy, changes, CompileChanges(wanted, changes).value, wanted.(updatedAt := d.now));
    UnhinderedApply(TablesOf(d), current, input, t);
  }

  lemma UnhinderedApply(db: Tables, current: Task, input: UpdateInput, t: int)
    requires Changes(current, Wanted(current, input, t)) != []
    ensures
      var (db', r) := RepositoryUpdate(db, Wanted(current, input, t), input.requestedBy, Changes(current, Wanted(current, input, t)), NO_FAULTS);
      ApplyUpdate(db, current, input, t, NO_FAULTS) == UpdateEnd(db', r, r.Ok?)
  {
    hide Wanted, Changes, RepositoryUpdate;
  }

  /** On the row that was read, the transaction ends as the call does, and is not stale. */
  lemma FreshlyWritten(s: System, d: DataSide, id: nat, input: UpdateInput, w: Write, end: UpdateEnd)
    requires w.before == w.current
    requires end == UpdateEnd(TablesAfter(d, w, input.requestedBy), Ok(w.pending), true)
    ensures Written(s, d, id, input, w) == EndState(s, d, id, input, end)
  {
    hide TablesAfter, TryAnnounce, At;
  }

  lemma ApplySolo(s: System, d: DataSide, id: nat, input: UpdateInput, current: Task, t: int)
    requires s.data == At(d, id, input, AfterChecks(current, input, t)) && current.id !in d.locks
    requires FindTask(Db(d), current.id) == Some(current) && RowHolds(Db(d), current) && ValuesOk(input)
    requires HasUser(Db(d), input.requestedBy) && (AsksForAssignee(input) ==> HasUser(Db(d), input.assigneeID.value))
    ensures Leads(s, AUpdate(id, Succeeds, t), EndState(s, d, id, input, ApplyUpdate(TablesOf(d), current, input, t, NO_FAULTS)))
  {
    var wanted := Wanted(current, input, t);
    if Changes(current, wanted) == [] {
      LeadsNowhere(s, AUpdate(id, Succeeds, t));
    } else {
      FreshTryExec(d, current, input, t);
      var w := Write(current, wanted, current, wanted.(updatedAt := d.now));
      FreshlyWritten(s, d, id, input, w, ApplyUpdate(TablesOf(d), current, input, t, NO_FAULTS));
      hide TryExec, Wanted, Changes, CommitUpdate, HistoryRows, ApplyUpdate, EndState, Written, Leads, RowHolds, HasUser, FindTask, ValuesOk;
      WriteSolo(s, d, id, input, w, t);
    }
  }

  lemma ReachedFacts(d: DataSide, input: UpdateInput)
    requires StoreInv(d)
    ensures forall row :: row in Db(d).tasks ==> RowHolds(Db(d), row)
    ensures forall m :: m in Db(d).members ==> HasUser(Db(d), m.userID)
    ensures UniqueIDs(Db(d).tasks)
  {
    UniqueRows(d);
    TeamFacts(d);
    assert MembersLinked(Db(d));
    forall row | row in Db(d).tasks ensures RowHolds(Db(d), row) {
      RowsHold(d, row);
    }
  }

  lemma RowsHold(d: DataSide, row: Task)
    requires StoreInv(d) && row in Db(d).tasks
    ensures RowHolds(Db(d), row)
  {
    TeamFacts(d);
    assert RowOk(Db(d), row) by {
      hide RowOk, IdsOk, MembersOk, HistoryOk, AuditOk, CreatorsOk, InvitersOk, UpdatersOk;
    }
    hide StoreInv, MembersOk, IsMember, HasUser;
    if row.assigneeID.Some? {
      MemberOfIsUser(Db(d), d.invites, row.teamID, row.assigneeID.value);
    }
  }

  /** The checks of a call, each of them one step. */
  lemma ChecksSolo(s: System, d: DataSide, id: nat, input: UpdateInput, t: int)
    requires StoreInv(d) && s.data == At(d, id, input, Finding) && RequestOk(input)
    requires input.taskID !in d.locks
    ensures Leads(s, AUpdate(id, Succeeds, t), EndState(s, d, id, input, UpdateCall(TablesOf(d), input, t, NO_FAULTS)))
  {
    ReachedFacts(d, input);
    hide StoreInv, At, Leads, EndState, ApplyUpdate, IsMember, HasUser, ValuesOk, FindTask, RowHolds, AfterChecks, UniqueIDs, Step;
    var a := AUpdate(id, Succeeds, t);
    var found := FindTask(Db(d), input.taskID);
    ChecksStep(s, d, id, input, Finding, t, AfterFind(found, Succeeds));
    var s1 := s.(data := At(d, id, input, AfterFind(found, Succeeds)));
    LeadsOnce(s, a, s1);
    var end := EndState(s, d, id, input, UpdateCall(TablesOf(d), input, t, NO_FAULTS));
    if found.None? {
      EndedState(s, d, id, input, UpdateCall(TablesOf(d), input, t, NO_FAULTS));
    } else {
      RequesterSolo(s1, d, id, input, found.value, t);
      EndStateSame(s, s1, d, id, input, UpdateCall(TablesOf(d), input, t, NO_FAULTS));
      LeadsTransitive(s, a, s1, end);
    }
  }

  lemma EndStateSame(s: System, s1: System, d: DataSide, id: nat, input: UpdateInput, end: UpdateEnd)
    requires s1 == s.(data := s1.data)
    ensures EndState(s1, d, id, input, end) == EndState(s, d, id, input, end)
  {
    hide TryAnnounce, At, Committed;
  }

  lemma EndedState(s: System, d: DataSide, id: nat, input: UpdateInput, end: UpdateEnd)
    requires !end.wrote && end.result.Err?
    ensures EndState(s, d, id, input, end) == s.(data := At(d, id, input, UpdateFailed(end.result.error)))
  {
    hide TryAnnounce, At, Committed;
  }

  lemma RequesterSolo(s: System, d: DataSide, id: nat, input: UpdateInput, current: Task, t: int)
    requires FindTask(Db(d), input.taskID) == Some(current) && RequestOk(input)
    requires forall row :: row in Db(d).tasks ==> RowHolds(Db(d), row)
    requires forall m :: m in Db(d).members ==> HasUser(Db(d), m.userID)
    requires s.data == At(d, id, input, CheckingRequester(current)) && input.taskID !in d.locks
    ensures Leads(s, AUpdate(id, Succeeds, t), EndState(s, d, id, input, UpdateCall(TablesOf(d), input, t, NO_FAULTS)))
  {
    var a := AUpdate(id, Succeeds, t);
    var isMember := IsMember(Db(d), current.teamID, input.requestedBy);
    var next := AfterRequesterCheck(isMember, input, current, Succeeds, t);
    var call := UpdateCall(TablesOf(d), input, t, NO_FAULTS);
    assert current in Db(d).tasks && current.id == input.taskID && RowHolds(Db(d), current);
    hide At, Leads, EndState, ApplyUpdate, IsMember, HasUser, ValuesOk, FindTask, RowHolds, AfterChecks, Step, RequestOk;
    ChecksStep(s, d, id, input, CheckingRequester(current), t, next);
    var s1 := s.(data := At(d, id, input, next));
    LeadsOnce(s, a, s1);
    EndStateSame(s, s1, d, id, input, call);
    if isMember && ValuesOk(input) && !AsksForAssignee(input) {
      MemberIsUser(Db(d), current.teamID, input.requestedBy);
      ApplySolo(s1, d, id, input, current, t);
      LeadsTransitive(s, a, s1, EndState(s, d, id, input, call));
    } else if isMember && ValuesOk(input) && input.assigneeID.value > 0 {
      AssigneeSolo(s1, d, id, input, current, t);
      LeadsTransitive(s, a, s1, EndState(s, d, id, input, call));
    } else {
      EndedState(s, d, id, input, call);
    }
  }

  lemma AssigneeSolo(s: System, d: DataSide, id: nat, input: UpdateInput, current: Task, t: int)
    requires FindTask(Db(d), input.taskID) == Some(current) && RequestOk(input) && RowHolds(Db(d), current)
    requires IsMember(Db(d), current.teamID, input.requestedBy) && ValuesOk(input)
    requires AsksForAssignee(input) && input.assigneeID.value > 0
    requires forall m :: m in Db(d).members ==> HasUser(Db(d), m.userID)
    requires s.data == At(d, id, input, CheckingNewAssignee(current)) && input.taskID !in d.locks
    ensures Leads(s, AUpdate(id, Succeeds, t), EndState(s, d, id, input, UpdateCall(TablesOf(d), input, t, NO_FAULTS)))
  {
    var a := AUpdate(id, Succeeds, t);
    var isMember := IsMember(Db(d), current.teamID, input.assigneeID.value);
    var next := AfterAssigneeCheck(isMember, input, current, Succeeds, t);
    var call := UpdateCall(TablesOf(d), input, t, NO_FAULTS);
    hide At, Leads, EndState, ApplyUpdate, IsMember, HasUser, ValuesOk, RowHolds, AfterChecks, Step, RequestOk;
    assert current.id == input.taskID;
    hide FindTask;
    ChecksStep(s, d, id, input, CheckingNewAssignee(current), t, next);
    var s1 := s.(data := At(d, id, input, next));
    LeadsOnce(s, a, s1);
    EndStateSame(s, s1, d, id, input, call);
    if isMember {
      MemberIsUser(Db(d), current.teamID, input.requestedBy);
      MemberIsUser(Db(d), current.teamID, input.assigneeID.value);
      ApplySolo(s1, d, id, input, current, t);
      LeadsTransitive(s, a, s1, EndState(s, d, id, input, call));
    } else {
      EndedState(s, d, id, input, call);
    }
  }

  lemma UpdateLeads(ttl: int, actions: seq<Action>, id: nat, input: UpdateInput, t: int)
    requires var d := Reached(ttl, actions).data; id !in d.updaters && input.taskID !in d.locks
    ensures
      var s := Reached(ttl, actions);
      Leads(Step(s, ABeginUpdate(id, input)), AUpdate(id, Succeeds, t),
            EndState(s, s.data, id, input, UpdateCall(TablesOf(s.data), input, t, NO_FAULTS)))
  {
    var s := Reached(ttl, actions);
    ReachedOk(ttl, actions);
    hide Reached, StoreInv, UpdateCall, Leads, EndState, At;
    BeginAt(s.data, id, input);
    var pc := if RequestOk(input) then Finding else UpdateFailed(InvalidInput);
    var s1 := s.(data := At(s.data, id, input, pc));
    assert Step(s, ABeginUpdate(id, input)) == s1;
    hide Step, RequestOk;
    var call := UpdateCall(TablesOf(s.data), input, t, NO_FAULTS);
    EndStateSame(s, s1, s.data, id, input, call);
    if RequestOk(input) {
      ChecksSolo(s1, s.data, id, input, t);
    } else {
      RefusedCall(TablesOf(s.data), input, t);
      EndedState(s, s.data, id, input, call);
      LeadsNowhere(s1, AUpdate(id, Succeeds, t));
    }
  }

  /**
   * From any reachable state in which no other transaction holds the task, the run that goes on with the steps
   * of an update call, and nothing else, reaches the state in which the use case ends: same answer, same
   * tables, same invalidation, and no stale update is recorded.
   */
  lemma UpdateStepsAreTheCall(ttl: int, actions: seq<Action>, id: nat, input: UpdateInput, t: int)
    requires var d := Reached(ttl, actions).data; id !in d.updaters && input.taskID !in d.locks
    ensures
      var s := Reached(ttl, actions);
      exists more :: Only(more, AUpdate(id, Succeeds, t))
        && Reached(ttl, actions + [ABeginUpdate(id, input)] + more)
           == EndState(s, s.data, id, input, UpdateCall(TablesOf(s.data), input, t, NO_FAULTS))
  {
    hide Reached, Leads, EndState, UpdateCall, Step;
    UpdateLeads(ttl, actions, id, input, t);
    var s := Reached(ttl, actions);
    LeadsIsReached(ttl, actions, ABeginUpdate(id, input), AUpdate(id, Succeeds, t),
                   EndState(s, s.data, id, input, UpdateCall(TablesOf(s.data), input, t, NO_FAULTS)));
  }

  lemma RefusedCall(db: Tables, input: UpdateInput, t: int)
    requires !RequestOk(input)
    ensures UpdateCall(db, input, t, NO_FAULTS) == UpdateEnd(db, Err(InvalidInput), false)
  {
  }

  /** In every reachable state, repeating a successful update with nothing in between changes nothing and returns the same task. */
  lemma UpdateIsIdempotentWhenReached(ttl: int, actions: seq<Action>, input: UpdateInput, t1: int, t2: int, later: int)
    requires UpdateCall(TablesOf(Reached(ttl, actions).data), input, t1, NO_FAULTS).result.Ok?
    ensures
      var first := UpdateCall(TablesOf(Reached(ttl, actions).data), input, t1, NO_FAULTS);
      UpdateCall(first.db.(now := later), input, t2, NO_FAULTS) == UpdateEnd(first.db.(now := later), first.result, false)
  {
    hide Reached, StoreInv, UpdateCall, RowHolds, HasUser, UniqueIDs;
    ReachedOk(ttl, actions);
    ReachedFacts(Reached(ttl, actions).data, input);
    UpdateIsIdempotent(TablesOf(Reached(ttl, actions).data), input, t1, t2, later);
  }

  // ----- every reachable state

  lemma ReachedSound(ttl: int, actions: seq<Action>)
    ensures var d := Reached(ttl, actions).data; SoundRows(Db(d)) && SoundMembers(TablesOf(d))
  {
    var d := Reached(ttl, actions).data;
    ReachedOk(ttl, actions);
    hide Reached, RowHolds, HasUser, HasTeam;
    MembersSound(d);
    TaskIdsBelow(d);
    hide StoreInv;
    ReachedFacts(d, UpdateInput(0, 0, None, None, None, None, false));
  }

  lemma MembersSound(d: DataSide)
    requires StoreInv(d)
    ensures forall m :: m in Db(d).members ==> HasUser(Db(d), m.userID) && HasTeam(Db(d), m.teamID)
  {
    TeamFacts(d);
    hide StoreInv, HasUser, HasTeam, IdsOk;
    assert MembersLinked(Db(d));
  }

  /** From every reachable state, and whatever statement fails, the calls of the tasks end as they should. */
  lemma ReachedCallsEndWell(ttl: int, actions: seq<Action>, create: CreateInput, cf: CreateFaults, list: ListInput, lf: ListFaults,
                            update: UpdateInput, appTime: int, uf: UpdateFaults)
    ensures
      var s := Reached(ttl, actions);
      var db := TablesOf(s.data);
      && CreateEndsWell(db, create, cf, CreateCall(db, create, cf))
      && ListEndsWell(db, s.cache.redis, s.data.now, ttl, list, lf, ListCall(db, s.cache.redis, s.data.now, ttl, list, lf))
      && UpdateEndsWell(db, update, appTime, uf, UpdateCall(db, update, appTime, uf))
  {
    hide Reached, SoundMembers, CreateEndsWell, CreateCall, ListEndsWell, ListCall, UpdateEndsWell, UpdateCall, RowHolds, UniqueIDs;
    var s := Reached(ttl, actions);
    ReachedSound(ttl, actions);
    CreateCallEnds(TablesOf(s.data), create, cf);
    ListCallEnds(TablesOf(s.data), s.cache.redis, s.data.now, ttl, list, lf);
    UpdateCallEnds(TablesOf(s.data), update, appTime, uf);
  }

  // ----- Tasks.Create

  function CreatorAt(d: DataSide, id: nat, input: CreateInput, pc: CreatorPc): DataSide {
    d.(creators := d.creators[id := Creator(input, pc)])
  }

  lemma SetCreatorAt(d: DataSide, id: nat, input: CreateInput, pc: CreatorPc, pc': CreatorPc)
    ensures SetCreator(CreatorAt(d, id, input, pc), id, pc') == CreatorAt(d, id, input, pc')
  {
    assert d.creators[id := Creator(input, pc)][id := Creator(input, pc')] == d.creators[id := Creator(input, pc')];
  }

  /** What a create call leaves when it has ended. */
  function CreatedState(s: System, d: DataSide, id: nat, input: CreateInput, end: CreateEnd): System {
    var pc := if end.result.Ok? then Created(end.result.value) else CreateFailed(end.result.error);
    if end.wrote then
      System(s.ttl, CreatorAt(TaskAdded(d, input, end.db.store), id, input, pc), TryAnnounce(s.cache, input.teamID, |d.log|, |d.log|, Succeeds))
    else s.(data := CreatorAt(d.(ids := end.db.ids), id, input, pc))
  }

  const NO_CREATE_FAULTS := CreateFaults(Succeeds, Succeeds, Succeeds, Succeeds, Succeeds)

  lemma CreatorStep(s: System, id: nat, d: DataSide)
    requires id in s.data.creators && !s.data.creators[id].pc.AnnouncingCreate?
    requires CreateStep(s.data, id, Succeeds) == d
    ensures Step(s, ACreate(id, Succeeds)) == s.(data := d)
  {
    hide CreateStep;
    assert Step(s, ACreate(id, Succeeds)) == s.(data := d);
  }

  lemma CreatorChecksStep(s: System, d: DataSide, id: nat, input: CreateInput, pc: CreatorPc, next: CreatorPc)
    requires s.data == CreatorAt(d, id, input, pc)
    requires pc.CheckingCreator? || pc.CheckingAssignee?
    requires next == match pc
                     case CheckingCreator => AfterCreatorCheck(IsMember(Db(d), input.teamID, input.createdBy), input, Succeeds)
                     case CheckingAssignee =>
                       AfterCreateAssigneeCheck(input.assigneeID.Some? && IsMember(Db(d), input.teamID, input.assigneeID.value), Succeeds)
                     case _ => pc
    ensures Leads(s, ACreate(id, Succeeds), s.(data := CreatorAt(d, id, input, next)))
  {
    hide IsMember, AfterCreatorCheck, AfterCreateAssigneeCheck, SetCreator, Step, Leads;
    SetCreatorAt(d, id, input, pc, next);
    assert CreateStep(s.data, id, Succeeds) == CreatorAt(d, id, input, next);
    hide CreateStep;
    CreatorStep(s, id, CreatorAt(d, id, input, next));
    LeadsOnce(s, ACreate(id, Succeeds), s.(data := CreatorAt(d, id, input, next)));
  }

  lemma TaskAddedAt(d: DataSide, id: nat, input: CreateInput, pc: CreatorPc, store: Store)
    ensures TaskAdded(CreatorAt(d, id, input, pc), input, store) == CreatorAt(TaskAdded(d, input, store), id, input, pc)
    ensures TaskIdDrawn(CreatorAt(d, id, input, pc)) == CreatorAt(TaskIdDrawn(d), id, input, pc)
    ensures Db(TaskAdded(d, input, store)) == store
  {
    hide DraftOf;
  }

  /** How the insert and the reload end without failure. */
  lemma UnhinderedCreate(db: Tables, draft: Draft, end: CreateEnd)
    requires end == var (db', r) := RepositoryCreate(db, draft, Succeeds, Succeeds); CreateEnd(db', r, r.Ok?)
    requires forall row :: row in db.store.tasks ==> row.id < db.ids.task
    ensures
      var inserted := InsertTask(db.store, db.ids.task, draft, db.now);
      var ids := db.ids.(task := db.ids.task + 1);
      && (inserted.Err? ==> end == CreateEnd(db.(ids := ids), Err(Infrastructure), false))
      && (inserted.Ok? ==>
            && end == CreateEnd(Tables(inserted.value, ids, db.now), Ok(NewRow(db.ids.task, draft, db.now)), true)
            && FindTask(inserted.value, db.ids.task) == Some(NewRow(db.ids.task, draft, db.now)))
  {
    InsertedRow(db.store, db.ids.task, draft, db.now);
    IndexOfNew(db.store.tasks, NewRow(db.ids.task, draft, db.now));
    hide InsertTask, TaskIndex;
  }

  /** The insert, the reload and the announcement. */
  lemma InsertSolo(s: System, d: DataSide, id: nat, input: CreateInput, end: CreateEnd)
    requires s.data == CreatorAt(d, id, input, Inserting)
    requires end == var (db', r) := RepositoryCreate(TablesOf(d), DraftOf(input), Succeeds, Succeeds); CreateEnd(db', r, r.Ok?)
    requires forall row :: row in Db(d).tasks ==> row.id < d.ids.task
    ensures Leads(s, ACreate(id, Succeeds), CreatedState(s, d, id, input, end))
  {
    var r := InsertTask(Db(d), d.ids.task, DraftOf(input), d.now);
    UnhinderedCreate(TablesOf(d), DraftOf(input), end);
    hide InsertTask, DraftOf, RepositoryCreate, TaskAdded, TaskIdDrawn, CreatorAt, TryAnnounce, Leads, FindTask;
    if r.Err? {
      InsertRefused(s, d, id, input, r.error);
      DrawnIds(d);
    } else {
      InsertSucceeds(s, d, id, input, r.value, NewRow(d.ids.task, DraftOf(input), d.now));
    }
  }

  lemma InsertSucceeds(s: System, d: DataSide, id: nat, input: CreateInput, store: Store, row: Task)
    requires s.data == CreatorAt(d, id, input, Inserting)
    requires InsertTask(Db(d), d.ids.task, DraftOf(input), d.now) == Ok(store) && FindTask(store, d.ids.task) == Some(row)
    ensures Leads(s, ACreate(id, Succeeds),
                  System(s.ttl, CreatorAt(TaskAdded(d, input, store), id, input, Created(row)),
                         TryAnnounce(s.cache, input.teamID, |d.log|, |d.log|, Succeeds)))
  {
    var a, d1 := ACreate(id, Succeeds), TaskAdded(d, input, store);
    TaskAddedAt(d, id, input, Inserting, store);
    assert Latest(d1) == |d.log|;
    hide InsertTask, DraftOf, TaskAdded, CreatorAt, TryAnnounce, Leads, FindTask, Latest, Db;
    var s1 := s.(data := CreatorAt(d1, id, input, Reloading(d.ids.task, |d.log|)));
    var s2 := s.(data := CreatorAt(d1, id, input, AnnouncingCreate(row, |d.log|)));
    var s3 := System(s.ttl, CreatorAt(d1, id, input, Created(row)), TryAnnounce(s.cache, input.teamID, |d.log|, |d.log|, Succeeds));
    InsertTaken(s, d, id, input, store);
    ReloadTaken(s1, d1, id, input, d.ids.task, |d.log|, row);
    LeadsTransitive(s, a, s1, s2);
    AnnounceTaken(s2, d1, id, input, row, |d.log|);
    LeadsTransitive(s, a, s2, s3);
  }

  lemma DrawnIds(d: DataSide)
    ensures d.(ids := d.ids.(task := d.ids.task + 1)) == TaskIdDrawn(d)
  {
  }

  lemma InsertRefused(s: System, d: DataSide, id: nat, input: CreateInput, error: Error)
    requires s.data == CreatorAt(d, id, input, Inserting) && InsertTask(Db(d), d.ids.task, DraftOf(input), d.now) == Err(error)
    ensures Leads(s, ACreate(id, Succeeds), s.(data := CreatorAt(TaskIdDrawn(d), id, input, CreateFailed(Infrastructure))))
  {
    hide InsertTask, DraftOf, SetCreator, TaskIdDrawn, TaskAdded, Step, Leads;
    TaskAddedAt(d, id, input, Inserting, Db(d));
    SetCreatorAt(TaskIdDrawn(d), id, input, Inserting, CreateFailed(Infrastructure));
    var d' := CreatorAt(TaskIdDrawn(d), id, input, CreateFailed(Infrastructure));
    assert CreateStep(s.data, id, Succeeds) == d';
    hide CreateStep;
    CreatorStep(s, id, d');
    LeadsOnce(s, ACreate(id, Succeeds), s.(data := d'));
  }

  lemma InsertTaken(s: System, d: DataSide, id: nat, input: CreateInput, store: Store)
    requires s.data == CreatorAt(d, id, input, Inserting) && InsertTask(Db(d), d.ids.task, DraftOf(input), d.now) == Ok(store)
    ensures Leads(s, ACreate(id, Succeeds),
                  s.(data := CreatorAt(TaskAdded(d, input, store), id, input, Reloading(d.ids.task, |d.log|))))
  {
    hide InsertTask, DraftOf, SetCreator, TaskIdDrawn, TaskAdded, Step, Leads;
    TaskAddedAt(d, id, input, Inserting, store);
    var pc := Reloading(d.ids.task, |d.log|);
    SetCreatorAt(TaskAdded(d, input, store), id, input, Inserting, pc);
    var d' := CreatorAt(TaskAdded(d, input, store), id, input, pc);
    assert CreateStep(s.data, id, Succeeds) == d';
    hide CreateStep;
    CreatorStep(s, id, d');
    LeadsOnce(s, ACreate(id, Succeeds), s.(data := d'));
  }

  lemma ReloadTaken(s: System, d: DataSide, id: nat, input: CreateInput, taskID: int, commit: nat, row: Task)
    requires s.data == CreatorAt(d, id, input, Reloading(taskID, commit)) && FindTask(Db(d), taskID) == Some(row)
    ensures Leads(s, ACreate(id, Succeeds), s.(data := CreatorAt(d, id, input, AnnouncingCreate(row, commit))))
  {
    hide FindTask, SetCreator, Step, Leads;
    SetCreatorAt(d, id, input, Reloading(taskID, commit), AnnouncingCreate(row, commit));
    var d' := CreatorAt(d, id, input, AnnouncingCreate(row, commit));
    assert CreateStep(s.data, id, Succeeds) == d';
    hide CreateStep;
    CreatorStep(s, id, d');
    LeadsOnce(s, ACreate(id, Succeeds), s.(data := d'));
  }

  lemma AnnounceTaken(s: System, d: DataSide, id: nat, input: CreateInput, row: Task, commit: nat)
    requires s.data == CreatorAt(d, id, input, AnnouncingCreate(row, commit))
    ensures Leads(s, ACreate(id, Succeeds),
                  System(s.ttl, CreatorAt(d, id, input, Created(row)), TryAnnounce(s.cache, input.teamID, commit, Latest(d), Succeeds)))
  {
    hide SetCreator, TryAnnounce, Leads;
    SetCreatorAt(d, id, input, AnnouncingCreate(row, commit), Created(row));
    var s' := System(s.ttl, CreatorAt(d, id, input, Created(row)), TryAnnounce(s.cache, input.teamID, commit, Latest(d), Succeeds));
    assert Step(s, ACreate(id, Succeeds)) == s';
    LeadsOnce(s, ACreate(id, Succeeds), s');
  }

  lemma CreateEndSame(s: System, s1: System, d: DataSide, id: nat, input: CreateInput, end: CreateEnd)
    requires s1 == s.(data := s1.data)
    ensures CreatedState(s1, d, id, input, end) == CreatedState(s, d, id, input, end)
    ensures !end.wrote && end.result.Err? && end.db == TablesOf(d) ==>
      CreatedState(s, d, id, input, end) == s.(data := CreatorAt(d, id, input, CreateFailed(end.result.error)))
  {
    hide TryAnnounce, TaskAdded;
  }

  lemma CreateChecksSolo(s: System, d: DataSide, id: nat, input: CreateInput)
    requires s.data == CreatorAt(d, id, input, CheckingCreator) && CreateInputOk(input)
    requires forall row :: row in Db(d).tasks ==> row.id < d.ids.task
    ensures Leads(s, ACreate(id, Succeeds), CreatedState(s, d, id, input, CreateCall(TablesOf(d), input, NO_CREATE_FAULTS)))
  {
    hide CreatorAt, CreatedState, RepositoryCreate, IsMember, CreateInputOk, Leads, Step, DraftOf;
    var a := ACreate(id, Succeeds);
    var call := CreateCall(TablesOf(d), input, NO_CREATE_FAULTS);
    var pc := AfterCreatorCheck(IsMember(Db(d), input.teamID, input.createdBy), input, Succeeds);
    CreatorChecksStep(s, d, id, input, CheckingCreator, pc);
    var s1 := s.(data := CreatorAt(d, id, input, pc));
    CreateEndSame(s, s1, d, id, input, call);
    if pc.Inserting? {
      InsertSolo(s1, d, id, input, call);
      LeadsTransitive(s, a, s1, CreatedState(s, d, id, input, call));
    } else if pc.CheckingAssignee? {
      var pc2 := AfterCreateAssigneeCheck(IsMember(Db(d), input.teamID, input.assigneeID.value), Succeeds);
      CreatorChecksStep(s1, d, id, input, CheckingAssignee, pc2);
      var s2 := s.(data := CreatorAt(d, id, input, pc2));
      LeadsTransitive(s, a, s1, s2);
      CreateEndSame(s, s2, d, id, input, call);
      if pc2.Inserting? {
        InsertSolo(s2, d, id, input, call);
        LeadsTransitive(s, a, s2, CreatedState(s, d, id, input, call));
      }
    }
  }

  lemma TaskIdsBelow(d: DataSide)
    requires StoreInv(d)
    ensures forall row :: row in Db(d).tasks ==> row.id < d.ids.task
  {
    TeamFacts(d);
    hide StoreInv, MembersOk;
  }

  lemma BeginCreateAt(s: System, id: nat, input: CreateInput)
    requires id !in s.data.creators
    ensures Step(s, ABeginCreate(id, input))
         == s.(data := CreatorAt(s.data, id, input, if CreateInputOk(input) then CheckingCreator else CreateFailed(InvalidInput)))
  {
    hide CreateInputOk;
  }

  lemma CreateLeads(ttl: int, actions: seq<Action>, id: nat, input: CreateInput)
    requires id !in Reached(ttl, actions).data.creators
    ensures
      var s := Reached(ttl, actions);
      Leads(Step(s, ABeginCreate(id, input)), ACreate(id, Succeeds),
            CreatedState(s, s.data, id, input, CreateCall(TablesOf(s.data), input, NO_CREATE_FAULTS)))
  {
    var s := Reached(ttl, actions);
    ReachedOk(ttl, actions);
    hide Reached, StoreInv, CreateCall, Leads, CreatedState, CreateInputOk, CreatorAt, Step;
    TaskIdsBelow(s.data);
    BeginCreateAt(s, id, input);
    var pc := if CreateInputOk(input) then CheckingCreator else CreateFailed(InvalidInput);
    var s1 := s.(data := CreatorAt(s.data, id, input, pc));
    var call := CreateCall(TablesOf(s.data), input, NO_CREATE_FAULTS);
    CreateEndSame(s, s1, s.data, id, input, call);
    if CreateInputOk(input) {
      CreateChecksSolo(s1, s.data, id, input);
    } else {
      RefusedCreate(TablesOf(s.data), input);
      LeadsNowhere(s1, ACreate(id, Succeeds));
    }
  }

  /** From any reachable state, the run that goes on with the steps of a create call reaches the state in which the use case ends. */
  lemma CreateStepsAreTheCall(ttl: int, actions: seq<Action>, id: nat, input: CreateInput)
    requires id !in Reached(ttl, actions).data.creators
    ensures
      var s := Reached(ttl, actions);
      exists more :: Only(more, ACreate(id, Succeeds))
        && Reached(ttl, actions + [ABeginCreate(id, input)] + more)
           == CreatedState(s, s.data, id, input, CreateCall(TablesOf(s.data), input, NO_CREATE_FAULTS))
  {
    hide Reached, Leads, CreatedState, CreateCall, Step;
    CreateLeads(ttl, actions, id, input);
    var s := Reached(ttl, actions);
    LeadsIsReached(ttl, actions, ABeginCreate(id, input), ACreate(id, Succeeds),
                   CreatedState(s, s.data, id, input, CreateCall(TablesOf(s.data), input, NO_CREATE_FAULTS)));
  }

  lemma RefusedCreate(db: Tables, input: CreateInput)
    requires !CreateInputOk(input)
    ensures CreateCall(db, input, NO_CREATE_FAULTS) == CreateEnd(db, Err(InvalidInput), false)
  {
  }

  // ----- Tasks.List

  const NO_LIST_FAULTS := ListFaults(Succeeds, Succeeds, Succeeds, Succeeds, Succeeds)

  function ReaderAt(c: CacheSide, id: nat, input: ListInput, due: nat, pc: ReaderPc): CacheSide {
    c.(readers := c.readers[id := Reader(input, due, pc)])
  }

  lemma SetReaderAt(c: CacheSide, id: nat, input: ListInput, due: nat, pc: ReaderPc, pc': ReaderPc)
    ensures SetReader(ReaderAt(c, id, input, due, pc), id, pc') == ReaderAt(c, id, input, due, pc')
  {
    assert c.readers[id := Reader(input, due, pc)][id := Reader(input, due, pc')] == c.readers[id := Reader(input, due, pc')];
  }

  /** The call has ended with this answer and has left Redis like this. */
  predicate ListEnded(s: System, s': System, id: nat, end: ListEnd) {
    && s'.data == s.data
    && s'.cache.redis == end.redis
    && id in s'.cache.readers
    && var pc := s'.cache.readers[id].pc;
       match end.result
       case Ok(rows) => pc.Listed? && pc.rows == rows
       case Err(error) => pc == ListFailed(error)
  }

  ghost predicate EndsAs(s: System, id: nat, s0: System, end: ListEnd) {
    exists s' :: Leads(s, AList(id, Succeeds), s') && ListEnded(s0, s', id, end)
  }

  lemma EndsLater(s: System, s1: System, id: nat, s0: System, end: ListEnd)
    requires Leads(s, AList(id, Succeeds), s1) && EndsAs(s1, id, s0, end)
    ensures EndsAs(s, id, s0, end)
  {
    hide Leads, ListEnded;
    var s' :| Leads(s1, AList(id, Succeeds), s') && ListEnded(s0, s', id, end);
    LeadsTransitive(s, AList(id, Succeeds), s1, s');
  }

  lemma EndsNow(s: System, id: nat, s0: System, end: ListEnd)
    requires ListEnded(s0, s, id, end)
    ensures EndsAs(s, id, s0, end)
  {
    hide Leads, ListEnded;
    LeadsNowhere(s, AList(id, Succeeds));
  }

  /** The program point after one step of a list call, before it stores anything. */
  function NextReaderPc(s: System, input: ListInput, pc: ReaderPc): ReaderPc {
    match pc
    case CheckingReader => AfterReaderCheck(IsMember(Db(s.data), input.teamID, input.requestedBy), input, Succeeds)
    case ReadingVersion(f) => AfterVersionRead(RedisStore.CurrentVersion(s.cache.redis, f.teamID), f, Succeeds)
    case ReadingEntry(f, v) => AfterEntryRead(s.cache, f, v, s.data.now, Succeeds)
    case Querying(f, v) => AfterQuery(s.data, f, v, Succeeds)
    case _ => pc
  }

  lemma ReaderStep(s: System, c: CacheSide, id: nat, input: ListInput, due: nat, pc: ReaderPc)
    requires s.cache == ReaderAt(c, id, input, due, pc) && !pc.Storing?
    ensures Leads(s, AList(id, Succeeds), s.(cache := ReaderAt(c, id, input, due, NextReaderPc(s, input, pc))))
  {
    hide IsMember, AfterReaderCheck, AfterVersionRead, AfterEntryRead, AfterQuery, SetReader, Step, Leads, RedisStore.CurrentVersion;
    var next := NextReaderPc(s, input, pc);
    SetReaderAt(c, id, input, due, pc, next);
    assert ListStep(s.cache, s.data, s.ttl, id, Succeeds) == ReaderAt(c, id, input, due, next);
    hide ListStep, NextReaderPc;
    ListStepIsStep(s, id);
    LeadsOnce(s, AList(id, Succeeds), s.(cache := ReaderAt(c, id, input, due, next)));
  }

  lemma ListStepIsStep(s: System, id: nat)
    ensures Step(s, AList(id, Succeeds)) == s.(cache := ListStep(s.cache, s.data, s.ttl, id, Succeeds))
  {
    hide ListStep;
    assert Step(s, AList(id, Succeeds)) == s.(cache := ListStep(s.cache, s.data, s.ttl, id, Succeeds));
  }

  lemma StoreStep(s: System, c: CacheSide, id: nat, input: ListInput, due: nat, pc: ReaderPc)
    requires s.cache == ReaderAt(c, id, input, due, pc) && pc.Storing?
    ensures Leads(s, AList(id, Succeeds),
                  s.(cache := ReaderAt(StoreEntry(c, pc, s.data.now, s.ttl), id, input, due, Listed(pc.filter, pc.rows, pc.snap, FromDatabase))))
  {
    hide SetReader, Step, Leads;
    var next := Listed(pc.filter, pc.rows, pc.snap, FromDatabase);
    StoreEntryAt(c, id, input, due, pc, s.data.now, s.ttl);
    SetReaderAt(StoreEntry(c, pc, s.data.now, s.ttl), id, input, due, pc, next);
    hide StoreEntry;
    assert ListStep(s.cache, s.data, s.ttl, id, Succeeds) == ReaderAt(StoreEntry(c, pc, s.data.now, s.ttl), id, input, due, next);
    hide ListStep;
    ListStepIsStep(s, id);
    LeadsOnce(s, AList(id, Succeeds), s.(cache := ReaderAt(StoreEntry(c, pc, s.data.now, s.ttl), id, input, due, next)));
  }

  lemma StoreEntryAt(c: CacheSide, id: nat, input: ListInput, due: nat, pc: ReaderPc, now: int, ttl: int)
    requires pc.Storing?
    ensures StoreEntry(ReaderAt(c, id, input, due, pc), pc, now, ttl) == ReaderAt(StoreEntry(c, pc, now, ttl), id, input, due, pc)
    ensures StoreEntry(c, pc, now, ttl).redis == RedisStore.SetList(c.redis, pc.filter, pc.version, pc.rows, now, ttl)
  {
    hide RedisStore.SetList;
  }

  /** From the query on: the answer of the database, stored if the cache had answered. */
  lemma QuerySolo(s: System, c: CacheSide, id: nat, input: ListInput, due: nat, f: TaskFilter, v: Option<int>, s0: System)
    requires s.cache == ReaderAt(c, id, input, due, Querying(f, v)) && s.data == s0.data
    requires f.limit >= 0 && f.offset >= 0
    ensures
      var rows := ListTasks(Db(s.data).tasks, f);
      EndsAs(s, id, s0,
             ListEnd(if v.Some? then CacheSet(c.redis, s.data.now, s.ttl, f, v.value, rows, Succeeds) else c.redis, Ok(rows)))
  {
    hide ListTasks, Leads, RedisStore.SetList, StoreEntry;
    var rows := ListTasks(Db(s.data).tasks, f);
    var end := ListEnd(if v.Some? then CacheSet(c.redis, s.data.now, s.ttl, f, v.value, rows, Succeeds) else c.redis, Ok(rows));
    ReaderStep(s, c, id, input, due, Querying(f, v));
    var pc := NextReaderPc(s, input, Querying(f, v));
    var s1 := s.(cache := ReaderAt(c, id, input, due, pc));
    if v.None? {
      EndsNow(s1, id, s0, end);
    } else {
      StoreStep(s1, c, id, input, due, pc);
      StoreEntryAt(c, id, input, due, pc, s.data.now, s.ttl);
      var s2 := s1.(cache := ReaderAt(StoreEntry(c, pc, s.data.now, s.ttl), id, input, due, Listed(f, rows, pc.snap, FromDatabase)));
      EndsNow(s2, id, s0, end);
      EndsLater(s1, s2, id, s0, end);
    }
    EndsLater(s, s1, id, s0, end);
  }

  /** From the reading of the version on. */
  lemma CacheSolo(s: System, c: CacheSide, id: nat, input: ListInput, due: nat, f: TaskFilter, s0: System, end: ListEnd)
    requires s.cache == ReaderAt(c, id, input, due, ReadingVersion(f)) && s.data == s0.data
    requires f.limit >= 0 && f.offset >= 0
    requires
      var cached := CacheGet(c.redis, s.data.now, f, Succeeds, Succeeds);
      var rows := ListTasks(Db(s.data).tasks, f);
      end == if cached.Ok? && cached.value.found.Some? then ListEnd(c.redis, Ok(cached.value.found.value))
             else ListEnd(if cached.Ok? then CacheSet(c.redis, s.data.now, s.ttl, f, cached.value.version, rows, Succeeds) else c.redis, Ok(rows))
    ensures EndsAs(s, id, s0, end)
  {
    hide ListTasks, Leads, EndsAs, CacheSet, GetList, RedisStore.CurrentVersion;
    ReaderStep(s, c, id, input, due, ReadingVersion(f));
    var pc := NextReaderPc(s, input, ReadingVersion(f));
    var s1 := s.(cache := ReaderAt(c, id, input, due, pc));
    if pc.Querying? {
      QuerySolo(s1, c, id, input, due, f, None, s0);
    } else {
      ReaderStep(s1, c, id, input, due, pc);
      var pc2 := NextReaderPc(s1, input, pc);
      var s2 := s1.(cache := ReaderAt(c, id, input, due, pc2));
      if pc2.Querying? {
        QuerySolo(s2, c, id, input, due, f, pc2.cacheVersion, s0);
      } else {
        EndsNow(s2, id, s0, end);
      }
      EndsLater(s1, s2, id, s0, end);
    }
    EndsLater(s, s1, id, s0, end);
  }

  lemma BeginListAt(s: System, id: nat, input: ListInput)
    requires id !in s.cache.readers
    ensures Step(s, ABeginList(id, input))
         == s.(cache := ReaderAt(s.cache, id, input, LastFloor(FloorsOf(s.cache, input.teamID)),
                                 if ListNumbersOk(input) then CheckingReader else ListFailed(InvalidInput)))
  {
    hide ListNumbersOk, FloorsOf, LastFloor;
  }

  lemma ListLeads(s: System, id: nat, input: ListInput)
    requires id !in s.cache.readers
    ensures EndsAs(Step(s, ABeginList(id, input)), id, s, ListCall(TablesOf(s.data), s.cache.redis, s.data.now, s.ttl, input, NO_LIST_FAULTS))
  {
    hide ListTasks, Leads, EndsAs, CacheSet, CacheGet, TrimSpace, IsMember;
    var end := ListCall(TablesOf(s.data), s.cache.redis, s.data.now, s.ttl, input, NO_LIST_FAULTS);
    var due := LastFloor(FloorsOf(s.cache, input.teamID));
    var pc := if ListNumbersOk(input) then CheckingReader else ListFailed(InvalidInput);
    var s1 := s.(cache := ReaderAt(s.cache, id, input, due, pc));
    BeginListAt(s, id, input);
    hide Step;
    if !ListNumbersOk(input) {
      EndsNow(s1, id, s, end);
    } else {
      ReaderStep(s1, s.cache, id, input, due, pc);
      var pc2 := NextReaderPc(s1, input, pc);
      var s2 := s1.(cache := ReaderAt(s.cache, id, input, due, pc2));
      if pc2.ReadingVersion? {
        CacheSolo(s2, s.cache, id, input, due, pc2.filter, s, end);
      } else {
        EndsNow(s2, id, s, end);
      }
      EndsLater(s1, s2, id, s, end);
    }
  }

  /** The run that goes on with the steps of a list call ends with the answer of the use case and leaves Redis as it does. */
  lemma ListStepsAreTheCall(ttl: int, actions: seq<Action>, id: nat, input: ListInput)
    requires id !in Reached(ttl, actions).cache.readers
    ensures
      var s := Reached(ttl, actions);
      exists more :: Only(more, AList(id, Succeeds))
        && ListEnded(s, Reached(ttl, actions + [ABeginList(id, input)] + more), id,
                     ListCall(TablesOf(s.data), s.cache.redis, s.data.now, s.ttl, input, NO_LIST_FAULTS))
  {
    hide Reached, Leads, ListEnded, ListCall, Step;
    var s := Reached(ttl, actions);
    ListLeads(s, id, input);
    var end := ListCall(TablesOf(s.data), s.cache.redis, s.data.now, s.ttl, input, NO_LIST_FAULTS);
    var s' :| Leads(Step(s, ABeginList(id, input)), AList(id, Succeeds), s') && ListEnded(s, s', id, end);
    LeadsIsReached(ttl, actions, ABeginList(id, input), AList(id, Succeeds), s');
  }

  // ----- Teams.Create and Teams.Invite

  /** The next team id is new, so the two inserts are the one write of the step. */
  lemma NewTeamId(d: DataSide, owner: int)
    requires StoreInv(d)
    ensures FindMember(Db(d).members, d.ids.team, owner).None?
  {
    TeamFacts(d);
    hide StoreInv, HasUser;
    assert MembersLinked(Db(d));
    hide MembersOk;
    OldTeamIds(Db(d), d.ids.team);
  }

  lemma StepTables(d: DataSide, owner: int, name: string, o: Outcome)
    requires owner > 0 && ValidTitle(TrimSpace(name))
    ensures
      var r := InsertTeamWithOwner(Db(d), d.ids.team, TrimSpace(name), owner);
      TablesOf(CreateTeam(d, owner, name, o))
        == Tables(if o.FailsBefore? || r.Err? then Db(d) else r.value, d.ids.(team := d.ids.team + 1), d.now)
  {
    hide TrimSpace, InsertTeamWithOwner;
  }

  lemma TeamStep(d: DataSide, owner: int, name: string, o: Outcome)
    requires FindMember(Db(d).members, d.ids.team, owner).None?
    ensures TablesOf(CreateTeam(d, owner, name, o)) == CreateTeamCall(TablesOf(d), owner, name, NO_TEAM_FAULTS.(commit := o)).0
  {
    hide TrimSpace, HasUser, FindMember, RepositoryCreateTeam;
    if owner > 0 && ValidTitle(TrimSpace(name)) {
      var title := TrimSpace(name);
      StepTables(d, owner, name, o);
      hide CreateTeam;
      TeamAndOwnerTogether(TablesOf(d), title, owner, NO_TEAM_FAULTS.(commit := o));
      TeamIdDrawn(TablesOf(d), title, owner, NO_TEAM_FAULTS.(commit := o));
    }
  }

  lemma TeamIdDrawn(db: Tables, name: string, owner: int, f: TeamFaults)
    requires f.begin.Succeeds? && f.team.Succeeds?
    ensures RepositoryCreateTeam(db, name, owner, f).0.ids == db.ids.(team := db.ids.team + 1)
  {
    hide HasUser, HasTeam, FindMember;
  }

  /** Creating a team is one transaction, and one step of a run, which ends with the tables of the call. */
  lemma CreateTeamStepIsTheCall(ttl: int, actions: seq<Action>, owner: int, name: string, o: Outcome)
    ensures TablesOf(Reached(ttl, actions + [ACreateTeam(owner, name, o)]).data)
         == CreateTeamCall(TablesOf(Reached(ttl, actions).data), owner, name, NO_TEAM_FAULTS.(commit := o)).0
  {
    var d := Reached(ttl, actions).data;
    ReachedOk(ttl, actions);
    ReachedStep(ttl, actions, ACreateTeam(owner, name, o));
    hide Reached, StoreInv, CreateTeam, CreateTeamCall, FindMember;
    NewTeamId(d, owner);
    TeamStep(d, owner, name, o);
  }

  function InviterAt(d: DataSide, id: nat, input: InviteInput, pc: InviterPc): DataSide {
    d.(inviters := d.inviters[id := Inviter(input, pc)])
  }

  lemma SetInviterAt(d: DataSide, id: nat, input: InviteInput, pc: InviterPc, pc': InviterPc)
    ensures SetInviter(InviterAt(d, id, input, pc), id, pc') == InviterAt(d, id, input, pc')
  {
    assert d.inviters[id := Inviter(input, pc)][id := Inviter(input, pc')] == d.inviters[id := Inviter(input, pc')];
  }

  /** The call has ended with this answer and has left the tables like this. */
  predicate InviteEnded(d': DataSide, id: nat, end: (Tables, Result<int>)) {
    && TablesOf(d') == end.0
    && id in d'.inviters
    && d'.inviters[id].pc == if end.1.Ok? then Invited(end.1.value) else InviteFailed(end.1.error)
  }

  lemma RoleStep(d: DataSide, id: nat, input: InviteInput)
    ensures InviteStep(InviterAt(d, id, input, CheckingInviter), id, Succeeds)
         == InviterAt(d, id, input, AfterRoleCheck(FindTeamRole(Db(d), input.teamID, input.invitedBy), Succeeds))
  {
    hide FindTeamRole, AfterRoleCheck, SetInviter;
    SetInviterAt(d, id, input, CheckingInviter, AfterRoleCheck(FindTeamRole(Db(d), input.teamID, input.invitedBy), Succeeds));
  }

  lemma InviteeStep(d: DataSide, id: nat, input: InviteInput)
    ensures
      var u := FindByEmail(Db(d).users, input.email);
      InviteStep(InviterAt(d, id, input, FindingInvitee), id, Succeeds)
        == InviterAt(d, id, input, if u.None? then InviteFailed(UserNotFound) else AddingMember(u.value.id))
  {
    hide FindByEmail, SetInviter;
    var u := FindByEmail(Db(d).users, input.email);
    SetInviterAt(d, id, input, FindingInvitee, if u.None? then InviteFailed(UserNotFound) else AddingMember(u.value.id));
  }

  lemma MemberStep(d: DataSide, id: nat, input: InviteInput, userID: int)
    ensures
      var r := InsertMember(Db(d), input.teamID, userID);
      InviteEnded(InviteStep(InviterAt(d, id, input, AddingMember(userID)), id, Succeeds), id,
                  if r.Err? then (TablesOf(d), Err(r.error)) else (TablesOf(d).(store := r.value), Ok(userID)))
  {
    hide InsertMember;
  }

  lemma InviteLeads(d: DataSide, id: nat, input: InviteInput)
    requires id !in d.inviters
    ensures
      var d1 := InviteStep(BeginInvite(d, id, input), id, Succeeds);
      var d2 := InviteStep(d1, id, Succeeds);
      var d3 := InviteStep(d2, id, Succeeds);
      InviteEnded(d3, id, InviteCall(TablesOf(d), input, Succeeds, Succeeds, Succeeds))
  {
    var ok := input.teamID > 0 && input.invitedBy > 0 && input.email != "";
    var call := InviteCall(TablesOf(d), input, Succeeds, Succeeds, Succeeds);
    assert BeginInvite(d, id, input) == InviterAt(d, id, input, if ok then CheckingInviter else InviteFailed(InvalidInput));
    hide BeginInvite, FindTeamRole, FindByEmail, InsertMember, InviteStep, InviterAt, InviteEnded, TablesOf;
    var role := FindTeamRole(Db(d), input.teamID, input.invitedBy);
    var user := FindByEmail(Db(d).users, input.email);
    RoleStep(d, id, input);
    InviteeStep(d, id, input);
    if !ok {
      InviteDone(d, id, input, InvalidInput);
    } else if AfterRoleCheck(role, Succeeds).InviteFailed? {
      InviteDone(d, id, input, Forbidden);
    } else if user.None? {
      InviteDone(d, id, input, UserNotFound);
    } else {
      MemberStep(d, id, input, user.value.id);
      CallAdds(d, input, user.value.id);
    }
  }

  /** The run that goes on with an invitation and its three steps ends where the use case ends. */
  lemma InviteStepsAreTheCall(ttl: int, actions: seq<Action>, id: nat, input: InviteInput)
    requires id !in Reached(ttl, actions).data.inviters
    ensures
      var a := AInvite(id, Succeeds);
      InviteEnded(Reached(ttl, actions + [ABeginInvite(id, input)] + [a] + [a] + [a]).data, id,
                  InviteCall(TablesOf(Reached(ttl, actions).data), input, Succeeds, Succeeds, Succeeds))
  {
    var a, more := AInvite(id, Succeeds), actions + [ABeginInvite(id, input)];
    hide Reached, InviteEnded, InviteCall, BeginInvite, InviteStep;
    InviteLeads(Reached(ttl, actions).data, id, input);
    ReachedStep(ttl, actions, ABeginInvite(id, input));
    ReachedStep(ttl, more, a);
    ReachedStep(ttl, more + [a], a);
    ReachedStep(ttl, more + [a] + [a], a);
  }

  /** Where the checks of an invitation have passed, what remains of the call is to add the member. */
  lemma CallAdds(d: DataSide, input: InviteInput, userID: int)
    requires input.teamID > 0 && input.invitedBy > 0 && input.email != ""
    requires !AfterRoleCheck(FindTeamRole(Db(d), input.teamID, input.invitedBy), Succeeds).InviteFailed?
    requires FindByEmail(Db(d).users, input.email).Some? && FindByEmail(Db(d).users, input.email).value.id == userID
    ensures
      var r := InsertMember(Db(d), input.teamID, userID);
      InviteCall(TablesOf(d), input, Succeeds, Succeeds, Succeeds)
        == if r.Err? then (TablesOf(d), Err(r.error)) else (TablesOf(d).(store := r.value), Ok(userID))
  {
    hide FindTeamRole, FindByEmail, InsertMember;
  }

  /** A call that has failed stays as it is. */
  lemma InviteDone(d: DataSide, id: nat, input: InviteInput, error: Error)
    ensures InviteStep(InviterAt(d, id, input, InviteFailed(error)), id, Succeeds) == InviterAt(d, id, input, InviteFailed(error))
    ensures InviteEnded(InviterAt(d, id, input, InviteFailed(error)), id, (TablesOf(d), Err(error)))
  {
  }
}
