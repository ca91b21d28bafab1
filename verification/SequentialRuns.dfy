/**
 * Runs in which updates of the same task do not overlap: a call that reads a task ends before the next one
 * reads it. Everything else may still interleave and fail. In such runs no update is stale, so every history
 * chains and can be undone.
 */
module SequentialRuns {
  import opened Domain
  import opened TaskUpdates
  import opened AuditLog
  import opened Store
  import opened StoreSafety
  import opened Service
  import opened ServiceSafety
  import opened StoreTheorems
  import opened Calls
  import opened Effects
  import opened Runs
  import opened AskedValues

  /** The task that an update call has read and not yet finished with. */
  function HasRead(u: Updater): Option<Task> {
    match u.pc
    case CheckingRequester(current) => Some(current)
    case CheckingNewAssignee(current) => Some(current)
    case Executing(current, _) => Some(current)
    case Writing(current, _, _, _, _) => Some(current)
    case _ => None
  }

  predicate Overlap(u: Updater, v: Updater) {
    HasRead(u).Some? && HasRead(v).Some? && HasRead(u).value.id == HasRead(v).value.id
  }

  /** No two calls are at work on the same task. */
  ghost predicate Apart(d: DataSide) {
    forall i, j :: i in d.updaters && j in d.updaters && i != j ==> !Overlap(d.updaters[i], d.updaters[j])
  }

  ghost predicate OneAtATime(ttl: int, actions: seq<Action>) {
    forall n :: 0 <= n <= |actions| ==> Apart(Reached(ttl, actions[..n]).data)
  }

  // ----- what a call has read stays in the table

  predicate UpToDate(st: Store, u: Updater) {
    && (HasRead(u).Some? ==> FindTask(st, HasRead(u).value.id) == HasRead(u))
    && (u.pc.Writing? ==> u.pc.before == u.pc.current)
  }

  ghost predicate AllUpToDate(d: DataSide) {
    d.stale == {} && forall id :: id in d.updaters ==> UpToDate(Db(d), d.updaters[id])
  }

  /** Rows other than the touched one are found as before. */
  ghost predicate RowsKept(st: Store, st': Store, touched: Option<int>) {
    forall taskID :: touched != Some(taskID) && FindTask(st, taskID).Some? ==> FindTask(st', taskID) == FindTask(st, taskID)
  }

  lemma {:induction false} IndexAppended(tasks: seq<Task>, row: Task, taskID: int)
    requires TaskIndex(tasks, taskID) < |tasks|
    ensures TaskIndex(tasks + [row], taskID) == TaskIndex(tasks, taskID)
  {
    if tasks[0].id != taskID {
      assert (tasks + [row])[1..] == tasks[1..] + [row];
      IndexAppended(tasks[1..], row, taskID);
    }
  }

  lemma {:induction false} IndexRewritten(tasks: seq<Task>, i: nat, row: Task, taskID: int)
    requires i < |tasks| && tasks[i].id == row.id
    ensures TaskIndex(tasks[i := row], taskID) == TaskIndex(tasks, taskID)
  {
    if i > 0 && tasks[0].id != taskID {
      assert tasks[i := row][1..] == tasks[1..][i - 1 := row];
      IndexRewritten(tasks[1..], i - 1, row, taskID);
    } else if i == 0 {
      assert tasks[0 := row][1..] == tasks[1..];
    }
  }

  lemma AppendKeepsRows(st: Store, st': Store, row: Task)
    requires st'.tasks == st.tasks + [row]
    ensures RowsKept(st, st', None)
  {
    forall taskID | FindTask(st, taskID).Some? ensures FindTask(st', taskID) == FindTask(st, taskID) {
      IndexAppended(st.tasks, row, taskID);
    }
  }

  lemma CommitKeepsRows(st: Store, row: Task, rows: seq<HistoryRow>)
    ensures RowsKept(st, CommitUpdate(st, row, rows), Some(row.id))
  {
    var st' := CommitUpdate(st, row, rows);
    var i := TaskIndex(st.tasks, row.id);
    forall taskID | taskID != row.id && FindTask(st, taskID).Some? ensures FindTask(st', taskID) == FindTask(st, taskID) {
      if i < |st.tasks| {
        IndexRewritten(st.tasks, i, row, taskID);
      }
    }
  }

  lemma SameTasksKeepRows(st: Store, st': Store)
    requires st'.tasks == st.tasks
    ensures RowsKept(st, st', None)
  {
  }

  /** Calls other than the one that moves, if any, are as up to date as before. */
  lemma OthersUpToDate(d: DataSide, d': DataSide, mover: int, touched: Option<int>)
    requires AllUpToDate(d) && RowsKept(Db(d), Db(d'), touched) && d'.stale == d.stale
    requires forall id :: id in d'.updaters && id != mover ==> id in d.updaters && d'.updaters[id] == d.updaters[id]
    requires forall id :: id in d.updaters && id != mover && HasRead(d.updaters[id]).Some? ==>
      touched != Some(HasRead(d.updaters[id]).value.id)
    requires mover >= 0 && mover in d'.updaters ==> UpToDate(Db(d'), d'.updaters[mover])
    ensures AllUpToDate(d')
  {
    hide RowsKept, FindTask;
    forall id | id in d'.updaters && id != mover ensures UpToDate(Db(d'), d'.updaters[id]) {
      StaysUpToDate(Db(d), Db(d'), touched, d.updaters[id]);
    }
  }

  lemma StaysUpToDate(st: Store, st': Store, touched: Option<int>, u: Updater)
    requires UpToDate(st, u) && RowsKept(st, st', touched)
    requires HasRead(u).Some? ==> touched != Some(HasRead(u).value.id)
    ensures UpToDate(st', u)
  {
    hide FindTask;
  }

  // ----- steps that write no task, or add one

  lemma PeopleUpToDate(d: DataSide, d': DataSide)
    requires AllUpToDate(d) && Db(d').tasks == Db(d).tasks && d'.stale == d.stale && d'.updaters == d.updaters
    ensures AllUpToDate(d')
  {
    SameTasksKeepRows(Db(d), Db(d'));
    hide RowsKept, UpToDate, HasRead;
    OthersUpToDate(d, d', -1, None);
  }

  lemma AddedUpToDate(d: DataSide, d': DataSide)
    requires AllUpToDate(d) && OneTaskAdded(d, d')
    ensures AllUpToDate(d')
  {
    var row :| Added(d, d', row);
    AppendKeepsRows(Db(d), Db(d'), row);
    hide RowsKept, UpToDate, HasRead;
    OthersUpToDate(d, d', -1, None);
  }

  // ----- the steps of an update

  /** A call that moves without writing its task. */
  lemma MovesUpToDate(d: DataSide, d1: DataSide, id: nat, pc: UpdaterPc)
    requires AllUpToDate(d) && id in d.updaters
    requires d1.log == d.log && d1.stale == d.stale && d1.updaters == d.updaters
    requires UpToDate(Db(d), d.updaters[id].(pc := pc))
    ensures AllUpToDate(SetUpdater(d1, id, pc))
  {
    var d' := SetUpdater(d1, id, pc);
    assert Db(d') == Db(d);
    SameTasksKeepRows(Db(d), Db(d'));
    hide RowsKept, UpToDate, HasRead, Db;
    OthersUpToDate(d, d', id, None);
  }

  lemma ExecUpToDate(d: DataSide, id: nat, current: Task, wanted: Task, o: Outcome)
    requires AllUpToDate(d) && id in d.updaters && d.updaters[id].pc == Executing(current, wanted)
    ensures AllUpToDate(ExecStep(d, id, current, wanted, o))
  {
    assert UpToDate(Db(d), d.updaters[id]);
    var r := TryExec(Db(d), current, wanted, d.now);
    assert r.Ok? ==> r.value.0 == current by { ExecMeetsRow(Db(d), current, wanted, d.now); }
    hide AllUpToDate, TryExec, SetUpdater, FindTask;
    if o.Succeeds? && r.Ok? && current.id !in d.locks {
      MovesUpToDate(d, Lock(d, current.id, id), id, Writing(current, wanted, r.value.0, r.value.1, []));
    } else if !o.Succeeds? || r.Err? {
      MovesUpToDate(d, d, id, UpdateFailed(if o.Succeeds? && r.Err? then r.error else Infrastructure));
    }
  }

  lemma ExecMeetsRow(st: Store, current: Task, wanted: Task, now: int)
    requires FindTask(st, current.id) == Some(current)
    ensures TryExec(st, current, wanted, now).Ok? ==> TryExec(st, current, wanted, now).value.0 == current
  {
    hide FindTask, ExecUpdate, CompileChanges, Changes;
  }

  /** Before the commit, the transaction leaves what others see alone. */
  lemma PendingUpToDate(d: DataSide, d1: DataSide, id: nat, pc': UpdaterPc)
    requires AllUpToDate(d) && id in d.updaters && d.updaters[id].pc.Writing?
    requires d1.log == d.log && d1.stale == d.stale && d1.updaters == d.updaters
    requires var pc := d.updaters[id].pc; pc'.UpdateFailed? || (pc'.Writing? && pc'.current == pc.current && pc'.before == pc.before)
    ensures AllUpToDate(SetUpdater(d1, id, pc'))
  {
    assert UpToDate(Db(d), d.updaters[id]) by { KnownUpToDate(d, id); }
    hide AllUpToDate, SetUpdater, FindTask;
    MovesUpToDate(d, d1, id, pc');
  }

  lemma WriteUpToDate(d: DataSide, id: nat, o: Outcome)
    requires StoreInv(d) && AllUpToDate(d) && Apart(d) && id in d.updaters && d.updaters[id].pc.Writing?
    ensures AllUpToDate(WriteStep(d, id, d.updaters[id].input.requestedBy, d.updaters[id].pc, o))
  {
    var pc := d.updaters[id].pc;
    hide StoreInv, AllUpToDate, Apart, SetUpdater, Changes, NextHistoryRow, TaskCommitted;
    if |pc.rows| < |Changes(pc.current, pc.wanted)| {
      if o.Succeeds? {
        PendingUpToDate(d, HistoryIdDrawn(d), id, pc.(rows := pc.rows + [NextHistoryRow(d, d.updaters[id].input.requestedBy, pc)]));
      } else {
        PendingUpToDate(d, Unlock(HistoryIdDrawn(d), pc.current.id), id, UpdateFailed(Infrastructure));
      }
    } else if o.FailsBefore? {
      PendingUpToDate(d, Unlock(d, pc.current.id), id, UpdateFailed(Infrastructure));
    } else {
      CommitUpToDate(d, id, if o.FailsAfter? then UpdateFailed(Infrastructure) else AnnouncingUpdate(pc.pending, |d.log|));
    }
  }

  lemma OthersApart(d: DataSide, id: nat, other: nat)
    requires Apart(d) && id in d.updaters && d.updaters[id].pc.Writing? && other in d.updaters && other != id
    ensures HasRead(d.updaters[other]).Some? ==> d.updaters[id].pc.current.id != HasRead(d.updaters[other]).value.id
  {
    assert !Overlap(d.updaters[id], d.updaters[other]);
  }

  /** The commit writes one row, which no other call has read; and it is not stale. */
  lemma CommitUpToDate(d: DataSide, id: nat, pc': UpdaterPc)
    requires StoreInv(d) && AllUpToDate(d) && Apart(d) && id in d.updaters && d.updaters[id].pc.Writing?
    requires pc'.UpdateFailed? || pc'.AnnouncingUpdate?
    ensures AllUpToDate(SetUpdater(TaskCommitted(d, d.updaters[id].pc), id, pc'))
  {
    var pc := d.updaters[id].pc;
    var d' := SetUpdater(TaskCommitted(d, pc), id, pc');
    assert pc.before == pc.current by { KnownUpToDate(d, id); }
    PendingId(d, id);
    hide StoreInv, AllUpToDate, RowsKept, CommitUpdate, StaleAfter, FindTask, Apart, HasRead, SetUpdater, TaskCommitted;
    NotStale(d.stale, pc);
    CommitKeepsRows(Db(d), pc.pending, pc.rows);
    CommittedState(d, id, pc');
    forall other | other in d.updaters && other != id && HasRead(d.updaters[other]).Some?
      ensures Some(pc.current.id) != Some(HasRead(d.updaters[other]).value.id) {
      OthersApart(d, id, other);
    }
    EndedUpToDate(Db(d'), d.updaters[id].(pc := pc'));
    hide UpToDate, Db;
    OneMoved(d, d', id, d.updaters[id].(pc := pc'), pc.current.id);
  }

  /** One call has moved on and has written one row, which no other call has read. */
  lemma OneMoved(d: DataSide, d': DataSide, id: nat, u: Updater, touched: int)
    requires AllUpToDate(d) && id in d.updaters
    requires d'.stale == d.stale && d'.updaters == d.updaters[id := u]
    requires RowsKept(Db(d), Db(d'), Some(touched)) && UpToDate(Db(d'), u)
    requires forall other :: other in d.updaters && other != id && HasRead(d.updaters[other]).Some? ==>
      Some(touched) != Some(HasRead(d.updaters[other]).value.id)
    ensures AllUpToDate(d')
  {
    hide AllUpToDate, RowsKept, UpToDate, HasRead, Db;
    OthersUpToDate(d, d', id, Some(touched));
  }

  lemma EndedUpToDate(st: Store, u: Updater)
    requires u.pc.UpdateFailed? || u.pc.AnnouncingUpdate? || u.pc.Updated?
    ensures UpToDate(st, u)
  {
  }

  lemma CommittedState(d: DataSide, id: nat, pc': UpdaterPc)
    requires id in d.updaters && d.updaters[id].pc.Writing?
    ensures
      var pc := d.updaters[id].pc;
      var d' := SetUpdater(TaskCommitted(d, pc), id, pc');
      && Db(d') == CommitUpdate(Db(d), pc.pending, pc.rows)
      && d'.stale == StaleAfter(d.stale, pc)
      && d'.updaters == d.updaters[id := d.updaters[id].(pc := pc')]
  {
    hide CommitUpdate, StaleAfter;
  }

  lemma PendingId(d: DataSide, id: nat)
    requires StoreInv(d) && id in d.updaters && d.updaters[id].pc.Writing?
    ensures d.updaters[id].pc.pending.id == d.updaters[id].pc.current.id
  {
    UpdaterFacts(d, id);
    var pc := d.updaters[id].pc;
    hide StoreInv, PlanOk, PendingRows, Changes, HoldsLock;
    assert MergedFrom(pc.pending, pc.before, pc.current, pc.wanted);
    assert pc.pending.id == Merge(pc.before, pc.current, pc.wanted).id;
  }

  lemma NotStale(stale: set<int>, pc: UpdaterPc)
    requires pc.Writing? && pc.before == pc.current
    ensures StaleAfter(stale, pc) == stale
  {
  }

  /** A check leaves what has been read as it is, or ends the call. */
  lemma ChecksUpToDate(d: DataSide, id: nat, current: Task, pc': UpdaterPc)
    requires AllUpToDate(d) && id in d.updaters && HasRead(d.updaters[id]) == Some(current) && !pc'.Writing?
    requires HasRead(d.updaters[id].(pc := pc')) == None || HasRead(d.updaters[id].(pc := pc')) == Some(current)
    ensures AllUpToDate(SetUpdater(d, id, pc'))
  {
    assert UpToDate(Db(d), d.updaters[id]) by { KnownUpToDate(d, id); }
    hide AllUpToDate, SetUpdater, FindTask, HasRead;
    MovesUpToDate(d, d, id, pc');
  }

  lemma ChecksKeepRead(u: Updater, current: Task, isMember: bool, o: Outcome, appTime: int)
    ensures var pc := AfterRequesterCheck(isMember, u.input, current, o, appTime);
      !pc.Writing? && (HasRead(u.(pc := pc)) == None || HasRead(u.(pc := pc)) == Some(current))
    ensures var pc := AfterAssigneeCheck(isMember, u.input, current, o, appTime);
      !pc.Writing? && (HasRead(u.(pc := pc)) == None || HasRead(u.(pc := pc)) == Some(current))
  {
    hide ValuesOk, Wanted, Changes, AsksForAssignee;
  }

  lemma UpdateUpToDate(d: DataSide, id: nat, o: Outcome, appTime: int)
    requires StoreInv(d) && AllUpToDate(d) && Apart(d)
    ensures AllUpToDate(UpdateStep(d, id, o, appTime))
  {
    hide StoreInv, Apart, AllUpToDate, SetUpdater, ExecStep, WriteStep, IsMember, AfterRequesterCheck, AfterAssigneeCheck, AfterFind,
      UpToDate, FindTask;
    if id in d.updaters {
      var u := d.updaters[id];
      match u.pc
      case Finding =>
        FoundUpToDate(Db(d), u, o);
        MovesUpToDate(d, d, id, AfterFind(FindTask(Db(d), u.input.taskID), o));
      case CheckingRequester(current) =>
        var isMember := IsMember(Db(d), current.teamID, u.input.requestedBy);
        ChecksKeepRead(u, current, isMember, o, appTime);
        ChecksUpToDate(d, id, current, AfterRequesterCheck(isMember, u.input, current, o, appTime));
      case CheckingNewAssignee(current) =>
        var isMember := u.input.assigneeID.Some? && IsMember(Db(d), current.teamID, u.input.assigneeID.value);
        ChecksKeepRead(u, current, isMember, o, appTime);
        ChecksUpToDate(d, id, current, AfterAssigneeCheck(isMember, u.input, current, o, appTime));
      case Executing(current, wanted) => ExecUpToDate(d, id, current, wanted, o);
      case Writing(_, _, _, _, _) => WriteUpToDate(d, id, o);
      case AnnouncingUpdate(task, _) =>
        EndedUpToDate(Db(d), u.(pc := Updated(task)));
        MovesUpToDate(d, d, id, Updated(task));
      case Updated(_) =>
      case UpdateFailed(_) =>
    }
  }

  lemma KnownUpToDate(d: DataSide, id: nat)
    requires AllUpToDate(d) && id in d.updaters
    ensures UpToDate(Db(d), d.updaters[id])
  {
    hide UpToDate;
  }

  lemma FoundUpToDate(st: Store, u: Updater, o: Outcome)
    ensures UpToDate(st, u.(pc := AfterFind(FindTask(st, u.input.taskID), o)))
  {
    var found := FindTask(st, u.input.taskID);
    assert found.Some? ==> found.value.id == u.input.taskID;
    hide FindTask;
  }

  lemma StepUpToDate(d: DataSide, a: Action)
    requires StoreInv(d) && AllUpToDate(d) && Apart(d)
    ensures AllUpToDate(DataStep(d, a))
  {
    hide StoreInv, Apart, AllUpToDate, UpdateStep, BeginUpdate, OneTaskAdded;
    match a
    case ABeginUpdate(id, input) => BeginUpToDate(d, id, input);
    case AUpdate(id, o, appTime) => UpdateUpToDate(d, id, o, appTime);
    case _ =>
      StepEffect(d, a);
      hide DataStep;
      if TasksUntouched(d, DataStep(d, a)) {
        PeopleUpToDate(d, DataStep(d, a));
      } else {
        AddedUpToDate(d, DataStep(d, a));
      }
  }

  lemma BeginUpToDate(d: DataSide, id: nat, input: UpdateInput)
    requires AllUpToDate(d)
    ensures AllUpToDate(BeginUpdate(d, id, input))
  {
    var d' := BeginUpdate(d, id, input);
    hide RequestOk, FindTask;
    SameTasksKeepRows(Db(d), Db(d'));
    hide RowsKept;
    OthersUpToDate(d, d', if id in d.updaters then -1 else id, None);
  }

  lemma {:induction false} ReachedUpToDate(ttl: int, actions: seq<Action>)
    requires OneAtATime(ttl, actions)
    ensures AllUpToDate(Reached(ttl, actions).data)
    decreases |actions|
  {
    hide AllUpToDate, DataStep, CacheStep, StoreInv, Apart;
    if actions == [] {
      NothingRead(ttl);
    } else {
      var before := actions[..|actions| - 1];
      assert Apart(Reached(ttl, before).data);
      assert before + [actions[|actions| - 1]] == actions;
      OneAtATimeBefore(ttl, before, actions[|actions| - 1]);
      ReachedUpToDate(ttl, before);
      ReachedOk(ttl, before);
      StepUpToDate(Reached(ttl, before).data, actions[|actions| - 1]);
    }
  }

  lemma NothingRead(ttl: int)
    ensures AllUpToDate(Initial(ttl).data)
  {
  }

  /**
   * When no two updates of one task overlap, every history chains from old to new values, undoing it gives
   * the task as created, and replaying it gives the task as it is.
   */
  lemma SequentialHistoriesChain(ttl: int, actions: seq<Action>, row: Task)
    requires OneAtATime(ttl, actions) && row in Db(Reached(ttl, actions).data).tasks
    ensures
      var d := Reached(ttl, actions).data;
      var changes := ChangesOf(HistoryOf(Db(d), row.id));
      && row.id in d.created
      && Chained(FieldsOf(d.created[row.id]), changes)
      && Undo(FieldsOf(row), changes) == FieldsOf(d.created[row.id])
      && Replay(FieldsOf(d.created[row.id]), changes) == FieldsOf(row)
  {
    ReachedUpToDate(ttl, actions);
    HistoryChainsExactly(ttl, actions, row);
    AuditParts(ttl, actions, row);
    hide Reached, OneAtATime, Chained, Undo, Replay, UpToDate, HistoryOf, ChangesOf, FieldsOf, WellFormed;
  }

  // ----- no task is lost

  /** The call has found its task, and has not lost it. */
  predicate Found(u: Updater) {
    !u.pc.Finding? && u.pc != UpdateFailed(TaskNotFound)
  }

  /** An update that makes a change, of the row that was read, finds a row to change. */
  lemma ExecFinds(st: Store, current: Task, wanted: Task, now: int)
    requires FindTask(st, current.id) == Some(current) && ValidStatus(wanted.status) && Changes(current, wanted) != []
    ensures TryExec(st, current, wanted, now) != Err(TaskNotFound)
  {
    SetListMeaning(current, current, wanted);
    assert Merge(current, current, wanted) != current by {
      if Merge(current, current, wanted) == current {
        MergeChanges(current, wanted);
      }
    }
    hide Changes, CompileChanges, Merge, ApplySet;
    UpdateFinds(st, CompileChanges(wanted, Changes(current, wanted)).value, current, now);
    hide ExecUpdate, FindTask;
  }

  lemma UpdateFinds(st: Store, list: SetList, current: Task, now: int)
    requires FindTask(st, current.id) == Some(current) && ApplySet(current, list.columns, list.arguments) != Some(current)
    ensures ExecUpdate(st, list, current.id, now) != Err(TaskNotFound)
  {
    hide ApplySet, HasUser;
  }

  lemma MergeChanges(current: Task, wanted: Task)
    requires Merge(current, current, wanted) == current
    ensures Changes(current, wanted) == []
  {
  }

  /** The call is at this program point, and the other calls are as they were. */
  predicate Moves(d: DataSide, d': DataSide, id: nat, pc: UpdaterPc) {
    id in d.updaters && d'.updaters == d.updaters[id := d.updaters[id].(pc := pc)]
  }

  lemma SetMoves(d: DataSide, d1: DataSide, id: nat, pc: UpdaterPc)
    requires id in d.updaters && d1.updaters == d.updaters
    ensures Moves(d, SetUpdater(d1, id, pc), id, pc)
  {
  }

  lemma StaysMoves(d: DataSide, id: nat)
    requires id in d.updaters
    ensures Moves(d, d, id, d.updaters[id].pc)
  {
    assert d.updaters == d.updaters[id := d.updaters[id]];
  }

  lemma ExecMoves(d: DataSide, id: nat, current: Task, wanted: Task, o: Outcome) returns (pc: UpdaterPc)
    requires id in d.updaters && d.updaters[id].pc == Executing(current, wanted)
    ensures Moves(d, ExecStep(d, id, current, wanted, o), id, pc)
    ensures TryExec(Db(d), current, wanted, d.now) != Err(TaskNotFound) ==> pc != UpdateFailed(TaskNotFound)
    ensures !pc.Finding?
  {
    hide TryExec, SetUpdater, Moves;
    var r := TryExec(Db(d), current, wanted, d.now);
    pc := d.updaters[id].pc;
    StaysMoves(d, id);
    if o.Succeeds? && r.Ok? && current.id !in d.locks {
      pc := Writing(current, wanted, r.value.0, r.value.1, []);
      SetMoves(d, Lock(d, current.id, id), id, pc);
    } else if !o.Succeeds? || (r.Err? && (r.error == UnsupportedField || current.id !in d.locks)) {
      pc := UpdateFailed(if o.Succeeds? && r.Err? then r.error else Infrastructure);
      SetMoves(d, d, id, pc);
    }
  }

  lemma WriteMoves(d: DataSide, id: nat, o: Outcome) returns (pc: UpdaterPc)
    requires id in d.updaters && d.updaters[id].pc.Writing?
    ensures Moves(d, WriteStep(d, id, d.updaters[id].input.requestedBy, d.updaters[id].pc, o), id, pc)
    ensures pc.Writing? || pc.AnnouncingUpdate? || pc == UpdateFailed(Infrastructure)
  {
    var was := d.updaters[id].pc;
    assert TaskCommitted(d, was).updaters == d.updaters by { hide CommitUpdate, StaleAfter; }
    hide SetUpdater, Moves, Changes, NextHistoryRow, TaskCommitted;
    if |was.rows| < |Changes(was.current, was.wanted)| {
      if o.Succeeds? {
        pc := was.(rows := was.rows + [NextHistoryRow(d, d.updaters[id].input.requestedBy, was)]);
        SetMoves(d, HistoryIdDrawn(d), id, pc);
      } else {
        pc := UpdateFailed(Infrastructure);
        SetMoves(d, Unlock(HistoryIdDrawn(d), was.current.id), id, pc);
      }
    } else if o.FailsBefore? {
      pc := UpdateFailed(Infrastructure);
      SetMoves(d, Unlock(d, was.current.id), id, pc);
    } else {
      pc := if o.FailsAfter? then UpdateFailed(Infrastructure) else AnnouncingUpdate(was.pending, |d.log|);
      SetMoves(d, TaskCommitted(d, was), id, pc);
    }
  }

  lemma ChecksFind(input: UpdateInput, current: Task, isMember: bool, o: Outcome, appTime: int)
    ensures Found(Updater(input, AfterRequesterCheck(isMember, input, current, o, appTime)))
    ensures Found(Updater(input, AfterAssigneeCheck(isMember, input, current, o, appTime)))
  {
    hide ValuesOk, Wanted, Changes, AsksForAssignee;
  }

  /** A call moves alone; and once it has found its task it does not lose it. */
  lemma UpdateMoves(d: DataSide, id: nat, o: Outcome, appTime: int) returns (pc: UpdaterPc)
    requires id in d.updaters
    ensures Moves(d, UpdateStep(d, id, o, appTime), id, pc)
    ensures Found(d.updaters[id]) && !(d.updaters[id].pc.Executing?) ==> Found(d.updaters[id].(pc := pc))
    ensures d.updaters[id].pc.Executing? && TryExec(Db(d), d.updaters[id].pc.current, d.updaters[id].pc.wanted, d.now) != Err(TaskNotFound)
      ==> Found(d.updaters[id].(pc := pc))
  {
    var u := d.updaters[id];
    StaysMoves(d, id);
    pc := u.pc;
    hide SetUpdater, Moves, ExecStep, WriteStep, IsMember, AfterRequesterCheck, AfterAssigneeCheck, FindTask, TryExec;
    match u.pc
    case Finding =>
      pc := AfterFind(FindTask(Db(d), u.input.taskID), o);
      SetMoves(d, d, id, pc);
    case CheckingRequester(current) =>
      var isMember := IsMember(Db(d), current.teamID, u.input.requestedBy);
      ChecksFind(u.input, current, isMember, o, appTime);
      pc := AfterRequesterCheck(isMember, u.input, current, o, appTime);
      SetMoves(d, d, id, pc);
    case CheckingNewAssignee(current) =>
      var isMember := u.input.assigneeID.Some? && IsMember(Db(d), current.teamID, u.input.assigneeID.value);
      ChecksFind(u.input, current, isMember, o, appTime);
      pc := AfterAssigneeCheck(isMember, u.input, current, o, appTime);
      SetMoves(d, d, id, pc);
    case Executing(current, wanted) => pc := ExecMoves(d, id, current, wanted, o);
    case Writing(_, _, _, _, _) => pc := WriteMoves(d, id, o);
    case AnnouncingUpdate(task, _) =>
      pc := Updated(task);
      SetMoves(d, d, id, pc);
    case Updated(_) =>
    case UpdateFailed(_) =>
  }

  lemma MoverFinds(d: DataSide, id: nat)
    requires StoreInv(d) && AllUpToDate(d) && AllPlanned(d) && id in d.updaters && d.updaters[id].pc.Executing?
    ensures TryExec(Db(d), d.updaters[id].pc.current, d.updaters[id].pc.wanted, d.now) != Err(TaskNotFound)
  {
    var u := d.updaters[id];
    KnownUpToDate(d, id);
    assert Planned(u);
    UpdaterFacts(d, id);
    hide StoreInv, AllUpToDate, AllPlanned, FindTask, WantedOf, Changes, TryExec, HoldsLock, IsMember;
    ExecFinds(Db(d), u.pc.current, u.pc.wanted, d.now);
  }

  lemma UpdateKeepsFound(d: DataSide, mover: nat, o: Outcome, appTime: int, id: nat)
    requires StoreInv(d) && AllUpToDate(d) && AllPlanned(d) && id in d.updaters && Found(d.updaters[id])
    ensures var d' := UpdateStep(d, mover, o, appTime); id in d'.updaters && Found(d'.updaters[id])
  {
    hide StoreInv, AllUpToDate, AllPlanned, Found, TryExec;
    if mover in d.updaters {
      if d.updaters[mover].pc.Executing? {
        MoverFinds(d, mover);
      }
      var pc := UpdateMoves(d, mover, o, appTime);
      hide UpdateStep;
    }
  }

  lemma StepKeepsFound(d: DataSide, a: Action, id: nat)
    requires StoreInv(d) && AllUpToDate(d) && AllPlanned(d) && id in d.updaters && Found(d.updaters[id])
    ensures id in DataStep(d, a).updaters && Found(DataStep(d, a).updaters[id])
  {
    hide StoreInv, AllUpToDate, AllPlanned, UpdateStep, OneTaskAdded, TasksUntouched, RequestOk, Found;
    match a
    case ABeginUpdate(_, _) =>
    case AUpdate(mover, o, appTime) => UpdateKeepsFound(d, mover, o, appTime, id);
    case _ =>
      StepEffect(d, a);
      hide DataStep;
      SameCalls(d, DataStep(d, a));
  }

  /**
   * When no two updates of one task overlap, an update that has read its task never ends in "task not found",
   * whatever else runs or fails.
   */
  lemma {:induction false} ReadTasksAreFound(ttl: int, before: seq<Action>, after: seq<Action>, id: nat)
    requires OneAtATime(ttl, before + after)
    requires var updaters := Reached(ttl, before).data.updaters; id in updaters && HasRead(updaters[id]).Some?
    ensures var updaters := Reached(ttl, before + after).data.updaters; id in updaters && Found(updaters[id])
    decreases |after|
  {
    if after == [] {
      assert before + after == before;
    } else {
      var n := |after| - 1;
      var whole := before + after[..n];
      assert whole + [after[n]] == before + after;
      OneAtATimeBefore(ttl, whole, after[n]);
      ReadTasksAreFound(ttl, before, after[..n], id);
      ReachedUpToDate(ttl, whole);
      ReachedOk(ttl, whole);
      ReachedPlanned(ttl, whole);
      ReachedStep(ttl, whole, after[n]);
      hide Reached, OneAtATime, StoreInv, AllUpToDate, AllPlanned, CacheStep, DataStep, Found;
      StepKeepsFound(Reached(ttl, whole).data, after[n], id);
    }
  }

  lemma OneAtATimeBefore(ttl: int, actions: seq<Action>, a: Action)
    requires OneAtATime(ttl, actions + [a])
    ensures OneAtATime(ttl, actions)
  {
    hide Reached, Apart;
    forall n | 0 <= n <= |actions| ensures Apart(Reached(ttl, actions[..n]).data) {
      assert actions[..n] == (actions + [a])[..n];
    }
  }

  /** And the task that an update commits and returns has all the values asked for. */
  lemma SequentialAnswersAreAsAsked(ttl: int, actions: seq<Action>, id: nat, t: int, o: Outcome, t': int)
    requires OneAtATime(ttl, actions)
    requires var d := Reached(ttl, actions).data; id in d.updaters && AboutToCommit(d.updaters[id])
    ensures
      var u := Reached(ttl, actions).data.updaters[id];
      var ended := Reached(ttl, actions + [AUpdate(id, Succeeds, t)] + [AUpdate(id, o, t')]).data.updaters;
      && id in ended && ended[id].pc == Updated(u.pc.pending)
      && AsAsked(u.pc.pending, u.input)
  {
    ReachedUpToDate(ttl, actions);
    KnownUpToDate(Reached(ttl, actions).data, id);
    hide Reached, OneAtATime, AsAsked, AllUpToDate;
    ReturnedAsAskedExactly(ttl, actions, id, t, o, t');
  }
}
