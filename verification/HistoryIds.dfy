/** History ids are unique in every run: across tasks, and across the transactions that are still open. */
module HistoryIds {
  import opened Domain
  import opened TaskUpdates
  import opened Store
  import opened Service
  import opened Relations
  import opened Reports
  import opened Effects

  /** The history rows that a call has inserted and not yet committed. */
  function Inserted(u: Updater): seq<HistoryRow> {
    if u.pc.Writing? then u.pc.rows else []
  }

  predicate Below(rows: seq<HistoryRow>, nextID: int) {
    forall h :: h in rows ==> h.id < nextID
  }

  predicate NoneShared(xs: seq<HistoryRow>, ys: seq<HistoryRow>) {
    forall x, y :: x in xs && y in ys ==> x.id != y.id
  }

  predicate FreshRows(history: seq<HistoryRow>, nextID: int, rows: seq<HistoryRow>) {
    KeyedBy(HistoryKey, rows) && Below(rows, nextID) && NoneShared(history, rows)
  }

  ghost predicate IdsUnique(d: DataSide) {
    && KeyedBy(HistoryKey, Db(d).history)
    && Below(Db(d).history, d.ids.history)
    && (forall id :: id in d.updaters ==> FreshRows(Db(d).history, d.ids.history, Inserted(d.updaters[id])))
    && (forall i, j :: i in d.updaters && j in d.updaters && i != j ==> NoneShared(Inserted(d.updaters[i]), Inserted(d.updaters[j])))
  }

  lemma KeyedAppend(xs: seq<HistoryRow>, ys: seq<HistoryRow>)
    requires KeyedBy(HistoryKey, xs) && KeyedBy(HistoryKey, ys) && NoneShared(xs, ys)
    ensures KeyedBy(HistoryKey, xs + ys)
  {
    forall i, j | 0 <= i < j < |xs + ys| ensures HistoryKey((xs + ys)[i]) != HistoryKey((xs + ys)[j]) {
      if i < |xs| <= j {
        assert xs[i] in xs && ys[j - |xs|] in ys;
      }
    }
  }

  lemma FreshSnoc(history: seq<HistoryRow>, nextID: int, rows: seq<HistoryRow>, row: HistoryRow)
    requires FreshRows(history, nextID, rows) && Below(history, nextID) && row.id == nextID
    ensures FreshRows(history, nextID + 1, rows + [row])
  {
    assert KeyedBy(HistoryKey, [row]);
    assert NoneShared(rows, [row]);
    KeyedAppend(rows, [row]);
  }

  /** One call has moved on; the history may have grown by the rows that it had inserted. */
  lemma OneMovedUnique(d: DataSide, d': DataSide, id: nat, u: Updater)
    requires IdsUnique(d) && id in d.updaters && d'.updaters == d.updaters[id := u]
    requires d.ids.history <= d'.ids.history
    requires KeyedBy(HistoryKey, Db(d').history) && Below(Db(d').history, d'.ids.history)
    requires forall h :: h in Db(d').history ==> h in Db(d).history || h in Inserted(d.updaters[id])
    requires FreshRows(Db(d').history, d'.ids.history, Inserted(u))
    requires forall h :: h in Inserted(u) ==> h in Inserted(d.updaters[id]) || h.id == d.ids.history
    ensures IdsUnique(d')
  {
    hide Inserted, KeyedBy, Db;
    forall other | other in d'.updaters && other != id ensures FreshRows(Db(d').history, d'.ids.history, Inserted(d'.updaters[other])) {
      assert FreshRows(Db(d).history, d.ids.history, Inserted(d.updaters[other]));
      assert NoneShared(Inserted(d.updaters[id]), Inserted(d.updaters[other]));
    }
    forall i, j | i in d'.updaters && j in d'.updaters && i != j ensures NoneShared(Inserted(d'.updaters[i]), Inserted(d'.updaters[j])) {
      PairUnique(d, d', id, u, i, j);
    }
  }

  lemma PairUnique(d: DataSide, d': DataSide, id: nat, u: Updater, i: nat, j: nat)
    requires IdsUnique(d) && id in d.updaters && d'.updaters == d.updaters[id := u]
    requires forall h :: h in Inserted(u) ==> h in Inserted(d.updaters[id]) || h.id == d.ids.history
    requires i in d'.updaters && j in d'.updaters && i != j
    ensures NoneShared(Inserted(d'.updaters[i]), Inserted(d'.updaters[j]))
  {
    hide Inserted, KeyedBy, Db;
    assert NoneShared(Inserted(d.updaters[i]), Inserted(d.updaters[j]));
    assert FreshRows(Db(d).history, d.ids.history, Inserted(d.updaters[i]));
    assert FreshRows(Db(d).history, d.ids.history, Inserted(d.updaters[j]));
  }

  /** A call that keeps its inserted rows, or gives them up. */
  lemma MovesUnique(d: DataSide, d1: DataSide, id: nat, pc: UpdaterPc)
    requires IdsUnique(d) && id in d.updaters
    requires d1.log == d.log && d.ids.history <= d1.ids.history && d1.updaters == d.updaters
    requires Inserted(d.updaters[id].(pc := pc)) == [] || Inserted(d.updaters[id].(pc := pc)) == Inserted(d.updaters[id])
    ensures IdsUnique(SetUpdater(d1, id, pc))
  {
    var d', u := SetUpdater(d1, id, pc), d.updaters[id].(pc := pc);
    assert Db(d') == Db(d);
    assert FreshRows(Db(d).history, d.ids.history, Inserted(d.updaters[id]));
    EmptyUnique(Db(d).history, d'.ids.history);
    hide Inserted, Db, KeyedBy;
    OneMovedUnique(d, d', id, u);
  }

  lemma EmptyUnique(history: seq<HistoryRow>, nextID: int)
    ensures FreshRows(history, nextID, [])
  {
  }

  lemma InsertUnique(d: DataSide, id: nat, changedBy: int)
    requires IdsUnique(d) && id in d.updaters && d.updaters[id].pc.Writing?
    requires |d.updaters[id].pc.rows| < |Changes(d.updaters[id].pc.current, d.updaters[id].pc.wanted)|
    ensures
      var pc := d.updaters[id].pc;
      IdsUnique(SetUpdater(HistoryIdDrawn(d), id, pc.(rows := pc.rows + [NextHistoryRow(d, changedBy, pc)])))
  {
    var pc := d.updaters[id].pc;
    var row := NextHistoryRow(d, changedBy, pc);
    assert row.id == d.ids.history;
    hide NextHistoryRow, Changes;
    var pc' := pc.(rows := pc.rows + [row]);
    var d' := SetUpdater(HistoryIdDrawn(d), id, pc');
    assert Db(d') == Db(d) && d'.ids.history == d.ids.history + 1;
    assert FreshRows(Db(d).history, d.ids.history, Inserted(d.updaters[id]));
    FreshSnoc(Db(d).history, d.ids.history, pc.rows, row);
    hide KeyedBy, Db, FreshRows;
    OneMovedUnique(d, d', id, d.updaters[id].(pc := pc'));
  }

  lemma CommitUnique(d: DataSide, id: nat, pc': UpdaterPc)
    requires IdsUnique(d) && id in d.updaters && d.updaters[id].pc.Writing? && !pc'.Writing?
    ensures IdsUnique(SetUpdater(TaskCommitted(d, d.updaters[id].pc), id, pc'))
  {
    var pc := d.updaters[id].pc;
    var d' := SetUpdater(TaskCommitted(d, pc), id, pc');
    assert FreshRows(Db(d).history, d.ids.history, Inserted(d.updaters[id]));
    CommittedHistory(d, id, pc');
    KeyedAppend(Db(d).history, pc.rows);
    EmptyUnique(Db(d').history, d'.ids.history);
    hide KeyedBy, Db, TaskCommitted, SetUpdater;
    OneMovedUnique(d, d', id, d.updaters[id].(pc := pc'));
  }

  lemma CommittedHistory(d: DataSide, id: nat, pc': UpdaterPc)
    requires id in d.updaters && d.updaters[id].pc.Writing?
    ensures
      var d' := SetUpdater(TaskCommitted(d, d.updaters[id].pc), id, pc');
      && (Db(d').history == Db(d).history || Db(d').history == Db(d).history + d.updaters[id].pc.rows)
      && d'.ids == d.ids && d'.updaters == d.updaters[id := d.updaters[id].(pc := pc')]
  {
    hide StaleAfter, TaskIndex;
  }

  lemma WriteUnique(d: DataSide, id: nat, o: Outcome)
    requires IdsUnique(d) && id in d.updaters && d.updaters[id].pc.Writing?
    ensures IdsUnique(WriteStep(d, id, d.updaters[id].input.requestedBy, d.updaters[id].pc, o))
  {
    var pc := d.updaters[id].pc;
    hide IdsUnique, SetUpdater, Changes, NextHistoryRow, TaskCommitted;
    if |pc.rows| < |Changes(pc.current, pc.wanted)| {
      if o.Succeeds? {
        InsertUnique(d, id, d.updaters[id].input.requestedBy);
      } else {
        MovesUnique(d, Unlock(HistoryIdDrawn(d), pc.current.id), id, UpdateFailed(Infrastructure));
      }
    } else if o.FailsBefore? {
      MovesUnique(d, Unlock(d, pc.current.id), id, UpdateFailed(Infrastructure));
    } else {
      CommitUnique(d, id, if o.FailsAfter? then UpdateFailed(Infrastructure) else AnnouncingUpdate(pc.pending, |d.log|));
    }
  }

  lemma ExecUnique(d: DataSide, id: nat, current: Task, wanted: Task, o: Outcome)
    requires IdsUnique(d) && id in d.updaters && d.updaters[id].pc == Executing(current, wanted)
    ensures IdsUnique(ExecStep(d, id, current, wanted, o))
  {
    hide IdsUnique, TryExec, SetUpdater;
    var r := TryExec(Db(d), current, wanted, d.now);
    if o.Succeeds? && r.Ok? && current.id !in d.locks {
      MovesUnique(d, Lock(d, current.id, id), id, Writing(current, wanted, r.value.0, r.value.1, []));
    } else if !o.Succeeds? || r.Err? {
      MovesUnique(d, d, id, UpdateFailed(if o.Succeeds? && r.Err? then r.error else Infrastructure));
    }
  }

  lemma ChecksInsertNothing(input: UpdateInput, current: Task, isMember: bool, o: Outcome, appTime: int)
    ensures !AfterRequesterCheck(isMember, input, current, o, appTime).Writing?
    ensures !AfterAssigneeCheck(isMember, input, current, o, appTime).Writing?
  {
    hide ValuesOk, Wanted, Changes, AsksForAssignee;
  }

  lemma UpdateUnique(d: DataSide, id: nat, o: Outcome, appTime: int)
    requires IdsUnique(d)
    ensures IdsUnique(UpdateStep(d, id, o, appTime))
  {
    hide IdsUnique, SetUpdater, ExecStep, WriteStep, IsMember, AfterRequesterCheck, AfterAssigneeCheck, FindTask;
    if id in d.updaters {
      var u := d.updaters[id];
      match u.pc
      case Finding => MovesUnique(d, d, id, AfterFind(FindTask(Db(d), u.input.taskID), o));
      case CheckingRequester(current) =>
        var isMember := IsMember(Db(d), current.teamID, u.input.requestedBy);
        ChecksInsertNothing(u.input, current, isMember, o, appTime);
        MovesUnique(d, d, id, AfterRequesterCheck(isMember, u.input, current, o, appTime));
      case CheckingNewAssignee(current) =>
        var isMember := u.input.assigneeID.Some? && IsMember(Db(d), current.teamID, u.input.assigneeID.value);
        ChecksInsertNothing(u.input, current, isMember, o, appTime);
        MovesUnique(d, d, id, AfterAssigneeCheck(isMember, u.input, current, o, appTime));
      case Executing(current, wanted) => ExecUnique(d, id, current, wanted, o);
      case Writing(_, _, _, _, _) => WriteUnique(d, id, o);
      case AnnouncingUpdate(task, _) => MovesUnique(d, d, id, Updated(task));
      case Updated(_) =>
      case UpdateFailed(_) =>
    }
  }

  lemma UntouchedUnique(d: DataSide, d': DataSide)
    requires IdsUnique(d) && UpdatesUntouched(d, d')
    ensures IdsUnique(d')
  {
    hide Inserted, FreshRows, NoneShared, Below, KeyedBy, Db;
  }

  lemma BeginUnique(d: DataSide, id: nat, input: UpdateInput)
    requires IdsUnique(d)
    ensures IdsUnique(BeginUpdate(d, id, input))
  {
    var d' := BeginUpdate(d, id, input);
    EmptyUnique(Db(d).history, d.ids.history);
    hide RequestOk, KeyedBy;
    assert Db(d') == Db(d);
    hide Db;
  }

  lemma StepUnique(d: DataSide, a: Action)
    requires IdsUnique(d)
    ensures IdsUnique(DataStep(d, a))
  {
    hide IdsUnique, UpdateStep, BeginUpdate, OneTaskAdded, UpdatesUntouched;
    match a
    case ABeginUpdate(id, input) => BeginUnique(d, id, input);
    case AUpdate(id, o, appTime) => UpdateUnique(d, id, o, appTime);
    case _ =>
      StepEffect(d, a);
      hide DataStep;
      assert UpdatesUntouched(d, DataStep(d, a)) by { EitherUntouched(d, DataStep(d, a)); }
      UntouchedUnique(d, DataStep(d, a));
  }

  lemma EitherUntouched(d: DataSide, d': DataSide)
    requires TasksUntouched(d, d') || OneTaskAdded(d, d')
    ensures UpdatesUntouched(d, d')
  {
    hide UpdatesUntouched;
  }

  /** In every run the primary key of the history is respected, and no id is used by two open transactions. */
  lemma {:induction false} ReachedUnique(ttl: int, actions: seq<Action>)
    ensures IdsUnique(Reached(ttl, actions).data)
    decreases |actions|
  {
    hide IdsUnique, DataStep, CacheStep;
    if actions == [] {
      NoHistory(ttl);
    } else {
      ReachedUnique(ttl, actions[..|actions| - 1]);
      StepUnique(Reached(ttl, actions[..|actions| - 1]).data, actions[|actions| - 1]);
    }
  }

  lemma NoHistory(ttl: int)
    ensures IdsUnique(Initial(ttl).data)
  {
  }
}
