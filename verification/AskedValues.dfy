/** When the task that an update returns has the values that were asked for, whatever ran in between. */
module AskedValues {
  import opened Domain
  import opened TaskUpdates
  import opened Store
  import opened StoreSafety
  import opened Service
  import opened ServiceSafety
  import opened Calls
  import opened Effects
  import opened Runs

  // ----- what is going to be written is what was asked of the task that was read

  ghost predicate WantedOf(current: Task, wanted: Task, input: UpdateInput) {
    exists t :: wanted == Wanted(current, input, t)
  }

  ghost predicate Planned(u: Updater) {
    && (u.pc.Executing? ==> WantedOf(u.pc.current, u.pc.wanted, u.input) && Changes(u.pc.current, u.pc.wanted) != [])
    && (u.pc.Writing? ==> WantedOf(u.pc.current, u.pc.wanted, u.input))
  }

  ghost predicate AllPlanned(d: DataSide) {
    forall id :: id in d.updaters ==> Planned(d.updaters[id])
  }

  lemma MovesPlanned(d: DataSide, d1: DataSide, id: nat, pc: UpdaterPc)
    requires AllPlanned(d) && id in d.updaters && d1.updaters == d.updaters && Planned(d.updaters[id].(pc := pc))
    ensures AllPlanned(SetUpdater(d1, id, pc))
  {
    hide Planned;
  }

  lemma ChecksPlan(input: UpdateInput, current: Task, isMember: bool, o: Outcome, appTime: int)
    ensures Planned(Updater(input, AfterRequesterCheck(isMember, input, current, o, appTime)))
    ensures Planned(Updater(input, AfterAssigneeCheck(isMember, input, current, o, appTime)))
  {
    hide ValuesOk, Wanted, Changes, AsksForAssignee;
    assert WantedOf(current, Wanted(current, input, appTime), input);
  }

  lemma ExecPlanned(d: DataSide, id: nat, current: Task, wanted: Task, o: Outcome)
    requires AllPlanned(d) && id in d.updaters && d.updaters[id].pc == Executing(current, wanted)
    ensures AllPlanned(ExecStep(d, id, current, wanted, o))
  {
    assert Planned(d.updaters[id]);
    hide AllPlanned, TryExec, SetUpdater, WantedOf;
    var r := TryExec(Db(d), current, wanted, d.now);
    if o.Succeeds? && r.Ok? && current.id !in d.locks {
      MovesPlanned(d, Lock(d, current.id, id), id, Writing(current, wanted, r.value.0, r.value.1, []));
    } else if !o.Succeeds? || r.Err? {
      MovesPlanned(d, d, id, UpdateFailed(if o.Succeeds? && r.Err? then r.error else Infrastructure));
    }
  }

  lemma WritePlanned(d: DataSide, id: nat, o: Outcome)
    requires AllPlanned(d) && id in d.updaters && d.updaters[id].pc.Writing?
    ensures AllPlanned(WriteStep(d, id, d.updaters[id].input.requestedBy, d.updaters[id].pc, o))
  {
    var pc := d.updaters[id].pc;
    assert Planned(d.updaters[id]);
    assert TaskCommitted(d, pc).updaters == d.updaters by { hide CommitUpdate, StaleAfter; }
    hide AllPlanned, SetUpdater, Changes, NextHistoryRow, TaskCommitted, WantedOf;
    if |pc.rows| < |Changes(pc.current, pc.wanted)| {
      if o.Succeeds? {
        MovesPlanned(d, HistoryIdDrawn(d), id, pc.(rows := pc.rows + [NextHistoryRow(d, d.updaters[id].input.requestedBy, pc)]));
      } else {
        MovesPlanned(d, Unlock(HistoryIdDrawn(d), pc.current.id), id, UpdateFailed(Infrastructure));
      }
    } else if o.FailsBefore? {
      MovesPlanned(d, Unlock(d, pc.current.id), id, UpdateFailed(Infrastructure));
    } else {
      MovesPlanned(d, TaskCommitted(d, pc), id,
        if o.FailsAfter? then UpdateFailed(Infrastructure) else AnnouncingUpdate(pc.pending, |d.log|));
    }
  }

  lemma UpdatePlanned(d: DataSide, id: nat, o: Outcome, appTime: int)
    requires AllPlanned(d)
    ensures AllPlanned(UpdateStep(d, id, o, appTime))
  {
    hide AllPlanned, SetUpdater, ExecStep, WriteStep, IsMember, AfterRequesterCheck, AfterAssigneeCheck, FindTask;
    if id in d.updaters {
      var u := d.updaters[id];
      match u.pc
      case Finding => MovesPlanned(d, d, id, AfterFind(FindTask(Db(d), u.input.taskID), o));
      case CheckingRequester(current) =>
        var isMember := IsMember(Db(d), current.teamID, u.input.requestedBy);
        ChecksPlan(u.input, current, isMember, o, appTime);
        MovesPlanned(d, d, id, AfterRequesterCheck(isMember, u.input, current, o, appTime));
      case CheckingNewAssignee(current) =>
        var isMember := u.input.assigneeID.Some? && IsMember(Db(d), current.teamID, u.input.assigneeID.value);
        ChecksPlan(u.input, current, isMember, o, appTime);
        MovesPlanned(d, d, id, AfterAssigneeCheck(isMember, u.input, current, o, appTime));
      case Executing(current, wanted) => ExecPlanned(d, id, current, wanted, o);
      case Writing(_, _, _, _, _) => WritePlanned(d, id, o);
      case AnnouncingUpdate(task, _) => MovesPlanned(d, d, id, Updated(task));
      case Updated(_) =>
      case UpdateFailed(_) =>
    }
  }

  lemma StepPlanned(d: DataSide, a: Action)
    requires AllPlanned(d)
    ensures AllPlanned(DataStep(d, a))
  {
    hide UpdateStep, RequestOk, OneTaskAdded, TasksUntouched;
    match a
    case ABeginUpdate(_, _) =>
    case AUpdate(id, o, appTime) => UpdatePlanned(d, id, o, appTime);
    case _ =>
      StepEffect(d, a);
      hide DataStep;
      SameCalls(d, DataStep(d, a));
  }

  lemma SameCalls(d: DataSide, d': DataSide)
    requires TasksUntouched(d, d') || OneTaskAdded(d, d')
    ensures d'.updaters == d.updaters
  {
  }

  lemma {:induction false} ReachedPlanned(ttl: int, actions: seq<Action>)
    ensures AllPlanned(Reached(ttl, actions).data)
    decreases |actions|
  {
    hide DataStep, CacheStep, Planned;
    if actions != [] {
      ReachedPlanned(ttl, actions[..|actions| - 1]);
      StepPlanned(Reached(ttl, actions[..|actions| - 1]).data, actions[|actions| - 1]);
    }
  }

  // ----- the values of the answer

  /** Every field that already had the value asked for when it was read still had it when the row was written. */
  predicate StillAsRead(before: Task, current: Task, input: UpdateInput) {
    && (input.title.Some? && current.title == TrimSpace(input.title.value) ==> before.title == current.title)
    && (input.description.Some? && current.description == input.description.value ==> before.description == current.description)
    && (input.status.Some? && current.status == TrimSpace(input.status.value) ==> before.status == current.status)
    && (input.assigneeIDSet && current.assigneeID == input.assigneeID ==> before.assigneeID == current.assigneeID)
  }

  lemma MergedAsAskedExactly(pending: Task, before: Task, current: Task, wanted: Task, input: UpdateInput)
    requires WantedOf(current, wanted, input) && MergedFrom(pending, before, current, wanted)
    ensures AsAsked(pending, input) <==> StillAsRead(before, current, input)
  {
    var t :| wanted == Wanted(current, input, t);
    WantedFields(current, input, t);
    hide Wanted, TrimSpace;
    var m := Merge(before, current, wanted);
    assert pending.title == m.title && pending.description == m.description && pending.status == m.status
      && pending.assigneeID == m.assigneeID;
  }

  /** The commit step of an update, in a run. */
  predicate AboutToCommit(u: Updater) {
    u.pc.Writing? && |u.pc.rows| == |Changes(u.pc.current, u.pc.wanted)|
  }

  /**
   * In every run, the task that an update commits and then returns has all the values asked for exactly when
   * every asked field that the call had read as already right was still right in the row it met. Only such a
   * field can be lost, since the call does not write it.
   */
  lemma ReturnedAsAskedExactly(ttl: int, actions: seq<Action>, id: nat, t: int, o: Outcome, t': int)
    requires var d := Reached(ttl, actions).data; id in d.updaters && AboutToCommit(d.updaters[id])
    ensures
      var u := Reached(ttl, actions).data.updaters[id];
      var committed := Reached(ttl, actions + [AUpdate(id, Succeeds, t)]).data.updaters;
      var ended := Reached(ttl, actions + [AUpdate(id, Succeeds, t)] + [AUpdate(id, o, t')]).data.updaters;
      && id in committed && committed[id].pc.AnnouncingUpdate? && committed[id].pc.task == u.pc.pending
      && id in ended && ended[id].pc == Updated(u.pc.pending)
      && (AsAsked(u.pc.pending, u.input) <==> StillAsRead(u.pc.before, u.pc.current, u.input))
  {
    var d := Reached(ttl, actions).data;
    ReachedPlanned(ttl, actions);
    ReachedOk(ttl, actions);
    ReachedStep(ttl, actions, AUpdate(id, Succeeds, t));
    ReachedStep(ttl, actions + [AUpdate(id, Succeeds, t)], AUpdate(id, o, t'));
    hide Reached, StoreInv, CacheStep;
    assert Planned(d.updaters[id]);
    PendingMerged(d, id);
    hide AllPlanned;
    MergedAsAskedExactly(d.updaters[id].pc.pending, d.updaters[id].pc.before, d.updaters[id].pc.current, d.updaters[id].pc.wanted,
                         d.updaters[id].input);
    hide AsAsked, StillAsRead, WantedOf;
    CommitStep(d, id, t);
    hide DataStep;
    EndStep(DataStep(d, AUpdate(id, Succeeds, t)), id, o, t');
  }

  lemma PendingMerged(d: DataSide, id: nat)
    requires StoreInv(d) && id in d.updaters && d.updaters[id].pc.Writing?
    ensures var pc := d.updaters[id].pc; MergedFrom(pc.pending, pc.before, pc.current, pc.wanted)
  {
    UpdaterFacts(d, id);
    hide StoreInv, PlanOk, PendingRows, Changes, HoldsLock, MergedFrom;
  }

  lemma CommitStep(d: DataSide, id: nat, t: int)
    requires id in d.updaters && AboutToCommit(d.updaters[id])
    ensures var d1 := DataStep(d, AUpdate(id, Succeeds, t));
      id in d1.updaters && d1.updaters[id].pc == AnnouncingUpdate(d.updaters[id].pc.pending, |d.log|)
  {
    var pc := d.updaters[id].pc;
    TaskCommittedParts(d, pc);
    hide TaskCommitted, Changes, TryExec, FindTask, IsMember, CommitUpdate, StaleAfter;
    assert DataStep(d, AUpdate(id, Succeeds, t)) == WriteStep(d, id, d.updaters[id].input.requestedBy, pc, Succeeds);
    hide DataStep;
  }

  lemma EndStep(d: DataSide, id: nat, o: Outcome, t: int)
    requires id in d.updaters && d.updaters[id].pc.AnnouncingUpdate?
    ensures var d1 := DataStep(d, AUpdate(id, o, t));
      id in d1.updaters && d1.updaters[id].pc == Updated(d.updaters[id].pc.task)
  {
    hide WriteStep, ExecStep, FindTask, IsMember;
  }
}
