/** What the steps that are no part of an update leave alone. */
module Effects {
  import opened Domain
  import opened Store
  import opened Service
  import opened Calls

  /** Nothing that updates write or rely on has changed. */
  predicate UpdatesUntouched(d: DataSide, d': DataSide) {
    && Db(d').history == Db(d).history && d'.ids.history == d.ids.history
    && d'.updaters == d.updaters && d'.stale == d.stale
  }

  predicate TasksUntouched(d: DataSide, d': DataSide) {
    UpdatesUntouched(d, d') && Db(d').tasks == Db(d).tasks
  }

  /** The task has the next id, and the commit that adds it is recorded with its team and at its creation time. */
  predicate Added(d: DataSide, d': DataSide, row: Task) {
    && Db(d').tasks == Db(d).tasks + [row]
    && row.id == d.ids.task && row.createdAt == d.now
    && d'.log == d.log + [Service.Commit(Db(d'), d.now, Some(row.teamID))]
  }

  ghost predicate OneTaskAdded(d: DataSide, d': DataSide) {
    UpdatesUntouched(d, d') && exists row :: Added(d, d', row)
  }

  predicate SameTables(d: DataSide, d': DataSide) {
    d'.log == d.log && d'.ids.history == d.ids.history && d'.updaters == d.updaters && d'.stale == d.stale
  }

  lemma CallsMoveOn(d: DataSide, id: nat)
    ensures forall pc: InviterPc :: SameTables(d, SetInviter(d, id, pc))
    ensures forall pc: CreatorPc :: SameTables(d, SetCreator(d, id, pc))
  {
  }

  lemma RegisterEffect(d: DataSide, name: string, email: string)
    ensures TasksUntouched(d, Register(d, name, email))
  {
    hide FindByEmail;
  }

  lemma CreateTeamEffect(d: DataSide, owner: int, name: string, o: Outcome)
    ensures TasksUntouched(d, CreateTeam(d, owner, name, o))
  {
    hide HasUser, TrimSpace;
    var created := InsertTeamWithOwner(Db(d), d.ids.team, TrimSpace(name), owner);
    assert created.Ok? ==> created.value.tasks == Db(d).tasks && created.value.history == Db(d).history;
    hide InsertTeamWithOwner;
  }

  lemma MemberAddedEffect(d: DataSide, input: InviteInput, userID: int)
    requires InsertMember(Db(d), input.teamID, userID).Ok?
    ensures TasksUntouched(d, MemberAdded(d, input, userID, InsertMember(Db(d), input.teamID, userID).value))
  {
    hide FindMember, HasTeam, HasUser;
  }

  lemma InviteEffect(d: DataSide, id: nat, o: Outcome)
    ensures TasksUntouched(d, InviteStep(d, id, o))
  {
    hide FindTeamRole, FindByEmail, SetInviter, MemberAdded, InsertMember;
    CallsMoveOn(d, id);
    if id in d.inviters && d.inviters[id].pc.AddingMember? {
      var v := d.inviters[id];
      var r := InsertMember(Db(d), v.input.teamID, v.pc.userID);
      if r.Ok? {
        MemberAddedEffect(d, v.input, v.pc.userID);
        CallsMoveOn(MemberAdded(d, v.input, v.pc.userID, r.value), id);
      }
    }
  }

  lemma TaskAddedEffect(d: DataSide, input: CreateInput)
    requires InsertTask(Db(d), d.ids.task, DraftOf(input), d.now).Ok?
    ensures OneTaskAdded(d, TaskAdded(d, input, InsertTask(Db(d), d.ids.task, DraftOf(input), d.now).value))
  {
    InsertedRow(Db(d), d.ids.task, DraftOf(input), d.now);
    NewRowFields(d.ids.task, input, d.now);
    hide InsertTask, DraftOf, NewRow;
    var store := InsertTask(Db(d), d.ids.task, DraftOf(input), d.now).value;
    assert Added(d, TaskAdded(d, input, store), NewRow(d.ids.task, DraftOf(input), d.now));
  }

  lemma AddedOn(d: DataSide, d1: DataSide, d2: DataSide)
    requires OneTaskAdded(d, d1) && SameTables(d1, d2)
    ensures OneTaskAdded(d, d2)
  {
    var row :| Added(d, d1, row);
    assert Added(d, d2, row);
  }

  lemma InsertEffect(d: DataSide, id: nat, input: CreateInput, o: Outcome)
    ensures var d' := InsertStep(d, id, input, o); TasksUntouched(d, d') || OneTaskAdded(d, d')
  {
    hide InsertTask, TaskAdded, DraftOf, SetCreator;
    var r := InsertTask(Db(d), d.ids.task, DraftOf(input), d.now);
    CallsMoveOn(TaskIdDrawn(d), id);
    if r.Ok? {
      var d1 := TaskAdded(d, input, r.value);
      var pc := if o.FailsAfter? then CreateFailed(Infrastructure) else Reloading(d.ids.task, |d.log|);
      TaskAddedEffect(d, input);
      CallsMoveOn(d1, id);
      AddedOn(d, d1, SetCreator(d1, id, pc));
      hide OneTaskAdded;
    }
  }

  lemma CreateEffect(d: DataSide, id: nat, o: Outcome)
    ensures var d' := CreateStep(d, id, o); TasksUntouched(d, d') || OneTaskAdded(d, d')
  {
    hide FindTask, IsMember, AfterCreatorCheck, AfterCreateAssigneeCheck, AfterReload, InsertStep, SetCreator;
    CallsMoveOn(d, id);
    if id in d.creators {
      InsertEffect(d, id, d.creators[id].input, o);
    }
  }

  /** The steps outside of updates. */
  predicate OutsideUpdates(a: Action) {
    !a.ABeginUpdate? && !a.AUpdate?
  }

  lemma StepEffect(d: DataSide, a: Action)
    requires OutsideUpdates(a)
    ensures TasksUntouched(d, DataStep(d, a)) || OneTaskAdded(d, DataStep(d, a))
  {
    hide CreateInputOk, InviteStep, CreateStep, Register, CreateTeam, OneTaskAdded;
    match a
    case ARegister(name, email) => RegisterEffect(d, name, email);
    case ACreateTeam(owner, name, o) => CreateTeamEffect(d, owner, name, o);
    case AInvite(id, o) => InviteEffect(d, id, o);
    case ACreate(id, o) => CreateEffect(d, id, o);
    case _ =>
  }
}
