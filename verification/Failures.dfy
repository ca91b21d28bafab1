/** What becomes of a call in flight when a statement or a command of it fails. */
module Failures {
  import opened Domain
  import opened Store
  import opened Service

  // ----- Tasks.Create

  lemma SetCreatorPc(d: DataSide, id: nat, pc: CreatorPc)
    requires id in d.creators
    ensures id in SetCreator(d, id, pc).creators && SetCreator(d, id, pc).creators[id].pc == pc
  {
  }

  lemma InsertFails(d: DataSide, id: nat, input: CreateInput, o: Outcome)
    requires id in d.creators && !o.Succeeds?
    ensures var creators := InsertStep(d, id, input, o).creators; id in creators && creators[id].pc == CreateFailed(Infrastructure)
  {
    var r := InsertTask(Db(d), d.ids.task, DraftOf(input), d.now);
    SetCreatorPc(TaskIdDrawn(d), id, CreateFailed(Infrastructure));
    if r.Ok? {
      SetCreatorPc(TaskAdded(d, input, r.value), id, CreateFailed(Infrastructure));
    }
    hide SetCreator, InsertTask, DraftOf, NewRow;
  }

  /** A create call ends in an error when a statement of it fails; a failing invalidation is no error. */
  lemma CreateFailsAt(d: DataSide, id: nat, o: Outcome)
    requires id in d.creators && !o.Succeeds?
    ensures var pc, creators := d.creators[id].pc, CreateStep(d, id, o).creators;
      && id in creators
      && (pc.CheckingCreator? || pc.CheckingAssignee? || pc.Inserting? || pc.Reloading? ==> creators[id].pc == CreateFailed(Infrastructure))
      && (pc.AnnouncingCreate? ==> creators[id].pc == Created(pc.task))
  {
    SetCreatorPc(d, id, CreateFailed(Infrastructure));
    InsertFails(d, id, d.creators[id].input, o);
    hide SetCreator, InsertStep, IsMember, FindTask;
    if d.creators[id].pc.AnnouncingCreate? {
      SetCreatorPc(d, id, Created(d.creators[id].pc.task));
    }
  }

  // ----- Tasks.Update

  lemma SetUpdaterPc(d: DataSide, id: nat, pc: UpdaterPc)
    requires id in d.updaters
    ensures id in SetUpdater(d, id, pc).updaters && SetUpdater(d, id, pc).updaters[id].pc == pc
  {
  }

  lemma WriteFails(d: DataSide, id: nat, o: Outcome)
    requires id in d.updaters && d.updaters[id].pc.Writing? && !o.Succeeds?
    ensures var updaters := WriteStep(d, id, d.updaters[id].input.requestedBy, d.updaters[id].pc, o).updaters;
      id in updaters && updaters[id].pc == UpdateFailed(Infrastructure)
  {
    var pc := d.updaters[id].pc;
    SetUpdaterPc(Unlock(HistoryIdDrawn(d), pc.current.id), id, UpdateFailed(Infrastructure));
    SetUpdaterPc(Unlock(d, pc.current.id), id, UpdateFailed(Infrastructure));
    assert TaskCommitted(d, pc).updaters == d.updaters by { hide CommitUpdate, StaleAfter; }
    SetUpdaterPc(TaskCommitted(d, pc), id, UpdateFailed(Infrastructure));
    hide SetUpdater, TaskCommitted;
  }

  /** An update call ends in an error when a statement of it fails; a failing invalidation is no error. */
  lemma UpdateFailsAt(d: DataSide, id: nat, o: Outcome, appTime: int)
    requires id in d.updaters && !o.Succeeds?
    ensures var pc, updaters := d.updaters[id].pc, UpdateStep(d, id, o, appTime).updaters;
      && id in updaters
      && (pc.Finding? || pc.CheckingRequester? || pc.CheckingNewAssignee? || pc.Executing? || pc.Writing? ==>
            updaters[id].pc == UpdateFailed(Infrastructure))
      && (pc.AnnouncingUpdate? ==> updaters[id].pc == Updated(pc.task))
  {
    SetUpdaterPc(d, id, UpdateFailed(Infrastructure));
    hide SetUpdater, WriteStep, IsMember, FindTask, TryExec, AfterChecks;
    if d.updaters[id].pc.Writing? {
      WriteFails(d, id, o);
    } else if d.updaters[id].pc.AnnouncingUpdate? {
      SetUpdaterPc(d, id, Updated(d.updaters[id].pc.task));
    }
  }

  // ----- Teams.Invite

  lemma SetInviterPc(d: DataSide, id: nat, pc: InviterPc)
    requires id in d.inviters
    ensures id in SetInviter(d, id, pc).inviters && SetInviter(d, id, pc).inviters[id].pc == pc
  {
  }

  lemma AddFails(d: DataSide, id: nat, userID: int, o: Outcome)
    requires id in d.inviters && d.inviters[id].pc == AddingMember(userID) && !o.Succeeds?
    ensures var inviters := InviteStep(d, id, o).inviters;
      id in inviters && inviters[id].pc.InviteFailed? && (o.FailsBefore? ==> inviters[id].pc == InviteFailed(Infrastructure))
  {
    var input := d.inviters[id].input;
    var r := InsertMember(Db(d), input.teamID, userID);
    SetInviterPc(d, id, InviteFailed(Infrastructure));
    if r.Err? {
      SetInviterPc(d, id, InviteFailed(r.error));
    } else {
      SetInviterPc(MemberAdded(d, input, userID, r.value), id, InviteFailed(Infrastructure));
    }
    hide SetInviter, InsertMember;
  }

  /** An invitation ends in an error when a statement of it fails. */
  lemma InviteFailsAt(d: DataSide, id: nat, o: Outcome)
    requires id in d.inviters && !o.Succeeds?
    ensures var pc, inviters := d.inviters[id].pc, InviteStep(d, id, o).inviters;
      && id in inviters
      && (pc.CheckingInviter? || pc.FindingInvitee? || (pc.AddingMember? && o.FailsBefore?) ==>
            inviters[id].pc == InviteFailed(Infrastructure))
      && (pc.AddingMember? ==> inviters[id].pc.InviteFailed?)
  {
    SetInviterPc(d, id, InviteFailed(Infrastructure));
    hide SetInviter, FindTeamRole, FindByEmail, InsertMember, MemberAdded;
    if d.inviters[id].pc.AddingMember? {
      AddFails(d, id, d.inviters[id].pc.userID, o);
    }
  }
}
