/** What a create call does, in terms of its input and the tables: the row it adds, and which error comes when. */
module CreateMeaning {
  import opened Domain
  import opened Store
  import opened Service
  import opened Transactions
  import opened Calls

  predicate BadInput(input: CreateInput) {
    input.teamID <= 0 || input.createdBy <= 0 || TrimSpace(input.title) == "" || |TrimSpace(input.title)| > 255
  }

  /** The new task: to do, not completed, created and updated at the time of the database. */
  function NewTask(id: int, input: CreateInput, now: int): Task {
    Task(id, input.teamID, TrimSpace(input.title), input.description, "todo", input.assigneeID, input.createdBy, None, now, now)
  }

  /** The members are users, their teams exist, and the next id is new. */
  ghost predicate SoundMembers(db: Tables) {
    && (forall m :: m in db.store.members ==> HasUser(db.store, m.userID) && HasTeam(db.store, m.teamID))
    && (forall row :: row in db.store.tasks ==> row.id < db.ids.task)
  }

  /** How a create call ends. */
  ghost predicate CreateEndsWell(db: Tables, input: CreateInput, f: CreateFaults, end: CreateEnd) {
    var asked := !BadInput(input) && f.creator.Succeeds?;
    var member := IsMember(db.store, input.teamID, input.createdBy);
    var assigns := input.assigneeID.Some?;
    var badAssignee := assigns && input.assigneeID.value <= 0;
    var stranger := assigns && !IsMember(db.store, input.teamID, input.assigneeID.value);
    var may := asked && member && !badAssignee && !stranger && (assigns ==> f.assignee.Succeeds?);
    var inserted := may && !f.insert.FailsBefore?;
    var task := NewTask(db.ids.task, input, db.now);
    && (end.result == Err(InvalidInput) <==> BadInput(input) || (asked && member && badAssignee))
    && (end.result == Err(Forbidden) <==> asked && !member)
    && (end.result == Err(AssigneeNotTeamMember) <==> asked && member && !badAssignee && stranger && f.assignee.Succeeds?)
    && (end.result.Ok? <==> inserted && f.insert.Succeeds? && f.reload.Succeeds?)
    && (end.result.Ok? ==> end.result == Ok(task))
    && (end.result.Err? ==> end.result.error in {InvalidInput, Forbidden, AssigneeNotTeamMember, Infrastructure})
    && (end.wrote <==> end.result.Ok?)
    && end.db.store == (if inserted then db.store.(tasks := db.store.tasks + [task]) else db.store)
  }

  lemma NewRowIsTask(id: int, input: CreateInput, now: int)
    ensures NewRow(id, DraftOf(input), now) == NewTask(id, input, now)
    ensures CreateInputOk(input) <==> !BadInput(input)
  {
    hide TrimSpace;
  }

  lemma MembersKnown(db: Tables, teamID: int, userID: int)
    requires SoundMembers(db) && IsMember(db.store, teamID, userID)
    ensures HasUser(db.store, userID) && HasTeam(db.store, teamID)
  {
    hide HasUser, HasTeam;
  }

  lemma CreateCallEnds(db: Tables, input: CreateInput, f: CreateFaults)
    requires SoundMembers(db)
    ensures CreateEndsWell(db, input, f, CreateCall(db, input, f))
  {
    hide RepositoryCreate, BadInput, CreateInputOk, IsMember, HasUser, HasTeam, InsertTask, DraftOf, NewTask, NewRow, ReferencesOk, SoundMembers;
    NewRowIsTask(db.ids.task, input, db.now);
    if CreateInputOk(input) && IsMember(db.store, input.teamID, input.createdBy)
       && (input.assigneeID.Some? ==> IsMember(db.store, input.teamID, input.assigneeID.value)) {
      InsertEnds(db, input, f);
    }
  }

  lemma ReferencesKnown(db: Tables, input: CreateInput)
    requires SoundMembers(db) && IsMember(db.store, input.teamID, input.createdBy)
    requires input.assigneeID.Some? ==> IsMember(db.store, input.teamID, input.assigneeID.value)
    ensures ReferencesOk(db.store, input)
  {
    hide SoundMembers, IsMember, HasUser, HasTeam;
    MembersKnown(db, input.teamID, input.createdBy);
    if input.assigneeID.Some? {
      MembersKnown(db, input.teamID, input.assigneeID.value);
    }
  }

  /** The insert and the reload, once the checks have passed. */
  lemma InsertEnds(db: Tables, input: CreateInput, f: CreateFaults)
    requires SoundMembers(db) && CreateInputOk(input) && IsMember(db.store, input.teamID, input.createdBy)
    requires input.assigneeID.Some? ==> IsMember(db.store, input.teamID, input.assigneeID.value)
    ensures
      var (db', r) := RepositoryCreate(db, DraftOf(input), f.insert, f.reload);
      var task := NewTask(db.ids.task, input, db.now);
      && db'.store == (if f.insert.FailsBefore? then db.store else db.store.(tasks := db.store.tasks + [task]))
      && r == (if f.insert.Succeeds? && f.reload.Succeeds? then Ok(task) else Err(Infrastructure))
  {
    assert forall row :: row in db.store.tasks ==> row.id < db.ids.task;
    hide RepositoryCreate, CreateInputOk, IsMember, InsertTask, DraftOf, NewTask, NewRow, ReferencesOk, SoundMembers;
    NewRowIsTask(db.ids.task, input, db.now);
    ReferencesKnown(db, input);
    InsertTaskOkExactly(db.store, db.ids.task, input, db.now);
    RepositoryCreateMeans(db, DraftOf(input), f.insert, f.reload);
    OnlyInfrastructure(db, DraftOf(input), f.insert, f.reload);
  }

  lemma OnlyInfrastructure(db: Tables, draft: Draft, insert: Outcome, reload: Outcome)
    requires forall row :: row in db.store.tasks ==> row.id < db.ids.task
    ensures var r := RepositoryCreate(db, draft, insert, reload).1; r.Err? ==> r == Err(Infrastructure)
  {
    var row := NewRow(db.ids.task, draft, db.now);
    IndexOfNew(db.store.tasks, row);
    InsertedRow(db.store, db.ids.task, draft, db.now);
    hide InsertTask, TaskIndex;
  }
}
