/** Tasks that are inserted and not announced: the creating call has not come to it yet, or fails before it does. */
module UnannouncedTasks {
  import opened Domain
  import opened Store
  import opened StoreSafety
  import opened Service
  import opened ServiceSafety
  import opened Calls
  import opened Runs
  import opened SoloRuns

  /** A new call whose checks pass. */
  predicate Creatable(d: DataSide, id: nat, input: CreateInput) {
    id !in d.creators && CreatePasses(TablesOf(d), input, NO_CREATE_FAULTS) && ReferencesOk(Db(d), input)
  }

  function WithTask(d: DataSide, input: CreateInput): Store {
    Db(d).(tasks := Db(d).tasks + [NewRow(d.ids.task, DraftOf(input), d.now)])
  }

  /** The insert has been committed, and the call is at some later point. */
  function InsertedAt(s: System, id: nat, input: CreateInput, pc: CreatorPc): System {
    s.(data := CreatorAt(TaskAdded(s.data, input, WithTask(s.data, input)), id, input, pc))
  }

  lemma InsertedFacts(s: System, id: nat, input: CreateInput, pc: CreatorPc)
    ensures var s' := InsertedAt(s, id, input, pc);
      && s'.cache == s.cache && s'.ttl == s.ttl && s'.data.now == s.data.now && Db(s'.data) == WithTask(s.data, input)
      && s'.data.log == s.data.log + [Service.Commit(WithTask(s.data, input), s.data.now, Some(input.teamID))]
      && id in s'.data.creators && s'.data.creators[id] == Creator(input, pc)
  {
    hide DraftOf;
  }

  lemma ChecksPassed(s: System, id: nat, input: CreateInput) returns (s': System)
    requires Creatable(s.data, id, input)
    ensures Continues(s, s') && s' == s.(data := CreatorAt(s.data, id, input, Inserting))
  {
    var a := ACreate(id, Succeeds);
    BeginCreateAt(s, id, input);
    hide IsMember, Continues, Leads, Step, CreatorAt, CreateInputOk, ReferencesOk;
    var s1 := s.(data := CreatorAt(s.data, id, input, CheckingCreator));
    s' := s.(data := CreatorAt(s.data, id, input, Inserting));
    var pc := if input.assigneeID.None? then Inserting else CheckingAssignee;
    CreatorChecksStep(s1, s.data, id, input, CheckingCreator, pc);
    ContinuesHere(s');
    if input.assigneeID.Some? {
      var s2 := s.(data := CreatorAt(s.data, id, input, CheckingAssignee));
      CreatorChecksStep(s2, s.data, id, input, CheckingAssignee, Inserting);
      LeadsContinues(s2, a, s', s');
      LeadsContinues(s1, a, s2, s');
    } else {
      LeadsContinues(s1, a, s', s');
    }
    StepContinues(s, ABeginCreate(id, input), s1, s');
  }

  lemma InsertIsOk(d: DataSide, id: nat, input: CreateInput)
    requires Creatable(d, id, input)
    ensures InsertTask(Db(d), d.ids.task, DraftOf(input), d.now) == Ok(WithTask(d, input))
  {
    InsertTaskOkExactly(Db(d), d.ids.task, input, d.now);
    InsertedRow(Db(d), d.ids.task, DraftOf(input), d.now);
    hide InsertTask, IsMember, DraftOf, CreateInputOk, ReferencesOk;
  }

  /** The insert succeeds, and the call has still to load the row and to announce it. */
  lemma TaskInserted(s: System, id: nat, input: CreateInput) returns (s': System)
    requires Creatable(s.data, id, input)
    ensures Continues(s, s') && s' == InsertedAt(s, id, input, Reloading(s.data.ids.task, |s.data.log|))
  {
    InsertIsOk(s.data, id, input);
    hide Creatable, InsertTask, DraftOf, Continues, Leads, CreatorAt, TaskAdded;
    var s1 := ChecksPassed(s, id, input);
    InsertTaken(s1, s.data, id, input, WithTask(s.data, input));
    s' := InsertedAt(s, id, input, Reloading(s.data.ids.task, |s.data.log|));
    ContinuesHere(s');
    LeadsContinues(s1, ACreate(id, Succeeds), s', s');
    ContinuesTransitive(s, s1, s');
  }

  lemma ReloadFails(s: System, d: DataSide, id: nat, input: CreateInput, taskID: int, commit: nat)
    requires s.data == CreatorAt(d, id, input, Reloading(taskID, commit))
    ensures Step(s, ACreate(id, FailsBefore)) == s.(data := CreatorAt(d, id, input, CreateFailed(Infrastructure)))
  {
    SetCreatorAt(d, id, input, Reloading(taskID, commit), CreateFailed(Infrastructure));
    hide SetCreator, FindTask;
  }

  /** The insert succeeds, the reload fails, and so nothing is announced. */
  lemma UnannouncedTask(s: System, id: nat, input: CreateInput) returns (s': System)
    requires Creatable(s.data, id, input)
    ensures Continues(s, s') && s' == InsertedAt(s, id, input, CreateFailed(Infrastructure))
  {
    hide Creatable, Continues, WithTask, CreatorAt, TaskAdded, Step;
    var s1 := TaskInserted(s, id, input);
    s' := InsertedAt(s, id, input, CreateFailed(Infrastructure));
    ReloadFails(s1, TaskAdded(s.data, input, WithTask(s.data, input)), id, input, s.data.ids.task, |s.data.log|);
    ContinuesHere(s');
    StepContinues(s1, ACreate(id, FailsBefore), s', s');
    ContinuesTransitive(s, s1, s');
  }

  /**
   * From any reachable state, a create call whose checks pass and whose insert succeeds ends in an error when
   * the reload fails; its task is there all the same, and the cache is as it was.
   */
  lemma FailedReloadLeavesTask(ttl: int, actions: seq<Action>, id: nat, input: CreateInput)
    requires var d := Reached(ttl, actions).data; id !in d.creators && CreatePasses(TablesOf(d), input, NO_CREATE_FAULTS)
    ensures exists more ::
      var s, s' := Reached(ttl, actions), Reached(ttl, actions + more);
      && id in s'.data.creators && s'.data.creators[id] == Creator(input, CreateFailed(Infrastructure))
      && Db(s'.data) == WithTask(s.data, input)
      && s'.cache == s.cache
  {
    var s := Reached(ttl, actions);
    ReachedOk(ttl, actions);
    hide Reached, StoreInv, Continues, WithTask, InsertedAt, CreatePasses;
    KnownReferences(s.data, input);
    var s' := UnannouncedTask(s, id, input);
    InsertedFacts(s, id, input, CreateFailed(Infrastructure));
    ContinuesIsReached(ttl, actions, s');
  }

  /** Members are users, so the new row's references hold. */
  lemma KnownReferences(d: DataSide, input: CreateInput)
    requires StoreInv(d) && CreatePasses(TablesOf(d), input, NO_CREATE_FAULTS)
    ensures ReferencesOk(Db(d), input)
  {
    TeamFacts(d);
    hide StoreInv, MembersOk, IsMember, HasUser, HasTeam, CreateInputOk;
    MemberOfIsUser(Db(d), d.invites, input.teamID, input.createdBy);
    if input.assigneeID.Some? {
      MemberOfIsUser(Db(d), d.invites, input.teamID, input.assigneeID.value);
    }
  }
}
