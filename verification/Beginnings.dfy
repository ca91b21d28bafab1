/** The first steps of a service: a user, a team, and a task to do. */
module Beginnings {
  import opened Domain
  import opened Store
  import opened Service
  import opened Transactions
  import opened Calls
  import opened Runs
  import opened SoloRuns

  const NAME := "core"
  const FOUNDING := [ARegister("ada", "ada@example.org"), ACreateTeam(1, NAME, Succeeds)]

  const FOUNDED := Store([UserRow(1, "ada", "ada@example.org")], [TeamRow(1, NAME, 1)], [MemberRow(1, 1, ROLE_OWNER)], [], [])

  lemma Registered(d: DataSide)
    requires Db(d) == EMPTY && d.ids == Counters(1, 1, 1, 1)
    ensures
      var store := EMPTY.(users := FOUNDED.users);
      DataStep(d, FOUNDING[0]) == d.(ids := Counters(2, 1, 1, 1), log := d.log + [Service.Commit(store, d.now, None)])
  {
    assert [] + [UserRow(1, "ada", "ada@example.org")] == FOUNDED.users;
  }

  lemma TeamCreated(d: DataSide)
    requires Db(d) == EMPTY.(users := FOUNDED.users) && d.ids == Counters(2, 1, 1, 1)
    ensures DataStep(d, FOUNDING[1]) == d.(ids := Counters(2, 2, 1, 1), log := d.log + [Service.Commit(FOUNDED, d.now, None)])
  {
    assert TrimSpace(NAME) == NAME by {
      hide TrimSpace;
      TrimSpaceFixed(NAME);
    }
    hide TrimSpace;
    assert HasUser(Db(d), 1) by { assert FOUNDED.users[0] in FOUNDED.users; }
    assert [] + [TeamRow(1, NAME, 1)] == FOUNDED.teams && [] + [MemberRow(1, 1, ROLE_OWNER)] == FOUNDED.members;
  }

  /** A user has registered and created a team; nothing else has happened. */
  lemma Founded(ttl: int)
    ensures var s, s0 := Reached(ttl, FOUNDING), Initial(ttl);
      && s == System(ttl, s0.data.(ids := Counters(2, 2, 1, 1), log := s.data.log), s0.cache)
      && |s.data.log| == 3 && Db(s.data) == FOUNDED
  {
    var s0 := Initial(ttl);
    assert Reached(ttl, []) == s0;
    ReachedStep(ttl, [], FOUNDING[0]);
    ReachedStep(ttl, [FOUNDING[0]], FOUNDING[1]);
    assert [] + [FOUNDING[0]] == [FOUNDING[0]] && [FOUNDING[0]] + [FOUNDING[1]] == FOUNDING;
    hide Reached;
    assert Step(s0, FOUNDING[0]) == s0.(data := DataStep(s0.data, FOUNDING[0]));
    var s1 := Step(s0, FOUNDING[0]);
    assert Step(s1, FOUNDING[1]) == s1.(data := DataStep(s1.data, FOUNDING[1]));
    hide Step, DataStep;
    Registered(s0.data);
    TeamCreated(s1.data);
  }

  lemma FoundedPeople()
    ensures IsMember(FOUNDED, 1, 1) && HasTeam(FOUNDED, 1) && HasUser(FOUNDED, 1)
  {
    assert FOUNDED.members[0] in FOUNDED.members && FOUNDED.teams[0] in FOUNDED.teams && FOUNDED.users[0] in FOUNDED.users;
  }

  const TITLE := "work"
  const FIRST_TASK := CreateInput(1, 1, TITLE, "", None)

  /** The first task can be created. */
  lemma FirstTaskCreated(db: Tables)
    requires db.store == FOUNDED && db.ids == Counters(2, 2, 1, 1)
    ensures
      var end := CreateCall(db, FIRST_TASK, NO_CREATE_FAULTS);
      && end.wrote && end.result.Ok?
      && end.db.store == FOUNDED.(tasks := [NewRow(1, DraftOf(FIRST_TASK), db.now)])
  {
    FoundedPeople();
    assert TrimSpace(TITLE) == TITLE by {
      hide TrimSpace;
      TrimSpaceFixed(TITLE);
    }
    hide TrimSpace, IsMember, HasTeam, HasUser;
    assert CreateInputOk(FIRST_TASK);
    FirstInsert(db.now);
    hide InsertTask, DraftOf;
    InsertedRow(FOUNDED, 1, DraftOf(FIRST_TASK), db.now);
    UnhinderedCreate(db, DraftOf(FIRST_TASK), CreateCall(db, FIRST_TASK, NO_CREATE_FAULTS));
    assert FOUNDED.tasks + [NewRow(1, DraftOf(FIRST_TASK), db.now)] == [NewRow(1, DraftOf(FIRST_TASK), db.now)];
  }

  lemma FirstInsert(now: int)
    requires TrimSpace(TITLE) == TITLE
    ensures InsertTask(FOUNDED, 1, DraftOf(FIRST_TASK), now).Ok?
  {
    FoundedPeople();
    hide TrimSpace, IsMember, HasTeam, HasUser;
  }

  /** A state with a task to do, a member of its team, and no update under way is reached by some run. */
  lemma TaskToDo(ttl: int) returns (actions: seq<Action>, row: Task)
    ensures var d := Reached(ttl, actions).data;
      && row in Db(d).tasks && row.status == STATUS_TODO && row.title == TITLE && row.id == 1 && row.teamID == 1 && IsMember(Db(d), 1, 1)
      && d.locks == map[] && d.updaters == map[]
  {
    Founded(ttl);
    var s := Reached(ttl, FOUNDING);
    FirstTaskCreated(TablesOf(s.data));
    var call := CreateCall(TablesOf(s.data), FIRST_TASK, NO_CREATE_FAULTS);
    assert 0 !in s.data.creators;
    hide Reached, CreateCall;
    CreateStepsAreTheCall(ttl, FOUNDING, 0, FIRST_TASK);
    var more :| Only(more, ACreate(0, Succeeds))
      && Reached(ttl, FOUNDING + [ABeginCreate(0, FIRST_TASK)] + more) == CreatedState(s, s.data, 0, FIRST_TASK, call);
    actions := FOUNDING + [ABeginCreate(0, FIRST_TASK)] + more;
    row := NewRow(1, DraftOf(FIRST_TASK), s.data.now);
    CreatedFacts(s, s.data, 0, FIRST_TASK, call);
    FirstRow(s.data.now);
    hide DraftOf, NewRow, FOUNDED, FOUNDING, CreatedState, IsMember;
    assert call.db.store.tasks[0] == row;
    FoundedMember(call.db.store);
  }

  lemma FoundedMember(st: Store)
    requires st.members == FOUNDED.members
    ensures IsMember(st, 1, 1)
  {
    FoundedPeople();
  }

  lemma FirstRow(now: int)
    ensures var row := NewRow(1, DraftOf(FIRST_TASK), now);
      row.id == 1 && row.teamID == 1 && row.status == STATUS_TODO && row.title == TITLE
  {
    NewRowFields(1, FIRST_TASK, now);
    hide TrimSpace, NewRow, DraftOf;
    TrimSpaceFixed(TITLE);
  }

  lemma CreatedFacts(s: System, d: DataSide, id: nat, input: CreateInput, end: CreateEnd)
    requires end.wrote && end.result.Ok?
    ensures var d' := CreatedState(s, d, id, input, end).data;
      Db(d') == end.db.store && d'.locks == d.locks && d'.updaters == d.updaters
  {
    hide DraftOf, TryAnnounce;
  }
}
