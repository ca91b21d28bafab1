/**
 * What becomes of two updates that overlap: from any reachable state with a free task, the run in which both calls read
 * the task before either writes it, and then commit one after the other. It says exactly when the second ends in "task
 * not found", when it breaks the chain of old values, and when its answer is not what it asked for.
 */
module OverlappingUpdates {
  import opened Domain
  import opened TaskUpdates
  import opened AuditLog
  import opened Store
  import opened StoreSafety
  import opened Service
  import opened ServiceSafety
  import opened StoreTheorems
  import opened Calls
  import opened Runs
  import opened SoloRuns
  import opened Beginnings
  import opened AskedValues

  /** Two calls for one task, and the service's clock at each. */
  datatype Pair = Pair(i: nat, j: nat, row: Task, first: UpdateInput, second: UpdateInput, ti: int, tj: int)

  function FirstWanted(p: Pair): Task {
    Wanted(p.row, p.first, p.ti)
  }

  function SecondWanted(p: Pair): Task {
    Wanted(p.row, p.second, p.tj)
  }

  /** A member asks for some change of the task that is allowed. */
  ghost predicate Asks(d: DataSide, row: Task, input: UpdateInput) {
    && RequestOk(input) && ValuesOk(input) && input.taskID == row.id
    && IsMember(Db(d), row.teamID, input.requestedBy) && !AsAsked(row, input)
    && (AsksForAssignee(input) ==> input.assigneeID.value > 0 && IsMember(Db(d), row.teamID, input.assigneeID.value))
  }

  /** The users that the call names exist. */
  predicate UsersKnown(st: Store, input: UpdateInput) {
    HasUser(st, input.requestedBy) && (AsksForAssignee(input) ==> HasUser(st, input.assigneeID.value))
  }

  /** A task that nobody is writing, and two new calls that ask for changes of it. */
  ghost predicate Free(d: DataSide, p: Pair) {
    && p.row in Db(d).tasks && p.row.id !in d.locks
    && p.i !in d.updaters && p.j !in d.updaters && p.i != p.j
    && Asks(d, p.row, p.first) && Asks(d, p.row, p.second)
  }

  // ----- what the two leave

  /** The task that the first call leaves. */
  function Left(p: Pair, now: int): Task {
    FirstWanted(p).(updatedAt := now)
  }

  /** The first call has written all that the second is going to write. */
  predicate NothingLeft(p: Pair) {
    Merge(FirstWanted(p), p.row, SecondWanted(p)) == FirstWanted(p)
  }

  /** Both calls change the same field. */
  predicate Collide(p: Pair) {
    !FreshOn(FirstWanted(p), p.row, SecondWanted(p))
  }

  /** The task that both calls leave. */
  function Last(p: Pair, now: int): Task {
    Merge(Left(p, now), p.row, SecondWanted(p))
  }

  lemma LeftAndLast(p: Pair, now: int)
    ensures Last(p, now) == Left(p, now) <==> NothingLeft(p)
    ensures Last(p, now).updatedAt == now
    ensures FreshOn(Left(p, now), p.row, SecondWanted(p)) <==> !Collide(p)
    ensures Left(p, now).id == p.row.id && Last(p, now).id == p.row.id
    ensures Left(p, now).teamID == p.row.teamID && Last(p, now).teamID == p.row.teamID
  {
    WantedFields(p.row, p.first, p.ti);
    hide Wanted;
  }

  // ----- both calls read the task

  lemma AtSelf(d: DataSide, id: nat, input: UpdateInput, pc: UpdaterPc)
    requires id in d.updaters && d.updaters[id] == Updater(input, pc)
    ensures d == At(d, id, input, pc)
  {
    assert d.updaters == d.updaters[id := Updater(input, pc)];
  }

  lemma FreeFacts(d: DataSide, p: Pair)
    requires StoreInv(d) && Free(d, p)
    ensures FindTask(Db(d), p.row.id) == Some(p.row) && RowHolds(Db(d), p.row)
    ensures UsersKnown(Db(d), p.first) && UsersKnown(Db(d), p.second)
  {
    UniqueRows(d);
    RowsHold(d, p.row);
    hide RowHolds;
    AskersKnown(d, p.row, p.first);
    AskersKnown(d, p.row, p.second);
    hide StoreInv, Asks, UsersKnown, IsMember;
    var k :| 0 <= k < |Db(d).tasks| && Db(d).tasks[k] == p.row;
  }

  lemma AskersKnown(d: DataSide, row: Task, input: UpdateInput)
    requires StoreInv(d) && Asks(d, row, input)
    ensures UsersKnown(Db(d), input)
  {
    TeamFacts(d);
    hide StoreInv, MembersOk, IdsOk, RequestOk, ValuesOk, AsAsked, IsMember, HasUser;
    MemberOfIsUser(Db(d), d.invites, row.teamID, input.requestedBy);
    if AsksForAssignee(input) {
      MemberOfIsUser(Db(d), d.invites, row.teamID, input.assigneeID.value);
    }
  }

  /** A new call reads the task and passes its checks. */
  lemma OneReads(s: System, id: nat, row: Task, input: UpdateInput, t: int) returns (s': System)
    requires id !in s.data.updaters && FindTask(Db(s.data), row.id) == Some(row) && Asks(s.data, row, input)
    ensures Continues(s, s') && s' == s.(data := At(s.data, id, input, Executing(row, Wanted(row, input, t))))
  {
    var a, d := AUpdate(id, Succeeds, t), s.data;
    BegunAt(s, id, input);
    NothingToChange(row, input, t);
    hide RequestOk, FindTask, IsMember, Changes, ValuesOk, AsAsked, Wanted, Step, Continues, At, Db;
    s' := s.(data := At(d, id, input, Executing(row, Wanted(row, input, t))));
    var s1, s2 := s.(data := At(d, id, input, Finding)), s.(data := At(d, id, input, CheckingRequester(row)));
    ChecksStep(s1, d, id, input, Finding, t, CheckingRequester(row));
    ContinuesHere(s');
    if AsksForAssignee(input) {
      var s3 := s.(data := At(d, id, input, CheckingNewAssignee(row)));
      ChecksStep(s2, d, id, input, CheckingRequester(row), t, CheckingNewAssignee(row));
      ChecksStep(s3, d, id, input, CheckingNewAssignee(row), t, Executing(row, Wanted(row, input, t)));
      StepContinues(s3, a, s', s');
      StepContinues(s2, a, s3, s');
    } else {
      ChecksStep(s2, d, id, input, CheckingRequester(row), t, Executing(row, Wanted(row, input, t)));
      StepContinues(s2, a, s', s');
    }
    StepContinues(s1, a, s2, s');
    StepContinues(s, ABeginUpdate(id, input), s1, s');
  }

  lemma BegunAt(s: System, id: nat, input: UpdateInput)
    requires id !in s.data.updaters && RequestOk(input)
    ensures Step(s, ABeginUpdate(id, input)) == s.(data := At(s.data, id, input, Finding))
  {
    BeginAt(s.data, id, input);
    hide BeginUpdate, RequestOk, At;
  }

  /** Read, read: both calls hold the task as it is and are about to write it. */
  lemma BothRead(s0: System, p: Pair) returns (s: System)
    requires StoreInv(s0.data) && Free(s0.data, p)
    ensures Continues(s0, s)
    ensures Db(s.data) == Db(s0.data) && s.data.locks == s0.data.locks && s.data.now == s0.data.now && s.data.stale == s0.data.stale
    ensures p.i in s.data.updaters && s.data.updaters[p.i] == Updater(p.first, Executing(p.row, FirstWanted(p)))
    ensures p.j in s.data.updaters && s.data.updaters[p.j] == Updater(p.second, Executing(p.row, SecondWanted(p)))
  {
    FreeFacts(s0.data, p);
    hide StoreInv, Asks, Wanted, FindTask, RowHolds, UsersKnown, Continues;
    var s1 := OneReads(s0, p.i, p.row, p.first, p.ti);
    assert Asks(s1.data, p.row, p.second) by { AsksStill(s0.data, s1.data, p.row, p.second); }
    s := OneReads(s1, p.j, p.row, p.second, p.tj);
    ContinuesTransitive(s0, s1, s);
  }

  lemma AsksStill(d: DataSide, d': DataSide, row: Task, input: UpdateInput)
    requires Asks(d, row, input) && Db(d') == Db(d)
    ensures Asks(d', row, input)
  {
  }

  // ----- one call commits

  /** The state after a call's transaction. */
  ghost predicate HasWritten(d: DataSide, d': DataSide, id: nat, input: UpdateInput, w: Write) {
    && FindTask(Db(d'), w.pending.id) == Some(w.pending)
    && Db(d').users == Db(d).users && Db(d').members == Db(d).members
    && d'.locks == d.locks && d'.now == d.now && d'.stale == StaleWith(d, w)
    && d'.updaters == d.updaters[id := Updater(input, Updated(w.pending))]
  }

  lemma WrittenFacts(s: System, d: DataSide, id: nat, input: UpdateInput, w: Write)
    requires FindTask(Db(d), w.pending.id).Some?
    ensures HasWritten(d, Written(s, d, id, input, w).data, id, input, w)
  {
    var rows := RowsOf(d, w, input.requestedBy);
    IndexAfterUpdate(Db(d).tasks, TaskIndex(Db(d).tasks, w.pending.id), w.pending);
    hide TryAnnounce, RowsOf, StaleWith;
  }

  /** A call that is about to write goes on alone until it has ended. */
  lemma OneCommits(s: System, id: nat, input: UpdateInput, w: Write, t: int) returns (s': System)
    requires id in s.data.updaters && s.data.updaters[id] == Updater(input, Executing(w.current, w.wanted))
    requires w.current.id !in s.data.locks && FindTask(Db(s.data), w.pending.id).Some?
    requires TryExec(Db(s.data), w.current, w.wanted, s.data.now) == Ok((w.before, w.pending))
    ensures Continues(s, s') && HasWritten(s.data, s'.data, id, input, w)
  {
    AtSelf(s.data, id, input, Executing(w.current, w.wanted));
    hide At, Written, TryExec, FindTask, HasWritten, Continues, Leads;
    WriteSolo(s, s.data, id, input, w, t);
    WrittenFacts(s, s.data, id, input, w);
    s' := Written(s, s.data, id, input, w);
    ContinuesHere(s');
    LeadsContinues(s, AUpdate(id, Succeeds, t), s', s');
  }

  // ----- the first call commits

  /** The first call has been committed, the second is still about to write. */
  ghost predicate FirstDone(d0: DataSide, d: DataSide, p: Pair) {
    var left := Left(p, d0.now);
    && FindTask(Db(d), p.row.id) == Some(left) && RowHolds(Db(d), left)
    && Db(d).users == Db(d0).users && Db(d).members == Db(d0).members
    && p.row.id !in d.locks && d.now == d0.now && d.stale == d0.stale
    && p.i in d.updaters && d.updaters[p.i] == Updater(p.first, Updated(left))
    && p.j in d.updaters && d.updaters[p.j] == Updater(p.second, Executing(p.row, SecondWanted(p)))
  }

  function FirstWrite(p: Pair, now: int): Write {
    Write(p.row, FirstWanted(p), p.row, Left(p, now))
  }

  /** The first call's UPDATE finds the task as it was read. */
  lemma FirstExec(d: DataSide, p: Pair)
    requires FindTask(Db(d), p.row.id) == Some(p.row) && RowHolds(Db(d), p.row) && UsersKnown(Db(d), p.first)
    requires ValuesOk(p.first) && !AsAsked(p.row, p.first)
    ensures TryExec(Db(d), p.row, FirstWanted(p), d.now) == Ok((p.row, Left(p, d.now)))
  {
    NothingToChange(p.row, p.first, p.ti);
    hide RowHolds, HasUser, ValuesOk, Changes, FindTask, TryExec, AsAsked, Wanted;
    FreshTryExec(d, p.row, p.first, p.ti);
  }

  lemma FirstCommits(s0: System, p: Pair) returns (s: System)
    requires StoreInv(s0.data) && Free(s0.data, p)
    ensures Continues(s0, s) && FirstDone(s0.data, s.data, p)
  {
    FreeFacts(s0.data, p);
    var s1 := BothRead(s0, p);
    LeftAndLast(p, s1.data.now);
    hide StoreInv, Continues, HasWritten, FirstDone, RowHolds, IsMember, HasUser, FindTask, Db, Left, FirstWanted, SecondWanted, TryExec,
      RequestOk, ValuesOk, AsAsked, AsksForAssignee, UsersKnown;
    FirstExec(s1.data, p);
    s := OneCommits(s1, p.i, p.first, FirstWrite(p, s1.data.now), p.ti);
    FirstDoneFacts(s1.data, s.data, p);
    FirstDoneSince(s0.data, s1.data, s.data, p);
    ContinuesTransitive(s0, s1, s);
  }

  lemma FirstDoneSince(d0: DataSide, d1: DataSide, d: DataSide, p: Pair)
    requires Db(d1) == Db(d0) && d1.now == d0.now && d1.stale == d0.stale && FirstDone(d1, d, p)
    ensures FirstDone(d0, d, p)
  {
    hide RowHolds, FindTask, Left, Db;
  }

  lemma FirstDoneFacts(d1: DataSide, d: DataSide, p: Pair)
    requires RowHolds(Db(d1), p.row) && ValuesOk(p.first) && UsersKnown(Db(d1), p.first) && p.row.id !in d1.locks && p.i != p.j
    requires p.j in d1.updaters && d1.updaters[p.j] == Updater(p.second, Executing(p.row, SecondWanted(p)))
    requires HasWritten(d1, d, p.i, p.first, FirstWrite(p, d1.now))
    ensures FirstDone(d1, d, p)
  {
    LeftAndLast(p, d1.now);
    LeftHolds(Db(d1), Db(d), p, d1.now);
    NotStaleAlone(d1, p);
    hide RowHolds, FindTask, FirstWanted, SecondWanted, Db, ValuesOk, Left, UsersKnown, StaleWith;
  }

  lemma NotStaleAlone(d: DataSide, p: Pair)
    ensures StaleWith(d, FirstWrite(p, d.now)) == d.stale
  {
    hide FirstWanted, Left;
  }

  lemma LeftHolds(st: Store, st': Store, p: Pair, now: int)
    requires RowHolds(st, p.row) && ValuesOk(p.first) && UsersKnown(st, p.first) && st'.users == st.users
    ensures RowHolds(st', Left(p, now))
  {
    WantedHolds(st, p.row, p.first, p.ti);
    hide Wanted, ValuesOk;
  }

  // ----- and then the second

  lemma MergeHolds(st: Store, left: Task, row: Task, wanted: Task)
    requires RowHolds(st, left) && RowHolds(st, wanted)
    ensures RowHolds(st, Merge(left, row, wanted))
  {
    hide HasUser;
  }

  lemma ExecLeaves(st: Store, list: SetList, left: Task, merged: Task, now: int)
    requires FindTask(st, left.id) == Some(left) && ApplySet(left, list.columns, list.arguments) == Some(merged) && RowHolds(st, merged)
    ensures ExecUpdate(st, list, left.id, now) == if merged == left then Err(TaskNotFound) else Ok(merged.(updatedAt := now))
  {
    hide ApplySet, HasUser;
  }

  /** An UPDATE that meets another row than the one that was read merges its changes into it. */
  lemma ExecMerges(st: Store, left: Task, row: Task, wanted: Task, now: int)
    requires left.id == row.id && FindTask(st, row.id) == Some(left) && RowHolds(st, left) && RowHolds(st, wanted)
    ensures var merged := Merge(left, row, wanted);
      TryExec(st, row, wanted, now) == if merged == left then Err(TaskNotFound) else Ok((left, merged.(updatedAt := now)))
  {
    SetListMeaning(left, row, wanted);
    MergeHolds(st, left, row, wanted);
    hide Merge, Changes, CompileChanges, ApplySet, HasUser, FindTask, ExecUpdate;
    ExecLeaves(st, CompileChanges(wanted, Changes(row, wanted)).value, left, Merge(left, row, wanted), now);
    hide RowHolds;
  }

  /** The second call's UPDATE meets the task that the first has left. */
  lemma SecondExec(st: Store, p: Pair, now: int)
    requires FindTask(st, p.row.id) == Some(Left(p, now)) && RowHolds(st, Left(p, now))
    requires RowHolds(st, p.row) && ValuesOk(p.second) && UsersKnown(st, p.second)
    ensures NothingLeft(p) ==> TryExec(st, p.row, SecondWanted(p), now) == Err(TaskNotFound)
    ensures !NothingLeft(p) ==> TryExec(st, p.row, SecondWanted(p), now) == Ok((Left(p, now), Last(p, now)))
  {
    LeftAndLast(p, now);
    WantedHolds(st, p.row, p.second, p.tj);
    hide NothingLeft, Left, Wanted, ValuesOk, RowHolds, FindTask, TryExec, Merge;
    ExecMerges(st, Left(p, now), p.row, SecondWanted(p), now);
    SameTime(Last(p, now), now);
  }

  lemma SameTime(task: Task, now: int)
    requires task.updatedAt == now
    ensures task.(updatedAt := now) == task
  {
  }

  /** How the second call ends. */
  function SecondEnd(p: Pair, now: int): UpdaterPc {
    if NothingLeft(p) then UpdateFailed(TaskNotFound) else Updated(Last(p, now))
  }

  /** Both calls have ended. */
  ghost predicate BothDone(d0: DataSide, d: DataSide, p: Pair) {
    && p.i in d.updaters && d.updaters[p.i] == Updater(p.first, Updated(Left(p, d0.now)))
    && p.j in d.updaters && d.updaters[p.j] == Updater(p.second, SecondEnd(p, d0.now))
    && FindTask(Db(d), p.row.id) == Some(Last(p, d0.now)) && IsMember(Db(d), p.row.teamID, p.second.requestedBy)
    && (p.row.id in d.stale <==> p.row.id in d0.stale || (Collide(p) && !NothingLeft(p)))
  }

  lemma SecondCommits(s0: System, p: Pair) returns (s: System)
    requires StoreInv(s0.data) && Free(s0.data, p) && !NothingLeft(p)
    ensures Continues(s0, s) && BothDone(s0.data, s.data, p)
  {
    var s1 := FirstCommits(s0, p);
    FreeFacts(s0.data, p);
    LeftAndLast(p, s0.data.now);
    StillHolds(Db(s0.data), Db(s1.data), p.row, p.second);
    var w := Write(p.row, SecondWanted(p), Left(p, s0.data.now), Last(p, s0.data.now));
    hide StoreInv, Continues, TryExec, Left, Last, SecondWanted, NothingLeft, Collide, Db, RowHolds, FindTask, IsMember, HasWritten,
      AsAsked, ValuesOk, RequestOk, AsksForAssignee, UsersKnown, BothDone;
    SecondExec(Db(s1.data), p, s0.data.now);
    s := OneCommits(s1, p.j, p.second, w, p.tj);
    BothDoneFacts(s0.data, s1.data, s.data, p);
    ContinuesTransitive(s0, s1, s);
  }

  lemma StillHolds(st: Store, st': Store, row: Task, input: UpdateInput)
    requires RowHolds(st, row) && UsersKnown(st, input) && st'.users == st.users
    ensures RowHolds(st', row) && UsersKnown(st', input)
  {
  }

  lemma BothDoneFacts(d0: DataSide, d1: DataSide, d: DataSide, p: Pair)
    requires FirstDone(d0, d1, p) && p.i != p.j && !NothingLeft(p) && IsMember(Db(d0), p.row.teamID, p.second.requestedBy)
    requires HasWritten(d1, d, p.j, p.second, Write(p.row, SecondWanted(p), Left(p, d0.now), Last(p, d0.now)))
    ensures BothDone(d0, d, p)
  {
    LeftAndLast(p, d0.now);
    hide FindTask, RowHolds, Left, Last, SecondWanted, NothingLeft, Collide, FreshOn, Db;
  }

  lemma SecondFails(s0: System, p: Pair) returns (s: System)
    requires StoreInv(s0.data) && Free(s0.data, p) && NothingLeft(p)
    ensures Continues(s0, s) && BothDone(s0.data, s.data, p)
  {
    var s1 := FirstCommits(s0, p);
    FreeFacts(s0.data, p);
    LeftAndLast(p, s0.data.now);
    StillHolds(Db(s0.data), Db(s1.data), p.row, p.second);
    hide StoreInv, Continues, TryExec, Left, Last, SecondWanted, NothingLeft, Collide, Db, RowHolds, FindTask, IsMember, Step,
      AsAsked, ValuesOk, RequestOk, AsksForAssignee, UsersKnown, BothDone;
    SecondExec(Db(s1.data), p, s0.data.now);
    s := Step(s1, AUpdate(p.j, Succeeds, p.tj));
    ExecFails(s1, p);
    BothDoneAfterFailure(s0.data, s1.data, s.data, p);
    ContinuesHere(s);
    StepContinues(s1, AUpdate(p.j, Succeeds, p.tj), s, s);
    ContinuesTransitive(s0, s1, s);
  }

  lemma BothDoneAfterFailure(d0: DataSide, d1: DataSide, d: DataSide, p: Pair)
    requires FirstDone(d0, d1, p) && p.i != p.j && NothingLeft(p) && IsMember(Db(d0), p.row.teamID, p.second.requestedBy)
    requires Db(d) == Db(d1) && d.stale == d1.stale
    requires d.updaters == d1.updaters[p.j := Updater(p.second, UpdateFailed(TaskNotFound))]
    ensures BothDone(d0, d, p)
  {
    LeftAndLast(p, d0.now);
    hide FindTask, RowHolds, Left, Last, SecondWanted, NothingLeft, Collide, FreshOn, Db;
  }

  lemma ExecFails(s: System, p: Pair)
    requires p.j in s.data.updaters && s.data.updaters[p.j] == Updater(p.second, Executing(p.row, SecondWanted(p)))
    requires TryExec(Db(s.data), p.row, SecondWanted(p), s.data.now) == Err(TaskNotFound) && p.row.id !in s.data.locks
    ensures
      var d' := Step(s, AUpdate(p.j, Succeeds, p.tj)).data;
      && Db(d') == Db(s.data) && d'.stale == s.data.stale
      && d'.updaters == s.data.updaters[p.j := Updater(p.second, UpdateFailed(TaskNotFound))]
  {
    hide TryExec, SecondWanted, CacheStep;
  }

  lemma BothEnd(s0: System, p: Pair) returns (s: System)
    requires StoreInv(s0.data) && Free(s0.data, p)
    ensures Continues(s0, s) && BothDone(s0.data, s.data, p)
  {
    hide StoreInv, Free, NothingLeft, Continues, BothDone;
    if NothingLeft(p) {
      s := SecondFails(s0, p);
    } else {
      s := SecondCommits(s0, p);
    }
  }

  /**
   * From any reachable state with a free task, two overlapping updates end like this: the first returns what it asked
   * for; the second ends in "task not found" exactly when the first has written all that it was going to write, and
   * returns its changes merged into the first's task otherwise, and is then stale exactly when both change one field.
   */
  lemma OverlapsEnd(ttl: int, actions: seq<Action>, p: Pair)
    requires Free(Reached(ttl, actions).data, p)
    ensures exists more :: BothDone(Reached(ttl, actions).data, Reached(ttl, actions + more).data, p)
  {
    var s0 := Reached(ttl, actions);
    ReachedOk(ttl, actions);
    hide Reached, StoreInv, Continues, Free, BothDone;
    var s := BothEnd(s0, p);
    ContinuesIsReached(ttl, actions, s);
  }

  /** When both change one field and the second still has something to write, the old values of the history no longer chain. */
  lemma ChainsCanBreak(ttl: int, actions: seq<Action>, p: Pair)
    requires Free(Reached(ttl, actions).data, p) && Collide(p) && !NothingLeft(p)
    ensures exists more ::
      var d := Reached(ttl, actions + more).data;
      && p.row.id in d.created
      && !Chained(FieldsOf(d.created[p.row.id]), ChangesOf(HistoryOf(Db(d), p.row.id)))
  {
    OverlapsEnd(ttl, actions, p);
    var d0 := Reached(ttl, actions).data;
    hide Reached, Free, Collide, NothingLeft, Chained, HistoryOf, ChangesOf, FieldsOf, Undo, IsMember;
    var more :| BothDone(d0, Reached(ttl, actions + more).data, p);
    LeftAndLast(p, d0.now);
    hide Last;
    FoundRow(Db(Reached(ttl, actions + more).data), Last(p, d0.now));
    HistoryChainsExactly(ttl, actions + more, Last(p, d0.now));
  }

  lemma FoundRow(st: Store, row: Task)
    requires FindTask(st, row.id) == Some(row)
    ensures row in st.tasks
  {
  }

  /**
   * When the first has written all that the second is going to write, the second ends in "task not found", though the
   * task is there and its caller is a member of its team.
   */
  lemma ExistingTaskNotFound(ttl: int, actions: seq<Action>, p: Pair)
    requires Free(Reached(ttl, actions).data, p) && NothingLeft(p)
    ensures exists more, row ::
      var d := Reached(ttl, actions + more).data;
      && p.j in d.updaters && d.updaters[p.j] == Updater(p.second, UpdateFailed(TaskNotFound))
      && FindTask(Db(d), p.second.taskID) == Some(row) && IsMember(Db(d), row.teamID, p.second.requestedBy)
  {
    OverlapsEnd(ttl, actions, p);
    var d0 := Reached(ttl, actions).data;
    assert p.second.taskID == p.row.id;
    LeftAndLast(p, d0.now);
    hide Reached, Free, NothingLeft, Last, IsMember, FindTask;
  }

  /**
   * The second call returns a task that is as it asked exactly when what it had read as already right the first has
   * left alone; otherwise the answer lacks a value asked for.
   */
  lemma AnswerNotAsAsked(ttl: int, actions: seq<Action>, p: Pair)
    requires Free(Reached(ttl, actions).data, p) && !NothingLeft(p)
    ensures exists more, task ::
      var d := Reached(ttl, actions + more).data;
      && p.j in d.updaters && d.updaters[p.j] == Updater(p.second, Updated(task))
      && (AsAsked(task, p.second) <==> StillAsRead(FirstWanted(p), p.row, p.second))
  {
    OverlapsEnd(ttl, actions, p);
    var d0 := Reached(ttl, actions).data;
    LastAsAsked(p, d0.now);
    hide Reached, Free, NothingLeft, Last, IsMember, FindTask, AsAsked, StillAsRead, FirstWanted;
  }

  lemma LastAsAsked(p: Pair, now: int)
    ensures AsAsked(Last(p, now), p.second) <==> StillAsRead(FirstWanted(p), p.row, p.second)
  {
    hide Wanted, TrimSpace;
    assert WantedOf(p.row, SecondWanted(p), p.second);
    MergedAsAskedExactly(Last(p, now), Left(p, now), p.row, SecondWanted(p), p.second);
  }

  // ----- such runs exist

  function StatusUpdate(taskID: int, status: string): UpdateInput {
    UpdateInput(taskID, 1, None, None, Some(status), None, false)
  }

  function TitleUpdate(taskID: int, title: string): UpdateInput {
    UpdateInput(taskID, 1, Some(title), None, None, None, false)
  }

  /** Start the task, and let it have the title that it has. */
  function StartAs(taskID: int, title: string): UpdateInput {
    UpdateInput(taskID, 1, Some(title), None, Some(STATUS_IN_PROGRESS), None, false)
  }

  const OTHER_TITLE := "rest"

  lemma TrimmedTitles()
    ensures TrimSpace(TITLE) == TITLE && TrimSpace(OTHER_TITLE) == OTHER_TITLE
  {
    hide TrimSpace;
    TrimSpaceFixed(TITLE);
    TrimSpaceFixed(OTHER_TITLE);
  }

  /** A task to do with a title, in a state without updates, and its creator. */
  ghost predicate ToDo(d: DataSide, row: Task) {
    && row in Db(d).tasks && row.status == STATUS_TODO && row.title == TITLE && row.id > 0 && row.teamID == 1 && IsMember(Db(d), 1, 1)
    && d.locks == map[] && d.updaters == map[]
  }

  lemma Asking(d: DataSide, row: Task)
    requires ToDo(d, row)
    ensures Asks(d, row, StatusUpdate(row.id, STATUS_IN_PROGRESS)) && Asks(d, row, StatusUpdate(row.id, STATUS_DONE))
    ensures Asks(d, row, TitleUpdate(row.id, OTHER_TITLE)) && Asks(d, row, StartAs(row.id, TITLE))
  {
    TrimmedStatuses();
    TrimmedTitles();
    hide TrimSpace, IsMember;
  }

  /** One starts the task and one finishes it. */
  lemma StartAndFinish(d: DataSide, row: Task, t: int) returns (p: Pair)
    requires ToDo(d, row)
    ensures p.row == row && Free(d, p) && Collide(p) && !NothingLeft(p)
  {
    p := Pair(0, 1, row, StatusUpdate(row.id, STATUS_IN_PROGRESS), StatusUpdate(row.id, STATUS_DONE), t, t);
    Asking(d, row);
    TrimmedStatuses();
    hide TrimSpace, Asks, IsMember, Wanted, StatusUpdate, Collide, NothingLeft;
    StatusWanted(row, STATUS_IN_PROGRESS, t);
    StatusWanted(row, STATUS_DONE, t);
    OtherStatuses(p);
  }

  lemma StatusWanted(row: Task, status: string, t: int)
    requires TrimSpace(status) == status
    ensures Wanted(row, StatusUpdate(row.id, status), t).status == status
  {
    hide TrimSpace;
  }

  lemma OtherStatuses(p: Pair)
    requires FirstWanted(p).status != p.row.status && SecondWanted(p).status != p.row.status
    requires FirstWanted(p).status != SecondWanted(p).status
    ensures Collide(p) && !NothingLeft(p)
  {
    hide Wanted;
  }

  /** Both start it. */
  lemma StartAndStart(d: DataSide, row: Task, t: int) returns (p: Pair)
    requires ToDo(d, row)
    ensures p.row == row && Free(d, p) && NothingLeft(p)
  {
    var input := StatusUpdate(row.id, STATUS_IN_PROGRESS);
    p := Pair(0, 1, row, input, input, t, t);
    Asking(d, row);
    hide Asks, IsMember, StatusUpdate;
    TwiceTheSame(p);
    hide NothingLeft;
  }

  lemma TwiceTheSame(p: Pair)
    requires p.first == p.second && p.ti == p.tj
    ensures NothingLeft(p)
  {
    WantedFields(p.row, p.first, p.ti);
    hide Wanted;
  }

  /** One gives the task a new title, the other starts it and asks for the title it has. */
  lemma RenameAndStart(d: DataSide, row: Task, t: int) returns (p: Pair)
    requires ToDo(d, row)
    ensures p.row == row && Free(d, p) && !NothingLeft(p) && !StillAsRead(FirstWanted(p), p.row, p.second)
  {
    p := Pair(0, 1, row, TitleUpdate(row.id, OTHER_TITLE), StartAs(row.id, TITLE), t, t);
    Asking(d, row);
    TrimmedStatuses();
    TrimmedTitles();
    hide TrimSpace, Asks, IsMember;
  }

  /** There is a run to a state with a task to do, so all three do happen. */
  lemma OverlapsHappen(ttl: int, t: int)
    ensures exists actions, taskID ::
      var d := Reached(ttl, actions).data;
      taskID in d.created && !Chained(FieldsOf(d.created[taskID]), ChangesOf(HistoryOf(Db(d), taskID)))
    ensures exists actions, id, input, row ::
      var d := Reached(ttl, actions).data;
      && id in d.updaters && d.updaters[id] == Updater(input, UpdateFailed(TaskNotFound))
      && FindTask(Db(d), input.taskID) == Some(row) && IsMember(Db(d), row.teamID, input.requestedBy)
    ensures exists actions, id, input, task ::
      var d := Reached(ttl, actions).data;
      id in d.updaters && d.updaters[id] == Updater(input, Updated(task)) && !AsAsked(task, input)
  {
    var actions, row := TaskToDo(ttl);
    var d := Reached(ttl, actions).data;
    hide Reached, Chained, FieldsOf, ChangesOf, HistoryOf, FindTask, IsMember, AsAsked, StillAsRead, Free, Collide, NothingLeft, FirstWanted;
    var breaks := StartAndFinish(d, row, t);
    ChainsCanBreak(ttl, actions, breaks);
    var fails := StartAndStart(d, row, t);
    ExistingTaskNotFound(ttl, actions, fails);
    var differs := RenameAndStart(d, row, t);
    AnswerNotAsAsked(ttl, actions, differs);
  }
}
