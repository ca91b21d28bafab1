/** The diff of a task update, the SET list it is compiled to, and what that list does to a row. */
module TaskUpdates {
  import opened Domain
  import opened Decimal
  import opened TaskQueries

  datatype UpdateInput = UpdateInput(
    taskID: int,
    requestedBy: int,
    title: Option<string>,
    description: Option<string>,
    status: Option<string>,
    assigneeID: Option<int>,
    assigneeIDSet: bool)

  /** What the call asks for at all. */
  predicate RequestOk(input: UpdateInput) {
    && input.taskID > 0 && input.requestedBy > 0
    && (input.title.Some? || input.description.Some? || input.status.Some? || input.assigneeIDSet)
  }

  /** The checks on the new values that need no database. */
  predicate ValuesOk(input: UpdateInput) {
    && (input.title.Some? ==> ValidTitle(TrimSpace(input.title.value)))
    && (input.status.Some? ==> ValidStatus(TrimSpace(input.status.value)))
  }

  predicate AsksForAssignee(input: UpdateInput) {
    input.assigneeIDSet && input.assigneeID.Some?
  }

  // ----- the diff

  function OptionalInt64String(value: Option<int>): Option<string> {
    if value.None? then None else Some(FormatInt(value.value))
  }

  /** The task the caller wants to see, given the task that was read. */
  function Wanted(current: Task, input: UpdateInput, now: int): Task {
    var status := if input.status.Some? then TrimSpace(input.status.value) else current.status;
    current.(
      title := if input.title.Some? then TrimSpace(input.title.value) else current.title,
      description := if input.description.Some? then input.description.value else current.description,
      status := status,
      assigneeID := if input.assigneeIDSet then input.assigneeID else current.assigneeID,
      completedAt :=
        if status == current.status then current.completedAt
        else if status == STATUS_DONE then Some(now)
        else None)
  }

  function SectionTitle(a: Task, b: Task): seq<TaskChange> {
    if a.title == b.title then [] else [TaskChange(FIELD_TITLE, Some(a.title), Some(b.title))]
  }

  function SectionDescription(a: Task, b: Task): seq<TaskChange> {
    if a.description == b.description then []
    else [TaskChange(FIELD_DESCRIPTION, Some(a.description), Some(b.description))]
  }

  function SectionStatus(a: Task, b: Task): seq<TaskChange> {
    if a.status == b.status then [] else [TaskChange(FIELD_STATUS, Some(a.status), Some(b.status))]
  }

  function SectionAssignee(a: Task, b: Task): seq<TaskChange> {
    if a.assigneeID == b.assigneeID then []
    else [TaskChange(FIELD_ASSIGNEE, OptionalInt64String(a.assigneeID), OptionalInt64String(b.assigneeID))]
  }

  /** One change for each field in which two tasks differ, in the order title, description, status, assignee. */
  function Changes(a: Task, b: Task): seq<TaskChange> {
    SectionTitle(a, b) + SectionDescription(a, b) + SectionStatus(a, b) + SectionAssignee(a, b)
  }

  // ----- the SET list

  /** UPDATE tasks SET c0 = ?, c1 = ?, ... with the arguments of its placeholders. */
  datatype SetList = SetList(columns: seq<string>, arguments: seq<SqlValue>)

  function NullableInt64(value: Option<int>): SqlValue {
    if value.None? then NullValue else IntValue(value.value)
  }

  function NullableTime(value: Option<int>): SqlValue {
    if value.None? then NullValue else TimeValue(value.value)
  }

  /** The assignments one change contributes; a status change contributes two. */
  function CompileChange(task: Task, change: TaskChange): Result<SetList> {
    if change.fieldName == FIELD_TITLE then Ok(SetList(["title"], [TextValue(task.title)]))
    else if change.fieldName == FIELD_DESCRIPTION then Ok(SetList(["description"], [TextValue(task.description)]))
    else if change.fieldName == FIELD_STATUS then
      Ok(SetList(["status", "completed_at"], [TextValue(task.status), NullableTime(task.completedAt)]))
    else if change.fieldName == FIELD_ASSIGNEE then Ok(SetList(["assignee_id"], [NullableInt64(task.assigneeID)]))
    else Err(UnsupportedField)
  }

  /** The whole list, or the error of the first change whose field has no column. */
  function CompileChanges(task: Task, changes: seq<TaskChange>): (r: Result<SetList>)
    ensures r.Ok? ==> |r.value.columns| == |r.value.arguments| >= |changes|
    ensures r.Err? ==> r.error == UnsupportedField
  {
    if changes == [] then Ok(SetList([], []))
    else
      var init := CompileChanges(task, changes[..|changes| - 1]);
      var last := CompileChange(task, changes[|changes| - 1]);
      if init.Err? then init
      else if last.Err? then last
      else Ok(SetList(init.value.columns + last.value.columns, init.value.arguments + last.value.arguments))
  }

  /** One assignment, as the column's type and the CHECK on the status allow it. */
  function Assign(row: Task, column: string, value: SqlValue): Option<Task> {
    if column == "title" && value.TextValue? then Some(row.(title := value.text))
    else if column == "description" && value.TextValue? then Some(row.(description := value.text))
    else if column == "status" && value.TextValue? && ValidStatus(value.text) then Some(row.(status := value.text))
    else if column == "completed_at" && value.TimeValue? then Some(row.(completedAt := Some(value.time)))
    else if column == "completed_at" && value.NullValue? then Some(row.(completedAt := None))
    else if column == "assignee_id" && value.IntValue? then Some(row.(assigneeID := Some(value.n)))
    else if column == "assignee_id" && value.NullValue? then Some(row.(assigneeID := None))
    else None
  }

  /** Assignments take effect from left to right. */
  function ApplySet(row: Task, columns: seq<string>, arguments: seq<SqlValue>): Option<Task>
    decreases |columns|
  {
    if |columns| != |arguments| then None
    else if columns == [] then Some(row)
    else
      var first := Assign(row, columns[0], arguments[0]);
      if first.None? then None else ApplySet(first.value, columns[1..], arguments[1..])
  }

  lemma {:induction false} ApplySetAppend(row: Task, c: seq<string>, a: seq<SqlValue>, c': seq<string>, a': seq<SqlValue>)
    requires |c| == |a| && |c'| == |a'|
    ensures ApplySet(row, c + c', a + a') ==
      (var r := ApplySet(row, c, a); if r.None? then None else ApplySet(r.value, c', a'))
    decreases |c|
  {
    if c == [] {
      assert c + c' == c' && a + a' == a';
    } else {
      var first := Assign(row, c[0], a[0]);
      assert (c + c')[0] == c[0] && (c + c')[1..] == c[1..] + c';
      assert (a + a')[0] == a[0] && (a + a')[1..] == a[1..] + a';
      if first.Some? {
        ApplySetAppend(first.value, c[1..], a[1..], c', a');
      }
    }
  }

  /** A row that takes over exactly the fields in which the wanted task differs from the task read. */
  function Merge(row: Task, current: Task, wanted: Task): Task {
    row.(
      title := if current.title == wanted.title then row.title else wanted.title,
      description := if current.description == wanted.description then row.description else wanted.description,
      status := if current.status == wanted.status then row.status else wanted.status,
      completedAt := if current.status == wanted.status then row.completedAt else wanted.completedAt,
      assigneeID := if current.assigneeID == wanted.assigneeID then row.assigneeID else wanted.assigneeID)
  }

  lemma CompileSnoc(task: Task, changes: seq<TaskChange>, change: TaskChange)
    ensures CompileChanges(task, changes + [change]) ==
      (var init, last := CompileChanges(task, changes), CompileChange(task, change);
       if init.Err? then init else if last.Err? then last
       else Ok(SetList(init.value.columns + last.value.columns, init.value.arguments + last.value.arguments)))
  {
    var all := changes + [change];
    assert all[..|all| - 1] == changes && all[|all| - 1] == change;
  }

  ghost predicate CompilesTo(row: Task, task: Task, changes: seq<TaskChange>, r: Task) {
    && CompileChanges(task, changes).Ok?
    && ApplySet(row, CompileChanges(task, changes).value.columns, CompileChanges(task, changes).value.arguments) == Some(r)
  }

  /** Compiling one more change applies that change's assignments to the row so far. */
  lemma CompileOneMore(row: Task, task: Task, changes: seq<TaskChange>, change: TaskChange, mid: Task, r: Task)
    requires CompilesTo(row, task, changes, mid)
    requires CompilesTo(mid, task, [change], r)
    ensures CompilesTo(row, task, changes + [change], r)
  {
    CompileSnoc(task, changes, change);
    CompileSnoc(task, [], change);
    assert [] + [change] == [change];
    var init, last := CompileChanges(task, changes).value, CompileChange(task, change).value;
    assert [] + last.columns == last.columns && [] + last.arguments == last.arguments;
    ApplySetAppend(row, init.columns, init.arguments, last.columns, last.arguments);
  }

  lemma CompileSingle(row: Task, task: Task, change: TaskChange)
    ensures change.fieldName == FIELD_TITLE ==> CompilesTo(row, task, [change], row.(title := task.title))
    ensures change.fieldName == FIELD_DESCRIPTION ==> CompilesTo(row, task, [change], row.(description := task.description))
    ensures change.fieldName == FIELD_STATUS && ValidStatus(task.status) ==>
      CompilesTo(row, task, [change], row.(status := task.status, completedAt := task.completedAt))
    ensures change.fieldName == FIELD_ASSIGNEE ==> CompilesTo(row, task, [change], row.(assigneeID := task.assigneeID))
  {
    CompileSnoc(task, [], change);
    assert [] + [change] == [change];
    var last := CompileChange(task, change);
    if last.Ok? {
      assert [] + last.value.columns == last.value.columns && [] + last.value.arguments == last.value.arguments;
      ApplySetShort(row, last.value);
    }
  }

  lemma ApplySetShort(row: Task, list: SetList)
    requires |list.columns| == |list.arguments| && 1 <= |list.columns| <= 2
    ensures |list.columns| == 1 ==>
      ApplySet(row, list.columns, list.arguments) == Assign(row, list.columns[0], list.arguments[0])
    ensures |list.columns| == 2 ==>
      ApplySet(row, list.columns, list.arguments) ==
        (var first := Assign(row, list.columns[0], list.arguments[0]);
         if first.None? then None else Assign(first.value, list.columns[1], list.arguments[1]))
  {
    var first := Assign(row, list.columns[0], list.arguments[0]);
    if first.Some? {
      assert ApplySet(row, list.columns, list.arguments) == ApplySet(first.value, list.columns[1..], list.arguments[1..]);
      if |list.columns| == 2 {
        var second := Assign(first.value, list.columns[1], list.arguments[1]);
        assert list.columns[1..][0] == list.columns[1] && list.arguments[1..][0] == list.arguments[1];
        assert list.columns[1..][1..] == [] && list.arguments[1..][1..] == [];
        assert second.Some? ==> ApplySet(second.value, list.columns[1..][1..], list.arguments[1..][1..]) == second;
      }
    }
  }

  /**
   * The compiled SET list means the diff: for every task that was read, every wanted task and every row
   * it may meet, the unsupported-field branch is not taken, placeholders and arguments line up, and
   * executing the list moves exactly the differing fields of the wanted task into the row.
   */
  lemma SetListMeaning(row: Task, current: Task, wanted: Task)
    requires ValidStatus(wanted.status)
    ensures CompileChanges(wanted, Changes(current, wanted)).Ok?
    ensures var list := CompileChanges(wanted, Changes(current, wanted)).value;
      && |list.columns| == |list.arguments|
      && ApplySet(row, list.columns, list.arguments) == Some(Merge(row, current, wanted))
      && (list.columns == [] <==> Changes(current, wanted) == [])
  {
    CompileNone(row, wanted);
    hide CompileChanges, ApplySet;
    var c1 := SectionTitle(current, wanted);
    var c2 := c1 + SectionDescription(current, wanted);
    var c3 := c2 + SectionStatus(current, wanted);
    var r1 := if current.title == wanted.title then row else row.(title := wanted.title);
    var r2 := if current.description == wanted.description then r1 else r1.(description := wanted.description);
    var r3 := if current.status == wanted.status then r2
              else r2.(status := wanted.status, completedAt := wanted.completedAt);
    var r4 := Merge(row, current, wanted);
    CompileSection(row, wanted, [], SectionTitle(current, wanted), row, r1);
    assert [] + c1 == c1;
    CompileSection(row, wanted, c1, SectionDescription(current, wanted), r1, r2);
    CompileSection(row, wanted, c2, SectionStatus(current, wanted), r2, r3);
    CompileSection(row, wanted, c3, SectionAssignee(current, wanted), r3, r4);
  }

  lemma CompileNone(row: Task, task: Task)
    ensures CompilesTo(row, task, [], row)
    ensures CompileChanges(task, []).value.columns == []
  {
  }

  lemma CompileSection(row: Task, task: Task, changes: seq<TaskChange>, section: seq<TaskChange>, mid: Task, r: Task)
    requires CompilesTo(row, task, changes, mid)
    requires |section| <= 1 && ValidStatus(task.status)
    requires section == [] ==> r == mid
    requires section != [] ==>
      var f := section[0].fieldName;
      || (f == FIELD_TITLE && r == mid.(title := task.title))
      || (f == FIELD_DESCRIPTION && r == mid.(description := task.description))
      || (f == FIELD_STATUS && r == mid.(status := task.status, completedAt := task.completedAt))
      || (f == FIELD_ASSIGNEE && r == mid.(assigneeID := task.assigneeID))
    ensures CompilesTo(row, task, changes + section, r)
  {
    if section == [] {
      assert changes + section == changes;
    } else {
      CompileSingle(mid, task, section[0]);
      assert section == [section[0]];
      CompileOneMore(row, task, changes, section[0], mid, r);
    }
  }

  /** The fields of the wanted task, one by one. */
  lemma WantedFields(current: Task, input: UpdateInput, appTime: int)
    ensures
      var wanted := Wanted(current, input, appTime);
      && wanted == current.(title := wanted.title, description := wanted.description, status := wanted.status,
                            assigneeID := wanted.assigneeID, completedAt := wanted.completedAt)
      && wanted.title == (if input.title.Some? then TrimSpace(input.title.value) else current.title)
      && wanted.description == (if input.description.Some? then input.description.value else current.description)
      && wanted.status == (if input.status.Some? then TrimSpace(input.status.value) else current.status)
      && wanted.assigneeID == (if input.assigneeIDSet then input.assigneeID else current.assigneeID)
      && (wanted.status == current.status ==> wanted.completedAt == current.completedAt)
      && (wanted.status != current.status ==> wanted.completedAt == if wanted.status == STATUS_DONE then Some(appTime) else None)
  {
    hide TrimSpace;
  }

  /** On the row that was read, the update yields the wanted task itself. */
  lemma FreshMergeIsWanted(current: Task, input: UpdateInput, now: int)
    ensures Merge(current, current, Wanted(current, input, now)) == Wanted(current, input, now)
    ensures Changes(current, Wanted(current, input, now)) == [] <==> Wanted(current, input, now) == current
  {
    var wanted := Wanted(current, input, now);
    assert |Changes(current, wanted)| == |SectionTitle(current, wanted)| + |SectionDescription(current, wanted)|
      + |SectionStatus(current, wanted)| + |SectionAssignee(current, wanted)|;
  }
}
