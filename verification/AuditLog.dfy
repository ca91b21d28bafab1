/** What the audit history of a task says: forward replay, undo, and the chain from old to new values. */
module AuditLog {
  import opened Domain
  import opened Decimal
  import opened TaskUpdates

  /** The audited columns of a task. */
  datatype Fields = Fields(title: string, description: string, status: string, assigneeID: Option<int>)

  function FieldsOf(t: Task): Fields {
    Fields(t.title, t.description, t.status, t.assigneeID)
  }

  predicate IsNumeral(s: string) {
    s != [] && (AllDigits(s) || (s[0] == '-' && AllDigits(s[1..])))
  }

  /** How a field appears in the history. */
  function FieldText(f: Fields, fieldName: string): Option<string> {
    if fieldName == FIELD_TITLE then Some(f.title)
    else if fieldName == FIELD_DESCRIPTION then Some(f.description)
    else if fieldName == FIELD_STATUS then Some(f.status)
    else OptionalInt64String(f.assigneeID)
  }

  /** Reading a history value back into the field it belongs to. */
  function SetField(f: Fields, fieldName: string, value: Option<string>): Fields {
    if fieldName == FIELD_TITLE && value.Some? then f.(title := value.value)
    else if fieldName == FIELD_DESCRIPTION && value.Some? then f.(description := value.value)
    else if fieldName == FIELD_STATUS && value.Some? then f.(status := value.value)
    else if fieldName == FIELD_ASSIGNEE && value.None? then f.(assigneeID := None)
    else if fieldName == FIELD_ASSIGNEE && value.Some? && IsNumeral(value.value) then
      f.(assigneeID := Some(ParseInt(value.value)))
    else f
  }

  /** Folding the new values over a starting point. */
  function Replay(f: Fields, changes: seq<TaskChange>): Fields
    decreases |changes|
  {
    if changes == [] then f
    else Replay(SetField(f, changes[0].fieldName, changes[0].newValue), changes[1..])
  }

  /** Folding the old values backwards, last change first. */
  function Undo(f: Fields, changes: seq<TaskChange>): Fields {
    if changes == [] then f
    else SetField(Undo(f, changes[1..]), changes[0].fieldName, changes[0].oldValue)
  }

  /** Every old value is what the earlier entries leave in its field. */
  predicate Chained(f: Fields, changes: seq<TaskChange>)
    decreases |changes|
  {
    changes == [] ||
    (changes[0].oldValue == FieldText(f, changes[0].fieldName)
     && Chained(SetField(f, changes[0].fieldName, changes[0].newValue), changes[1..]))
  }

  predicate KnownField(fieldName: string) {
    fieldName == FIELD_TITLE || fieldName == FIELD_DESCRIPTION || fieldName == FIELD_STATUS || fieldName == FIELD_ASSIGNEE
  }

  /** A change the use case can write: a known field, and values that are the text of some field value. */
  ghost predicate WellFormed(change: TaskChange) {
    KnownField(change.fieldName) &&
    exists f, g: Fields ::
      change.oldValue == FieldText(f, change.fieldName) && change.newValue == FieldText(g, change.fieldName)
  }

  /** The text of a field determines the field, and reading it back gives the field. */
  lemma SetFieldText(f: Fields, g: Fields, fieldName: string)
    requires KnownField(fieldName)
    ensures FieldText(SetField(f, fieldName, FieldText(g, fieldName)), fieldName) == FieldText(g, fieldName)
    ensures FieldText(f, fieldName) == FieldText(g, fieldName) ==>
      SetField(f, fieldName, FieldText(g, fieldName)) == f
    ensures SetField(SetField(f, fieldName, FieldText(g, fieldName)), fieldName, FieldText(f, fieldName)) == f
  {
    if g.assigneeID.Some? { ParseFormatInt(g.assigneeID.value); }
    if f.assigneeID.Some? { ParseFormatInt(f.assigneeID.value); }
  }

  lemma {:induction false} ReplayAppend(f: Fields, xs: seq<TaskChange>, ys: seq<TaskChange>)
    ensures Replay(f, xs + ys) == Replay(Replay(f, xs), ys)
    ensures Chained(f, xs + ys) <==> Chained(f, xs) && Chained(Replay(f, xs), ys)
    decreases |xs|
  {
    if xs == [] {
      assert xs + ys == ys;
    } else {
      assert (xs + ys)[0] == xs[0] && (xs + ys)[1..] == xs[1..] + ys;
      ReplayAppend(SetField(f, xs[0].fieldName, xs[0].newValue), xs[1..], ys);
    }
  }

  /** Undo is the inverse of replay on a chained history. */
  lemma {:induction false} UndoReplay(f: Fields, changes: seq<TaskChange>)
    requires Chained(f, changes)
    requires forall i :: 0 <= i < |changes| ==> WellFormed(changes[i])
    ensures Undo(Replay(f, changes), changes) == f
    decreases |changes|
  {
    if changes != [] {
      var c := changes[0];
      assert WellFormed(c);
      var g: Fields :| c.newValue == FieldText(g, c.fieldName);
      UndoReplay(SetField(f, c.fieldName, c.newValue), changes[1..]);
      SetFieldText(f, g, c.fieldName);
    }
  }

  /** A field that no entry touches keeps its text through a replay. */
  lemma {:induction false} ReplayKeeps(f: Fields, changes: seq<TaskChange>, fieldName: string)
    requires KnownField(fieldName)
    requires forall i :: 0 <= i < |changes| ==> changes[i].fieldName != fieldName && KnownField(changes[i].fieldName)
    ensures FieldText(Replay(f, changes), fieldName) == FieldText(f, fieldName)
    decreases |changes|
  {
    if changes != [] {
      ReplayKeeps(SetField(f, changes[0].fieldName, changes[0].newValue), changes[1..], fieldName);
    }
  }

  /**
   * The last entry of a field tells the field's current value, and a field without an entry still has
   * the value it started with.
   */
  lemma LastEntryIsCurrent(f: Fields, changes: seq<TaskChange>, fieldName: string, last: int)
    requires KnownField(fieldName) && -1 <= last < |changes|
    requires forall i :: 0 <= i < |changes| ==> WellFormed(changes[i])
    requires last >= 0 ==> changes[last].fieldName == fieldName
    requires forall i :: last < i < |changes| ==> changes[i].fieldName != fieldName
    ensures FieldText(Replay(f, changes), fieldName)
         == if last < 0 then FieldText(f, fieldName) else changes[last].newValue
  {
    if last < 0 {
      ReplayKeeps(f, changes, fieldName);
    } else {
      var init, c, rest := changes[..last], changes[last], changes[last + 1..];
      assert changes == init + ([c] + rest);
      ReplayAppend(f, init, [c] + rest);
      assert ([c] + rest)[1..] == rest;
      assert WellFormed(c);
      var g: Fields :| c.newValue == FieldText(g, c.fieldName);
      SetFieldText(Replay(f, init), g, fieldName);
      ReplayKeeps(SetField(Replay(f, init), fieldName, c.newValue), rest, fieldName);
    }
  }

  /** In a chained history the consecutive entries of one field link up: the new value of one is the old value of the next. */
  lemma EntriesLink(f: Fields, changes: seq<TaskChange>, i: nat, j: nat)
    requires Chained(f, changes) && i < j < |changes|
    requires forall k :: 0 <= k < |changes| ==> WellFormed(changes[k])
    requires changes[i].fieldName == changes[j].fieldName
    requires forall k :: i < k < j ==> changes[k].fieldName != changes[i].fieldName
    ensures changes[i].newValue == changes[j].oldValue
  {
    var head, tail := changes[..j], changes[j..];
    assert changes == head + tail;
    ReplayAppend(f, head, tail);
    LastEntryIsCurrent(f, head, changes[j].fieldName, i);
  }

  // ----- the entries of one update

  lemma ChangesWellFormed(current: Task, wanted: Task)
    ensures forall i :: 0 <= i < |Changes(current, wanted)| ==> WellFormed(Changes(current, wanted)[i])
  {
    var f, g := FieldsOf(current), FieldsOf(wanted);
    forall i | 0 <= i < |Changes(current, wanted)| ensures WellFormed(Changes(current, wanted)[i]) {
      var c := Changes(current, wanted)[i];
      assert c.oldValue == FieldText(f, c.fieldName) && c.newValue == FieldText(g, c.fieldName);
    }
  }

  /** The row at the time of the update still holds, in every field the update changes, what had been read. */
  predicate FreshOn(row: Task, current: Task, wanted: Task) {
    && (current.title != wanted.title ==> row.title == current.title)
    && (current.description != wanted.description ==> row.description == current.description)
    && (current.status != wanted.status ==> row.status == current.status)
    && (current.assigneeID != wanted.assigneeID ==> row.assigneeID == current.assigneeID)
  }

  lemma SectionReplay(f: Fields, section: seq<TaskChange>)
    requires |section| <= 1
    ensures Replay(f, section) == if section == [] then f else SetField(f, section[0].fieldName, section[0].newValue)
    ensures Chained(f, section) <==> (section == [] || section[0].oldValue == FieldText(f, section[0].fieldName))
  {
    if section != [] {
      assert section[1..] == [];
    }
  }

  lemma AssigneeTextInjective(a: Option<int>, b: Option<int>)
    ensures OptionalInt64String(a) == OptionalInt64String(b) <==> a == b
  {
    if a.Some? { ParseFormatInt(a.value); }
    if b.Some? { ParseFormatInt(b.value); }
  }

  /** The audited fields after the first n sections of an update. */
  function FieldsAfter(row: Task, current: Task, wanted: Task, n: nat): Fields {
    Fields(
      if n >= 1 && current.title != wanted.title then wanted.title else row.title,
      if n >= 2 && current.description != wanted.description then wanted.description else row.description,
      if n >= 3 && current.status != wanted.status then wanted.status else row.status,
      if n >= 4 && current.assigneeID != wanted.assigneeID then wanted.assigneeID else row.assigneeID)
  }

  lemma SectionsReplay(row: Task, current: Task, wanted: Task)
    ensures var f := (n: nat) => FieldsAfter(row, current, wanted, n);
      && Replay(f(0), SectionTitle(current, wanted)) == f(1)
      && Replay(f(1), SectionDescription(current, wanted)) == f(2)
      && Replay(f(2), SectionStatus(current, wanted)) == f(3)
      && Replay(f(3), SectionAssignee(current, wanted)) == f(4)
    ensures var f := (n: nat) => FieldsAfter(row, current, wanted, n);
      && (Chained(f(0), SectionTitle(current, wanted)) <==> (current.title != wanted.title ==> row.title == current.title))
      && (Chained(f(1), SectionDescription(current, wanted)) <==>
            (current.description != wanted.description ==> row.description == current.description))
      && (Chained(f(2), SectionStatus(current, wanted)) <==>
            (current.status != wanted.status ==> row.status == current.status))
      && (Chained(f(3), SectionAssignee(current, wanted)) <==>
            (current.assigneeID != wanted.assigneeID ==> row.assigneeID == current.assigneeID))
  {
    SectionReplay(FieldsAfter(row, current, wanted, 0), SectionTitle(current, wanted));
    SectionReplay(FieldsAfter(row, current, wanted, 1), SectionDescription(current, wanted));
    SectionReplay(FieldsAfter(row, current, wanted, 2), SectionStatus(current, wanted));
    SectionReplay(FieldsAfter(row, current, wanted, 3), SectionAssignee(current, wanted));
    if wanted.assigneeID.Some? { ParseFormatInt(wanted.assigneeID.value); }
    AssigneeTextInjective(row.assigneeID, current.assigneeID);
  }

  /**
   * The history of one update, replayed on the row it met, gives the row it left; and its old values are
   * those of that row exactly if the read was not stale in a changed field.
   */
  lemma UpdateHistoryMeaning(row: Task, current: Task, wanted: Task)
    ensures Replay(FieldsOf(row), Changes(current, wanted)) == FieldsOf(Merge(row, current, wanted))
    ensures Chained(FieldsOf(row), Changes(current, wanted)) <==> FreshOn(row, current, wanted)
  {
    var s1, s2 := SectionTitle(current, wanted), SectionDescription(current, wanted);
    var s3, s4 := SectionStatus(current, wanted), SectionAssignee(current, wanted);
    SectionsReplay(row, current, wanted);
    ReplayAppend(FieldsOf(row), s1, s2);
    ReplayAppend(FieldsOf(row), s1 + s2, s3);
    ReplayAppend(FieldsOf(row), s1 + s2 + s3, s4);
  }
}
