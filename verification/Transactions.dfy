/** A MySQL transaction: its statements write a copy of the tables, which a commit shows to others and a rollback drops. */
module Transactions {
  import opened Domain
  import opened TaskUpdates
  import opened Store
  import opened Service

  /** What MySQL holds between two transactions, and its clock. */
  datatype Tables = Tables(store: Store, ids: Counters, now: int)

  /** `outside` is what other connections see, `work` what the transaction sees; ids that are drawn stay drawn. */
  datatype Transaction = Transaction(outside: Store, work: Store, ids: Counters, now: int)

  function Begin(db: Tables): Transaction {
    Transaction(db.store, db.store, db.ids, db.now)
  }

  function EndWithCommit(tx: Transaction): Tables {
    Tables(tx.work, tx.ids, tx.now)
  }

  function EndWithRollback(tx: Transaction): Tables {
    Tables(tx.outside, tx.ids, tx.now)
  }

  /** The UPDATE statement and the check of its affected rows. */
  function UpdateRow(tx: Transaction, list: SetList, taskID: int): (Transaction, Option<Error>) {
    var r := ExecUpdate(tx.work, list, taskID, tx.now);
    if r.Err? then (tx, Some(r.error))
    else (tx.(work := tx.work.(tasks := tx.work.tasks[TaskIndex(tx.work.tasks, taskID) := r.value])), None)
  }

  /** One history INSERT; an unknown author violates a foreign key. */
  function InsertHistory(tx: Transaction, taskID: int, changedBy: int, change: TaskChange): (Transaction, Option<Error>) {
    var drawn := tx.(ids := tx.ids.(history := tx.ids.history + 1));
    if !HasUser(tx.work, changedBy) then (drawn, Some(Infrastructure))
    else
      var row := HistoryRow(tx.ids.history, taskID, changedBy, change, tx.now);
      (drawn.(work := tx.work.(history := tx.work.history + [row])), None)
  }

  /** The INSERT of a team; the id is drawn whether or not the row can be stored. */
  function InsertTeam(tx: Transaction, name: string, owner: int): (Transaction, Result<int>) {
    var drawn := tx.(ids := tx.ids.(team := tx.ids.team + 1));
    if |name| > MAX_TEAM_NAME_COLUMN || !HasUser(tx.work, owner) then (drawn, Err(Infrastructure))
    else (drawn.(work := tx.work.(teams := tx.work.teams + [TeamRow(tx.ids.team, name, owner)])), Ok(tx.ids.team))
  }

  /** The INSERT of a member row: primary key and foreign keys are checked against what the transaction sees. */
  function InsertTeamMember(tx: Transaction, teamID: int, userID: int, role: string): (Transaction, Option<Error>) {
    if FindMember(tx.work.members, teamID, userID).Some? then (tx, Some(TeamMemberAlreadyExists))
    else if !HasTeam(tx.work, teamID) || !HasUser(tx.work, userID) then (tx, Some(Infrastructure))
    else (tx.(work := tx.work.(members := tx.work.members + [MemberRow(teamID, userID, role)])), None)
  }

  /** One INSERT per change, up to the one that fails; `lost` is the insert whose reply is lost, if one is. */
  function InsertAll(tx: Transaction, taskID: int, changedBy: int, changes: seq<TaskChange>, lost: Option<nat>): (Transaction, Option<Error>) {
    if changes == [] then (tx, None)
    else
      var n := |changes| - 1;
      var (before, failed) := InsertAll(tx, taskID, changedBy, changes[..n], lost);
      if failed.Some? then (before, failed)
      else
        var (after, error) := InsertHistory(before, taskID, changedBy, changes[n]);
        (after, if error.None? && lost == Some(n) then Some(Infrastructure) else error)
  }

  lemma {:induction false} InsertAllKeepsOutside(tx: Transaction, taskID: int, changedBy: int, changes: seq<TaskChange>, lost: Option<nat>)
    ensures InsertAll(tx, taskID, changedBy, changes, lost).0.outside == tx.outside
    ensures InsertAll(tx, taskID, changedBy, changes, lost).0.now == tx.now
  {
    hide HasUser;
    if changes != [] {
      InsertAllKeepsOutside(tx, taskID, changedBy, changes[..|changes| - 1], lost);
    }
  }

  /** Without a failure the copy has the whole history of the update, row by row, and nothing else has changed. */
  lemma {:induction false} InsertAllWritesAll(tx: Transaction, taskID: int, changedBy: int, changes: seq<TaskChange>, lost: Option<nat>)
    requires InsertAll(tx, taskID, changedBy, changes, lost).1.None?
    ensures
      var rows := HistoryRows(tx.ids.history, taskID, changedBy, changes, tx.now);
      InsertAll(tx, taskID, changedBy, changes, lost).0
        == tx.(work := tx.work.(history := tx.work.history + rows), ids := tx.ids.(history := tx.ids.history + |changes|))
  {
    hide HasUser;
    if changes == [] {
      assert tx.work.history + HistoryRows(tx.ids.history, taskID, changedBy, changes, tx.now) == tx.work.history;
    } else {
      var n := |changes| - 1;
      InsertAllWritesAll(tx, taskID, changedBy, changes[..n], lost);
      RowsSnoc(tx.ids.history, taskID, changedBy, changes, tx.now);
      hide HistoryRows, InsertAll;
      var before := HistoryRows(tx.ids.history, taskID, changedBy, changes[..n], tx.now);
      var last := HistoryRow(tx.ids.history + n, taskID, changedBy, changes[n], tx.now);
      assert tx.work.history + (before + [last]) == tx.work.history + before + [last];
      InsertAllStep(tx, taskID, changedBy, changes, lost);
    }
  }

  lemma InsertAllStep(tx: Transaction, taskID: int, changedBy: int, changes: seq<TaskChange>, lost: Option<nat>)
    requires changes != [] && InsertAll(tx, taskID, changedBy, changes, lost).1.None?
    ensures InsertAll(tx, taskID, changedBy, changes[..|changes| - 1], lost).1.None?
    ensures InsertAll(tx, taskID, changedBy, changes, lost).0
         == InsertHistory(InsertAll(tx, taskID, changedBy, changes[..|changes| - 1], lost).0, taskID, changedBy, changes[|changes| - 1]).0
    ensures InsertHistory(InsertAll(tx, taskID, changedBy, changes[..|changes| - 1], lost).0, taskID, changedBy, changes[|changes| - 1]).1.None?
  {
    hide InsertHistory;
  }

  lemma RowsSnoc(firstID: int, taskID: int, changedBy: int, changes: seq<TaskChange>, now: int)
    requires changes != []
    ensures var n := |changes| - 1;
      HistoryRows(firstID, taskID, changedBy, changes, now)
        == HistoryRows(firstID, taskID, changedBy, changes[..n], now) + [HistoryRow(firstID + n, taskID, changedBy, changes[n], now)]
  {
  }

  /** When the author is a user, the inserts fail exactly when the reply of one of them is lost. */
  lemma {:induction false} InsertAllEnds(tx: Transaction, taskID: int, changedBy: int, changes: seq<TaskChange>, lost: Option<nat>)
    requires HasUser(tx.work, changedBy)
    ensures InsertAll(tx, taskID, changedBy, changes, lost).1
         == if lost.Some? && lost.value < |changes| then Some(Infrastructure) else None
    ensures InsertAll(tx, taskID, changedBy, changes, lost).0.work.users == tx.work.users
  {
    if changes != [] {
      InsertAllEnds(tx, taskID, changedBy, changes[..|changes| - 1], lost);
    }
  }

  /** Once an insert has failed, the rest is not tried. */
  lemma {:induction false} InsertAllStops(tx: Transaction, taskID: int, changedBy: int, changes: seq<TaskChange>, lost: Option<nat>, n: nat)
    requires n <= |changes| && InsertAll(tx, taskID, changedBy, changes[..n], lost).1.Some?
    ensures InsertAll(tx, taskID, changedBy, changes, lost) == InsertAll(tx, taskID, changedBy, changes[..n], lost)
    decreases |changes|
  {
    hide InsertHistory;
    if n == |changes| {
      assert changes[..n] == changes;
    } else {
      var init := changes[..|changes| - 1];
      assert init[..n] == changes[..n];
      InsertAllStops(tx, taskID, changedBy, init, lost, n);
    }
  }

  /** The row that was updated and the rows that were inserted, committed, are the update of the state machine. */
  lemma CommittedIsCommitUpdate(tx: Transaction, list: SetList, taskID: int, changedBy: int, changes: seq<TaskChange>, lost: Option<nat>)
    requires ExecUpdate(tx.work, list, taskID, tx.now).Ok? && ExecUpdate(tx.work, list, taskID, tx.now).value.id == taskID
    requires TaskIndex(tx.work.tasks, taskID) < |tx.work.tasks|
    requires InsertAll(UpdateRow(tx, list, taskID).0, taskID, changedBy, changes, lost).1.None?
    ensures
      var row := ExecUpdate(tx.work, list, taskID, tx.now).value;
      var rows := HistoryRows(tx.ids.history, taskID, changedBy, changes, tx.now);
      EndWithCommit(InsertAll(UpdateRow(tx, list, taskID).0, taskID, changedBy, changes, lost).0)
        == Tables(CommitUpdate(tx.work, row, rows), tx.ids.(history := tx.ids.history + |changes|), tx.now)
  {
    hide ExecUpdate, HistoryRows, InsertAll;
    InsertAllWritesAll(UpdateRow(tx, list, taskID).0, taskID, changedBy, changes, lost);
  }
}
