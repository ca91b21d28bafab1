/** The use cases of tasks and teams, over the repositories and the cache. */
module UseCases {
  import opened Domain
  import opened TaskQueries
  import opened TaskUpdates
  import opened Store
  import opened Service
  import opened Calls
  import opened ListMeaning
  import opened UpdateMeaning
  import opened CreateMeaning
  import opened Reports
  import opened HistoryQueries
  import opened MySqlAdapter
  import opened RedisAdapter

  class Tasks {
    const tasks: TaskRepository
    const cache: TaskCache

    constructor (tasks: TaskRepository, cache: TaskCache)
      ensures this.tasks == tasks && this.cache == cache
    {
      this.tasks := tasks;
      this.cache := cache;
    }

    /** A failed invalidation is only logged. */
    method InvalidateCache(teamID: int, o: Outcome)
      modifies cache.client
      ensures cache.client.entries == Invalidate(old(cache.client.entries), teamID, o)
      ensures cache.client.now == old(cache.client.now)
    {
      var logged := cache.InvalidateTeam(teamID, o);
    }

    method Create(input: CreateInput, f: CreateFaults) returns (r: Result<Task>)
      modifies tasks.db, cache.client
      ensures
        var end := CreateCall(old(tasks.db.State()), input, f);
        && tasks.db.State() == end.db
        && r == end.result
        && cache.client.entries == (if end.wrote then Invalidate(old(cache.client.entries), input.teamID, f.announce)
                                    else old(cache.client.entries))
      ensures SoundMembers(old(tasks.db.State())) ==>
        CreateEndsWell(old(tasks.db.State()), input, f, CreateEnd(tasks.db.State(), r, r.Ok?))
      ensures cache.client.now == old(cache.client.now)
    {
      hide Invalidate, RepositoryCreate, TrimSpace, CreateEndsWell, SoundMembers;
      if SoundMembers(tasks.db.State()) {
        CreateCallEnds(tasks.db.State(), input, f);
      }
      var title := TrimSpace(input.title);
      if input.teamID <= 0 || input.createdBy <= 0 || title == "" || |title| > 255 {
        return Err(InvalidInput);
      }
      var isMember := tasks.IsTeamMember(input.teamID, input.createdBy, f.creator);
      if isMember.Err? {
        return Err(isMember.error);
      }
      if !isMember.value {
        return Err(Forbidden);
      }
      if input.assigneeID.Some? {
        if input.assigneeID.value <= 0 {
          return Err(InvalidInput);
        }
        var isAssigneeMember := tasks.IsTeamMember(input.teamID, input.assigneeID.value, f.assignee);
        if isAssigneeMember.Err? {
          return Err(isAssigneeMember.error);
        }
        if !isAssigneeMember.value {
          return Err(AssigneeNotTeamMember);
        }
      }
      var task := Draft(input.teamID, title, input.description, STATUS_TODO, input.assigneeID, input.createdBy);
      r := tasks.Create(task, f.insert, f.reload);
      if r.Err? {
        return r;
      }
      InvalidateCache(input.teamID, f.announce);
    }

    method List(input: ListInput, f: ListFaults) returns (r: Result<seq<Task>>)
      modifies cache.client
      ensures
        var end := ListCall(tasks.db.State(), old(cache.client.entries), cache.client.now, cache.ttl, input, f);
        && r == end.result
        && cache.client.entries == end.redis
      ensures UniqueIDs(tasks.db.store.tasks) ==>
        ListEndsWell(tasks.db.State(), old(cache.client.entries), cache.client.now, cache.ttl, input, f, ListEnd(cache.client.entries, r))
      ensures cache.client.now == old(cache.client.now)
    {
      hide ListTasks, CacheGet, CacheSet, TrimSpace, ListEndsWell, UniqueIDs;
      if UniqueIDs(tasks.db.store.tasks) {
        ListCallEnds(tasks.db.State(), cache.client.entries, cache.client.now, cache.ttl, input, f);
      }
      if input.teamID <= 0 || input.requestedBy <= 0 || input.limit <= 0 || input.limit > 100 || input.offset < 0 {
        return Err(InvalidInput);
      }
      var isMember := tasks.IsTeamMember(input.teamID, input.requestedBy, f.member);
      if isMember.Err? {
        return Err(isMember.error);
      }
      if !isMember.value {
        return Err(Forbidden);
      }
      var status: Option<string> := None;
      var statusValue := TrimSpace(input.status);
      if statusValue != "" {
        if !ValidStatus(statusValue) {
          return Err(InvalidInput);
        }
        status := Some(statusValue);
      }
      if input.assigneeID.Some? && input.assigneeID.value <= 0 {
        return Err(InvalidInput);
      }
      var filter := TaskFilter(input.teamID, status, input.assigneeID, input.limit, input.offset);
      var cached := cache.Get(filter, f.version, f.entry);
      if cached.Ok? && cached.value.found.Some? {
        return Ok(cached.value.found.value);
      }
      r := tasks.List(filter, f.query);
      if r.Err? {
        return r;
      }
      if cached.Ok? {
        var logged := cache.Set(filter, cached.value.version, r.value, f.store);
      }
    }

    method Update(input: UpdateInput, appTime: int, f: UpdateFaults) returns (r: Result<Task>)
      modifies tasks.db, cache.client
      ensures
        var end := UpdateCall(old(tasks.db.State()), input, appTime, f);
        && tasks.db.State() == end.db
        && r == end.result
        && cache.client.entries == (if end.wrote then Invalidate(old(cache.client.entries), end.result.value.teamID, f.announce)
                                    else old(cache.client.entries))
      ensures SoundRows(old(tasks.db.store)) ==>
        exists wrote :: UpdateEndsWell(old(tasks.db.State()), input, appTime, f, UpdateEnd(tasks.db.State(), r, wrote))
      ensures cache.client.now == old(cache.client.now)
    {
      hide Invalidate, RepositoryUpdate, ApplyUpdate, FindTask, Wanted, Changes, TrimSpace, UpdateEndsWell, SoundRows;
      if SoundRows(tasks.db.store) {
        UpdateCallEnds(tasks.db.State(), input, appTime, f);
      }
      if input.taskID <= 0 || input.requestedBy <= 0 {
        return Err(InvalidInput);
      }
      if input.title.None? && input.description.None? && input.status.None? && !input.assigneeIDSet {
        return Err(InvalidInput);
      }
      var found := tasks.FindByID(input.taskID, f.find);
      if found.Err? {
        return Err(found.error);
      }
      var currentTask := found.value;
      var isMember := tasks.IsTeamMember(currentTask.teamID, input.requestedBy, f.requester);
      if isMember.Err? {
        return Err(isMember.error);
      }
      if !isMember.value {
        return Err(Forbidden);
      }
      var planned := PlanUpdate(currentTask, input, appTime, f);
      if planned.Err? {
        return Err(planned.error);
      }
      r := Apply(currentTask, planned.value.0, planned.value.1, input, appTime, f);
    }

    /** The new values are checked and the difference to the current task is recorded, field by field. */
    method PlanUpdate(currentTask: Task, input: UpdateInput, appTime: int, f: UpdateFaults) returns (r: Result<(Task, seq<TaskChange>)>)
      ensures
        var asks := AsksForAssignee(input);
        r == if !ValuesOk(input) || (asks && input.assigneeID.value <= 0) then Err(InvalidInput)
             else if asks && !f.assignee.Succeeds? then Err(Infrastructure)
             else if asks && !IsMember(tasks.db.store, currentTask.teamID, input.assigneeID.value) then Err(AssigneeNotTeamMember)
             else Ok((Wanted(currentTask, input, appTime), Changes(currentTask, Wanted(currentTask, input, appTime))))
    {
      ghost var wanted := Wanted(currentTask, input, appTime);
      WantedFields(currentTask, input, appTime);
      hide Wanted, ValuesOk, IsMember, SectionTitle, SectionDescription, SectionStatus, OptionalInt64String, TrimSpace;
      r := PlanFields(currentTask, input, appTime);
      if r.Err? {
        return r;
      }
      var updatedTask, changes := r.value.0, r.value.1;
      if input.assigneeIDSet {
        if input.assigneeID.Some? {
          if input.assigneeID.value <= 0 {
            return Err(InvalidInput);
          }
          var isAssigneeMember := tasks.IsTeamMember(currentTask.teamID, input.assigneeID.value, f.assignee);
          if isAssigneeMember.Err? {
            return Err(isAssigneeMember.error);
          }
          if !isAssigneeMember.value {
            return Err(AssigneeNotTeamMember);
          }
        }
        if input.assigneeID != currentTask.assigneeID {
          changes := changes
            + [TaskChange(FIELD_ASSIGNEE, OptionalInt64String(currentTask.assigneeID), OptionalInt64String(input.assigneeID))];
          updatedTask := updatedTask.(assigneeID := input.assigneeID);
        }
      }
      assert changes == Changes(currentTask, wanted);
      return Ok((updatedTask, changes));
    }

    /** The fields that need no database: title, description and status, which carries the completion time along. */
    method PlanFields(currentTask: Task, input: UpdateInput, appTime: int) returns (r: Result<(Task, seq<TaskChange>)>)
      ensures
        var wanted := Wanted(currentTask, input, appTime);
        r == if !ValuesOk(input) then Err(InvalidInput)
             else Ok((wanted.(assigneeID := currentTask.assigneeID),
                      SectionTitle(currentTask, wanted) + SectionDescription(currentTask, wanted) + SectionStatus(currentTask, wanted)))
    {
      WantedFields(currentTask, input, appTime);
      hide Wanted, TrimSpace, ValidStatus;
      var updatedTask := currentTask;
      var changes: seq<TaskChange> := [];
      if input.title.Some? {
        var title := TrimSpace(input.title.value);
        if title == "" || |title| > 255 {
          return Err(InvalidInput);
        }
        if title != currentTask.title {
          changes := changes + [TaskChange(FIELD_TITLE, Some(currentTask.title), Some(title))];
          updatedTask := updatedTask.(title := title);
        }
      }
      if input.description.Some? && input.description.value != currentTask.description {
        changes := changes + [TaskChange(FIELD_DESCRIPTION, Some(currentTask.description), Some(input.description.value))];
        updatedTask := updatedTask.(description := input.description.value);
      }
      if input.status.Some? {
        var status := TrimSpace(input.status.value);
        if !ValidStatus(status) {
          return Err(InvalidInput);
        }
        if status != currentTask.status {
          changes := changes + [TaskChange(FIELD_STATUS, Some(currentTask.status), Some(status))];
          updatedTask := updatedTask.(status := status, completedAt := if status == STATUS_DONE then Some(appTime) else None);
        }
      }
      ghost var wanted := Wanted(currentTask, input, appTime);
      assert updatedTask == wanted.(assigneeID := currentTask.assigneeID);
      assert changes == SectionTitle(currentTask, wanted) + SectionDescription(currentTask, wanted) + SectionStatus(currentTask, wanted);
      return Ok((updatedTask, changes));
    }

    /** With no change the task is returned as it was read; otherwise it is written and the team is invalidated. */
    method Apply(currentTask: Task, updatedTask: Task, changes: seq<TaskChange>, input: UpdateInput, ghost appTime: int, f: UpdateFaults)
      returns (r: Result<Task>)
      requires updatedTask == Wanted(currentTask, input, appTime) && changes == Changes(currentTask, updatedTask)
      modifies tasks.db, cache.client
      ensures
        var end := ApplyUpdate(old(tasks.db.State()), currentTask, input, appTime, f);
        && tasks.db.State() == end.db
        && r == end.result
        && cache.client.entries == (if end.wrote then Invalidate(old(cache.client.entries), end.result.value.teamID, f.announce)
                                    else old(cache.client.entries))
      ensures cache.client.now == old(cache.client.now)
    {
      hide Invalidate, RepositoryUpdate, Wanted, Changes;
      if changes == [] {
        return Ok(currentTask);
      }
      r := tasks.Update(updatedTask, input.requestedBy, changes, f);
      if r.Err? {
        return r;
      }
      InvalidateCache(r.value.teamID, f.announce);
    }

    /** History goes to members of the task's team, and is complete. */
    method History(taskID: int, requestedBy: int, find: Outcome, member: Outcome, history: Outcome) returns (r: Result<seq<TaskHistory>>)
      requires LegalStore(tasks.db.store)
      ensures r.Ok? ==> IsHistoryOf(tasks.db.store, taskID, r.value)
      ensures r.Ok? ==> exists task :: FindTask(tasks.db.store, taskID) == Some(task) && IsMember(tasks.db.store, task.teamID, requestedBy)
      ensures r == Err(InvalidInput) <==> taskID <= 0 || requestedBy <= 0
      ensures r == Err(TaskNotFound) <==>
        taskID > 0 && requestedBy > 0 && find.Succeeds? && forall row :: row in tasks.db.store.tasks ==> row.id != taskID
      ensures r == Err(Forbidden) <==>
        && taskID > 0 && requestedBy > 0 && find.Succeeds? && member.Succeeds?
        && exists task :: FindTask(tasks.db.store, taskID) == Some(task) && !IsMember(tasks.db.store, task.teamID, requestedBy)
      ensures find.Succeeds? && member.Succeeds? && history.Succeeds? ==> r != Err(Infrastructure)
    {
      assert FindTask(tasks.db.store, taskID).Some? ==> FindTask(tasks.db.store, taskID).value in tasks.db.store.tasks;
      hide FindTask, IsMember, IsHistoryOf, LegalStore;
      if taskID <= 0 || requestedBy <= 0 {
        return Err(InvalidInput);
      }
      var task := tasks.FindByID(taskID, find);
      if task.Err? {
        return Err(task.error);
      }
      var isMember := tasks.IsTeamMember(task.value.teamID, requestedBy, member);
      if isMember.Err? {
        return Err(isMember.error);
      }
      if !isMember.value {
        return Err(Forbidden);
      }
      r := tasks.History(taskID, history);
    }
  }

  class Teams {
    const teams: TeamRepository
    /** The lower-casing of the standard library, as a parameter. */
    const lower: string -> string

    constructor (teams: TeamRepository, lower: string -> string)
      ensures this.teams == teams && this.lower == lower
    {
      this.teams := teams;
      this.lower := lower;
    }

    method Create(userID: int, name: string, f: TeamFaults) returns (r: Result<TeamRow>)
      modifies teams.db
      ensures (teams.db.State(), r) == CreateTeamCall(old(teams.db.State()), userID, name, f)
    {
      hide TrimSpace, RepositoryCreateTeam;
      var trimmed := TrimSpace(name);
      if userID <= 0 || trimmed == "" || |trimmed| > 255 {
        return Err(InvalidInput);
      }
      r := teams.CreateWithOwner(trimmed, userID, f);
    }

    /** The role is checked first, and used some statements later. The notification that follows changes no data. */
    method Invite(input: InviteInput, role: Outcome, find: Outcome, add: Outcome) returns (r: Result<int>)
      modifies teams.db
      ensures (teams.db.State(), r)
           == InviteCall(old(teams.db.State()), input.(email := lower(TrimSpace(input.email))), role, find, add)
    {
      hide FindTeamRole, InsertMember, TrimSpace;
      var email := lower(TrimSpace(input.email));
      if input.teamID <= 0 || input.invitedBy <= 0 || email == "" {
        return Err(InvalidInput);
      }
      var member := teams.FindForMember(input.teamID, input.invitedBy, role);
      if member.Err? {
        return Err(member.error);
      }
      if member.value != ROLE_OWNER && member.value != ROLE_ADMIN {
        return Err(Forbidden);
      }
      if !find.Succeeds? {
        return Err(Infrastructure);
      }
      var user := FindByEmail(teams.db.store.users, email);
      if user.None? {
        return Err(UserNotFound);
      }
      var added := teams.AddMember(input.teamID, user.value.id, add);
      if added.Err? {
        return Err(added.error);
      }
      return Ok(user.value.id);
    }
  }
}
