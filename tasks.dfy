/**
 * The `/tasks` routes: create, update and delete a task, and the companion
 * writes to the assigned user's `pendingTasks` that go with each. The
 * companion writes are given by the functions CreateCompanion,
 * UpdateCompanion and DeleteCompanion (the transition table of the task
 * side); the handlers apply them as the same sequence of store calls.
 */
module TaskRoutes {
  import opened Wrappers
  import opened Lists
  import opened Http
  import opened Store
  import opened ParseJsonQuery
  import opened BuildQuery

  const MissingNameOrDeadline := Reply(400, "Name and deadline are required")
  const InvalidAssignedUser := Reply(400, "Invalid assigned user")
  const TaskNotFound := Reply(404, "Task not found")

  /** The page size of a task listing that names no limit of its own. */
  const DefaultLimit: nat := 100

  /** The JSON body of a POST or PUT; an absent field is None. */
  datatype TaskBody = TaskBody(
    name: Option<string>,
    description: Option<string>,
    deadline: Option<string>,
    completed: Option<bool>,
    assignedUser: Option<string>)

  /** `req.body.name && req.body.deadline`. */
  predicate HasNameAndDeadline(body: TaskBody) {
    Truthy(body.name) && Truthy(body.deadline)
  }

  /** `req.body.assignedUser || ''`. */
  function Assignee(body: TaskBody): UserId {
    OrEmpty(body.assignedUser)
  }

  /** The body names no user, or one that exists. */
  predicate AssigneeKnown(body: TaskBody, users: map<UserId, User>) {
    Assignee(body) == "" || Assignee(body) in users
  }

  /** The denormalised name: the assigned user's name, or "unassigned" when there is no user. */
  function AssignedName(users: map<UserId, User>, uid: UserId): (name: string)
    requires uid == "" || uid in users
    ensures uid == "" ==> name == Unassigned
    ensures uid != "" ==> name == users[uid].name
  {
    if uid == "" then Unassigned else users[uid].name
  }

  /**
   * The task document a POST or PUT body describes: the description
   * defaults to "" and `completed` to false when they are absent.
   */
  function TaskData(body: TaskBody, users: map<UserId, User>): (t: Task)
    requires HasNameAndDeadline(body) && AssigneeKnown(body, users)
    ensures t.name == body.name.value && t.deadline == body.deadline.value
    ensures t.description == (if Truthy(body.description) then body.description.value else "")
    ensures t.completed <==> body.completed == Some(true)
    ensures t.assignedUser == Assignee(body)
    ensures t.assignedUserName == AssignedName(users, Assignee(body))
  {
    Task(body.name.value, OrEmpty(body.description), body.deadline.value,
         body.completed.GetOr(false), Assignee(body), AssignedName(users, Assignee(body)))
  }

  /** Companion write of a create: `$addToSet` into the assignee's list when the task is assigned and pending. */
  function CreateCompanion(users: map<UserId, User>, tid: TaskId, t: Task): (r: map<UserId, User>)
    ensures r.Keys == users.Keys
    ensures forall u :: u in users && u != t.assignedUser ==> r[u] == users[u]
    ensures forall u :: u in users ==> r[u].name == users[u].name && r[u].email == users[u].email
  {
    if t.assignedUser != "" && !t.completed then UpdateUserById(users, t.assignedUser, AddPending(tid))
    else users
  }

  /**
   * Companion writes of an update from `before` to `after`: when the user
   * changes, `$pull` from the old user and `$addToSet` to the new one if the
   * task is pending; when the same user keeps it and `completed` flips,
   * `$pull` or `$addToSet` on that user; otherwise nothing.
   */
  function UpdateCompanion(users: map<UserId, User>, tid: TaskId, before: Task, after: Task): (r: map<UserId, User>)
    ensures r.Keys == users.Keys
    ensures forall u :: u in users && u != before.assignedUser && u != after.assignedUser ==> r[u] == users[u]
    ensures forall u :: u in users ==> r[u].name == users[u].name && r[u].email == users[u].email
  {
    var oldUser, newUser := before.assignedUser, after.assignedUser;
    if oldUser != newUser then
      var pulled := if oldUser != "" then UpdateUserById(users, oldUser, PullPending(tid)) else users;
      if newUser != "" && !after.completed then UpdateUserById(pulled, newUser, AddPending(tid)) else pulled
    else if oldUser != "" && before.completed != after.completed then
      if after.completed then UpdateUserById(users, newUser, PullPending(tid))
      else UpdateUserById(users, newUser, AddPending(tid))
    else users
  }

  /** Companion write of a delete: `$pull` from the assigned user, whether or not the task was completed. */
  function DeleteCompanion(users: map<UserId, User>, tid: TaskId, t: Task): (r: map<UserId, User>)
    ensures r.Keys == users.Keys
    ensures forall u :: u in users && u != t.assignedUser ==> r[u] == users[u]
    ensures forall u :: u in users ==> r[u].name == users[u].name && r[u].email == users[u].email
  {
    if t.assignedUser != "" then UpdateUserById(users, t.assignedUser, PullPending(tid)) else users
  }

  /** POST /tasks, storing the new task under the id `newId` the store generates. */
  method Create(db: Db, body: TaskBody, newId: TaskId) returns (r: Reply)
    requires newId !in db.tasks
    modifies db
    ensures !HasNameAndDeadline(body) ==> r == MissingNameOrDeadline && unchanged(db)
    ensures HasNameAndDeadline(body) && !AssigneeKnown(body, old(db.users)) ==> r == InvalidAssignedUser && unchanged(db)
    ensures r == Created <==> HasNameAndDeadline(body) && AssigneeKnown(body, old(db.users))
    ensures r == Created ==> db.tasks == old(db.tasks)[newId := TaskData(body, old(db.users))]
    ensures r == Created ==> db.users == CreateCompanion(old(db.users), newId, db.tasks[newId])
  {
    if !HasNameAndDeadline(body) {
      return MissingNameOrDeadline;
    }
    var assignedUser := Assignee(body);
    if assignedUser != "" && assignedUser !in db.users {
      return InvalidAssignedUser;
    }
    var task := TaskData(body, db.users);
    db.SaveTask(newId, task);
    if assignedUser != "" && !task.completed {
      db.UpdateUser(assignedUser, AddPending(newId));
    }
    r := Created;
  }

  /** GET /tasks/:id (without projection). */
  method Get(db: Db, validId: string -> bool, id: string) returns (r: Result<Task, Reply>)
    ensures !validId(id) ==> r == Failure(InvalidIdFormat)
    ensures validId(id) && id !in db.tasks ==> r == Failure(TaskNotFound)
    ensures validId(id) && id in db.tasks ==> r == Success(db.tasks[id])
  {
    if !validId(id) {
      return Failure(InvalidIdFormat);
    }
    if id !in db.tasks {
      return Failure(TaskNotFound);
    }
    r := Success(db.tasks[id]);
  }

  /** PUT /tasks/:id: a full replacement of the task's fields, then the companion writes. */
  method Update(db: Db, validId: string -> bool, id: string, body: TaskBody) returns (r: Reply)
    modifies db
    ensures !validId(id) ==> r == InvalidIdFormat && unchanged(db)
    ensures validId(id) && !HasNameAndDeadline(body) ==> r == MissingNameOrDeadline && unchanged(db)
    ensures validId(id) && HasNameAndDeadline(body) && id !in old(db.tasks) ==> r == TaskNotFound && unchanged(db)
    ensures validId(id) && HasNameAndDeadline(body) && id in old(db.tasks) && !AssigneeKnown(body, old(db.users))
      ==> r == InvalidAssignedUser && unchanged(db)
    ensures r == Ok <==> validId(id) && HasNameAndDeadline(body) && id in old(db.tasks) && AssigneeKnown(body, old(db.users))
    ensures r == Ok ==> db.tasks == old(db.tasks)[id := TaskData(body, old(db.users))]
    ensures r == Ok ==> db.users == UpdateCompanion(old(db.users), id, old(db.tasks)[id], db.tasks[id])
  {
    if !validId(id) {
      return InvalidIdFormat;
    }
    if !HasNameAndDeadline(body) {
      return MissingNameOrDeadline;
    }
    if id !in db.tasks {
      return TaskNotFound;
    }
    var existing := db.tasks[id];
    var oldAssignedUser := existing.assignedUser;
    var oldCompleted := existing.completed;
    var newAssignedUser := Assignee(body);
    if newAssignedUser != "" && newAssignedUser !in db.users {
      return InvalidAssignedUser;
    }
    var data := TaskData(body, db.users);
    var newCompleted := data.completed;
    db.UpdateTask(id, Replace(data));
    if oldAssignedUser != newAssignedUser {
      if oldAssignedUser != "" {
        db.UpdateUser(oldAssignedUser, PullPending(id));
      }
      if newAssignedUser != "" && !newCompleted {
        db.UpdateUser(newAssignedUser, AddPending(id));
      }
    } else if oldAssignedUser != "" && oldAssignedUser == newAssignedUser {
      if oldCompleted != newCompleted {
        if newCompleted {
          db.UpdateUser(newAssignedUser, PullPending(id));
        } else {
          db.UpdateUser(newAssignedUser, AddPending(id));
        }
      }
    }
    r := Ok;
  }

  /** DELETE /tasks/:id: pull the id from the assigned user's list, then remove the task. */
  method Delete(db: Db, validId: string -> bool, id: string) returns (r: Reply)
    modifies db
    ensures !validId(id) ==> r == InvalidIdFormat && unchanged(db)
    ensures validId(id) && id !in old(db.tasks) ==> r == TaskNotFound && unchanged(db)
    ensures r == Ok <==> validId(id) && id in old(db.tasks)
    ensures r == Ok ==> db.tasks == old(db.tasks) - {id}
    ensures r == Ok ==> db.users == DeleteCompanion(old(db.users), id, old(db.tasks)[id])
  {
    if !validId(id) {
      return InvalidIdFormat;
    }
    if id !in db.tasks {
      return TaskNotFound;
    }
    var task := db.tasks[id];
    if task.assignedUser != "" {
      db.UpdateUser(task.assignedUser, PullPending(id));
    }
    db.DeleteTask(id);
    r := Ok;
  }

  // Local effects of the companion writes.

  /**
   * After a create, an assigned pending task is listed by its user exactly
   * once (the new id cannot already be listed there, the list is otherwise
   * kept), and no other user changes; an unassigned or completed task
   * changes no user.
   */
  lemma CreateCompanionEffect(users: map<UserId, User>, tid: TaskId, t: Task)
    ensures var after := CreateCompanion(users, tid, t);
      && after.Keys == users.Keys
      && (forall u :: u in users && u != t.assignedUser ==> after[u] == users[u])
      && (t.assignedUser == "" || t.completed ==> after == users)
      && (t.assignedUser != "" && !t.completed && t.assignedUser in users && tid !in users[t.assignedUser].pendingTasks ==>
            && multiset(after[t.assignedUser].pendingTasks)[tid] == 1
            && after[t.assignedUser].pendingTasks == users[t.assignedUser].pendingTasks + [tid])
  {
  }

  /**
   * An update touches at most the old and the new assignee, and when the
   * assignee changes the old one no longer lists the task while the new
   * one gains it only if it is still pending.
   */
  lemma UpdateCompanionUserChanged(users: map<UserId, User>, tid: TaskId, before: Task, after: Task)
    requires before.assignedUser != after.assignedUser
    ensures var next := UpdateCompanion(users, tid, before, after);
      && next.Keys == users.Keys
      && (forall u :: u in users && u != before.assignedUser && u != after.assignedUser ==> next[u] == users[u])
      && (before.assignedUser in users && before.assignedUser != "" ==>
            next[before.assignedUser].pendingTasks == Pull(users[before.assignedUser].pendingTasks, tid))
      && (after.assignedUser in users && after.assignedUser != "" ==>
            next[after.assignedUser].pendingTasks ==
              if after.completed then users[after.assignedUser].pendingTasks
              else AddToSet(users[after.assignedUser].pendingTasks, tid))
  {
  }

  /**
   * With the same non-empty assignee, completing the task pulls its id,
   * reopening it adds the id, and leaving `completed` as it was writes no user.
   */
  lemma UpdateCompanionSameUser(users: map<UserId, User>, tid: TaskId, before: Task, after: Task)
    requires before.assignedUser == after.assignedUser != "" && before.assignedUser in users
    ensures var u := after.assignedUser;
      var next := UpdateCompanion(users, tid, before, after);
      && (before.completed == after.completed ==> next == users)
      && (!before.completed && after.completed ==>
            next == users[u := users[u].(pendingTasks := Pull(users[u].pendingTasks, tid))])
      && (before.completed && !after.completed ==>
            next == users[u := users[u].(pendingTasks := AddToSet(users[u].pendingTasks, tid))])
  {
  }

  /** A delete pulls the id from the assigned user only, completed or not. */
  lemma DeleteCompanionEffect(users: map<UserId, User>, tid: TaskId, t: Task)
    ensures var next := DeleteCompanion(users, tid, t);
      && next.Keys == users.Keys
      && (forall u :: u in users && u != t.assignedUser ==> next[u] == users[u])
      && (t.assignedUser in users && t.assignedUser != "" ==>
            next[t.assignedUser].pendingTasks == Pull(users[t.assignedUser].pendingTasks, tid))
  {
  }

  // The task side keeps the pending-list relation for the task it writes.

  /** A new task whose id no user lists yet is tracked correctly after the create. */
  lemma CreateKeepsTracking(users: map<UserId, User>, tid: TaskId, t: Task)
    requires forall u :: u in users ==> tid !in users[u].pendingTasks
    ensures Tracks(CreateCompanion(users, tid, t), tid, t)
  {
  }

  /** If the old task was tracked correctly, the updated task is tracked correctly afterwards. */
  lemma UpdateKeepsTracking(users: map<UserId, User>, tid: TaskId, before: Task, after: Task)
    requires Tracks(users, tid, before)
    ensures Tracks(UpdateCompanion(users, tid, before, after), tid, after)
  {
  }

  /** If the task was tracked correctly, no user lists its id once it is deleted. */
  lemma DeleteLeavesNoListing(users: map<UserId, User>, tid: TaskId, t: Task)
    requires Tracks(users, tid, t)
    ensures var next := DeleteCompanion(users, tid, t);
      forall u :: u in next ==> tid !in next[u].pendingTasks
  {
  }

  // Listing

  /**
   * `GET /tasks`: the query parameters parsed by the middleware, then run
   * against the tasks (`stored`, in the store's natural order) with the
   * default limit. Malformed JSON answers 400 before the store is queried.
   */
  function List<D>(params: map<string, string>, parseJson: string -> Option<D>, stored: seq<Task>,
                   matches: (D, Task) -> bool, le: (D, Task, Task) -> bool): (r: Result<Outcome<Task>, Reply>)
    ensures r.Failure? <==> Parse(params, parseJson).Failure?
    ensures r.Failure? ==> r.error == InvalidJson
    ensures r.Success? ==> r.value == Execute(stored, Parse(params, parseJson).value, Some(DefaultLimit), matches, le)
  {
    var q := Parse(params, parseJson);
    if q.Failure? then Failure(q.error) else Success(Execute(stored, q.value, Some(DefaultLimit), matches, le))
  }

  /**
   * A task listing whose `limit` is absent, or is text `parseInt` reads as
   * NaN, returns at most 100 tasks, each of them one the filter selects.
   */
  lemma ListAtMostDefault<D>(params: map<string, string>, parseJson: string -> Option<D>, stored: seq<Task>,
                             matches: (D, Task) -> bool, le: (D, Task, Task) -> bool)
    requires "limit" !in params || ParseInt(params["limit"]).None?
    requires List(params, parseJson, stored, matches, le).Success?
    requires List(params, parseJson, stored, matches, le).value.Listed?
    ensures var listed := List(params, parseJson, stored, matches, le).value.records;
            && |listed| <= DefaultLimit
            && forall t :: t in listed ==> t in stored && Selects(Parse(params, parseJson).value.where, matches, t)
  {
    var q := Parse(params, parseJson).value;
    ListedWithinLimit(stored, q, Some(DefaultLimit), matches, le);
    ListedRecordsMatch(stored, q, Some(DefaultLimit), matches, le);
  }

  /** A positive numeric `limit` replaces the default, in both directions: more or fewer than 100. */
  lemma ListAtMostGivenLimit<D>(params: map<string, string>, parseJson: string -> Option<D>, stored: seq<Task>,
                                matches: (D, Task) -> bool, le: (D, Task, Task) -> bool, n: int)
    requires n > 0 && "limit" in params && params["limit"] == DecimalInt(n)
    requires List(params, parseJson, stored, matches, le).Success?
    requires List(params, parseJson, stored, matches, le).value.Listed?
    ensures EffectiveLimit(Parse(params, parseJson).value.limit, Some(DefaultLimit)) == Some(n)
    ensures |List(params, parseJson, stored, matches, le).value.records| <= n
    ensures "skip" !in params ==>
              var found := |Find(stored, Parse(params, parseJson).value.where, matches)|;
              |List(params, parseJson, stored, matches, le).value.records| == if n < found then n else found
  {
    var q := Parse(params, parseJson).value;
    NumericParameterRoundTrip(params, parseJson, "limit", n);
    ListedWithinLimit(stored, q, Some(DefaultLimit), matches, le);
  }

  /**
   * On this route `count=true` counts every match, while the same request
   * without `count`, `skip` and `limit` lists at most the default 100: above
   * 100 matches the count is larger than the list.
   */
  lemma CountExceedsListing<D>(params: map<string, string>, parseJson: string -> Option<D>, stored: seq<Task>,
                               matches: (D, Task) -> bool, le: (D, Task, Task) -> bool)
    requires "count" in params && params["count"] == "true"
    requires List(params, parseJson, stored, matches, le).Success?
    requires List(params, parseJson, stored, matches, le).value.count > DefaultLimit
    ensures var unpaged := params - {"skip", "limit", "count"};
            && List(unpaged, parseJson, stored, matches, le).Success?
            && List(unpaged, parseJson, stored, matches, le).value.Listed?
            && |List(unpaged, parseJson, stored, matches, le).value.records| == DefaultLimit
                 < List(params, parseJson, stored, matches, le).value.count
  {
    var q := Parse(params, parseJson).value;
    var unpaged := params - {"skip", "limit", "count"};
    NumericParametersNeverFail(params, parseJson);
    assert forall k :: k in {"where", "sort", "select"} ==> (k in params <==> k in unpaged);
    assert Parse(unpaged, parseJson).value == q.(count := None, skip := None, limit := None);
    CountExceedsDefaultPage(stored, q, Some(DefaultLimit), matches, le);
  }
}
