/**
 * The `/users` routes: create, update and delete a user. An update
 * reconciles the tasks named in the old and the new `pendingTasks` (two
 * loops of single-task writes); a delete unassigns every task of the user
 * in one bulk write.
 */
module UserRoutes {
  import opened Wrappers
  import opened Lists
  import opened Http
  import opened Store
  import opened ParseJsonQuery
  import opened BuildQuery

  const MissingNameOrEmail := Reply(400, "Name and email are required")
  const UserNotFound := Reply(404, "User not found")
  const InvalidTaskIds := Reply(400, "Invalid task IDs")

  /** The JSON body of a POST or PUT; an absent field is None. */
  datatype UserBody = UserBody(name: Option<string>, email: Option<string>, pendingTasks: Option<seq<TaskId>>)

  /** `req.body.name && req.body.email`. */
  predicate HasNameAndEmail(body: UserBody) {
    Truthy(body.name) && Truthy(body.email)
  }

  /** `req.body.pendingTasks || []`. */
  function PendingOf(body: UserBody): seq<TaskId> {
    body.pendingTasks.GetOr([])
  }

  /**
   * What the `countDocuments` check of a PUT admits: every listed id names a
   * stored task and no id is listed twice (a repeated id is counted once by
   * the store, so the count falls short of the list's length).
   */
  predicate Admissible(tasks: map<TaskId, Task>, ids: seq<TaskId>) {
    (forall x :: x in ids ==> x in tasks) && Distinct(ids)
  }

  /** The tasks after the first PUT loop: every task in `ids` is assigned to `uid` and reopened. */
  function AssignAll(tasks: map<TaskId, Task>, ids: seq<TaskId>, uid: UserId, uname: string): (r: map<TaskId, Task>)
    ensures r.Keys == tasks.Keys
  {
    map k | k in tasks :: if k in ids then ApplyTaskUpdate(tasks[k], AssignTo(uid, uname)) else tasks[k]
  }

  /** The tasks after the second PUT loop: every task in `ids` still assigned to `uid` is unassigned. */
  function UnassignOwned(tasks: map<TaskId, Task>, ids: seq<TaskId>, uid: UserId): (r: map<TaskId, Task>)
    ensures r.Keys == tasks.Keys
  {
    map k | k in tasks :: if k in ids && tasks[k].assignedUser == uid then ApplyTaskUpdate(tasks[k], Unassign) else tasks[k]
  }

  /**
   * The task collection after a PUT of user `uid` (named `uname`) whose
   * pending list goes from `oldList` to `newList`: the two loops over the
   * added and the removed ids, one after the other.
   */
  function Reconciled(tasks: map<TaskId, Task>, uid: UserId, uname: string, oldList: seq<TaskId>, newList: seq<TaskId>): (r: map<TaskId, Task>)
    ensures r.Keys == tasks.Keys
    ensures forall k :: k in tasks && (k !in oldList <==> k !in newList) ==> r[k] == tasks[k]
    ensures forall k :: k in tasks ==> r[k].name == tasks[k].name && r[k].description == tasks[k].description && r[k].deadline == tasks[k].deadline
  {
    UnassignOwned(AssignAll(tasks, Without(newList, oldList), uid, uname), Without(oldList, newList), uid)
  }

  /** One more iteration of the first loop. */
  lemma AssignAllStep(tasks: map<TaskId, Task>, ids: seq<TaskId>, x: TaskId, uid: UserId, uname: string)
    ensures UpdateTaskById(AssignAll(tasks, ids, uid, uname), x, AssignTo(uid, uname)) == AssignAll(tasks, ids + [x], uid, uname)
  {
    var cur := AssignAll(tasks, ids, uid, uname);
    if x in tasks {
      TaskUpdateIdempotent(tasks[x], AssignTo(uid, uname));
    }
    assert forall k :: k in tasks ==> UpdateTaskById(cur, x, AssignTo(uid, uname))[k] == AssignAll(tasks, ids + [x], uid, uname)[k];
  }

  /** One more iteration of the second loop, which re-reads the task before it writes. */
  lemma UnassignOwnedStep(tasks: map<TaskId, Task>, ids: seq<TaskId>, x: TaskId, uid: UserId)
    ensures var cur := UnassignOwned(tasks, ids, uid);
      (if x in cur && cur[x].assignedUser == uid then UpdateTaskById(cur, x, Unassign) else cur)
        == UnassignOwned(tasks, ids + [x], uid)
  {
    var cur := UnassignOwned(tasks, ids, uid);
    if x in tasks {
      TaskUpdateIdempotent(tasks[x], Unassign);
    }
    var next := if x in cur && cur[x].assignedUser == uid then UpdateTaskById(cur, x, Unassign) else cur;
    assert forall k :: k in tasks ==> next[k] == UnassignOwned(tasks, ids + [x], uid)[k];
  }

  /**
   * What a PUT does to each task: an added id (new list only) is assigned
   * to the user under the request's name and reopened; a removed id (old
   * list only) is unassigned if it is still assigned to this user and left
   * alone otherwise; every other task, including those on both lists, is
   * not written.
   */
  lemma ReconciledEffect(tasks: map<TaskId, Task>, uid: UserId, uname: string, oldList: seq<TaskId>, newList: seq<TaskId>)
    ensures var r := Reconciled(tasks, uid, uname, oldList, newList);
      && r.Keys == tasks.Keys
      && (forall k :: k in tasks && k in newList && k !in oldList ==>
            r[k] == tasks[k].(assignedUser := uid, assignedUserName := uname, completed := false))
      && (forall k :: k in tasks && k in oldList && k !in newList ==>
            r[k] == if tasks[k].assignedUser == uid then tasks[k].(assignedUser := "", assignedUserName := Unassigned) else tasks[k])
      && (forall k :: k in tasks && (k in newList <==> k in oldList) ==> r[k] == tasks[k])
  {
  }

  /**
   * The tasks after DELETE /users/:id: every task assigned to the user is
   * unassigned by one `updateMany`.
   */
  function Cascade(tasks: map<TaskId, Task>, uid: UserId): (r: map<TaskId, Task>)
    ensures r.Keys == tasks.Keys
    ensures forall k :: k in tasks && tasks[k].assignedUser != uid ==> r[k] == tasks[k]
    ensures forall k :: k in tasks ==> r[k].completed == tasks[k].completed && r[k].name == tasks[k].name
  {
    UpdateTasksAssignedTo(tasks, uid, Unassign)
  }

  /**
   * The cascade leaves no task assigned to the deleted user, keeps every
   * task's `completed`, name, description and deadline, and does not touch
   * tasks assigned elsewhere.
   */
  lemma CascadeEffect(tasks: map<TaskId, Task>, uid: UserId)
    requires uid != ""
    ensures var r := Cascade(tasks, uid);
      && r.Keys == tasks.Keys
      && (forall k :: k in r ==> r[k].assignedUser != uid)
      && (forall k :: k in tasks ==> r[k].completed == tasks[k].completed && r[k].name == tasks[k].name)
      && (forall k :: k in tasks && tasks[k].assignedUser == uid ==> r[k].assignedUser == "" && r[k].assignedUserName == Unassigned)
      && (forall k :: k in tasks && tasks[k].assignedUser != uid ==> r[k] == tasks[k])
  {
  }

  /**
   * Deleting a user whose pending tasks are all assigned to it leaves each
   * of those tasks unassigned.
   */
  lemma CascadeClearsPending(tasks: map<TaskId, Task>, users: map<UserId, User>, uid: UserId)
    requires uid in users
    requires forall k :: k in users[uid].pendingTasks ==> k in tasks && tasks[k].assignedUser == uid
    ensures forall k :: k in users[uid].pendingTasks ==>
      Cascade(tasks, uid)[k].assignedUser == "" && Cascade(tasks, uid)[k].assignedUserName == Unassigned
  {
  }

  /** POST /users, storing the new user under the id `newId` the store generates. */
  method Create(db: Db, body: UserBody, newId: UserId) returns (r: Reply)
    requires newId !in db.users
    modifies db
    ensures !HasNameAndEmail(body) ==> r == MissingNameOrEmail && unchanged(db)
    ensures HasNameAndEmail(body) ==> r == Created
    ensures r == Created ==> db.users == old(db.users)[newId := User(body.name.value, body.email.value, PendingOf(body))]
    ensures db.tasks == old(db.tasks)
  {
    if !HasNameAndEmail(body) {
      return MissingNameOrEmail;
    }
    db.SaveUser(newId, User(body.name.value, body.email.value, PendingOf(body)));
    r := Created;
  }

  /** GET /users/:id (without projection). */
  method Get(db: Db, validId: string -> bool, id: string) returns (r: Result<User, Reply>)
    ensures !validId(id) ==> r == Failure(InvalidIdFormat)
    ensures validId(id) && id !in db.users ==> r == Failure(UserNotFound)
    ensures validId(id) && id in db.users ==> r == Success(db.users[id])
  {
    if !validId(id) {
      return Failure(InvalidIdFormat);
    }
    if id !in db.users {
      return Failure(UserNotFound);
    }
    r := Success(db.users[id]);
  }

  /** The first PUT loop: `findByIdAndUpdate` each added id with the user's id and name, reopened. */
  method AssignEach(db: Db, ids: seq<TaskId>, uid: UserId, uname: string)
    modifies db
    ensures db.tasks == AssignAll(old(db.tasks), ids, uid, uname)
    ensures db.users == old(db.users)
  {
    ghost var start := db.tasks;
    assert AssignAll(start, ids[..0], uid, uname) == start;
    var i := 0;
    while i < |ids|
      invariant 0 <= i <= |ids|
      invariant db.users == old(db.users)
      invariant db.tasks == AssignAll(start, ids[..i], uid, uname)
    {
      AssignAllStep(start, ids[..i], ids[i], uid, uname);
      assert ids[..i + 1] == ids[..i] + [ids[i]];
      db.UpdateTask(ids[i], AssignTo(uid, uname));
      i := i + 1;
    }
    assert ids[..|ids|] == ids;
  }

  /**
   * How many leading ids `findById` accepts: the first id that is not
   * well-formed makes it throw a cast error, which ends the loop.
   */
  function WellFormedPrefix(ids: seq<TaskId>, validId: string -> bool): (n: nat)
    ensures n <= |ids|
    ensures forall i :: 0 <= i < n ==> validId(ids[i])
    ensures n < |ids| ==> !validId(ids[n])
  {
    if ids == [] || !validId(ids[0]) then 0 else 1 + WellFormedPrefix(ids[1..], validId)
  }

  /**
   * The second PUT loop: re-read each removed id and unassign the task if it
   * is still the user's. A malformed id throws at its `findById`, after the
   * writes for the ids before it; `done` is the number of ids processed.
   */
  method UnassignEachOwned(db: Db, validId: string -> bool, ids: seq<TaskId>, uid: UserId) returns (done: nat)
    modifies db
    ensures done == WellFormedPrefix(ids, validId)
    ensures db.tasks == UnassignOwned(old(db.tasks), ids[..done], uid)
    ensures db.users == old(db.users)
  {
    ghost var start := db.tasks;
    assert UnassignOwned(start, ids[..0], uid) == start;
    var j := 0;
    while j < |ids|
      invariant 0 <= j <= |ids|
      invariant forall i :: 0 <= i < j ==> validId(ids[i])
      invariant db.users == old(db.users)
      invariant db.tasks == UnassignOwned(start, ids[..j], uid)
    {
      if !validId(ids[j]) {
        return j;
      }
      UnassignOwnedStep(start, ids[..j], ids[j], uid);
      assert ids[..j + 1] == ids[..j] + [ids[j]];
      var t := ids[j];
      if t in db.tasks && db.tasks[t].assignedUser == uid {
        db.UpdateTask(t, Unassign);
      }
      j := j + 1;
    }
    done := j;
  }

  /** PUT /users/:id: validate the new list, reconcile the tasks, then replace the user's fields. */
  method Update(db: Db, validId: string -> bool, id: string, body: UserBody) returns (r: Reply)
    modifies db
    ensures !validId(id) ==> r == InvalidIdFormat && unchanged(db)
    ensures validId(id) && !HasNameAndEmail(body) ==> r == MissingNameOrEmail && unchanged(db)
    ensures validId(id) && HasNameAndEmail(body) && id !in old(db.users) ==> r == UserNotFound && unchanged(db)
    ensures validId(id) && HasNameAndEmail(body) && id in old(db.users) && !Admissible(old(db.tasks), PendingOf(body))
      ==> r == InvalidTaskIds && unchanged(db)
    ensures validId(id) && HasNameAndEmail(body) && id in old(db.users) && Admissible(old(db.tasks), PendingOf(body)) ==>
      var oldList, newList := old(db.users)[id].pendingTasks, PendingOf(body);
      var toRemove := Without(oldList, newList);
      var done := WellFormedPrefix(toRemove, validId);
      && (r == Ok <==> done == |toRemove|)
      && (r != Ok ==> r == InvalidIdFormat && db.users == old(db.users)
                      && db.tasks == UnassignOwned(AssignAll(old(db.tasks), Without(newList, oldList), id, body.name.value),
                                                   toRemove[..done], id))
    ensures r == Ok ==> validId(id) && HasNameAndEmail(body) && id in old(db.users) && Admissible(old(db.tasks), PendingOf(body))
    ensures r == Ok ==> db.users == old(db.users)[id := User(body.name.value, body.email.value, PendingOf(body))]
    ensures r == Ok ==> db.tasks == Reconciled(old(db.tasks), id, body.name.value, old(db.users)[id].pendingTasks, PendingOf(body))
  {
    if !validId(id) {
      return InvalidIdFormat;
    }
    if !HasNameAndEmail(body) {
      return MissingNameOrEmail;
    }
    if id !in db.users {
      return UserNotFound;
    }
    var name := body.name.value;
    var oldPending := db.users[id].pendingTasks;
    var newPending := PendingOf(body);
    if |newPending| > 0 {
      var found := db.CountTasks(newPending);
      if found != |newPending| {
        return InvalidTaskIds;
      }
    }
    var toAdd := Without(newPending, oldPending);
    var toRemove := Without(oldPending, newPending);
    AssignEach(db, toAdd, id, name);
    var done := UnassignEachOwned(db, validId, toRemove, id);
    if done < |toRemove| {
      return InvalidIdFormat;
    }
    assert toRemove[..done] == toRemove;
    db.UpdateUser(id, SetFields(name, body.email.value, newPending));
    r := Ok;
  }

  /** DELETE /users/:id: unassign the user's tasks, then remove the user. */
  method Delete(db: Db, validId: string -> bool, id: string) returns (r: Reply)
    modifies db
    ensures !validId(id) ==> r == InvalidIdFormat && unchanged(db)
    ensures validId(id) && id !in old(db.users) ==> r == UserNotFound && unchanged(db)
    ensures r == Ok <==> validId(id) && id in old(db.users)
    ensures r == Ok ==> db.tasks == Cascade(old(db.tasks), id) && db.users == old(db.users) - {id}
  {
    if !validId(id) {
      return InvalidIdFormat;
    }
    if id !in db.users {
      return UserNotFound;
    }
    db.UpdateManyTasks(id, Unassign);
    db.DeleteUser(id);
    r := Ok;
  }

  // Where the user routes do not keep the pending lists in step with the tasks.

  /**
   * A POST stores `pendingTasks` as given: a user created with a task that
   * is not assigned to it lists that task, so the task is no longer tracked
   * correctly.
   */
  lemma CreateMayListForeignTask(users: map<UserId, User>, tid: TaskId, t: Task, newId: UserId, body: UserBody)
    requires HasNameAndEmail(body) && tid in PendingOf(body) && t.assignedUser != newId
    ensures !Tracks(users[newId := User(body.name.value, body.email.value, PendingOf(body))], tid, t)
  {
    var next := users[newId := User(body.name.value, body.email.value, PendingOf(body))];
    assert newId in next && tid in next[newId].pendingTasks;
  }

  /**
   * A PUT that takes over a pending task of another user reassigns the task
   * but leaves it on the previous owner's list, so a correctly tracked
   * task stops being tracked correctly.
   */
  lemma UpdateLeavesTaskOnPreviousOwner(
    tasks: map<TaskId, Task>, users: map<UserId, User>, uid: UserId, tid: TaskId, body: UserBody)
    requires uid in users && HasNameAndEmail(body)
    requires tid in tasks && Tracks(users, tid, tasks[tid])
    requires tasks[tid].assignedUser != "" && tasks[tid].assignedUser != uid && tasks[tid].assignedUser in users
    requires !tasks[tid].completed
    requires tid in PendingOf(body) && tid !in users[uid].pendingTasks
    ensures var previous := tasks[tid].assignedUser;
      var nextUsers := users[uid := User(body.name.value, body.email.value, PendingOf(body))];
      var nextTasks := Reconciled(tasks, uid, body.name.value, users[uid].pendingTasks, PendingOf(body));
      && nextTasks[tid].assignedUser == uid
      && tid in nextUsers[previous].pendingTasks
      && !Tracks(nextUsers, tid, nextTasks[tid])
  {
    var previous := tasks[tid].assignedUser;
    var nextUsers := users[uid := User(body.name.value, body.email.value, PendingOf(body))];
    ReconciledEffect(tasks, uid, body.name.value, users[uid].pendingTasks, PendingOf(body));
    assert tid in users[previous].pendingTasks;
    assert nextUsers[previous] == users[previous];
  }

  /**
   * A PUT that renames the user does not write the tasks kept on both
   * lists, so their `assignedUserName` still carries the old name.
   */
  lemma RenameLeavesStaleName(
    tasks: map<TaskId, Task>, uid: UserId, newName: string, oldList: seq<TaskId>, newList: seq<TaskId>, tid: TaskId)
    requires tid in tasks && tid in oldList && tid in newList
    requires tasks[tid].assignedUser == uid && tasks[tid].assignedUserName != newName
    ensures var r := Reconciled(tasks, uid, newName, oldList, newList);
      r[tid].assignedUser == uid && r[tid].assignedUserName != newName
  {
    ReconciledEffect(tasks, uid, newName, oldList, newList);
  }

  // Listing

  /**
   * `GET /users`: the query parameters parsed by the middleware, then run
   * against the users (`stored`, in the store's natural order) with no
   * default limit. Malformed JSON answers 400 before the store is queried.
   */
  function List<D>(params: map<string, string>, parseJson: string -> Option<D>, stored: seq<User>,
                   matches: (D, User) -> bool, le: (D, User, User) -> bool): (r: Result<Outcome<User>, Reply>)
    ensures r.Failure? <==> Parse(params, parseJson).Failure?
    ensures r.Failure? ==> r.error == InvalidJson
    ensures r.Success? ==> r.value == Execute(stored, Parse(params, parseJson).value, None, matches, le)
  {
    var q := Parse(params, parseJson);
    if q.Failure? then Failure(q.error) else Success(Execute(stored, q.value, None, matches, le))
  }

  /**
   * With no `skip`, `limit` or `count` parameter a user listing is never cut
   * short: it holds every user the filter selects, each as often as stored.
   */
  lemma ListUnbounded<D>(params: map<string, string>, parseJson: string -> Option<D>, stored: seq<User>,
                         matches: (D, User) -> bool, le: (D, User, User) -> bool)
    requires "skip" !in params && "limit" !in params && "count" !in params
    requires List(params, parseJson, stored, matches, le).Success?
    ensures var q := Parse(params, parseJson).value;
            var listed := List(params, parseJson, stored, matches, le).value;
            && listed.Listed?
            && forall u :: multiset(listed.records)[u] == if Selects(q.where, matches, u) then multiset(stored)[u] else 0
  {
    var q := Parse(params, parseJson).value;
    forall u
      ensures multiset(Find(stored, q.where, matches))[u] == if Selects(q.where, matches, u) then multiset(stored)[u] else 0
    {
      FindMultiplicity(stored, q.where, matches, u);
    }
  }
}
