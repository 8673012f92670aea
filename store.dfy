/**
 * The two collections the routes read and write: Tasks and Users, keyed by
 * id, and the store operations the handlers call on them (Mongoose's
 * `save`, `findByIdAndUpdate`, `findByIdAndDelete`, `updateMany` and
 * `countDocuments`). Each operation is one write of a sequential chain;
 * nothing here fails midway.
 */
module Store {
  import opened Lists

  type TaskId = string
  type UserId = string

  /** The sentinel stored as `assignedUserName` when a task has no user. */
  const Unassigned := "unassigned"

  /** A task document; `assignedUser` is a user id or "" for none. */
  datatype Task = Task(
    name: string,
    description: string,
    deadline: string,
    completed: bool,
    assignedUser: UserId,
    assignedUserName: string)

  /** A user document; `pendingTasks` is stored exactly as it was written. */
  datatype User = User(name: string, email: string, pendingTasks: seq<TaskId>)

  /** The update documents the routes pass to `findByIdAndUpdate`/`updateMany` on tasks. */
  datatype TaskUpdate =
    | Replace(task: Task)                           // all six fields set (task PUT)
    | AssignTo(user: UserId, userName: string)      // assignedUser, assignedUserName, completed := false
    | Unassign                                      // assignedUser := "", assignedUserName := "unassigned"

  /** The update documents the routes pass to `findByIdAndUpdate` on users. */
  datatype UserUpdate =
    | AddPending(task: TaskId)                      // {$addToSet: {pendingTasks: task}}
    | PullPending(task: TaskId)                     // {$pull: {pendingTasks: task}}
    | SetFields(name: string, email: string, pendingTasks: seq<TaskId>)

  /** The task after an update document is applied; fields it does not name keep their values. */
  function ApplyTaskUpdate(t: Task, u: TaskUpdate): (r: Task)
    ensures !u.Replace? ==> r.name == t.name && r.description == t.description && r.deadline == t.deadline
    ensures u.Unassign? ==> r.completed == t.completed && r.assignedUser == "" && r.assignedUserName == Unassigned
    ensures u.AssignTo? ==> !r.completed && r.assignedUser == u.user && r.assignedUserName == u.userName
    ensures u.Replace? ==> r == u.task
  {
    match u
    case Replace(n) => n
    case AssignTo(uid, uname) => t.(assignedUser := uid, assignedUserName := uname, completed := false)
    case Unassign => t.(assignedUser := "", assignedUserName := Unassigned)
  }

  /**
   * Every task update document sets fields to fixed values, so applying it
   * a second time changes nothing.
   */
  lemma TaskUpdateIdempotent(t: Task, u: TaskUpdate)
    ensures ApplyTaskUpdate(ApplyTaskUpdate(t, u), u) == ApplyTaskUpdate(t, u)
  {
  }

  /**
   * The user after an update document is applied: `$addToSet` and `$pull`
   * touch only the pending list, keeping its other entries in order.
   */
  function ApplyUserUpdate(u: User, upd: UserUpdate): (r: User)
    ensures !upd.SetFields? ==> r.name == u.name && r.email == u.email
    ensures upd.AddPending? ==> upd.task in r.pendingTasks && |u.pendingTasks| <= |r.pendingTasks| && r.pendingTasks[..|u.pendingTasks|] == u.pendingTasks
    ensures upd.PullPending? ==> upd.task !in r.pendingTasks
    ensures upd.PullPending? ==> forall x :: x != upd.task ==> multiset(r.pendingTasks)[x] == multiset(u.pendingTasks)[x]
    ensures upd.SetFields? ==> r == User(upd.name, upd.email, upd.pendingTasks)
  {
    match upd
    case AddPending(tid) => u.(pendingTasks := AddToSet(u.pendingTasks, tid))
    case PullPending(tid) => u.(pendingTasks := Pull(u.pendingTasks, tid))
    case SetFields(n, e, p) => User(n, e, p)
  }

  /**
   * `Task.findByIdAndUpdate(id, update)`: the document with that id is
   * updated; when there is none, nothing changes.
   */
  function UpdateTaskById(tasks: map<TaskId, Task>, id: TaskId, u: TaskUpdate): (r: map<TaskId, Task>)
    ensures r.Keys == tasks.Keys
    ensures id !in tasks ==> r == tasks
    ensures id in tasks ==> r[id] == ApplyTaskUpdate(tasks[id], u)
    ensures forall k :: k in tasks && k != id ==> r[k] == tasks[k]
  {
    if id in tasks then tasks[id := ApplyTaskUpdate(tasks[id], u)] else tasks
  }

  /** `User.findByIdAndUpdate(id, update)`: as for tasks, a missing id changes nothing. */
  function UpdateUserById(users: map<UserId, User>, id: UserId, upd: UserUpdate): (r: map<UserId, User>)
    ensures r.Keys == users.Keys
    ensures id !in users ==> r == users
    ensures id in users ==> r[id] == ApplyUserUpdate(users[id], upd)
    ensures forall k :: k in users && k != id ==> r[k] == users[k]
  {
    if id in users then users[id := ApplyUserUpdate(users[id], upd)] else users
  }

  /**
   * `Task.updateMany({assignedUser: uid}, update)`: every task assigned to
   * `uid` is updated, every other task is left as it was.
   */
  function UpdateTasksAssignedTo(tasks: map<TaskId, Task>, uid: UserId, u: TaskUpdate): (r: map<TaskId, Task>)
    ensures r.Keys == tasks.Keys
    ensures forall k :: k in tasks && tasks[k].assignedUser != uid ==> r[k] == tasks[k]
    ensures forall k :: k in tasks && tasks[k].assignedUser == uid ==> r[k] == ApplyTaskUpdate(tasks[k], u)
  {
    map k | k in tasks :: if tasks[k].assignedUser == uid then ApplyTaskUpdate(tasks[k], u) else tasks[k]
  }

  /**
   * The relation the pending lists are meant to keep for one task `t` with
   * id `tid`: a user lists `tid` exactly when the task is assigned to that
   * user and not completed. The routes keep it for the task they touch
   * (see the task route lemmas); they do not keep it for every task.
   */
  ghost predicate Tracks(users: map<UserId, User>, tid: TaskId, t: Task) {
    forall u :: u in users ==>
      (tid in users[u].pendingTasks <==> t.assignedUser != "" && u == t.assignedUser && !t.completed)
  }

  /** The backing store: the Task and the User collection. */
  class Db {
    var tasks: map<TaskId, Task>
    var users: map<UserId, User>

    constructor ()
      ensures tasks == map[] && users == map[]
    {
      tasks := map[];
      users := map[];
    }

    /** `new Task(t).save()` under the id the store generated. */
    method SaveTask(id: TaskId, t: Task)
      requires id !in tasks
      modifies this
      ensures tasks == old(tasks)[id := t] && users == old(users)
    {
      tasks := tasks[id := t];
    }

    /** `new User(u).save()` under the id the store generated. */
    method SaveUser(id: UserId, u: User)
      requires id !in users
      modifies this
      ensures users == old(users)[id := u] && tasks == old(tasks)
    {
      users := users[id := u];
    }

    /** `Task.findByIdAndUpdate(id, update)`. */
    method UpdateTask(id: TaskId, u: TaskUpdate)
      modifies this
      ensures tasks == UpdateTaskById(old(tasks), id, u) && users == old(users)
    {
      tasks := UpdateTaskById(tasks, id, u);
    }

    /** `User.findByIdAndUpdate(id, update)`. */
    method UpdateUser(id: UserId, upd: UserUpdate)
      modifies this
      ensures users == UpdateUserById(old(users), id, upd) && tasks == old(tasks)
    {
      users := UpdateUserById(users, id, upd);
    }

    /** `Task.updateMany({assignedUser: uid}, update)`. */
    method UpdateManyTasks(uid: UserId, u: TaskUpdate)
      modifies this
      ensures tasks == UpdateTasksAssignedTo(old(tasks), uid, u) && users == old(users)
    {
      tasks := UpdateTasksAssignedTo(tasks, uid, u);
    }

    /** `Task.findByIdAndDelete(id)`; a missing id changes nothing. */
    method DeleteTask(id: TaskId)
      modifies this
      ensures tasks == old(tasks) - {id} && users == old(users)
    {
      tasks := tasks - {id};
    }

    /** `User.findByIdAndDelete(id)`; a missing id changes nothing. */
    method DeleteUser(id: UserId)
      modifies this
      ensures users == old(users) - {id} && tasks == old(tasks)
    {
      users := users - {id};
    }

    /** `Task.countDocuments({_id: {$in: ids}})`. */
    method CountTasks(ids: seq<TaskId>) returns (n: nat)
      ensures n == CountIn(tasks.Keys, ids)
      ensures n == |ids| <==> (forall x :: x in ids ==> x in tasks) && Distinct(ids)
    {
      CountInExact(tasks.Keys, ids);
      n := CountIn(tasks.Keys, ids);
    }
  }
}
