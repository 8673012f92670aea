# Task manager API — a Dafny model of its core

This project models the core of a small REST back end for tasks and users.
The back end is an Express application over two MongoDB collections, Tasks
and Users. A task may be assigned to a user. Each user keeps a `pendingTasks`
list of task ids, and each task keeps a denormalised copy of its user's name.

The model covers five parts:

- **Task routes** (`routes/tasks.js`). Create, read, replace and delete a
  task, plus the companion writes that keep the assigned user's
  `pendingTasks` in step. These use `$addToSet` on create, `$pull`/`$addToSet`
  on a change of user or of `completed`, and `$pull` on delete. The list
  route applies a default page size of 100, which `count=true` ignores: above
  100 matches the count is larger than the unpaged list
  (`TaskRoutes.CountExceedsListing`).
- **User routes** (`routes/users.js`). Create, read, replace and delete a user.
  A replacement checks the new `pendingTasks` with `countDocuments`, then
  runs two loops of single-task writes: assign the added ids, and unassign
  the removed ids the user still owns. A delete unassigns all the user's tasks
  with one `updateMany`.
- **Query-string middleware** (`middleware/parseJsonQuery.js`). It turns
  `where`/`sort`/`select`/`skip`/`limit`/`count` into a query descriptor.
  A malformed JSON parameter gives 400 with no descriptor at all.
  `parseInt(s, 10)` is modelled in full: leading white space, an optional
  sign, and the longest run of digits.
- **Query builder** (`utils/buildQuery.js`). It runs find, sort, skip and
  limit over a sequence of stored records, or counts the matches.
- **Error handler** (`middleware/errorHandler.js`). It classifies an error as
  duplicate key, validation error, cast error or anything else. The
  validation branch's `for…in` loop is modelled as a method.

Layout:

- `wrappers.dfy`: Option and Result.
- `http.dfy`: replies, and JavaScript truthiness of optional body fields.
- `lists.dfy`: `$addToSet`, `$pull`, the `filter` set difference, and the `$in` count.
- `store.dfy`: the documents and the update documents, plus the class `Db`
  with the two maps and the store calls as methods.
- `tasks.dfy`, `users.dfy`: the handlers, as methods over a `Db`.
- `parse_json_query.dfy`, `build_query.dfy`, `error_handler.dfy`: the other three parts.

The store is a `Db` object whose `tasks` and `users` maps the handlers update
in place. Each handler's postcondition gives:

- its reply;
- on an error path, that nothing was written, except on the cast-error
  path of a user PUT, which keeps the writes made before it
  (`UserRoutes.Update`);
- on success, the new maps, in terms of the pure functions
  `TaskData`, `CreateCompanion`, `UpdateCompanion`, `DeleteCompanion`,
  `Reconciled` and `Cascade`.

The lemmas state what those functions do.

The application keeps no global invariant between the two collections. The
model states the local one the task routes keep for the task they write
(`Store.Tracks`, the user lists the task exactly when the task is assigned to
that user and open). Two lemmas show where the user routes break it
(`UserRoutes.CreateMayListForeignTask`,
`UserRoutes.UpdateLeavesTaskOnPreviousOwner`). A third,
`UserRoutes.RenameLeavesStaleName`, shows that a renaming PUT leaves a
stale `assignedUserName` on tasks.

## Model

| member | source | states |
|---|---|---|
| Http.OrEmpty | routes/tasks.js:30 | `x \|\| ''`: the result is empty exactly when the field is absent or empty, otherwise it is the field's text |
| Lists.AddToSet | routes/tasks.js:54-57 | `$addToSet`: the value is present afterwards; the old array is kept as a prefix; at most one entry is added, none when the value was already there (also as multisets) |
| Lists.Pull | routes/tasks.js:193-197 | `$pull`: no occurrence of the value remains, every other value keeps its multiplicity, and an array without the value is unchanged |
| Lists.Without | routes/users.js:107-112 | the `filter` difference keeps exactly the elements of the first list that are not in the second, and is never longer |
| Lists.WithoutMultiplicity | routes/users.js:107-112 | a kept element occurs in the difference as often as in the original list |
| Lists.WithoutAppend | routes/users.js:107-112 | the difference distributes over concatenation, so it keeps the original order |
| Lists.WithoutDisjoint | routes/users.js:107-112 | a list sharing nothing with the second list is returned unchanged |
| Lists.PullAfterAddToSet | routes/tasks.js:146-157 | pulling after adding the same id gives the same array as pulling alone |
| Lists.AddToSetAfterPull | routes/tasks.js:146-157 | adding after pulling leaves the id exactly once, at the end |
| Lists.CountIn | routes/users.js:97-99 | the `$in` count of an id list never exceeds the list's length |
| Lists.CountInExact | routes/users.js:96-105 | the count equals the list's length if and only if every id names a stored task and no id is repeated |
| Store.ApplyTaskUpdate | routes/users.js:114-130 | the update documents set only their own fields: an assignment sets user, name and `completed := false`; an unassignment sets `""`/`"unassigned"` and keeps `completed`; both keep name, description and deadline |
| Store.TaskUpdateIdempotent | routes/users.js:114-130 | applying a task update document twice is the same as applying it once |
| Store.ApplyUserUpdate | routes/tasks.js:146-170 | `$addToSet`/`$pull` touch only the pending list (kept as a prefix, resp. keeping the other ids' multiplicities); a replacement sets all three fields |
| Store.UpdateTaskById | routes/tasks.js:140-144 | `findByIdAndUpdate` on tasks changes the one task with that id, and nothing when the id is missing |
| Store.UpdateUserById | routes/users.js:138-142 | `findByIdAndUpdate` on users changes the one user with that id, and nothing when the id is missing |
| Store.UpdateTasksAssignedTo | routes/users.js:165-171 | `updateMany` applies the update to exactly the tasks assigned to the user and leaves every other task as it was |
| Store.Db.SaveTask | routes/tasks.js:51-52 | saving adds the task under its fresh id and changes nothing else |
| Store.Db.SaveUser | routes/users.js:35-36 | saving adds the user under its fresh id and changes nothing else |
| Store.Db.UpdateTask | routes/tasks.js:140-144 | the task map becomes `UpdateTaskById` of the old one; users unchanged |
| Store.Db.UpdateUser | routes/tasks.js:55-57 | the user map becomes `UpdateUserById` of the old one; tasks unchanged |
| Store.Db.UpdateManyTasks | routes/users.js:165-171 | the task map becomes `UpdateTasksAssignedTo` of the old one; users unchanged |
| Store.Db.DeleteTask | routes/tasks.js:199 | the task id is removed from the map, nothing else changes |
| Store.Db.DeleteUser | routes/users.js:173 | the user id is removed from the map, nothing else changes |
| Store.Db.CountTasks | routes/users.js:96-105 | returns the `$in` count; it equals the list's length if and only if all ids exist and none repeats |
| TaskRoutes.AssignedName | routes/tasks.js:29-40 | the denormalised name is `"unassigned"` without a user, the user's name otherwise |
| TaskRoutes.TaskData | routes/tasks.js:42-49 | the stored task takes name and deadline from the body; description defaults to `""` and `completed` to false; it carries the assignee and its name |
| TaskRoutes.Create | routes/tasks.js:21-64 | missing name/deadline → 400, unknown assignee → 400, both with no write; otherwise 201, the new task is `TaskData`, and the users change by `CreateCompanion` |
| TaskRoutes.Get | routes/tasks.js:66-92 | a malformed id → 400, a missing task → 404, otherwise the stored task |
| TaskRoutes.Update | routes/tasks.js:94-176 | checks run in order: id format 400, name/deadline 400, missing task 404, unknown assignee 400, each with no write; on 200 the task is replaced by `TaskData` and the users change by `UpdateCompanion` of the old and new task |
| TaskRoutes.Delete | routes/tasks.js:178-205 | a malformed id → 400 and a missing task → 404, with no write; on 200 the task is gone and the users change by `DeleteCompanion` |
| TaskRoutes.CreateCompanionEffect | routes/tasks.js:54-57 | after a create, an assigned open task is listed once at the end of its user's list; no other user changes; an unassigned or completed task changes no user |
| TaskRoutes.UpdateCompanionUserChanged | routes/tasks.js:146-157 | on a change of user the old user's list is `$pull`ed of the id; the new user's list gets the id by `$addToSet` if the task is open and is unchanged otherwise; no other user changes |
| TaskRoutes.UpdateCompanionSameUser | routes/tasks.js:158-170 | with the same user, closing pulls the id, reopening adds it, and an unchanged `completed` writes no user |
| TaskRoutes.DeleteCompanionEffect | routes/tasks.js:193-197 | a delete pulls the id from the assigned user whether or not the task was completed, and changes no other user |
| TaskRoutes.CreateCompanion | routes/tasks.js:54-57 | the companion write of a create keeps the set of users, changes no user but the assignee, and changes no user's name or email |
| TaskRoutes.UpdateCompanion | routes/tasks.js:146-170 | the companion writes of an update keep the set of users, change no user but the old and the new assignee, and change no user's name or email |
| TaskRoutes.DeleteCompanion | routes/tasks.js:193-197 | the companion write of a delete keeps the set of users, changes no user but the assignee, and changes no user's name or email |
| TaskRoutes.CreateKeepsTracking | routes/tasks.js:54-57 | a new task that no user lists yet is listed exactly by its user, and only while open |
| TaskRoutes.UpdateKeepsTracking | routes/tasks.js:146-170 | if the pending lists tracked the task before a PUT, they track the replaced task after it |
| TaskRoutes.DeleteLeavesNoListing | routes/tasks.js:193-199 | if the lists tracked the task, no user lists its id after the delete |
| TaskRoutes.List | routes/tasks.js:12-19 | a malformed JSON parameter → 400 "Invalid JSON in query parameters"; otherwise the query runs with a default limit of 100 |
| TaskRoutes.ListAtMostDefault | routes/tasks.js:14 | with no `limit`, or one `parseInt` reads as NaN, a task listing holds at most 100 tasks, each stored and selected by the filter |
| TaskRoutes.ListAtMostGivenLimit | routes/tasks.js:14 | a positive numeric `limit` becomes the limit in force in place of the default 100, bounds the listing, and without `skip` the listing holds exactly the smaller of the limit and the number of matches |
| TaskRoutes.CountExceedsListing | routes/tasks.js:14 | on GET /tasks, above 100 matches `count=true` gives more than the same request without `count`, `skip` and `limit` lists, which is exactly 100 |
| UserRoutes.AssignAll | routes/users.js:114-120 | the first PUT loop's result keeps the set of task ids |
| UserRoutes.UnassignOwned | routes/users.js:122-130 | the second PUT loop's result keeps the set of task ids |
| UserRoutes.WellFormedPrefix | routes/users.js:122-123 | the removed ids `findById` accepts before the first malformed one: all of them well-formed, and the next one, if any, malformed |
| UserRoutes.Reconciled | routes/users.js:107-130 | the two PUT loops keep the set of task ids, leave every task on both lists or on neither as it was, and never change a task's name, description or deadline |
| UserRoutes.AssignAllStep | routes/users.js:114-120 | one more `findByIdAndUpdate` of the first loop extends the assigned prefix by one id, a missing id included |
| UserRoutes.UnassignOwnedStep | routes/users.js:122-130 | one more re-read and conditional write of the second loop extends the processed prefix by one id |
| UserRoutes.ReconciledEffect | routes/users.js:107-130 | after a PUT, added ids are assigned to the user under the request's name and reopened; removed ids are unassigned only if still owned by the user; all other tasks, including those on both lists, are unchanged |
| UserRoutes.CascadeEffect | routes/users.js:165-171 | the cascade leaves no task assigned to the deleted user, resets its tasks to `""`/`"unassigned"`, keeps `completed` and name, and leaves other tasks untouched |
| UserRoutes.CascadeClearsPending | routes/users.js:165-171 | every task the user listed and owned is unassigned by the cascade |
| UserRoutes.Cascade | routes/users.js:165-171 | the cascade keeps the set of task ids, leaves tasks assigned elsewhere as they were, and keeps every task's `completed` and name |
| UserRoutes.Create | routes/users.js:21-42 | missing name/email → 400 with no write; otherwise 201, and the user is stored with `pendingTasks` as given (default `[]`) and no task is touched |
| UserRoutes.Get | routes/users.js:44-70 | a malformed id → 400, a missing user → 404, otherwise the stored user |
| UserRoutes.AssignEach | routes/users.js:114-120 | the loop leaves the tasks equal to `AssignAll` of the old tasks and the users unchanged |
| UserRoutes.UnassignEachOwned | routes/users.js:122-130 | the loop processes the removed ids up to the first malformed one, where `findById` throws; the tasks become `UnassignOwned` of that prefix and the users are unchanged |
| UserRoutes.Update | routes/users.js:72-148 | id format 400, name/email 400, missing user 404, and a new list naming a missing task or repeating an id 400, each with no write; a malformed stored id among the removed ones gives 400 "Invalid ID format" after the assignments and the unassignments before it, with the user not replaced; otherwise 200, the user holds the request's fields and the tasks are `Reconciled` from the old and new lists |
| UserRoutes.Delete | routes/users.js:150-179 | a malformed id → 400 and a missing user → 404, with no write; on 200 the tasks are the cascade and the user is gone |
| UserRoutes.CreateMayListForeignTask | routes/users.js:29-33 | a POST can list a task not assigned to the new user, which the lists then no longer track |
| UserRoutes.UpdateLeavesTaskOnPreviousOwner | routes/users.js:114-120 | a PUT that takes over another user's open task reassigns it but leaves it on the previous owner's list |
| UserRoutes.RenameLeavesStaleName | routes/users.js:107-120 | a renaming PUT leaves the old name on tasks kept on both lists |
| UserRoutes.List | routes/users.js:12-19 | a malformed JSON parameter → 400; otherwise the query runs with no default limit |
| UserRoutes.ListUnbounded | routes/users.js:14 | without `skip`, `limit` and `count` a user listing holds every selected user, as often as stored |
| ParseJsonQuery.TrimStart | middleware/parseJsonQuery.js:18 | the text after the leading white space `parseInt` skips: a suffix of the input that does not start with white space, every dropped character is white space, and the input itself comes back when it does not start with white space |
| ParseJsonQuery.ParseInt | middleware/parseJsonQuery.js:18 | `parseInt(s, 10)` gives a number exactly when, after the leading white space and an optional sign, a digit follows; so it is NaN unless `s` holds a digit; it reads the signed text directly when `s` does not start with white space |
| ParseJsonQuery.ParseSigned | middleware/parseJsonQuery.js:18 | after the white space, a number is read exactly when the text starts with a digit or with a sign followed by a digit; a negative value needs a leading `-` |
| ParseJsonQuery.ReadDigits | middleware/parseJsonQuery.js:18 | a digit run is read exactly when the text starts with a digit, and its value is never negative |
| ParseJsonQuery.DigitPrefix | middleware/parseJsonQuery.js:18 | the digits `parseInt` reads are the longest all-digit prefix |
| ParseJsonQuery.Decimal | middleware/parseJsonQuery.js:18 | the decimal text of a number is a non-empty run of digits |
| ParseJsonQuery.DigitsValueOfDecimal | middleware/parseJsonQuery.js:18 | reading the decimal digits of `n` back gives `n` |
| ParseJsonQuery.DigitPrefixOfDigits | middleware/parseJsonQuery.js:18 | `parseInt` reads a digit run up to the first non-digit |
| ParseJsonQuery.ParseIntOfDecimal | middleware/parseJsonQuery.js:17-29 | `parseInt` reads back the decimal text of any integer, negative ones included, whatever non-digit follows |
| ParseJsonQuery.Parse | middleware/parseJsonQuery.js:1-43 | the request fails with 400 "Invalid JSON in query parameters" exactly when a present `where`/`sort`/`select` is malformed; otherwise each descriptor field is set exactly when its parameter was given (`skip` as its integer prefix or 0, `limit` as its integer prefix or absent, `count` as equality with `"true"`) |
| ParseJsonQuery.NumericParametersNeverFail | middleware/parseJsonQuery.js:17-33 | `skip`, `limit` and `count` never decide whether the request fails |
| ParseJsonQuery.NumericParameterRoundTrip | middleware/parseJsonQuery.js:17-29 | a numeric `skip` or `limit` is read as the number it writes, without clamping a negative one |
| ParseJsonQuery.NonNumericFallbacks | middleware/parseJsonQuery.js:17-29 | a `skip` without digits becomes 0 and a `limit` without digits becomes absent |
| BuildQuery.Find | utils/buildQuery.js:2 | the found records are exactly the stored records the filter selects, and never more of them |
| BuildQuery.FindMultiplicity | utils/buildQuery.js:2 | each selected record is found as often as it is stored; an unselected one never is |
| BuildQuery.FindAll | utils/buildQuery.js:2 | a missing `where` finds the whole collection, in stored order |
| BuildQuery.Insert | utils/buildQuery.js:4-6 | inserting adds exactly the one record |
| BuildQuery.SortBy | utils/buildQuery.js:4-6 | sorting is a permutation |
| BuildQuery.InsertSorted | utils/buildQuery.js:4-6 | inserting into an ordered list keeps it ordered |
| BuildQuery.SortBySorted | utils/buildQuery.js:4-6 | under a total preorder the sorted list is ordered |
| BuildQuery.Drop | utils/buildQuery.js:12-14 | skipping `n` keeps the records from position `n` on, and none when there are fewer |
| BuildQuery.EffectiveLimit | utils/buildQuery.js:16-20 | the explicit limit if given, else the caller's default if given, else none |
| BuildQuery.Window | utils/buildQuery.js:16-20 | the limit keeps a prefix: all records without a limit or with limit 0, else at most `\|n\|` |
| BuildQuery.Ordered | utils/buildQuery.js:2-6 | the ordered matches are a permutation of the found records |
| BuildQuery.Execute | utils/buildQuery.js:1-28 | count mode exactly when `count` is true; a store refusal exactly for a negative `skip` outside count mode; neither the count nor the list exceeds the collection |
| BuildQuery.CountIsMatches | utils/buildQuery.js:22-25 | the count is the number of selected records |
| BuildQuery.CountIgnoresPaging | utils/buildQuery.js:22-25 | the count depends on the filter alone, not on sort, skip, limit or the default |
| BuildQuery.ListedRecordsMatch | utils/buildQuery.js:2-27 | every listed record is stored and satisfies `where` |
| BuildQuery.ListedWithinLimit | utils/buildQuery.js:16-20 | a positive explicit limit, or else a positive default, bounds the list's length |
| BuildQuery.SkipOffsets | utils/buildQuery.js:12-20 | under any limit, listed record `i` is ordered match `skip + i`, and the list holds what remains after the skip, cut to the limit's magnitude when that limit is not zero |
| BuildQuery.CountEqualsUnpagedList | utils/buildQuery.js:16-25 | the count equals the length of the same query's list with no skip and no limit, whenever the caller's default limit is absent, zero, or not below the count |
| BuildQuery.CountExceedsDefaultPage | utils/buildQuery.js:16-25 | when more records match than a positive default limit, the unpaged list stops at the default while the count does not |
| BuildQuery.NoWhereListsAll | utils/buildQuery.js:2 | with no filter, sort, skip or limit the list is the collection as stored |
| BuildQuery.NoWhereCountsAll | utils/buildQuery.js:23 | with no filter the count is the size of the collection |
| BuildQuery.ListedSorted | utils/buildQuery.js:4-6 | with a sort document and a total preorder the list comes out in that order |
| ErrorHandler.Classify | middleware/errorHandler.js:2-26 | duplicate key exactly for code 11000; a validation or cast error only when the code is not 11000 |
| ErrorHandler.FirstKey | middleware/errorHandler.js:3 | the first key of `keyPattern`, undefined exactly when there is none |
| ErrorHandler.Messages | middleware/errorHandler.js:11-14 | the data maps exactly the failing fields to their messages |
| ErrorHandler.Response | middleware/errorHandler.js:1-33 | the status is 400 for the three known kinds and 500 for anything else |
| ErrorHandler.CollectMessages | middleware/errorHandler.js:11-14 | the loop over the failing fields builds exactly `Messages` |
| ErrorHandler.Handle | middleware/errorHandler.js:1-33 | the handler answers exactly `Response` |
| ErrorHandler.DuplicateKeyTakesPrecedence | middleware/errorHandler.js:2-8 | with code 11000 the reply is the same whatever the name and validation details |
| ErrorHandler.DuplicateKeyNamesField | middleware/errorHandler.js:2-8 | the duplicate-key reply is 400 and names the first key in the message and the data |
| ErrorHandler.ValidationListsEveryField | middleware/errorHandler.js:10-19 | a validation reply is 400 "Validation error" and maps every failing field, and only those, to its message |
| ErrorHandler.CastIsInvalidId | middleware/errorHandler.js:21-26 | a cast error without code 11000 is 400 "Invalid ID format" |
| ErrorHandler.InternalRevealsNothing | middleware/errorHandler.js:28-32 | every other error gets the same 500 reply with empty data |

## Left out

- `server.js` and `config/db.js` (start-up, CORS, body parsing, the
  database connection) are I/O wiring. `utils/apiResponse.js` is reduced to
  a status and a message. The `data` detail objects of the error replies
  (`{ error: … }`) and the echoed documents of success replies are not
  modelled.
- `ObjectId.isValid` is a parameter `validId`. Fresh ids from `save()` are a
  parameter `newId`, which the caller must give unused.
- A referenced id in a request body that is not well-formed is treated as
  a missing document. This covers a malformed `assignedUser` in a task
  body and a malformed entry of the new `pendingTasks` in a user PUT. The
  store would throw a cast error instead, and the error handler would
  answer 400 "Invalid ID format" rather than "Invalid assigned user" /
  "Invalid task IDs". Both answers are 400, and both come before any
  write. A malformed id in a user's stored `pendingTasks` (a POST stores
  the list unchecked) is modelled as the source has it: a PUT that drops
  it throws at its `findById` after the earlier writes of that PUT, and
  answers 400 "Invalid ID format" (`UserRoutes.Update`).
- Store failures in the middle of a handler's chain (validation errors from
  the schemas in `models/`, which are not part of this model; duplicate
  keys; lost connections) are not modelled. Apart from the cast error of a
  malformed stored id above, each handler is one sequential chain that does
  not fail. The error handler is modelled on its own, over
  an abstract error record.
- Concurrent requests and the interleaving of their store calls are not
  modelled.
- Schema defaults and casting in `models/` (not part of this model) are not
  modelled. Body fields are taken as strings, booleans and string arrays.
  JSON values of other types in the body are not modelled.
- The `select` projection, both on the list routes and on the GET-by-id
  routes, is not modelled. It changes the shape of the returned documents,
  not which documents are returned.
- `JSON.parse` is a parameter `parseJson`, which returns None where it
  throws. The store's filter and sort semantics are the parameters
  `matches` and `le`. The collection's natural order is the sequence
  `stored`.
- BuildQuery.Execute: a parsed `where` or `sort` document that is
  JavaScript-falsy (`null`, `0`, `false`, `""`) counts as given. The source
  replaces such a `where` with `{}` and skips such a `sort`. The model
  passes the value to the abstract `matches`/`le` instead.
- BuildQuery.SortBy: the order of records that compare equal is that of a
  stable insertion sort. The store does not promise any particular order
  for ties.
- Store semantics of `skip`/`limit`:
  - a negative `skip` outside count mode is refused by the store (`Rejected`);
  - a `limit` of 0 means no limit;
  - a negative `limit` uses its absolute value.

  These follow MongoDB's documented behaviour. The driver's single-batch
  detail of a negative limit is not modelled.
- ParseJsonQuery.ParseInt: the value is an unbounded integer. JavaScript
  would round a digit run beyond 2^53 to the nearest double.
- Repeated query parameters (which Express turns into arrays) and a
  `count` given as a JSON boolean are not modelled. Every parameter is a
  single string.
- The GET-by-id handlers are the 400/404 checks and a straight read.
- The query middleware runs before every route of both routers, so a
  malformed `where`, `sort` or `select` on a POST, PUT, DELETE or GET-by-id
  request is answered 400 "Invalid JSON in query parameters" before the
  handler runs, with no write. The Create, Get, Update and Delete handlers
  are modelled for a request whose query the middleware has accepted. The
  middleware's own rejection is `ParseJsonQuery.Parse`, and the list
  handlers compose the two.
- Ids are compared as strings. The model assumes every id is in the
  canonical lower-case hex form that `_id.toString()` writes. The store
  would also match an upper-case spelling of a stored id, which the
  model treats as a different id.
- The error handler's `console.error` logging is not modelled.
- ErrorHandler.Response: an error with code 11000 and no `keyPattern` at
  all makes `Object.keys` throw inside the handler, and Express's default
  handler answers with its own 500 page. The model has no "absent"
  `keyPattern`: an empty key list stands for `keyPattern: {}`, whose reply
  names the field `undefined`.
