# Task app core, modelled in Dafny

This project models the logic of a small to-do application: a REST API over
a single `Task` table, the start-up loop that connects to the database, and
the pure helpers of the browser script.

- `js.dfy` (module `Js`): JavaScript values as they appear in JSON bodies
  (`undefined`, `null`, booleans, integers, strings). It also holds
  JavaScript truthiness, the `||` operator, and the five-field request body
  `TaskFields`.
- `task_store.dfy` (module `TaskStore`): the `Task` table as an in-memory
  map from id to row, with a counter that hands out fresh ids. It also holds
  `findAll` ordered by `createdAt` descending.
- `task_controller.dfy` (module `TaskController`): the five handlers
  `getAllTasks`, `getTaskById`, `createTask`, `updateTask` and `deleteTask`.
  Each one is specified by a function: the read handlers map the table to a
  response; create, update and delete map it to a response and the new
  table. The class `TaskService` holds the shared table,
  and its methods run the handlers in place. Each method is proved to agree
  with its function. The partial-update rule is `Merge`.
- `task_properties.dfy` (module `TaskProperties`): lemmas that relate
  several requests, or a request and the merge rule.
- `connect_retry.dfy` (module `Bootstrap`): `connectWithRetry`, a `while`
  loop with an attempt counter.
- `front_end.dfy` (module `FrontEnd`): the status and priority labels, the
  status filter and the empty-list placeholder of `displayTasks`, the
  missing-date label of `formatDate`, and the body the two forms submit.
- `scenarios.dfy` (module `Scenarios`): a whole create/read/update/delete
  sequence, and what the add and edit forms do to the table.

Environment stand-ins:

- The store's clock becomes the `now` parameter of `Create`.
- A store that throws becomes `storeUp == false`. Every handler answers 500
  in that case and leaves the table unchanged. `createTask` checks the title
  before touching the store, so a missing title gives 400 even when the store
  is down.
- The database seen by `connectWithRetry` becomes `env`, the outcome of each
  attempt in turn. An attempt is an `authenticate` result and a `sync`
  result, and it succeeds only if both do. `env` must cover the `retries`
  attempts the loop may make.
- The sleep becomes a `Sleep(delay)` event in the returned log.

Two points of the update and create rules that a reader may not expect:

- `updateTask` replaces `description` and `dueDate` whenever the supplied
  value is not `undefined`, but keeps the stored `title`, `status` and
  `priority` when the supplied value is falsy (`""`, `null`, `0`, `false`).
- The controller never checks `status` or `priority`, so they are plain
  values here.

## Model

| member | source | states |
|---|---|---|
| `Js.Or` | src/controllers/taskController.js:64 | `a \|\| b` is one of its operands; it is truthy iff either operand is; it is the first operand exactly when that one is truthy |
| `Js.IfDefined` | src/controllers/taskController.js:65-67 | `a !== undefined ? a : b` is the supplied value whenever it is not `undefined` (`null` and `""` included) and the stored one otherwise; it is `undefined` only when both are |
| `TaskStore.SortNewestFirst` | src/controllers/taskController.js:7-9 | the result is sorted by `createdAt`, newest first, and is a permutation of the input |
| `TaskStore.FindAll` | src/controllers/taskController.js:7-9 | `findAll` ordered by `createdAt DESC` returns every stored row exactly once (its multiset is the table's set of rows), newest first |
| `TaskController.GetAll` | src/controllers/taskController.js:5-15 | 200 with every stored task exactly once, newest first; 500 with the list error when the store fails |
| `TaskController.GetById` | src/controllers/taskController.js:18-29 | 200 iff the id is stored, and then the body is exactly that record; 404 with `Tâche non trouvée` when absent; 500 when the store fails |
| `TaskController.Create` | src/controllers/taskController.js:32-51 | a falsy title gives 400 and an unchanged table, even when the store fails; 201 iff the title is truthy and the store works; then a new row sits under a previously unused id, carries the supplied fields and `now`, and no other row changes; the invariant (ids keyed, every title truthy) is kept |
| `TaskController.Merge` | src/controllers/taskController.js:63-69 | title, status and priority take the supplied value if truthy, else keep the stored one; description and due date take any supplied value except `undefined`, so `null` and `""` clear them; id and `createdAt` never change; a truthy title stays truthy |
| `TaskController.Update` | src/controllers/taskController.js:54-76 | 404 and an unchanged table when the id is absent; otherwise 200 and only that row changes, to its merge with the body, which is also returned; 500 when the store fails; the invariant is kept |
| `TaskController.Delete` | src/controllers/taskController.js:79-93 | 204 with no body iff the id is stored, and then exactly that row is removed and the id counter is untouched; 404 when absent; 500 when the store fails; the invariant is kept |
| `TaskController.TaskService.GetAllTasks` | src/controllers/taskController.js:5-15 | the response is the one `GetAll` specifies for the current table |
| `TaskController.TaskService.GetTaskById` | src/controllers/taskController.js:18-29 | the response is the one `GetById` specifies for the current table |
| `TaskController.TaskService.CreateTask` | src/controllers/taskController.js:32-51 | the table after the call and the response are those `Create` specifies for the table before it; the invariant is kept |
| `TaskController.TaskService.UpdateTask` | src/controllers/taskController.js:54-76 | the table after the call and the response are those `Update` specifies; the invariant is kept |
| `TaskController.TaskService.DeleteTask` | src/controllers/taskController.js:79-93 | the table after the call and the response are those `Delete` specifies; the invariant is kept |
| `TaskProperties.MergeNothing` | src/controllers/taskController.js:63-69 | an update body that supplies no field leaves the task unchanged |
| `TaskProperties.MergeIdempotent` | src/controllers/taskController.js:63-69 | applying the same update body twice equals applying it once |
| `TaskProperties.MergeSequence` | src/controllers/taskController.js:63-69 | two updates in a row equal one update with the combined body, in which the later body's supplied fields win |
| `TaskProperties.UpdateStatusOnly` | src/controllers/taskController.js:63-69 | an update whose body supplies only a truthy `status` answers 200 and leaves the table equal to the old one with only that task's status replaced (same rows, same id counter) |
| `TaskProperties.CreateThenGet` | src/tests/integration/taskAPI.test.js:78-87 | a created task is read back by its id with 200 and the same record |
| `TaskProperties.CreateThenDelete` | src/controllers/taskController.js:87 | deleting the task just created restores the previous rows; only the id counter has advanced |
| `TaskProperties.DeleteThenGone` | src/tests/integration/taskAPI.test.js:130-148 | after a 204 delete, reading the id gives 404, and a second delete gives 404 and changes nothing |
| `TaskProperties.IdsNotReused` | src/controllers/taskController.js:38-44 | a task created after a delete never receives the deleted id |
| `TaskProperties.ListedNewestFirst` | src/tests/integration/taskAPI.test.js:61-74 | two tasks created in turn, with the clock advancing, are listed as [second, first] |
| `Bootstrap.FirstSuccess` | src/app.js:47-52 | the position of the first successful attempt: every earlier attempt failed, and the one there succeeded, or no attempt succeeds |
| `Bootstrap.ConnectWithRetry` | src/app.js:44-66 | the result is `true`, `false`, or `undefined` when `retries <= 0`, as `Connected` gives; the log is exactly the attempts made, with one `Sleep(delay)` between consecutive attempts, as `Schedule(Attempts(...))` gives |
| `Bootstrap.ConnectOnStartup` | src/app.js:70 | with the defaults (5 attempts, 5000 ms) the result is never `undefined`; it is `true` iff one of the first 5 attempts succeeds; at most 5 attempts are made and every sleep lasts 5000 ms |
| `Bootstrap.AttemptsBounded` | src/app.js:45-47 | no attempt is made and the result is `undefined` iff `retries <= 0`; otherwise between 1 and `retries` attempts are made |
| `Bootstrap.SuccessStopsAtFirst` | src/app.js:48-52 | on `true`, the last attempt made is the first successful one, all earlier ones failed, and exactly one sleep followed each failure |
| `Bootstrap.FailureAfterAllRetries` | src/app.js:54-60 | on `false`, exactly `retries` attempts were made and all failed; there were `retries - 1` sleeps and none after the last attempt |
| `Bootstrap.ConnectsIffSomeAttemptSucceeds` | src/app.js:47-59 | with `retries > 0` the result is `true` iff one of the first `retries` attempts succeeds |
| `Bootstrap.ScheduleCounts` | src/app.js:57-63 | a schedule of n attempts holds n attempts and n - 1 sleeps |
| `Bootstrap.ScheduleShape` | src/app.js:57-63 | every sleep lasts `delay` and lies between two attempts; the schedule starts and ends with an attempt |
| `FrontEnd.TranslateStatus` | src/public/script.js:20-27 | `todo`, `in_progress` and `done` become `À faire`, `En cours` and `Terminé`; any other value is returned unchanged |
| `FrontEnd.TranslatePriority` | src/public/script.js:30-37 | `low`, `medium` and `high` become `Basse`, `Moyenne` and `Haute`; any other value is returned unchanged |
| `FrontEnd.FormatDate` | src/public/script.js:13-16 | `Non définie` exactly for a falsy date; any other date goes to the locale formatter |
| `FrontEnd.WithStatus` | src/public/script.js:58 | keeps exactly the tasks whose status equals the filter, and never more tasks than the input |
| `FrontEnd.WithStatusSplits` | src/public/script.js:58 | filtering a concatenation is the concatenation of the filtered parts, so the original order is kept |
| `FrontEnd.WithStatusSingle` | src/public/script.js:58 | a single task is kept iff its status equals the filter |
| `FrontEnd.Filtered` | src/public/script.js:56-58 | with filter `all` the shown list is the input list itself; with any other filter it is `WithStatus(tasks, filter)`; never longer than the input |
| `FrontEnd.FilteredMembers` | src/public/script.js:56-58 | a task is shown iff it is in the input and the filter is `all` or equals its status |
| `FrontEnd.Render` | src/public/script.js:66-85 | an entry keeps the task's id and title, shows its description or `Aucune description` when that is falsy, the French status and priority labels, and both dates through `formatDate` |
| `FrontEnd.RenderAll` | src/public/script.js:65-88 | one entry per task, in order, entry i built from task i |
| `FrontEnd.Items` | src/public/script.js:53-88 | a single `Aucune tâche trouvée` placeholder iff no task passes the filter; otherwise one entry per shown task, in order |
| `FrontEnd.TasksList.DisplayTasks` | src/public/script.js:53-88 | after clearing the list and appending in a loop, the list holds exactly `Items(tasks, filter)` |
| `FrontEnd.TaskData` | src/public/script.js:228-234 | the body copies title, description, status and priority from the form unchanged; the due date is sent as given when non-empty and as `null` otherwise, so it is never `undefined` |
| `Scenarios.Lifecycle` | src/tests/integration/taskAPI.test.js:33-148 | create gives 201 under a fresh id; reading it gives the same record; updating only the status gives 200 with only the status changed; delete gives 204; a second read gives 404; the table ends as it began |
| `Scenarios.AddFormNeedsTitle` | src/public/script.js:224-234 | an add form with an empty title is refused with 400 and stores nothing, whether or not the store is reachable |
| `Scenarios.EditFormUpdate` | src/public/script.js:244-255 | through the edit form, an emptied title keeps the stored one; the description is always replaced; an emptied due date clears the stored one to `null` |

## Left out

- The store itself is not modelled: Sequelize, the PostgreSQL connection settings and the pool (src/models/index.js). Only the table it holds is modelled.
- src/models/task.js is not part of this model. Its column defaults, enum checks and validations are therefore absent. A field supplied as `undefined` is stored as `Undefined`, which stands for the column's default.
- The `updatedAt` timestamp is not modelled, so its refresh on update is not modelled either.
- Store exceptions are reduced to one `storeUp` flag. A failing update or delete is assumed to leave the table unchanged.
- Route parameters are taken as natural-number ids. A malformed id that makes the store throw is not modelled.
- `TaskStore.FindAll`: rows with equal `createdAt` come out in increasing id order. The store leaves that order unspecified, and the contract promises nothing about it.
- JavaScript values are limited to `undefined`, `null`, booleans, integers and strings. Objects, arrays, fractions and `NaN` in request bodies are not modelled.
- `Bootstrap.ConnectWithRetry`: `retries` and `delay` are integers. A fractional `retries` (which would end the loop with `undefined` after attempts) is not modelled.
- The sleep is only a logged event. Real time and the logger are not modelled.
- Express wiring, middleware, static files, the root route and the global 500 handler (src/app.js:12-41) are framework plumbing and are left out.
- Server start and the `NODE_ENV` check (src/app.js:69-80) are I/O and are left out.
- `FrontEnd.TranslateStatus`, `FrontEnd.TranslatePriority`: keys inherited from `Object.prototype`, such as `toString`, are not modelled. In the browser they would look up an inherited function instead of falling back to the input.
- `FrontEnd.FormatDate`: the `Intl.DateTimeFormat` rendering of a present date is left out. Such a date is returned as `LocaleDate(date)`.
- In the front end, `fetch`, `alert`, `confirm`, the modal, event listeners and the HTML text of each entry are left out. An entry keeps the values it displays, not its markup.
- Concurrency between requests is not modelled: each handler is one step.
