# Todo-list API core, modelled in Dafny

This project models the business logic of a NestJS todo-list API. Users own
todo lists. Each todo owns tasks that have deadlines. The model covers:

- **Deadline urgency** (`Classifier`, from `TaskService.dataTransformer`).
  It splits the time left until a task's deadline into whole days, then the
  whole hours after those days, and picks `'green'`, `'yellow'`, `'red'` or the
  empty string. Time is in integer milliseconds, the day is 24 hours, and "now"
  is a parameter. Truncation toward zero is written out, because Dafny's `/`
  is Euclidean. Luxon works out the difference on the absolute value and then
  negates it, so its days and hours are whole numbers truncated toward zero,
  and the source's `Math.floor` leaves them unchanged.
- **Soft-delete middleware** (`SoftDelete`, from the `$use` hook of
  `PrismaService`). It rewrites `params.where` in place so that every model
  query except `create` and `update` carries `deletedAt: null`, unless a
  truthy `deletedAt` condition is already there. The reads the services rely
  on are tied to the rewritten queries:
  - `FindTaskIsFilteredLookup` proves that `Database.FindTask` finds a task
    exactly when its row matches the filtered `{id}` where.
  - `FindTodoIsFilteredLookup` proves the same for `Database.FindTodo` with
    the `{id}` where. It also proves it for `OwnsTodo` with the `{id, userId}`
    where of `getTodoById`.
  - `SelectsIsFilteredFindMany` proves that `Todos.Selects` is exactly
    matching against the filtered `findMany` where, including its
    `contains` name condition.
- **Ownership and existence checks**, in `Tasks.TaskService` and
  `Todos.TodoService`, over a `Database.Store`. The store holds the todo and
  task tables as maps and keeps the autoincrement counters. Each check keeps
  the source's own order of checks and its own exception:
  - `createTask`, `editTodo` and `deleteTodoById` report a missing todo and a
    foreign todo both as Forbidden.
  - `getTodoById` reports both as NotFound, because its lookup is scoped to the
    user.
  - `editTask` and `deleteTaskById` check that the task exists (NotFound)
    before they check the owner of its todo (Forbidden).
  - `getTaskById` checks the owner (Forbidden) before membership and
    visibility (NotFound).
  - Tasks are soft-deleted. Todos are removed.
- **List query construction** (`Todos.GetTodoForUser`). It builds the paging,
  the single sort key and the where clause. The where clause is always scoped
  to the caller and can add a name filter. `Selects` gives the rows
  `findMany` selects, and `Window` / `Pages` give the `skip`/`take` paging.
- **Future-date validation** (`FutureDate.Validate`, from `IsFutureDate`).
  It accepts a string or a Date strictly later than "now". Its failure message
  is `DefaultMessage()`, "Date cannot be in the past", and `ValidationError` pairs the two.

## Behaviour worth noting

- For `1 <= days < 3` no branch fires, and the status stays `''` (`NoStatus`).
- Todos are physically removed. Only tasks are soft-deleted.
- `getTaskById` checks the todo's owner before it checks that the task
  belongs to the todo.
- `getTodoById` throws NotFound for a missing or foreign todo. One of the
  repository's tests expects `null` instead.

## Model

| member | source | states |
|---|---|---|
| `Classifier.TimeLeft` | src/task/task.service.ts:15-22 | the time left is exactly days·24h + hours·1h + rest; each part has the sign of the whole; hours lie within one day and the rest within one hour (truncation toward zero) |
| `Classifier.StatusOf` | src/task/task.service.ts:26-36 | the branch chain leaves the status empty exactly when 1 <= days < 3; red only when days < 1 and hours <= 3 |
| `Classifier.DataTransformer` | src/task/task.service.ts:24-39 | the returned task is the input task unchanged (deadline included) with a status added; the status is empty exactly when the whole days are 1 or 2 |
| `Classifier.DataTransformerMatchesThresholds` | src/task/task.service.ts:24-39 | the day/hour branches equal plain thresholds on the time left: green from 3 days, empty from 1 day, yellow from 4 hours, red below that |
| `Classifier.GreenFromThreeDays` | src/task/task.service.ts:30-31 | three whole days or more left gives green |
| `Classifier.YellowWithinADay` | src/task/task.service.ts:32-33 | less than a day but more than three whole hours left gives yellow |
| `Classifier.RedWhenShortOrPast` | src/task/task.service.ts:34-35 | three whole hours or less left, including every past deadline, gives red |
| `Classifier.NoStatusBetweenOneAndThreeDays` | src/task/task.service.ts:26-36 | one or two whole days left leaves the status as the empty string |
| `SoftDelete.Filtered` | src/prisma/prisma.service.ts:16-31 | model, action and other arguments are kept; a query the guard does not catch is unchanged; a caught query comes out with a `where` whose `deletedAt` is null |
| `SoftDelete.Middleware` | src/prisma/prisma.service.ts:16-31 | rewriting `params` in place leaves exactly the query `Filtered` describes |
| `SoftDelete.FilterWritesNull` | src/prisma/prisma.service.ts:17-28 | a model query other than create/update whose `deletedAt` is falsy ends with `where.deletedAt = null` |
| `SoftDelete.FilterCreatesMissingWhere` | src/prisma/prisma.service.ts:23-25 | a missing `where` becomes `{deletedAt: null}` |
| `SoftDelete.FilterPassesThrough` | src/prisma/prisma.service.ts:17-21 | create, update, model-less queries and truthy `deletedAt` conditions pass through unchanged |
| `SoftDelete.FilterPreservesOtherConditions` | src/prisma/prisma.service.ts:27 | every `where` key other than `deletedAt` is present afterwards exactly when it was before, with the same condition |
| `SoftDelete.FilterIdempotent` | src/prisma/prisma.service.ts:16-28 | running the middleware twice gives the same query as once |
| `Database.FindTaskIsFilteredLookup` | src/prisma/prisma.service.ts:16-31 | a lookup of a task by id finds it exactly when its row matches the `where` the middleware produced, so soft-deleted rows are invisible |
| `Database.FindTodoIsFilteredLookup` | src/prisma/prisma.service.ts:16-31 | the todo lookup by `{id}`, and the owner-scoped lookup by `{id, userId}`, find a todo exactly when its row matches the `where` the middleware produced, so soft-deleted todos are invisible to every todo check |
| `Tasks.ApplyUpdate` | src/task/task.service.ts:115-122 | an edit keeps id, todo and deletion stamp; each supplied field takes the new value, each absent one keeps the old |
| `Tasks.ApplyUpdateIdempotent` | src/task/task.service.ts:115-122 | applying the same edit twice equals applying it once |
| `Tasks.TaskService.CreateTask` | src/task/task.service.ts:41-63 | missing or foreign todo: Forbidden and nothing stored; otherwise one fresh task is stored under that todo, not completed, with the given description and deadline, and returned with its status; the task counter advances by one exactly on success and the todo counter never moves |
| `Tasks.TaskService.GetTaskById` | src/task/task.service.ts:65-95 | Forbidden exactly when the todo is missing or foreign (checked first); NotFound exactly when the todo is owned but the task is not a visible member; otherwise the transformed task of that todo |
| `Tasks.TaskService.EditTask` | src/task/task.service.ts:97-124 | absent or soft-deleted task: NotFound, unchanged; todo owned by another user: Forbidden, unchanged; otherwise only that task changes, by the supplied fields; owners and parents never change; neither id counter moves |
| `Tasks.TaskService.DeleteTaskById` | src/task/task.service.ts:126-152 | same NotFound-then-Forbidden order; on success only `deletedAt` is set to now and the task becomes invisible to lookups; neither id counter moves |
| `Tasks.DeleteTaskTwice` | src/task/task.service.ts:126-152 | after a successful delete a second delete of the same task is NotFound |
| `Todos.GetTodoForUser` | src/todo/todo.service.ts:26-58 | take is the page size; orderBy has exactly the one key sortBy mapped to sortOrder; the where is scoped to the caller; a name filter is present exactly when filterName is non-empty |
| `Todos.PaginationOffset` | src/todo/todo.service.ts:39-40 | for page >= 1 and pageSize > 0, skip is non-negative, a multiple of pageSize equal to (page-1) pages, and the next page starts where this one ends |
| `Todos.SelectsIsFilteredFindMany` | src/todo/todo.service.ts:45-57 | a todo is selected exactly when its row matches the middleware-filtered `findMany` where (caller, name `contains` filter, `deletedAt: null`); skip, take and orderBy pass through unchanged |
| `Todos.ListedTodosBelongToCaller` | src/todo/todo.service.ts:45-50 | every selected todo belongs to the caller, is not soft-deleted, and contains a non-empty filter in its name |
| `Todos.UnfilteredListIsAllOwnTodos` | src/todo/todo.service.ts:45-50 | without a filter the name is unconstrained: the selection is every live todo of the caller |
| `Todos.Window` | src/todo/todo.service.ts:52-57 | a page never holds more rows than take |
| `Todos.PagesCoverRows` | src/todo/todo.service.ts:39-40 | pages 1..k together are the first k·pageSize rows in order, with nothing skipped or repeated |
| `Todos.TodoService.CreateTodo` | src/todo/todo.service.ts:13-25 | the new todo has a fresh id (the todo counter advances by one), the caller as owner, the dto's name and no tasks; the task table and task counter are unchanged |
| `Todos.CreateDeleteCreate` | src/todo/todo.service.ts:13-25 | autoincrement ids are never reused: a todo created after another was removed gets a different id, one never stored before |
| `Todos.TodoService.GetTodoById` | src/todo/todo.service.ts:60-78 | never Forbidden; NotFound exactly when the todo is missing, soft-deleted or foreign; otherwise the todo with its tasks |
| `Todos.TodoService.EditTodo` | src/todo/todo.service.ts:80-105 | missing or foreign: Forbidden, unchanged; otherwise only the name changes and the owner stays; neither id counter moves |
| `Todos.TodoService.DeleteTodoById` | src/todo/todo.service.ts:107-123 | missing or foreign: Forbidden, unchanged; otherwise the todo is removed (hard delete), with its tasks, and nothing is returned; neither id counter moves |
| `FutureDate.Validate` | src/task/dto/date.ts:15-21 | accepted exactly when the value is a string or Date whose time exists and is strictly after now |
| `FutureDate.DefaultMessage` | src/task/dto/date.ts:22-24 | the failure message is the fixed string "Date cannot be in the past" |
| `FutureDate.ValidationError` | src/task/dto/date.ts:15-24 | a value is reported with no error exactly when it validates; otherwise the error is the default message |
| `FutureDate.RejectsOtherValues` | src/task/dto/date.ts:16-20 | values that are neither string nor Date are rejected |
| `FutureDate.AcceptsOnlyLaterTimes` | src/task/dto/date.ts:17-18 | a time is accepted exactly when it is later than now; a time equal to now is rejected |
| `FutureDate.RejectsInvalidDates` | src/task/dto/date.ts:17-18 | unparseable strings and invalid Dates (NaN time) are rejected |

## Left out

- Luxon calendar arithmetic is not modelled: time zones, days of DST length and `DateTime.now()`. Time is integer milliseconds with a fixed 24-hour day, and "now" is a parameter of every operation that reads the clock. The floating-point `Math.floor` is not modelled either, because the day and hour counts are already whole numbers.
- Async/await, the `next(params)` call that runs the query, and the database engine are not modelled. The store is two maps with autoincrement counters, and the reads are lookups with the soft-delete filter applied.
- Result ordering of `findMany` is database-specific and is not modelled. `Pages` takes the rows already in their sort order, and `sortBy`/`sortOrder` are opaque strings. The case sensitivity of `contains` is storage-dependent; `Contains` is an exact substring match.
- The database schema is not part of this model. Deleting a todo is modelled as cascading to its tasks, as `onDelete: Cascade` would do. `cleanDb` (src/prisma/prisma.service.ts:34-36) deletes all todos without first deleting their tasks, which works only if the relation cascades. Without the cascade, deleting a todo that has tasks would fail.
- An `include`d relation is not a top-level query and does not pass through the middleware, so `TasksOf` lists soft-deleted tasks too. `getTaskById` gives NotFound for such a task either way, at its later lookup.
- Timestamps `createdAt`/`updatedAt` are not modelled.
- Tasks.TaskService.EditTask, Tasks.TaskService.CreateTask, Todos.TodoService.EditTodo: request bodies are typed as their DTO classes, so only the fields those classes declare are written. The source spreads the body as it arrives: `...dto` in `editTask` and `editTodo`, and after `completed: false` in `createTask`. Without whitelisting, an undeclared field would be written too. A `todoId` in a task edit would move the task. A `userId` in a todo edit would give the todo to another owner, which the owner-preservation (`SameOwners`) guarantee of the model excludes. A `completed: true` in a create would store a completed task.
- Tasks.TaskService.CreateTask, Tasks.TaskService.GetTaskById: the source returns the task together with its parent todo (`include: { todo: true }`). The model's `Transformed` value carries only the task and its status, not the included todo.
- DTO shape validation by class-validator is not modelled. Only the `IsFutureDate` predicate is. `UpdateTaskDto` declares `completed` as required, but the model treats every edit field as optional.
- Controllers, `app.module.ts` and `cleanDb`'s transaction are not modelled, and neither is the `console.log` in `getTodoById`.
- Concurrency is not modelled. A check and the write that follows it are separate steps, and the model runs each call alone.
