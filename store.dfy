/**
 * The database the two services share, as two tables keyed by id, with the
 * reads the services issue. Every top-level read goes through the
 * soft-delete middleware, so a lookup by id sees only rows whose
 * `deletedAt` is null; an `include`d relation is not a top-level read and
 * is not filtered.
 */
module Database {
  import opened Wrappers
  import opened Records
  import opened SoftDelete

  /** The todo and task tables, with the next autoincrement ids. */
  class Store {
    var todos: map<int, Todo>
    var tasks: map<int, Task>
    var nextTodoId: int
    var nextTaskId: int

    /** Rows are stored under their own id, ids stay below the counters, and every task's todo exists. */
    ghost predicate Valid()
      reads this
    {
      && (forall id :: id in todos ==> todos[id].id == id && id < nextTodoId)
      && (forall id :: id in tasks ==> tasks[id].id == id && id < nextTaskId && tasks[id].todoId in todos)
    }

    constructor ()
      ensures Valid() && todos == map[] && tasks == map[]
    {
      todos, tasks := map[], map[];
      nextTodoId, nextTaskId := 1, 1;
    }
  }

  /** `todo.findUnique({where: {id}})` after the middleware. */
  function FindTodo(todos: map<int, Todo>, id: int): Option<Todo>
  {
    if id in todos && todos[id].deletedAt.None? then Some(todos[id]) else None
  }

  /** `task.findUnique` / `task.findFirst` by id after the middleware. */
  function FindTask(tasks: map<int, Task>, id: int): Option<Task>
  {
    if id in tasks && tasks[id].deletedAt.None? then Some(tasks[id]) else None
  }

  /** The todo `todoId` is visible and belongs to `userId`. */
  predicate OwnsTodo(todos: map<int, Todo>, userId: int, todoId: int)
  {
    FindTodo(todos, todoId).Some? && FindTodo(todos, todoId).value.userId == userId
  }

  /** `include: {tasks: true}`: every task of the todo, soft-deleted ones included. */
  function TasksOf(tasks: map<int, Task>, todoId: int): map<int, Task>
  {
    map id | id in tasks && tasks[id].todoId == todoId :: tasks[id]
  }

  /** The tasks left after the todo `todoId` is removed (the relation cascades). */
  function WithoutTodo(tasks: map<int, Task>, todoId: int): map<int, Task>
  {
    map id | id in tasks && tasks[id].todoId != todoId :: tasks[id]
  }

  /** No todo that survives a step has changed owner. */
  predicate SameOwners(before: map<int, Todo>, after: map<int, Todo>)
  {
    forall id :: id in before && id in after ==> after[id].userId == before[id].userId
  }

  /** No task that survives a step has moved to another todo. */
  predicate SameParents(before: map<int, Task>, after: map<int, Task>)
  {
    forall id :: id in before && id in after ==> after[id].todoId == before[id].todoId
  }

  /** A nullable stamp as a column value. */
  function StampValue(stamp: Option<int>): Value
  {
    if stamp.Some? then DateTime(stamp.value) else Null
  }

  /** A task row as the database compares it with a `where` object. */
  function TaskRow(t: Task): Where
  {
    map[
      "id" := Num(t.id),
      "todoId" := Num(t.todoId),
      "description" := Text(t.description),
      "deadline" := DateTime(t.deadline),
      "completed" := Bool(t.completed),
      "deletedAt" := StampValue(t.deletedAt)
    ]
  }

  /** A todo row as the database compares it with a `where` object. */
  function TodoRow(t: Todo): Where
  {
    map[
      "id" := Num(t.id),
      "userId" := Num(t.userId),
      "name" := Text(t.name),
      "deletedAt" := StampValue(t.deletedAt)
    ]
  }

  /** `sub` occurs in `s` as a contiguous piece. */
  predicate Contains(s: string, sub: string)
    decreases |s|
  {
    (|sub| <= |s| && s[..|sub|] == sub) || (|s| > 0 && Contains(s[1..], sub))
  }

  /** A `{contains: sub}` condition. */
  predicate IsContains(cond: Value)
  {
    cond.Obj? && cond.fields.Keys == {"contains"} && cond.fields["contains"].Text?
  }

  /** One condition on one column: `{contains: sub}` is a substring test, anything else is equality. */
  predicate Satisfies(field: Value, cond: Value)
  {
    if IsContains(cond) then field.Text? && Contains(field.s, cond.fields["contains"].s)
    else field == cond
  }

  /** Every field the `where` names is in the row and satisfies its condition. */
  predicate RowMatches(row: Where, where: Where)
  {
    forall key :: key in where ==> key in row && Satisfies(row[key], where[key])
  }

  /** The query `task.findUnique({where: {id}})` as the middleware receives it. */
  function FindTaskQuery(id: int): Query
  {
    Query(Some("Task"), "findUnique", Some(map["id" := Num(id)]), map[])
  }

  /** The query `todo.findUnique({where})` as the middleware receives it. */
  function FindTodoQuery(where: Where): Query
  {
    Query(Some("Todo"), "findUnique", Some(where), map[])
  }

  /**
   * The lookup the services rely on is what the database returns for the
   * filtered query: a stored task is found exactly when its row matches the
   * `where` the middleware produced.
   */
  lemma FindTaskIsFilteredLookup(tasks: map<int, Task>, id: int)
    requires forall k :: k in tasks ==> tasks[k].id == k
    ensures Filtered(FindTaskQuery(id)).where.Some?
    ensures FindTask(tasks, id).Some?
            <==> id in tasks && RowMatches(TaskRow(tasks[id]), Filtered(FindTaskQuery(id)).where.value)
  {
    var where := Filtered(FindTaskQuery(id)).where.value;
    assert where == map["id" := Num(id), "deletedAt" := Null];
    if id in tasks {
      var row := TaskRow(tasks[id]);
      if tasks[id].deletedAt.Some? {
        assert "deletedAt" in where && !Satisfies(row["deletedAt"], where["deletedAt"]);
      } else {
        forall key | key in where ensures key in row && Satisfies(row[key], where[key]) {
        }
      }
    }
  }

  /**
   * The same for todos: `FindTodo` is the filtered `{id}` lookup, and
   * `OwnsTodo` is the filtered `{id, userId}` lookup of `getTodoById`.
   */
  lemma FindTodoIsFilteredLookup(todos: map<int, Todo>, id: int, userId: int)
    requires forall k :: k in todos ==> todos[k].id == k
    ensures Filtered(FindTodoQuery(map["id" := Num(id)])).where.Some?
    ensures Filtered(FindTodoQuery(map["id" := Num(id), "userId" := Num(userId)])).where.Some?
    ensures FindTodo(todos, id).Some?
            <==> id in todos && RowMatches(TodoRow(todos[id]), Filtered(FindTodoQuery(map["id" := Num(id)])).where.value)
    ensures OwnsTodo(todos, userId, id)
            <==> id in todos
                 && RowMatches(TodoRow(todos[id]),
                               Filtered(FindTodoQuery(map["id" := Num(id), "userId" := Num(userId)])).where.value)
  {
    var byId := Filtered(FindTodoQuery(map["id" := Num(id)])).where.value;
    var byOwner := Filtered(FindTodoQuery(map["id" := Num(id), "userId" := Num(userId)])).where.value;
    assert byId == map["id" := Num(id), "deletedAt" := Null];
    assert byOwner == map["id" := Num(id), "userId" := Num(userId), "deletedAt" := Null];
    if id in todos {
      var row := TodoRow(todos[id]);
      if todos[id].deletedAt.Some? {
        assert "deletedAt" in byId && !Satisfies(row["deletedAt"], byId["deletedAt"]);
        assert "deletedAt" in byOwner && !Satisfies(row["deletedAt"], byOwner["deletedAt"]);
      } else {
        forall key | key in byId ensures key in row && Satisfies(row[key], byId[key]) {
        }
        if todos[id].userId == userId {
          forall key | key in byOwner ensures key in row && Satisfies(row[key], byOwner[key]) {
          }
        } else {
          assert "userId" in byOwner && !Satisfies(row["userId"], byOwner["userId"]);
        }
      }
    }
  }
}
