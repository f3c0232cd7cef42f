/**
 * TaskService: create, read, edit and soft-delete a task. A task is reached
 * through its todo, and the todo's owner decides every access.
 */
module Tasks {
  import opened Wrappers
  import opened Records
  import opened Classifier
  import opened Database

  /** The body of a create request. */
  datatype CreateTaskDto = CreateTaskDto(description: string, todoId: int, deadline: int)

  /** The body of an edit request; an absent field is left as it is. */
  datatype UpdateTaskDto = UpdateTaskDto(description: Option<string>, deadline: Option<int>, completed: Option<bool>)

  /** `{...task, ...dto}`: the supplied fields replace the stored ones and nothing else moves. */
  function ApplyUpdate(t: Task, dto: UpdateTaskDto): (r: Task)
    ensures r.id == t.id && r.todoId == t.todoId && r.deletedAt == t.deletedAt
    ensures dto.description.Some? ==> r.description == dto.description.value
    ensures dto.description.None? ==> r.description == t.description
    ensures dto.deadline.Some? ==> r.deadline == dto.deadline.value
    ensures dto.deadline.None? ==> r.deadline == t.deadline
    ensures dto.completed.Some? ==> r.completed == dto.completed.value
    ensures dto.completed.None? ==> r.completed == t.completed
  {
    t.(description := if dto.description.Some? then dto.description.value else t.description,
       deadline := if dto.deadline.Some? then dto.deadline.value else t.deadline,
       completed := if dto.completed.Some? then dto.completed.value else t.completed)
  }

  /** Applying the same edit twice is the same as applying it once. */
  lemma ApplyUpdateIdempotent(t: Task, dto: UpdateTaskDto)
    ensures ApplyUpdate(ApplyUpdate(t, dto), dto) == ApplyUpdate(t, dto)
  {
  }

  class TaskService {
    const db: Store

    constructor (db: Store)
      ensures this.db == db
    {
      this.db := db;
    }

    /** Creates a task in a todo the caller owns; a missing or foreign todo is Forbidden. */
    method CreateTask(userId: int, dto: CreateTaskDto, now: int) returns (r: Outcome<Transformed>)
      requires db.Valid()
      modifies db
      ensures db.Valid()
      ensures db.nextTodoId == old(db.nextTodoId)
      ensures db.nextTaskId == old(db.nextTaskId) + (if r.Ok? then 1 else 0)
      ensures !OwnsTodo(old(db.todos), userId, dto.todoId) ==> r == Forbidden && unchanged(db)
      ensures OwnsTodo(old(db.todos), userId, dto.todoId) ==>
        var id := old(db.nextTaskId);
        var task := Task(id, dto.todoId, dto.description, dto.deadline, false, None);
        && r.Ok? && r.value == DataTransformer(task, now)
        && id !in old(db.tasks)
        && db.tasks == old(db.tasks)[id := task]
        && db.todos == old(db.todos)
    {
      var todo := FindTodo(db.todos, dto.todoId);
      if todo.None? || todo.value.userId != userId {
        return Forbidden;
      }
      var id := db.nextTaskId;
      var task := Task(id, todo.value.id, dto.description, dto.deadline, false, None);
      db.tasks := db.tasks[id := task];
      db.nextTaskId := id + 1;
      r := Ok(DataTransformer(task, now));
    }

    /**
     * Reads a task through its todo: the todo's owner is checked first
     * (Forbidden), then that the task belongs to the todo, then that the
     * task is visible (NotFound for both).
     */
    method GetTaskById(userId: int, taskId: int, todoId: int, now: int) returns (r: Outcome<Transformed>)
      ensures r == Forbidden <==> !OwnsTodo(db.todos, userId, todoId)
      ensures r == NotFound <==>
        && OwnsTodo(db.todos, userId, todoId)
        && !(taskId in db.tasks && db.tasks[taskId].todoId == todoId && db.tasks[taskId].deletedAt.None?)
      ensures r.Ok? ==>
        && taskId in db.tasks && db.tasks[taskId].todoId == todoId
        && r.value == DataTransformer(db.tasks[taskId], now)
    {
      var todo := FindTodo(db.todos, todoId);
      if todo.None? || todo.value.userId != userId {
        return Forbidden;
      }
      if taskId !in TasksOf(db.tasks, todoId) {
        return NotFound;
      }
      var found := FindTask(db.tasks, taskId);
      if found.None? {
        return NotFound;
      }
      r := Ok(DataTransformer(found.value, now));
    }

    /**
     * Edits a task: an absent or soft-deleted task is NotFound, checked
     * before the owner of its todo (Forbidden); on success only the
     * supplied fields change.
     */
    method EditTask(userId: int, taskId: int, dto: UpdateTaskDto, now: int) returns (r: Outcome<Transformed>)
      requires db.Valid()
      modifies db
      ensures db.Valid()
      ensures db.nextTodoId == old(db.nextTodoId) && db.nextTaskId == old(db.nextTaskId)
      ensures SameOwners(old(db.todos), db.todos) && SameParents(old(db.tasks), db.tasks)
      ensures FindTask(old(db.tasks), taskId).None? ==> r == NotFound && unchanged(db)
      ensures FindTask(old(db.tasks), taskId).Some? ==>
        var task := old(db.tasks[taskId]);
        if old(db.todos[task.todoId].userId) != userId then
          r == Forbidden && unchanged(db)
        else
          && db.tasks == old(db.tasks)[taskId := ApplyUpdate(task, dto)]
          && db.todos == old(db.todos)
          && r == Ok(DataTransformer(ApplyUpdate(task, dto), now))
    {
      var task := FindTask(db.tasks, taskId);
      if task.None? {
        return NotFound;
      }
      if db.todos[task.value.todoId].userId != userId {
        return Forbidden;
      }
      var updated := ApplyUpdate(db.tasks[taskId], dto);
      db.tasks := db.tasks[taskId := updated];
      r := Ok(DataTransformer(updated, now));
    }

    /**
     * Soft-deletes a task: NotFound before Forbidden as in EditTask; on
     * success only `deletedAt` is set, and the updated row is returned.
     */
    method DeleteTaskById(userId: int, taskId: int, now: int) returns (r: Outcome<Task>)
      requires db.Valid()
      modifies db
      ensures db.Valid()
      ensures db.nextTodoId == old(db.nextTodoId) && db.nextTaskId == old(db.nextTaskId)
      ensures SameOwners(old(db.todos), db.todos) && SameParents(old(db.tasks), db.tasks)
      ensures FindTask(old(db.tasks), taskId).None? ==> r == NotFound && unchanged(db)
      ensures FindTask(old(db.tasks), taskId).Some? ==>
        var task := old(db.tasks[taskId]);
        if old(db.todos[task.todoId].userId) != userId then
          r == Forbidden && unchanged(db)
        else
          && db.tasks == old(db.tasks)[taskId := task.(deletedAt := Some(now))]
          && db.todos == old(db.todos)
          && r == Ok(task.(deletedAt := Some(now)))
          && FindTask(db.tasks, taskId).None?
    {
      var task := FindTask(db.tasks, taskId);
      if task.None? {
        return NotFound;
      }
      if db.todos[task.value.todoId].userId != userId {
        return Forbidden;
      }
      var deleted := task.value.(deletedAt := Some(now));
      db.tasks := db.tasks[taskId := deleted];
      r := Ok(deleted);
    }
  }

  /** Deleting the same task twice: once it is soft-deleted, the second call finds nothing. */
  method DeleteTaskTwice(service: TaskService, userId: int, taskId: int, now: int, later: int)
    returns (first: Outcome<Task>, second: Outcome<Task>)
    requires service.db.Valid()
    modifies service.db
    ensures first.Ok? ==> second == NotFound
    ensures !first.Ok? ==> second == first
  {
    first := service.DeleteTaskById(userId, taskId, now);
    second := service.DeleteTaskById(userId, taskId, later);
  }
}
