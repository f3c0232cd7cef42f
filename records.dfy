/**
 * The two persisted entities and the outcome of a service call.
 * Instants (deadlines, deletion stamps) are integer milliseconds.
 */
module Records {
  import opened Wrappers

  /** A todo list, owned by one user. `deletedAt` is the nullable soft-delete stamp. */
  datatype Todo = Todo(id: int, userId: int, name: string, deletedAt: Option<int>)

  /** A task of the todo `todoId`; its owner is always resolved through that todo. */
  datatype Task = Task(
    id: int,
    todoId: int,
    description: string,
    deadline: int,
    completed: bool,
    deletedAt: Option<int>
  )

  /** A value, or the exception a service method throws (NotFoundException, ForbiddenException). */
  datatype Outcome<+T> = Ok(value: T) | NotFound | Forbidden
}
