/**
 * TodoService: create, list, read, rename and delete a todo. Every access
 * is scoped to the todo's owner; a todo is removed physically.
 */
module Todos {
  import opened Wrappers
  import opened Records
  import opened Database
  import opened SoftDelete

  /** The body of a create or edit request. */
  datatype CreateTodoDto = CreateTodoDto(name: string)

  /** A todo with its `include`d tasks. */
  datatype TodoDetail = TodoDetail(todo: Todo, tasks: map<int, Task>)

  /** The list request: paging, one sort key and direction, an optional name filter. */
  datatype ListParams = ListParams(page: int, pageSize: int, sortBy: string, sortOrder: string, filterName: Option<string>)

  /** The list `where`: the owner, and a substring the name must contain. */
  datatype TodoWhere = TodoWhere(userId: int, nameContains: Option<string>)

  /** The arguments of `todo.findMany`. */
  datatype ListQuery = ListQuery(skip: int, take: int, orderBy: map<string, string>, where: TodoWhere)

  /** `if (filterName)`: present and not the empty string. */
  predicate HasFilter(p: ListParams)
  {
    p.filterName.Some? && p.filterName.value != ""
  }

  /** The query `getTodoForUser` sends for the caller `userId`. */
  function GetTodoForUser(userId: int, p: ListParams): (q: ListQuery)
    ensures q.take == p.pageSize
    ensures |q.orderBy| == 1 && p.sortBy in q.orderBy && q.orderBy[p.sortBy] == p.sortOrder
    ensures q.where.userId == userId
    ensures q.where.nameContains.Some? <==> HasFilter(p)
    ensures HasFilter(p) ==> q.where.nameContains == p.filterName
  {
    var where := TodoWhere(userId, None);
    ListQuery(
      (p.page - 1) * p.pageSize,
      p.pageSize,
      map[p.sortBy := p.sortOrder],
      if HasFilter(p) then where.(nameContains := p.filterName) else where)
  }

  /** With page >= 1 and pageSize > 0 the offset is a whole number of earlier pages. */
  lemma PaginationOffset(userId: int, p: ListParams)
    requires p.page >= 1 && p.pageSize > 0
    ensures var q := GetTodoForUser(userId, p);
            && q.skip >= 0
            && q.skip % p.pageSize == 0
            && q.skip / p.pageSize == p.page - 1
            && GetTodoForUser(userId, p.(page := p.page + 1)).skip == q.skip + q.take
  {
    var q := GetTodoForUser(userId, p);
    MultipleDivides(p.page - 1, p.pageSize);
    assert p.page * p.pageSize == (p.page - 1) * p.pageSize + p.pageSize;
  }

  /** A whole multiple of b divides by b exactly. */
  lemma MultipleDivides(a: nat, b: int)
    requires b > 0
    ensures a * b >= 0 && (a * b) % b == 0 && (a * b) / b == a
  {
    var s, d, m := a * b, (a * b) / b, (a * b) % b;
    assert s == d * b + m && 0 <= m < b;
    assert (d - a) * b == -m;
    ProductBounds(d - a, b);
  }

  /** A non-zero multiple of b is at least b away from zero. */
  lemma ProductBounds(x: int, b: int)
    requires b > 0
    ensures x >= 1 ==> x * b >= b
    ensures x <= -1 ==> x * b <= -b
  {
    if x >= 1 {
      assert x * b == (x - 1) * b + b;
      assert (x - 1) * b >= 0;
    } else if x <= -1 {
      assert x * b == (x + 1) * b - b;
      assert (x + 1) * b <= 0;
    }
  }

  /** `findMany`'s selection: the `where`, plus `deletedAt: null` from the middleware. */
  predicate Selects(w: TodoWhere, t: Todo)
  {
    && t.deletedAt.None?
    && t.userId == w.userId
    && (w.nameContains.Some? ==> Contains(t.name, w.nameContains.value))
  }

  /** The list `where` as the object handed to `findMany`. */
  function WhereObject(w: TodoWhere): Where
  {
    var owner := map["userId" := Num(w.userId)];
    if w.nameContains.Some? then owner["name" := Obj(map["contains" := Text(w.nameContains.value)])]
    else owner
  }

  /** The query `todo.findMany({skip, take, orderBy, where})` as the middleware receives it. */
  function FindManyQuery(q: ListQuery): Query
  {
    var orderBy := map key | key in q.orderBy :: Text(q.orderBy[key]);
    Query(Some("Todo"), "findMany", Some(WhereObject(q.where)),
          map["skip" := Num(q.skip), "take" := Num(q.take), "orderBy" := Obj(orderBy)])
  }

  /**
   * `Selects` is what the database returns for the filtered list query: a
   * todo is selected exactly when its row matches the `where` the
   * middleware produced, and the paging and order arguments pass through.
   */
  lemma SelectsIsFilteredFindMany(q: ListQuery, t: Todo)
    ensures Filtered(FindManyQuery(q)).where.Some?
    ensures Filtered(FindManyQuery(q)).otherArgs == FindManyQuery(q).otherArgs
    ensures Selects(q.where, t) <==> RowMatches(TodoRow(t), Filtered(FindManyQuery(q)).where.value)
  {
    var w := q.where;
    var where := Filtered(FindManyQuery(q)).where.value;
    var row := TodoRow(t);
    assert where == WhereObject(w)["deletedAt" := Null];
    assert "userId" in where && where["userId"] == Num(w.userId);
    assert "deletedAt" in where && where["deletedAt"] == Null;
    if w.nameContains.Some? {
      assert "name" in where && IsContains(where["name"]);
      assert where.Keys == {"userId", "name", "deletedAt"};
    } else {
      assert where.Keys == {"userId", "deletedAt"};
    }
    if Selects(w, t) {
      forall key | key in where ensures key in row && Satisfies(row[key], where[key]) {
      }
    } else if t.deletedAt.Some? {
      assert !Satisfies(row["deletedAt"], where["deletedAt"]);
    } else if t.userId != w.userId {
      assert !Satisfies(row["userId"], where["userId"]);
    } else {
      assert !Satisfies(row["name"], where["name"]);
    }
  }

  /** Every listed todo belongs to the caller, is live, and matches a non-empty filter. */
  lemma ListedTodosBelongToCaller(userId: int, p: ListParams, t: Todo)
    requires Selects(GetTodoForUser(userId, p).where, t)
    ensures t.userId == userId && t.deletedAt.None?
    ensures HasFilter(p) ==> Contains(t.name, p.filterName.value)
  {
  }

  /** Without a filter, the list is every live todo of the caller. */
  lemma UnfilteredListIsAllOwnTodos(userId: int, p: ListParams, t: Todo)
    requires !HasFilter(p)
    ensures Selects(GetTodoForUser(userId, p).where, t) <==> t.userId == userId && t.deletedAt.None?
  {
  }

  /** `skip`/`take` applied to the selected rows in their sort order. */
  function Window<T>(rows: seq<T>, skip: int, take: int): (w: seq<T>)
    requires skip >= 0 && take >= 0
    ensures |w| <= take
  {
    var lo := if skip <= |rows| then skip else |rows|;
    var hi := if skip + take <= |rows| then skip + take else |rows|;
    rows[lo..hi]
  }

  /** Pages 1 to k of the list, one after the other. */
  function Pages<T>(rows: seq<T>, userId: int, p: ListParams, k: nat): seq<T>
    requires p.pageSize > 0
  {
    if k == 0 then []
    else
      var q := GetTodoForUser(userId, p.(page := k));
      PaginationOffset(userId, p.(page := k));
      Pages(rows, userId, p, k - 1) + Window(rows, q.skip, q.take)
  }

  /** The first k pages list the first k * pageSize rows, in order, with nothing skipped or repeated. */
  lemma {:induction false} PagesCoverRows<T>(rows: seq<T>, userId: int, p: ListParams, k: nat)
    requires p.pageSize > 0
    ensures var n := k * p.pageSize;
            Pages(rows, userId, p, k) == rows[..if n <= |rows| then n else |rows|]
  {
    if k > 0 {
      PagesCoverRows(rows, userId, p, k - 1);
      var q := GetTodoForUser(userId, p.(page := k));
      PaginationOffset(userId, p.(page := k));
      assert q.skip == (k - 1) * p.pageSize;
      assert k * p.pageSize == (k - 1) * p.pageSize + p.pageSize;
      var m := (k - 1) * p.pageSize;
      var before := rows[..if m <= |rows| then m else |rows|];
      var n := k * p.pageSize;
      var w := Window(rows, q.skip, q.take);
      assert before + w == rows[..if n <= |rows| then n else |rows|];
    }
  }

  class TodoService {
    const db: Store

    constructor (db: Store)
      ensures this.db == db
    {
      this.db := db;
    }

    /** Creates a todo owned by the caller, with the given name and no tasks. */
    method CreateTodo(userId: int, dto: CreateTodoDto) returns (r: TodoDetail)
      requires db.Valid()
      modifies db
      ensures db.Valid()
      ensures db.nextTodoId == old(db.nextTodoId) + 1 && db.nextTaskId == old(db.nextTaskId)
      ensures r.todo == Todo(old(db.nextTodoId), userId, dto.name, None)
      ensures r.todo.id !in old(db.todos)
      ensures r.tasks == map[] && TasksOf(db.tasks, r.todo.id) == map[]
      ensures db.todos == old(db.todos)[r.todo.id := r.todo]
      ensures db.tasks == old(db.tasks)
    {
      var id := db.nextTodoId;
      var todo := Todo(id, userId, dto.name, None);
      db.todos := db.todos[id := todo];
      db.nextTodoId := id + 1;
      r := TodoDetail(todo, TasksOf(db.tasks, id));
      assert forall k :: k in db.tasks ==> db.tasks[k].todoId != id;
      assert r.tasks == map[];
    }

    /**
     * Reads a todo with a lookup scoped to the caller: missing, soft-deleted
     * and foreign todos are all NotFound, never Forbidden.
     */
    method GetTodoById(userId: int, todoId: int) returns (r: Outcome<TodoDetail>)
      ensures r != Forbidden
      ensures r == NotFound <==> !OwnsTodo(db.todos, userId, todoId)
      ensures r.Ok? ==>
        && todoId in db.todos && db.todos[todoId].userId == userId
        && r.value == TodoDetail(db.todos[todoId], TasksOf(db.tasks, todoId))
    {
      var found := FindTodo(db.todos, todoId);
      if found.None? || found.value.userId != userId {
        return NotFound;
      }
      r := Ok(TodoDetail(found.value, TasksOf(db.tasks, todoId)));
    }

    /** Renames a todo the caller owns; missing or foreign is Forbidden with nothing changed. */
    method EditTodo(userId: int, todoId: int, dto: CreateTodoDto) returns (r: Outcome<TodoDetail>)
      requires db.Valid()
      modifies db
      ensures db.Valid()
      ensures db.nextTodoId == old(db.nextTodoId) && db.nextTaskId == old(db.nextTaskId)
      ensures SameOwners(old(db.todos), db.todos)
      ensures !OwnsTodo(old(db.todos), userId, todoId) ==> r == Forbidden && unchanged(db)
      ensures OwnsTodo(old(db.todos), userId, todoId) ==>
        var todo := old(db.todos[todoId]).(name := dto.name);
        && db.todos == old(db.todos)[todoId := todo]
        && db.tasks == old(db.tasks)
        && r == Ok(TodoDetail(todo, TasksOf(db.tasks, todoId)))
    {
      var found := FindTodo(db.todos, todoId);
      if found.None? || found.value.userId != userId {
        return Forbidden;
      }
      var todo := found.value.(name := dto.name);
      db.todos := db.todos[todoId := todo];
      r := Ok(TodoDetail(todo, TasksOf(db.tasks, todoId)));
    }

    /** Removes a todo the caller owns, and its tasks with it; missing or foreign is Forbidden. */
    method DeleteTodoById(userId: int, todoId: int) returns (r: Outcome<()>)
      requires db.Valid()
      modifies db
      ensures db.Valid()
      ensures db.nextTodoId == old(db.nextTodoId) && db.nextTaskId == old(db.nextTaskId)
      ensures SameOwners(old(db.todos), db.todos)
      ensures !OwnsTodo(old(db.todos), userId, todoId) ==> r == Forbidden && unchanged(db)
      ensures OwnsTodo(old(db.todos), userId, todoId) ==>
        && r == Ok(())
        && db.todos == old(db.todos) - {todoId}
        && db.tasks == WithoutTodo(old(db.tasks), todoId)
        && FindTodo(db.todos, todoId).None?
    {
      var found := FindTodo(db.todos, todoId);
      if found.None? || found.value.userId != userId {
        return Forbidden;
      }
      db.todos := db.todos - {todoId};
      db.tasks := WithoutTodo(db.tasks, todoId);
      r := Ok(());
    }
  }

  /** Ids are never reused: a todo created after another was removed gets a new id. */
  method CreateDeleteCreate(service: TodoService, userId: int, first: CreateTodoDto, second: CreateTodoDto)
    returns (a: TodoDetail, deleted: Outcome<()>, b: TodoDetail)
    requires service.db.Valid()
    modifies service.db
    ensures deleted == Ok(())
    ensures b.todo.id != a.todo.id && b.todo.id !in old(service.db.todos)
  {
    a := service.CreateTodo(userId, first);
    deleted := service.DeleteTodoById(userId, a.todo.id);
    b := service.CreateTodo(userId, second);
  }
}
