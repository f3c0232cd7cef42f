/**
 * The query middleware of PrismaService: every model query except `create`
 * and `update` is made to carry `where.deletedAt = null`, unless it already
 * carries a truthy `deletedAt` condition.
 */
module SoftDelete {
  import opened Wrappers

  /** A JavaScript value as it can appear in a query's arguments. */
  datatype Value =
    | Null
    | Bool(b: bool)
    | Num(n: int)
    | Text(s: string)
    | DateTime(ms: int)
    | Obj(fields: map<string, Value>)

  /** A `where` object: field name to condition. */
  type Where = map<string, Value>

  /** The middleware's `params`: model name, action, `args.where` and the other arguments. */
  datatype Query = Query(model: Option<string>, action: string, where: Option<Where>, otherArgs: map<string, Value>)

  /** The actions the middleware leaves alone. */
  const ExemptActions: seq<string> := ["create", "update"]

  /** JavaScript truthiness; `None` is `undefined`. */
  predicate Truthy(v: Option<Value>)
  {
    match v
    case None => false
    case Some(Null) => false
    case Some(Bool(b)) => b
    case Some(Num(n)) => n != 0
    case Some(Text(s)) => s != ""
    case Some(DateTime(_)) => true
    case Some(Obj(_)) => true
  }

  /** `where?.deletedAt`. */
  function DeletedAtCondition(where: Option<Where>): Option<Value>
  {
    if where.Some? && "deletedAt" in where.value then Some(where.value["deletedAt"]) else None
  }

  /** The guard of the middleware. */
  predicate Intercepts(q: Query)
  {
    && q.model.Some? && q.model.value != ""
    && !Truthy(DeletedAtCondition(q.where))
    && q.action !in ExemptActions
  }

  /** The query the middleware hands on to the database. */
  function Filtered(q: Query): (r: Query)
    ensures r.model == q.model && r.action == q.action && r.otherArgs == q.otherArgs
    ensures !Intercepts(q) ==> r == q
    ensures Intercepts(q) ==> r.where.Some? && DeletedAtCondition(r.where) == Some(Null)
  {
    if Intercepts(q) then
      var where := if q.where.Some? then q.where.value else map[];
      q.(where := Some(where["deletedAt" := Null]))
    else
      q
  }

  /** The mutable `params` object the middleware receives. */
  class Params {
    var model: Option<string>
    var action: string
    var where: Option<Where>
    var otherArgs: map<string, Value>

    function Snapshot(): Query
      reads this
    {
      Query(model, action, where, otherArgs)
    }

    constructor (q: Query)
      ensures Snapshot() == q
    {
      model, action, where, otherArgs := q.model, q.action, q.where, q.otherArgs;
    }
  }

  /** The middleware body before `next(params)`: rewrites `params.where` in place. */
  method Middleware(params: Params)
    modifies params
    ensures params.Snapshot() == Filtered(old(params.Snapshot()))
  {
    if params.model.Some? && params.model.value != ""
       && !Truthy(DeletedAtCondition(params.where))
       && params.action !in ExemptActions
    {
      if params.where.None? {
        params.where := Some(map[]);
      }
      params.where := Some(params.where.value["deletedAt" := Null]);
    }
  }

  /** A read on a model with a falsy `deletedAt` condition comes out with `deletedAt: null`. */
  lemma FilterWritesNull(q: Query)
    requires q.model.Some? && q.model.value != ""
    requires q.action != "create" && q.action != "update"
    requires !Truthy(DeletedAtCondition(q.where))
    ensures Filtered(q).where.Some?
    ensures "deletedAt" in Filtered(q).where.value && Filtered(q).where.value["deletedAt"] == Null
  {
  }

  /** A missing `where` is created as `{}` and then filtered. */
  lemma FilterCreatesMissingWhere(q: Query)
    requires Intercepts(q) && q.where.None?
    ensures Filtered(q).where == Some(map["deletedAt" := Null])
  {
  }

  /** `create`, `update`, model-less queries and truthy `deletedAt` conditions pass through untouched. */
  lemma FilterPassesThrough(q: Query)
    requires || q.action == "create" || q.action == "update"
             || q.model.None? || q.model == Some("")
             || Truthy(DeletedAtCondition(q.where))
    ensures Filtered(q) == q
  {
  }

  /** Only `deletedAt` is written: every other condition is kept as it was. */
  lemma FilterPreservesOtherConditions(q: Query, key: string)
    requires key != "deletedAt"
    ensures var r := Filtered(q);
            && (r.where.Some? && key in r.where.value <==> q.where.Some? && key in q.where.value)
            && (q.where.Some? && key in q.where.value ==> r.where.value[key] == q.where.value[key])
  {
  }

  /** Running the middleware twice gives the same query as running it once. */
  lemma FilterIdempotent(q: Query)
    ensures Filtered(Filtered(q)) == Filtered(q)
  {
    if Intercepts(q) {
      var r := Filtered(q);
      assert Intercepts(r);
      assert r.where.value["deletedAt" := Null] == r.where.value;
    }
  }
}
