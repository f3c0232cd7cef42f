/** Optional values: a nullable column, an absent argument, an unparseable date. */
module Wrappers {

  datatype Option<+T> = None | Some(value: T)
}
