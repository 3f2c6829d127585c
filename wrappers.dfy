/** Optional values: a missing current user, a `find` that matched nothing. */
module Wrappers {

  datatype Option<+T> = None | Some(value: T)
}
