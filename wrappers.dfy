/** Optional values: a request field that may be absent, a primary key that
    may not be assigned yet. */
module Wrappers {

  datatype Option<+T> = None | Some(value: T)
}
