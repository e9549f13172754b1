/** Optional values: a Python attribute that may be absent, an integer parse that may fail. */
module Wrappers {

  datatype Option<+T> = None | Some(value: T)
}
