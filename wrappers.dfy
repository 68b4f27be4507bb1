/** Optional values, used wherever the source returns NULL or a "not found" marker. */
module Wrappers {

  datatype Option<+T> = None | Some(value: T)
}
