/** Optional values, used for every collaborator that may fail. */
module Wrappers {
  datatype Option<+T> = None | Some(value: T)
}
