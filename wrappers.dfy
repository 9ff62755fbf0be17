/** Optional values: a global binding that may or may not have been defined yet. */
module Wrappers {

  datatype Option<+T> = None | Some(value: T)
}
