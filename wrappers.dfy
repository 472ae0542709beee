/** Optional values: the model's stand-in for a Java reference that may be null
    or an `Optional` that may be empty. */
module Wrappers {

  datatype Option<+T> = None | Some(value: T)
}
