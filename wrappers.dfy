/** Optional values, standing in for Python's `Optional[...]` and for calls that may fail. */
module Wrappers {

  datatype Option<+T> = None | Some(value: T)

}
