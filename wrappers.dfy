/** Optional values, used where the C++ code has a pointer that may be null,
    an exception that may or may not be thrown, or an error tag that may be missing. */
module Wrappers {

  datatype Option<+T> = None | Some(value: T)

}
