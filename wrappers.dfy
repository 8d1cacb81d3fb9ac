/** Optional values: Go's nil pointers, nil interfaces and absent map entries. */
module Wrappers {

  datatype Option<T> = None | Some(value: T)
}
