/** Optional values. `None` stands for Go's `nil` wherever the Go package holds
    a pointer or an interface value that may be absent. */
module Wrappers {

  datatype Option<+T> = None | Some(value: T)
}
