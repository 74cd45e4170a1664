/** The optional-value type used for nullable columns, lookups that may find
    nothing, and request bodies that may be absent. */
module Wrappers {

  datatype Option<+T> = None | Some(value: T)
}
