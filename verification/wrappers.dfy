/** The optional value used for lookups that may find nothing (a missing query
    parameter is `null` in the source). */
module Wrappers {

  datatype Option<+T> = None | Some(value: T)
}
