/** The null-or-value result used by the lookups of the application. */
module Wrappers {
  datatype Option<+T> = None | Some(value: T)
}
