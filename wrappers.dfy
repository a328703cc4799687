/** Absent-or-present values, standing in for JavaScript's null/undefined. */
module Wrappers {

  datatype Option<+T> = None | Some(value: T)
}
