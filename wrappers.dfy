/** Option values standing in for JavaScript's null and undefined results. */
module Wrappers {

  datatype Option<+T> = None | Some(value: T)
}
