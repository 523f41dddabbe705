/** The option type used where the program has a missing or failed value. */
module Wrappers {
  datatype Option<+T> = None | Some(value: T)
}
