/** Presence-aware values: Go's nil-able pointers and nil errors are modelled as Option. */
module Wrappers {

  /** None stands for a nil pointer (or a nil error); Some(v) for a pointer to v. */
  datatype Option<+T> = None | Some(value: T)
}
