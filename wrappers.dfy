/** An optional value shared by the other modules. */
module Wrappers {

  /** A value that may be missing: a property that is absent from a record,
      or a notification that was not raised. */
  datatype Option<+T> = None | Some(value: T)
}
