module Wrappers {

  /** A value that may be missing: PHP's `null`/`false` placeholders. */
  datatype Option<+T> = None | Some(value: T)
}
