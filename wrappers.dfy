/** The optional value used for form fields read with a `None` fallback and for lookups that may miss. */
module Wrappers {
  datatype Option<+T> = None | Some(value: T)
}
