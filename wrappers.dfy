/** The optional value used for dictionary lookups that may find no key. */
module Wrappers {
  datatype Option<+T> = None | Some(value: T)
}
