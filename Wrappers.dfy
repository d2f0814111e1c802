/** Small value wrappers shared by the screens. */
module Wrappers {

  /** A value that may be absent: a storage key with nothing stored under it,
      or an operation that was rejected by validation. */
  datatype Option<+T> = None | Some(value: T)
}
