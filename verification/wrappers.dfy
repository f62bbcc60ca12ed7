/** Kotlin's nullable values (`String?`) as an Option datatype. */
module Wrappers {

  datatype Option<+T> = None | Some(value: T)
}
