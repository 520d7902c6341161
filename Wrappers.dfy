/** The optional value used for Kotlin's nullable results (`String?`, `Char?`). */
module Wrappers {

  datatype Option<+T> = None | Some(value: T)
}
