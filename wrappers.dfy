/** Option type for nullable values (SQL NULL, a missing key, an unset variable). */
module Wrappers {

  datatype Option<+T> = None | Some(value: T)

}
