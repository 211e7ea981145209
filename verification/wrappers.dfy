/** The optional value shared by the model: a JavaScript value that may be
    `undefined`/`null` (`None`) or present (`Some`). */
module Wrappers {

  datatype Option<T> = None | Some(value: T)
}
