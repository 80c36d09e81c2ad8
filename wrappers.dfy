/** Small value wrappers shared by the whole model. */
module Wrappers {

  /** A JavaScript value that may be `null`/`undefined` (None) or present (Some). */
  datatype Option<+T> = None | Some(value: T)

  /** The outcome of a JavaScript call: it returns a value, or it throws an error with a message. */
  datatype Outcome<+T> = Returned(value: T) | Threw(error: string)
}
